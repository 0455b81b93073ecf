/** Pair table 7 of the decoder, which has jumps: it is well formed, and it decodes a pair that is not there. */
module HuffmanTable7 {
  import opened Bits
  import opened HuffmanSpec
  import opened HuffmanTheory

  function Rep(x: int, n: nat): (s: seq<int>)
    ensures |s| == n && forall i | 0 <= i < n :: s[i] == x
  {
    seq(n, _ => x)
  }

  /** The root and the nodes behind it, as in hufftabs.c. */
  const ROOT: seq<int> :=
    [0xf006, 0x0041, 0x0052, 0x005b, 0x0060, 0x0063, 0x0068, 0x006b] +
    [0x6212, 0x5122, 0x5122, 0x6201, 0x6021] + Rep(0x4112, 4) + Rep(0x3101, 8) + Rep(0x3011, 8) + Rep(0x1000, 32)
  const NODE_65: seq<int> :=
    [0xf004, 0x4552, 0x4542, 0x4452, 0x4352, 0x3532, 0x3532, 0x3442, 0x3442] +
    [0x3522, 0x3522, 0x3252, 0x3252, 0x2512, 0x2512, 0x2512, 0x2512]
  const NODE_82: seq<int> := [0xf003, 0x2152, 0x2152, 0x3501, 0x3432, 0x2051, 0x2051, 0x3342, 0x3332]
  const NODE_91: seq<int> := [0xf002, 0x2422, 0x2242, 0x1412, 0x1412]
  const NODE_96: seq<int> := [0xf001, 0x1142, 0x1041]
  const NODE_99: seq<int> := [0xf002, 0x2401, 0x2322, 0x2232, 0x2301]
  const NODE_104: seq<int> := [0xf001, 0x1312, 0x1132]
  const NODE_107: seq<int> := [0xf001, 0x1031, 0x1222]

  function Nodes(): set<nat> {
    {0, 65, 82, 91, 96, 99, 104, 107}
  }

  function Table7(): Table {
    Table(ROOT + NODE_65 + NODE_82 + NODE_91 + NODE_96 + NODE_99 + NODE_104 + NODE_107, Nodes(), 0, 0, LoopNoLinbits)
  }

  /** The entries that share the first h of m bits with entry i are equal to it. */
  ghost predicate FillsBlock(node: seq<int>, m: nat, h: nat, i: nat)
    requires |node| == Pow2(m) + 1 && i < Pow2(m) && h <= m
  {
    forall j {:trigger node[1 + j]} | 0 <= j < Pow2(m) :: j / Pow2(m - h) == i / Pow2(m - h) ==> node[1 + j] == node[1 + i]
  }

  /** Entry i of the node with these words is a jump to one of the nodes, or a leaf that fills its block. */
  ghost predicate SlotOk(node: seq<int>, m: nat, t: nat, nodes: set<nat>, i: nat)
    requires |node| == Pow2(m) + 1 && i < Pow2(m)
  {
    if HLen(node[1 + i]) == 0 then node[1 + i] > 0 && t + node[1 + i] in nodes
    else HLen(node[1 + i]) <= m && FillsBlock(node, m, HLen(node[1 + i]), i)
  }

  /** Nodes whose slots are all right are well formed. */
  lemma SlotsMakeNode(tab: Table, t: nat, m: nat, node: seq<int>)
    requires 1 <= m <= 9 && |node| == Pow2(m) + 1 && MaxBits(node[0]) == m
    requires t + |node| <= |tab.words| && forall k | 0 <= k < |node| :: tab.words[t + k] == node[k]
    requires forall i | 0 <= i < Pow2(m) :: SlotOk(node, m, t, tab.nodes, i)
    ensures NodeOk(tab, t)
  {
    hide Value, Pow2, Entry, SlotOk, EntryOk, MaxBits;
    SlotAt(tab, t, m, node, Zeros(m));
    forall w: seq<bool> | |w| == m ensures EntryOk(tab, t, w) {
      SlotAt(tab, t, m, node, w);
      assert SlotOk(node, m, t, tab.nodes, Value(w));
      SlotMakesEntry(tab, t, m, node, w);
    }
  }

  lemma SlotMakesEntry(tab: Table, t: nat, m: nat, node: seq<int>, w: seq<bool>)
    requires 1 <= m <= 9 && |node| == Pow2(m) + 1 && MaxBits(node[0]) == m && |w| == m
    requires t + |node| <= |tab.words| && forall k | 0 <= k < |node| :: tab.words[t + k] == node[k]
    requires Value(w) < Pow2(m) && SlotOk(node, m, t, tab.nodes, Value(w))
    ensures NodeInRange(tab.words, t) && MaxBits(tab.words[t]) == m && EntryOk(tab, t, w)
  {
    hide Value, Pow2, Entry, MaxBits, HLen, FillsBlock;
    SlotAt(tab, t, m, node, w);
    var e := Entry(tab.words, t, w);
    if HLen(e) != 0 {
      forall v: seq<bool> | |v| == m && v[..HLen(e)] == w[..HLen(e)] ensures Entry(tab.words, t, v) == e {
        SlotAt(tab, t, m, node, v);
        ValuePrefix(v, HLen(e));
        ValuePrefix(w, HLen(e));
        BlockAlike(node, m, HLen(e), Value(w), Value(v));
      }
    }
  }

  lemma BlockAlike(node: seq<int>, m: nat, h: nat, i: nat, j: nat)
    requires |node| == Pow2(m) + 1 && i < Pow2(m) && j < Pow2(m) && h <= m && FillsBlock(node, m, h, i)
    requires j / Pow2(m - h) == i / Pow2(m - h)
    ensures node[1 + j] == node[1 + i]
  {
  }

  lemma SlotAt(tab: Table, t: nat, m: nat, node: seq<int>, w: seq<bool>)
    requires 1 <= m <= 9 && |node| == Pow2(m) + 1 && MaxBits(node[0]) == m && |w| == m
    requires t + |node| <= |tab.words| && forall k | 0 <= k < |node| :: tab.words[t + k] == node[k]
    ensures NodeInRange(tab.words, t) && MaxBits(tab.words[t]) == m
    ensures Value(w) < Pow2(m) && Entry(tab.words, t, w) == node[1 + Value(w)]
  {
    assert tab.words[t + 0] == node[0];
    assert w + Zeros(0) == w;
    assert tab.words[t + (1 + Value(w))] == node[1 + Value(w)];
  }

  /** Entries 0 .. n - 1 of the node are right. */
  ghost predicate UpTo(node: seq<int>, m: nat, t: nat, n: nat) {
    |node| == Pow2(m) + 1 && n <= Pow2(m) && forall i | 0 <= i < n :: SlotOk(node, m, t, Nodes(), i)
  }

  ghost predicate SlotsOk(node: seq<int>, m: nat, t: nat) {
    node != [] && MaxBits(node[0]) == m && UpTo(node, m, t, Pow2(m))
  }

  lemma NoSlots(node: seq<int>, m: nat, t: nat)
    requires |node| == Pow2(m) + 1
    ensures UpTo(node, m, t, 0)
  {
  }

  lemma Powers()
    ensures Pow2(0) == 1 && Pow2(1) == 2 && Pow2(2) == 4 && Pow2(3) == 8 && Pow2(4) == 16 && Pow2(5) == 32 && Pow2(6) == 64
  {
  }

  /** A run of equal leaves that takes up the block of its codeword is right. */
  lemma RunOk(node: seq<int>, m: nat, t: nat, lo: nat, q: nat)
    requires UpTo(node, m, t, lo) && q > 0 && lo % q == 0 && lo + q <= Pow2(m)
    requires 0 < HLen(node[1 + lo]) <= m && Pow2(m - HLen(node[1 + lo])) == q
    requires forall j {:trigger node[1 + j]} | lo <= j < lo + q :: node[1 + j] == node[1 + lo]
    ensures UpTo(node, m, t, lo + q)
  {
    hide Pow2, HLen;
    forall i | lo <= i < lo + q ensures SlotOk(node, m, t, Nodes(), i) {
      forall j | 0 <= j < Pow2(m) && j / q == i / q ensures node[1 + j] == node[1 + i] {
        InBlock(lo, q, i);
        BlockOf(lo, q, j);
      }
    }
  }

  lemma InBlock(lo: nat, q: nat, i: nat)
    requires q > 0 && lo % q == 0 && lo <= i < lo + q
    ensures i / q == lo / q
  {
    DivUnique(i, lo / q, q, i - lo);
  }

  lemma BlockOf(lo: nat, q: nat, j: nat)
    requires q > 0 && lo % q == 0 && j / q == lo / q
    ensures lo <= j < lo + q
  {
  }

  lemma JumpOk(node: seq<int>, m: nat, t: nat, i: nat)
    requires UpTo(node, m, t, i) && i < Pow2(m)
    requires HLen(node[1 + i]) == 0 && node[1 + i] > 0 && t + node[1 + i] in Nodes()
    ensures UpTo(node, m, t, i + 1)
  {
  }

  lemma Node65Slots()
    ensures SlotsOk(NODE_65, 4, 65)
  {
    hide Pow2, UpTo, FillsBlock, Nodes;
    Powers();
    assert |NODE_65| == 17 && MaxBits(NODE_65[0]) == 4;
    NoSlots(NODE_65, 4, 65);
    RunOk(NODE_65, 4, 65, 0, 1);
    RunOk(NODE_65, 4, 65, 1, 1);
    RunOk(NODE_65, 4, 65, 2, 1);
    RunOk(NODE_65, 4, 65, 3, 1);
    RunOk(NODE_65, 4, 65, 4, 2);
    RunOk(NODE_65, 4, 65, 6, 2);
    RunOk(NODE_65, 4, 65, 8, 2);
    RunOk(NODE_65, 4, 65, 10, 2);
    RunOk(NODE_65, 4, 65, 12, 4);
  }

  lemma Node82Slots()
    ensures SlotsOk(NODE_82, 3, 82)
  {
    hide Pow2, UpTo, FillsBlock;
    Powers();
    assert |NODE_82| == 9 && MaxBits(NODE_82[0]) == 3;
    NoSlots(NODE_82, 3, 82);
    RunOk(NODE_82, 3, 82, 0, 2);
    RunOk(NODE_82, 3, 82, 2, 1);
    RunOk(NODE_82, 3, 82, 3, 1);
    RunOk(NODE_82, 3, 82, 4, 2);
    RunOk(NODE_82, 3, 82, 6, 1);
    RunOk(NODE_82, 3, 82, 7, 1);
  }

  lemma Node91Slots()
    ensures SlotsOk(NODE_91, 2, 91)
  {
    hide Pow2, UpTo, FillsBlock;
    Powers();
    assert |NODE_91| == 5 && MaxBits(NODE_91[0]) == 2;
    NoSlots(NODE_91, 2, 91);
    RunOk(NODE_91, 2, 91, 0, 1);
    RunOk(NODE_91, 2, 91, 1, 1);
    RunOk(NODE_91, 2, 91, 2, 2);
  }

  lemma Node96Slots()
    ensures SlotsOk(NODE_96, 1, 96)
  {
    hide Pow2, UpTo, FillsBlock;
    Powers();
    assert |NODE_96| == 3 && MaxBits(NODE_96[0]) == 1;
    NoSlots(NODE_96, 1, 96);
    RunOk(NODE_96, 1, 96, 0, 1);
    RunOk(NODE_96, 1, 96, 1, 1);
  }

  lemma Node99Slots()
    ensures SlotsOk(NODE_99, 2, 99)
  {
    hide Pow2, UpTo, FillsBlock;
    Powers();
    assert |NODE_99| == 5 && MaxBits(NODE_99[0]) == 2;
    NoSlots(NODE_99, 2, 99);
    RunOk(NODE_99, 2, 99, 0, 1);
    RunOk(NODE_99, 2, 99, 1, 1);
    RunOk(NODE_99, 2, 99, 2, 1);
    RunOk(NODE_99, 2, 99, 3, 1);
  }

  lemma Node104Slots()
    ensures SlotsOk(NODE_104, 1, 104)
  {
    hide Pow2, UpTo, FillsBlock;
    Powers();
    assert |NODE_104| == 3 && MaxBits(NODE_104[0]) == 1;
    NoSlots(NODE_104, 1, 104);
    RunOk(NODE_104, 1, 104, 0, 1);
    RunOk(NODE_104, 1, 104, 1, 1);
  }

  lemma Node107Slots()
    ensures SlotsOk(NODE_107, 1, 107)
  {
    hide Pow2, UpTo, FillsBlock;
    Powers();
    assert |NODE_107| == 3 && MaxBits(NODE_107[0]) == 1;
    NoSlots(NODE_107, 1, 107);
    RunOk(NODE_107, 1, 107, 0, 1);
    RunOk(NODE_107, 1, 107, 1, 1);
  }

  lemma RootJumps()
    ensures UpTo(ROOT, 6, 0, 7)
  {
    hide Pow2, UpTo, FillsBlock;
    Powers();
    assert |ROOT| == 65;
    NoSlots(ROOT, 6, 0);
    JumpOk(ROOT, 6, 0, 0);
    JumpOk(ROOT, 6, 0, 1);
    JumpOk(ROOT, 6, 0, 2);
    JumpOk(ROOT, 6, 0, 3);
    JumpOk(ROOT, 6, 0, 4);
    JumpOk(ROOT, 6, 0, 5);
    JumpOk(ROOT, 6, 0, 6);
  }

  lemma RootSlots()
    ensures SlotsOk(ROOT, 6, 0)
  {
    hide Pow2, UpTo, FillsBlock, Nodes;
    Powers();
    assert |ROOT| == 65 && MaxBits(ROOT[0]) == 6;
    RootJumps();
    RunOk(ROOT, 6, 0, 7, 1);
    RunOk(ROOT, 6, 0, 8, 2);
    RunOk(ROOT, 6, 0, 10, 1);
    RunOk(ROOT, 6, 0, 11, 1);
    RunOk(ROOT, 6, 0, 12, 4);
    RunOk(ROOT, 6, 0, 16, 8);
    RunOk(ROOT, 6, 0, 24, 8);
    RunOk(ROOT, 6, 0, 32, 32);
  }

  lemma NodeLengths()
    ensures |ROOT| == 65 && |NODE_65| == 17 && |NODE_82| == 9 && |NODE_91| == 5 && |NODE_96| == 3 && |NODE_99| == 5
    ensures |NODE_104| == 3 && |NODE_107| == 3
  {
  }

  /** The words from |a| on are those of the node, whatever comes behind. */
  lemma PlaceOf(a: seq<int>, node: seq<int>, w: seq<int>)
    requires a + node <= w
    ensures w[|a|..|a| + |node|] == node && a <= w
  {
    assert w[..|a| + |node|] == a + node;
  }

  /** The words of each node are where its number says. */
  lemma NodePlaces()
    ensures var w := Table7().words;
            && |w| == 110 && w[0..65] == ROOT && w[65..82] == NODE_65 && w[82..91] == NODE_82 && w[91..96] == NODE_91
            && w[96..99] == NODE_96 && w[99..104] == NODE_99 && w[104..107] == NODE_104 && w[107..110] == NODE_107
  {
    NodeLengths();
    hide ROOT, NODE_65, NODE_82, NODE_91, NODE_96, NODE_99, NODE_104, NODE_107;
    var w := Table7().words;
    PlaceOf(ROOT + NODE_65 + NODE_82 + NODE_91 + NODE_96 + NODE_99 + NODE_104, NODE_107, w);
    PlaceOf(ROOT + NODE_65 + NODE_82 + NODE_91 + NODE_96 + NODE_99, NODE_104, w);
    PlaceOf(ROOT + NODE_65 + NODE_82 + NODE_91 + NODE_96, NODE_99, w);
    PlaceOf(ROOT + NODE_65 + NODE_82 + NODE_91, NODE_96, w);
    PlaceOf(ROOT + NODE_65 + NODE_82, NODE_91, w);
    PlaceOf(ROOT + NODE_65, NODE_82, w);
    PlaceOf(ROOT, NODE_65, w);
    assert w[0..65] == w[..65];
  }

  lemma NodeFound(t: nat, m: nat, node: seq<int>)
    requires 1 <= m <= 6 && SlotsOk(node, m, t) && t + |node| <= |Table7().words| && Table7().words[t..t + |node|] == node
    ensures NodeOk(Table7(), t)
  {
    hide Pow2, SlotOk, MaxBits, ROOT, NODE_65, NODE_82, NODE_91, NODE_96, NODE_99, NODE_104, NODE_107, NodeOk;
    forall k | 0 <= k < |node| ensures Table7().words[t + k] == node[k] {
      assert Table7().words[t..t + |node|][k] == Table7().words[t + k];
    }
    SlotsMakeNode(Table7(), t, m, node);
  }

  lemma Table7WellFormed()
    ensures WFTable(Table7()) && Loops(Table7())
  {
    hide Pow2, SlotsOk, NodeOk, NodeInRange;
    Powers();
    NodePlaces();
    RootSlots();
    Node65Slots();
    Node82Slots();
    Node91Slots();
    Node96Slots();
    Node99Slots();
    Node104Slots();
    Node107Slots();
    NodeFound(0, 6, ROOT);
    NodeFound(65, 4, NODE_65);
    NodeFound(82, 3, NODE_82);
    NodeFound(91, 2, NODE_91);
    NodeFound(96, 1, NODE_96);
    NodeFound(99, 2, NODE_99);
    NodeFound(104, 1, NODE_104);
    NodeFound(107, 1, NODE_107);
  }

  /** Only zeros lead to the first entry of a node. */
  lemma FirstSlot(t: nat, m: nat, node: seq<int>, p: nat)
    requires 1 <= m <= 9 && |node| == Pow2(m) + 1 && MaxBits(node[0]) == m && p > 0
    requires t + |node| <= |Table7().words| && Table7().words[t..t + |node|] == node
    ensures NodeInRange(Table7().words, t) && MaxBits(Table7().words[t]) == m
    ensures Entry(Table7().words, t, Window([false], p - 1, m)) == node[1]
  {
    hide Pow2, ROOT, NODE_65, NODE_82, NODE_91, NODE_96, NODE_99, NODE_104, NODE_107, Value, MaxBits, NodeInRange, Entry,
        Table7;
    var words := Table7().words;
    forall k | 0 <= k < |node| ensures words[t + k] == node[k] {
      assert words[t..t + |node|][k] == words[t + k];
    }
    assert Window([false], p - 1, m) == Zeros(m);
    ValueZeros(m);
    SlotAt(Table7(), t, m, node, Zeros(m));
  }

  lemma RootLookup()
    ensures var w := Table7().words;
            NodeInRange(w, 0) && MaxBits(w[0]) == 6 && Entry(w, 0, Window([false], 0, 6)) == 65
  {
    hide Value, Entry, Pow2, NodeInRange;
    Powers();
    NodePlaces();
    FirstSlot(0, 6, ROOT, 1);
  }

  lemma Node65Lookup()
    ensures var w := Table7().words;
            NodeInRange(w, 65) && MaxBits(w[65]) == 4 && Entry(w, 65, Window([false], 6, 4)) == 0x4552
  {
    hide Value, Entry, Pow2, NodeInRange;
    Powers();
    NodePlaces();
    FirstSlot(65, 4, NODE_65, 7);
  }

  lemma LeafInPadding(tab: Table)
    requires tab.kind == LoopNoLinbits
    ensures PaddedLeaf(tab, [false], 10, 0x4552) == (5, 5, 12)
  {
  }

  lemma WalkFindsNone()
    ensures ReadPairs(Table7(), 0, [false], 0, 1).None?
  {
    hide Value, Entry, ReadPairs, Pow2, NodeInRange, Table7, NodeOk, WFNodes;
    RootLookup();
    TableShape();
    RootInPlace();
    ReadPairsByLookup(Table7(), 0, [false], 0, 1);
  }

  lemma TableShape()
    ensures var tab := Table7(); tab.base == 0 && tab.kind == LoopNoLinbits && Coded(tab)
  {
    hide ROOT, NODE_65, NODE_82, NODE_91, NODE_96, NODE_99, NODE_104, NODE_107;
  }

  lemma RootInPlace()
    ensures var tab := Table7(); WFNodes(tab) && 0 in tab.nodes && 65 in tab.nodes && NodeOk(tab, 0)
  {
    hide Pow2, NodeInRange, NodeOk, ROOT, NODE_65, NODE_82, NODE_91, NODE_96, NODE_99, NODE_104, NODE_107;
    Table7WellFormed();
  }

  lemma PaddingHoldsOne()
    ensures PaddedPairs(Table7(), 0, [false], 0, 1, 1) == Some(([5, 5], 12, 12))
  {
    hide Value, Entry, PaddedPairs, Pow2, NodeInRange, PaddedLeaf, Table7;
    var tab := Table7();
    TableShape();
    RootLookup();
    Node65Lookup();
    LeafInPadding(tab);
    PaddedByLookup(tab, 0, [false], 0, 1, 1);
    PaddedByLookup(tab, 65, [false], 6, 12, 1);
    NoPairs(tab, 0, [false], Cursor(12, Live(0)), 12);
    assert [5, 5] + [] == [5, 5];
  }

  lemma NotDry()
    ensures !RunsDry(Table7(), 0, [false], StartCursor(0), 1)
  {
    hide Value, Entry, RunsDry, Pow2, NodeInRange, Table7, WFNodes, NodeOk, ScheduledLeaf;
    var tab := Table7();
    TableShape();
    RootLookup();
    RootInPlace();
    DryByLookup(tab, 0, [false], StartCursor(0), 1);
    PaddedNeverDry(tab, 65, [false], Cursor(6, Padded(1)), 1);
  }

  /** The single bit 0 holds no codeword of table 7. Yet the decoder reports the pair (5, 5) and one used
      bit: six zeros lead to a jump, which moves the end on by eleven bits, and four more to a leaf with two
      sign bits. */
  lemma JumpIntoPaddingSucceeds()
    ensures var tab, b := Table7(), [false];
            && ReadPairs(tab, 0, b, 0, 1).None?
            && DecodedRegion(tab, b, 0, 2) == Regions([5, 5], 1)
            && var d := Schedule(tab, 0, b, StartCursor(0), 1);
               d.Decoded? && d.vals == [5, 5] && UsedBits(b, d.cur) == 1
  {
    hide Table7, ReadPairs, PaddedPairs, Schedule, RunsDry, WFTable, Loops;
    TableShape();
    Table7WellFormed();
    WalkFindsNone();
    PaddingHoldsOne();
    NotDry();
    DecodesExactly(Table7(), [false], 0, 1);
  }
}
