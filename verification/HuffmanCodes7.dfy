/** Pair table 7 against the codewords of the standard: what an encoder writes for any list of pairs is read back as
    these pairs, x before y, each with its sign. */
module HuffmanCodes7 {
  import opened Bits
  import opened HuffmanSpec
  import opened HuffmanTheory
  import opened HuffmanTable7
  import opened Huffman

  /** Codeword and length of the pair (x, y) in row x and column y: table B.7 of ISO/IEC 11172-3, number 7. */
  const HCOD: seq<seq<nat>> := [
    [1, 2, 10, 19, 16, 10],
    [3, 3, 7, 10, 5, 3],
    [11, 4, 13, 17, 8, 4],
    [12, 11, 18, 15, 11, 2],
    [7, 6, 9, 14, 3, 1],
    [6, 4, 5, 3, 2, 0]]

  const HLEN: seq<seq<nat>> := [
    [1, 3, 6, 8, 8, 9],
    [3, 4, 6, 7, 7, 8],
    [6, 5, 7, 8, 8, 9],
    [7, 7, 8, 9, 9, 9],
    [7, 7, 8, 9, 9, 10],
    [8, 8, 9, 10, 10, 10]]

  /** A value from -5 to 5; there are two zeros, but they are coded alike. */
  datatype Signed = Signed(mag: nat, neg: bool)

  predicate InTable(u: Signed, v: Signed) {
    u.mag < 6 && v.mag < 6
  }

  function CodeLength(x: nat, y: nat): nat
    requires x < 6 && y < 6
  {
    HLEN[x][y]
  }

  function Codeword(x: nat, y: nat): (s: seq<bool>)
    requires x < 6 && y < 6
    ensures |s| == HLEN[x][y]
  {
    Digits(HCOD[x][y], HLEN[x][y])
  }

  function SignOf(v: Signed): seq<bool> {
    if v.mag == 0 then [] else [v.neg]
  }

  function EncodePair(u: Signed, v: Signed): seq<bool>
    requires InTable(u, v)
  {
    Codeword(u.mag, v.mag) + SignOf(u) + SignOf(v)
  }

  function Encode(ps: seq<(Signed, Signed)>): seq<bool>
    requires forall i | 0 <= i < |ps| :: InTable(ps[i].0, ps[i].1)
  {
    if ps == [] then [] else EncodePair(ps[0].0, ps[0].1) + Encode(ps[1..])
  }

  /** Magnitude in the low bits, sign in bit 31. */
  function Spelt(v: Signed): int {
    if v.neg && v.mag > 0 then v.mag + 0x8000_0000 else v.mag
  }

  // ----- one codeword

  function NodeAt(t: int): seq<int> {
    match t
    case 65 => NODE_65 case 82 => NODE_82 case 91 => NODE_91 case 96 => NODE_96
    case 99 => NODE_99 case 104 => NODE_104 case 107 => NODE_107 case _ => []
  }

  /** Word e is where the codeword of (x, y) leads: in the root, or in the node that its first six bits select. */
  ghost predicate Leaf(x: nat, y: nat, e: int)
    requires x < 6 && y < 6
  {
    var c, n := HCOD[x][y], HLEN[x][y];
    && CWX(e) == x && CWY(e) == y
    && if n <= 6 then InNode(ROOT, 6, c, n, e)
       else
         && |ROOT| == 65 && c / Pow2(n - 6) < 64
         && var t := ROOT[1 + c / Pow2(n - 6)];
            && t in Nodes() && t > 0 && HLen(t) == 0
            && NodeAt(t) != [] && InNode(NodeAt(t), MaxBits(NodeAt(t)[0]), c % Pow2(n - 6), n - 6, e)
  }

  ghost predicate InNode(node: seq<int>, m: nat, c: nat, n: nat, e: int) {
    && 0 < n <= m <= 9 && |node| == Pow2(m) + 1 && c < Pow2(n) && MaxBits(node[0]) == m
    && c * Pow2(m - n) < Pow2(m) && node[1 + c * Pow2(m - n)] == e && HLen(e) == n
  }

  /** p is 2^(6 - n). */
  lemma ShortLeaf(x: nat, y: nat, p: nat, e: int)
    requires x < 6 && y < 6 && 0 < HLEN[x][y] <= 6 && Pow2(6 - HLEN[x][y]) == p && HCOD[x][y] < Pow2(HLEN[x][y])
    requires HCOD[x][y] * p < 64 && |ROOT| == 65 && MaxBits(ROOT[0]) == 6 && ROOT[1 + HCOD[x][y] * p] == e
    requires HLen(e) == HLEN[x][y] && CWX(e) == x && CWY(e) == y
    ensures Leaf(x, y, e)
  {
    hide ROOT;
  }

  /** The codeword is r, six bits, and then low, n - 6 bits; h is 2^(n - 6), and p fills up to the m bits of node t. */
  lemma LongLeaf(x: nat, y: nat, r: nat, low: nat, t: nat, m: nat, h: nat, p: nat, e: int)
    requires x < 6 && y < 6 && 6 < HLEN[x][y] <= 6 + m && m <= 9
    requires Pow2(HLEN[x][y] - 6) == h && Pow2(m + 6 - HLEN[x][y]) == p && HCOD[x][y] == r * h + low && low < h
    requires |ROOT| == 65 && r < 64 && ROOT[1 + r] == t && HLen(t) == 0 && t > 0 && t in Nodes()
    requires NodeAt(t) != [] && MaxBits(NodeAt(t)[0]) == m && |NodeAt(t)| == Pow2(m) + 1
    requires low * p < Pow2(m) && NodeAt(t)[1 + low * p] == e
    requires HLen(e) == HLEN[x][y] - 6 && CWX(e) == x && CWY(e) == y
    ensures Leaf(x, y, e)
  {
    hide ROOT, NODE_65, NODE_82, NODE_91, NODE_96, NODE_99, NODE_104, NODE_107, NodeAt;
    DivUnique(HCOD[x][y], r, h, low);
  }

  lemma Row0()
    ensures forall y | 0 <= y < 6 :: Leaf(0, y, LEAVES[0][y])
  {
    hide Leaf, Pow2;
    Powers();
    ShortLeaf(0, 0, 32, 0x1000);
    ShortLeaf(0, 1, 8, 0x3101);
    ShortLeaf(0, 2, 1, 0x6201);
    LongLeaf(0, 3, 4, 3, 99, 2, 4, 1, 0x2301);
    LongLeaf(0, 4, 4, 0, 99, 2, 4, 1, 0x2401);
    LongLeaf(0, 5, 1, 2, 82, 3, 8, 1, 0x3501);
  }

  lemma Row1()
    ensures forall y | 0 <= y < 6 :: Leaf(1, y, LEAVES[1][y])
  {
    hide Leaf, Pow2;
    Powers();
    ShortLeaf(1, 0, 8, 0x3011);
    ShortLeaf(1, 1, 4, 0x4112);
    ShortLeaf(1, 2, 1, 0x6212);
    LongLeaf(1, 3, 5, 0, 104, 1, 2, 1, 0x1312);
    LongLeaf(1, 4, 2, 1, 91, 2, 2, 2, 0x1412);
    LongLeaf(1, 5, 0, 3, 65, 4, 4, 4, 0x2512);
  }

  lemma Row2()
    ensures forall y | 0 <= y < 6 :: Leaf(2, y, LEAVES[2][y])
  {
    hide Leaf, Pow2;
    Powers();
    ShortLeaf(2, 0, 1, 0x6021);
    ShortLeaf(2, 1, 2, 0x5122);
    LongLeaf(2, 2, 6, 1, 107, 1, 2, 1, 0x1222);
    LongLeaf(2, 3, 4, 1, 99, 2, 4, 1, 0x2322);
    LongLeaf(2, 4, 2, 0, 91, 2, 4, 1, 0x2422);
    LongLeaf(2, 5, 0, 4, 65, 4, 8, 2, 0x3522);
  }

  lemma Row3()
    ensures forall y | 0 <= y < 6 :: Leaf(3, y, LEAVES[3][y])
  {
    hide Leaf, Pow2;
    Powers();
    LongLeaf(3, 0, 6, 0, 107, 1, 2, 1, 0x1031);
    LongLeaf(3, 1, 5, 1, 104, 1, 2, 1, 0x1132);
    LongLeaf(3, 2, 4, 2, 99, 2, 4, 1, 0x2232);
    LongLeaf(3, 3, 1, 7, 82, 3, 8, 1, 0x3332);
    LongLeaf(3, 4, 1, 3, 82, 3, 8, 1, 0x3432);
    LongLeaf(3, 5, 0, 2, 65, 4, 8, 2, 0x3532);
  }

  lemma Row4()
    ensures forall y | 0 <= y < 6 :: Leaf(4, y, LEAVES[4][y])
  {
    hide Leaf, Pow2;
    Powers();
    LongLeaf(4, 0, 3, 1, 96, 1, 2, 1, 0x1041);
    LongLeaf(4, 1, 3, 0, 96, 1, 2, 1, 0x1142);
    LongLeaf(4, 2, 2, 1, 91, 2, 4, 1, 0x2242);
    LongLeaf(4, 3, 1, 6, 82, 3, 8, 1, 0x3342);
    LongLeaf(4, 4, 0, 3, 65, 4, 8, 2, 0x3442);
    LongLeaf(4, 5, 0, 1, 65, 4, 16, 1, 0x4542);
  }

  lemma Row5()
    ensures forall y | 0 <= y < 6 :: Leaf(5, y, LEAVES[5][y])
  {
    hide Leaf, Pow2;
    Powers();
    LongLeaf(5, 0, 1, 2, 82, 3, 4, 2, 0x2051);
    LongLeaf(5, 1, 1, 0, 82, 3, 4, 2, 0x2152);
    LongLeaf(5, 2, 0, 5, 65, 4, 8, 2, 0x3252);
    LongLeaf(5, 3, 0, 3, 65, 4, 16, 1, 0x4352);
    LongLeaf(5, 4, 0, 2, 65, 4, 16, 1, 0x4452);
    LongLeaf(5, 5, 0, 0, 65, 4, 16, 1, 0x4552);
  }

  const LEAVES: seq<seq<int>> := [
    [0x1000, 0x3101, 0x6201, 0x2301, 0x2401, 0x3501],
    [0x3011, 0x4112, 0x6212, 0x1312, 0x1412, 0x2512],
    [0x6021, 0x5122, 0x1222, 0x2322, 0x2422, 0x3522],
    [0x1031, 0x1132, 0x2232, 0x3332, 0x3432, 0x3532],
    [0x1041, 0x1142, 0x2242, 0x3342, 0x3442, 0x4542],
    [0x2051, 0x2152, 0x3252, 0x4352, 0x4452, 0x4552]]

  function LeafWord(x: nat, y: nat): int
    requires x < 6 && y < 6
  {
    LEAVES[x][y]
  }

  lemma LeafOf(x: nat, y: nat)
    requires x < 6 && y < 6
    ensures Leaf(x, y, LeafWord(x, y))
  {
    hide Leaf;
    Row0();
    Row1();
    Row2();
    Row3();
    Row4();
    Row5();
  }

  /** v without its b low digits. */
  function High(v: nat, b: nat): nat {
    if b == 0 then v else High(v / 2, b - 1)
  }

  lemma {:induction false} HighIs(v: nat, b: nat)
    ensures High(v, b) == v / Pow2(b)
    decreases b
  {
    if b == 0 {
      assert Pow2(0) == 1;
    } else {
      HighIs(v / 2, b - 1);
      HalfThenRest(v, Pow2(b - 1));
    }
  }

  lemma {:induction false} DigitsSplit(v: nat, a: nat, b: nat)
    ensures Digits(v, a + b) == Digits(High(v, b), a) + Digits(v, b)
    decreases b
  {
    if b > 0 {
      DigitsSplit(v / 2, a, b - 1);
      assert Digits(v, a + b) == Digits(v / 2, a + (b - 1)) + [v % 2 == 1];
    }
  }

  lemma HalfThenRest(v: nat, p: nat)
    requires p > 0
    ensures v / 2 / p == v / (2 * p)
  {
    var q := v / 2 / p;
    assert v == 2 * (v / 2) + v % 2 && v / 2 == q * p + v / 2 % p;
    assert v == q * (2 * p) + (2 * (v / 2 % p) + v % 2) by {
      MulAssoc(q, 2, p);
      MulAssoc(2, q, p);
    }
    DivUnique(v, q, 2 * p, 2 * (v / 2 % p) + v % 2);
  }

  /** The low digits do not depend on the rest of the number. */
  lemma LowDigits(v: nat, b: nat)
    ensures Digits(v, b) == Digits(v % Pow2(b), b)
    decreases b
  {
    if b > 0 {
      LowDigits(v / 2, b - 1);
      LowDigits(v % Pow2(b) / 2, b - 1);
      HalfOfRest(v, Pow2(b - 1));
    }
  }

  lemma HalfOfRest(v: nat, p: nat)
    requires p > 0
    ensures v % (2 * p) / 2 % p == v / 2 % p && v % (2 * p) % 2 == v % 2
  {
    var q, r := v / 2 / p, v / 2 % p;
    assert v == 2 * (q * p + r) + v % 2;
    MulAssoc(q, 2, p);
    MulAssoc(2, q, p);
    DivUnique(v, q, 2 * p, 2 * r + v % 2);
    DivUnique(2 * r + v % 2, r, 2, v % 2);
    DivUnique(r, 0, p, r);
  }

  lemma NodeWords(t: int)
    requires t in Nodes() && t > 0
    ensures t + |NodeAt(t)| <= |Table7().words| && Table7().words[t..t + |NodeAt(t)|] == NodeAt(t)
    ensures NodeOk(Table7(), t)
  {
    hide Pow2, NodeOk, ROOT, NODE_65, NODE_82, NODE_91, NODE_96, NODE_99, NODE_104, NODE_107;
    NodeLengths();
    NodePlaces();
    Table7WellFormed();
  }

  lemma RootWords()
    ensures 65 <= |Table7().words| && |ROOT| == 65 && Table7().words[0..0 + |ROOT|] == ROOT && NodeOk(Table7(), 0)
  {
    hide Pow2, NodeOk, ROOT, NODE_65, NODE_82, NODE_91, NODE_96, NODE_99, NODE_104, NODE_107;
    NodeLengths();
    NodePlaces();
    RootInPlace();
  }

  /** A codeword of n bits in node t leads to its leaf, whatever follows it. */
  lemma LeafFound(t: nat, node: seq<int>, m: nat, c: nat, n: nat, e: int, b: seq<bool>, p: nat)
    requires InNode(node, m, c, n, e) && NodeOk(Table7(), t)
    requires t + |node| <= |Table7().words| && Table7().words[t..t + |node|] == node
    requires p + n <= |b| && b[p..p + n] == Digits(c, n)
    ensures Walk(Table7().words, t, [], b, p) == Some((e, p + n))
  {
    hide Value, Pow2, Entry, HLen, MaxBits, Digits, Walk, Table7, NodeInRange;
    var tab, w, v := Table7(), Window(b, p, m), Digits(c, n) + Zeros(m - n);
    forall k | 0 <= k < |node| ensures tab.words[t + k] == node[k] {
      assert tab.words[t..t + |node|][k] == tab.words[t + k];
    }
    ValueConcat(Digits(c, n), Zeros(m - n));
    ValueDigits(c, n);
    ValueZeros(m - n);
    SlotAt(tab, t, m, node, v);
    assert EntryOk(tab, t, v);
    SlotAt(tab, t, m, node, w);
    assert w[..n] == b[p..p + n] == v[..n];
    assert LeafShared(tab.words, t, v);
    WalkIsLookup(tab, t, b, p);
  }

  /** Six bits that select a jump lead to the node behind it. */
  lemma JumpFound(r: nat, t: nat, b: seq<bool>, p: nat)
    requires r < 64 && |ROOT| == 65 && ROOT[1 + r] == t && HLen(t) == 0 && t > 0 && t in Nodes()
    requires p + 6 <= |b| && b[p..p + 6] == Digits(r, 6)
    ensures Walk(Table7().words, 0, [], b, p) == Walk(Table7().words, t, [], b, p + 6)
  {
    hide Value, Pow2, Entry, MaxBits, Digits, Walk, Table7, ROOT, NodeInRange;
    var tab, w := Table7(), Window(b, p, 6);
    Powers();
    RootWords();
    RootHead();
    forall k | 0 <= k < |ROOT| ensures tab.words[0 + k] == ROOT[k] {
      assert tab.words[0..0 + |ROOT|][k] == tab.words[0 + k];
    }
    assert w == Digits(r, 6);
    ValueDigits(r, 6);
    SlotAt(tab, 0, 6, ROOT, w);
    WalkIsLookup(tab, 0, b, p);
  }

  lemma RootHead()
    ensures |ROOT| == 65 && MaxBits(ROOT[0]) == 6
  {
  }

  /** The codeword of (x, y) is walked to its leaf. */
  lemma CodewordFound(x: nat, y: nat, e: int, b: seq<bool>, p: nat)
    requires x < 6 && y < 6 && Leaf(x, y, e)
    requires p + CodeLength(x, y) <= |b| && b[p..p + CodeLength(x, y)] == Codeword(x, y)
    ensures Walk(Table7().words, 0, [], b, p) == Some((e, p + CodeLength(x, y)))
  {
    hide Pow2, Digits, Walk, Table7, ROOT, InNode, HLen, MaxBits, CWX, CWY, NodeAt, NodeOk;
    var c, n := HCOD[x][y], CodeLength(x, y);
    assert n == HLEN[x][y];
    RootWords();
    if n <= 6 {
      LeafFound(0, ROOT, 6, c, n, e, b, p);
    } else {
      var r, t := High(c, n - 6), ROOT[1 + c / Pow2(n - 6)];
      DigitsSplit(c, 6, n - 6);
      HighIs(c, n - 6);
      LowDigits(c, n - 6);
      assert b[p..p + 6] == b[p..p + n][..6] && b[p + 6..p + n] == b[p..p + n][6..];
      JumpFound(r, t, b, p);
      NodeWords(t);
      LeafFound(t, NodeAt(t), MaxBits(NodeAt(t)[0]), c % Pow2(n - 6), n - 6, e, b, p + 6);
    }
  }

  // ----- lists of pairs

  /** One pair: the leaf of its codeword and the signs behind it. */
  lemma PairRead(u: Signed, v: Signed, b: seq<bool>, p: nat)
    requires InTable(u, v)
    requires var s := EncodePair(u, v); p + |s| <= |b| && b[p..p + |s|] == s
    ensures var e := LeafWord(u.mag, v.mag);
            && Walk(Table7().words, 0, [], b, p) == Some((e, p + CodeLength(u.mag, v.mag)))
            && ReadLeaf(Table7(), b, p + CodeLength(u.mag, v.mag), e)
               == Some((Spelt(u), Spelt(v), p + |EncodePair(u, v)|))
  {
    hide Digits, Walk, Codeword, CodeLength, LeafWord, Leaf, SignOf, Spelt, EncodePair, InNode, HLen, Pow2, Value;
    var e, s, n := LeafWord(u.mag, v.mag), EncodePair(u, v), CodeLength(u.mag, v.mag);
    LeafOf(u.mag, v.mag);
    TableShape();
    PairStarts(u, v);
    assert b[p..p + n] == b[p..p + |s|][..n];
    CodewordFound(u.mag, v.mag, e, b, p);
    SignsAt(u, v, b, p);
    LeafFields(u.mag, v.mag, e);
    SignedLeaf(Table7(), u, v, e, b, p + n);
  }

  lemma PairStarts(u: Signed, v: Signed)
    requires InTable(u, v)
    ensures var s, n := EncodePair(u, v), CodeLength(u.mag, v.mag);
            && |s| == n + |SignOf(u)| + |SignOf(v)| && s[..n] == Codeword(u.mag, v.mag)
            && (u.mag > 0 ==> n < |s| && s[n] == u.neg)
            && (v.mag > 0 ==> n + |SignOf(u)| < |s| && s[n + |SignOf(u)|] == v.neg)
  {
    hide Digits, HLEN, HCOD;
  }

  lemma LeafFields(x: nat, y: nat, e: int)
    requires x < 6 && y < 6 && Leaf(x, y, e)
    ensures CWX(e) == x && CWY(e) == y
  {
    hide InNode, CWX, CWY;
  }

  lemma SignsAt(u: Signed, v: Signed, b: seq<bool>, p: nat)
    requires InTable(u, v)
    requires var s := EncodePair(u, v); p + |s| <= |b| && b[p..p + |s|] == s
    ensures var q := p + CodeLength(u.mag, v.mag);
            && (u.mag > 0 ==> q < |b| && b[q] == u.neg)
            && var q1 := q + |SignOf(u)|;
               (v.mag > 0 ==> q1 < |b| && b[q1] == v.neg) && q1 + |SignOf(v)| == p + |EncodePair(u, v)|
  {
    hide Codeword, CodeLength, Digits, EncodePair, SignOf;
    PairStarts(u, v);
    var s, n := EncodePair(u, v), CodeLength(u.mag, v.mag);
    assert forall k | 0 <= k < |s| :: b[p + k] == b[p..p + |s|][k] == s[k];
  }

  lemma SignedLeaf(tab: Table, u: Signed, v: Signed, e: int, b: seq<bool>, q: nat)
    requires tab.kind == LoopNoLinbits && CWX(e) == u.mag && CWY(e) == v.mag
    requires u.mag > 0 ==> q < |b| && b[q] == u.neg
    requires var q1 := q + |SignOf(u)|; v.mag > 0 ==> q1 < |b| && b[q1] == v.neg
    ensures ReadLeaf(tab, b, q, e) == Some((Spelt(u), Spelt(v), q + |SignOf(u)| + |SignOf(v)|))
  {
  }

  /** The values of the pairs, x at the even and y at the odd places. */
  function Values(ps: seq<(Signed, Signed)>): (s: seq<int>)
    ensures |s| == 2 * |ps|
    ensures forall i | 0 <= i < |ps| :: s[2 * i] == Spelt(ps[i].0) && s[2 * i + 1] == Spelt(ps[i].1)
  {
    if ps == [] then [] else [Spelt(ps[0].0), Spelt(ps[0].1)] + Values(ps[1..])
  }

  /** Any list of pairs, encoded, is read back. */
  lemma {:induction false} PairsRead(ps: seq<(Signed, Signed)>, b: seq<bool>, p: nat)
    requires forall i | 0 <= i < |ps| :: InTable(ps[i].0, ps[i].1)
    requires p + |Encode(ps)| <= |b| && b[p..p + |Encode(ps)|] == Encode(ps)
    ensures ReadPairs(Table7(), 0, b, p, |ps|) == Some((Values(ps), p + |Encode(ps)|))
    decreases |ps|
  {
    hide EncodePair, Spelt, Walk, ReadLeaf, Table7, LeafWord, CodeLength;
    if ps != [] {
      var first, rest := EncodePair(ps[0].0, ps[0].1), ps[1..];
      var s := b[p..p + |Encode(ps)|];
      assert s == first + Encode(rest);
      assert b[p..p + |first|] == s[..|first|];
      assert b[p + |first|..p + |first| + |Encode(rest)|] == s[|first|..];
      TableShape();
      PairRead(ps[0].0, ps[0].1, b, p);
      PairsRead(rest, b, p + |first|);
    }
  }

  /** The decoder on such a list, whatever bits follow it and wherever in a byte it starts: x goes to the even
      places and y to the odd ones, each negative exactly where its sign bit is set. */
  method DecodesWhatIsCoded(xy: array<int>, start: nat, ps: seq<(Signed, Signed)>, bitsLeft: nat, buf: seq<Byte>,
                            off: nat)
    returns (r: int)
    requires forall i | 0 <= i < |ps| :: InTable(ps[i].0, ps[i].1)
    requires off < 8 && off + bitsLeft <= 8 * |buf| && start + 2 * |ps| <= xy.Length
    requires |Encode(ps)| <= bitsLeft && BitsOf(buf, off, bitsLeft)[..|Encode(ps)|] == Encode(ps)
    modifies xy
    ensures r == |Encode(ps)|
    ensures forall i | 0 <= i < |ps| ::
              xy[start + 2 * i] == Spelt(ps[i].0) && xy[start + 2 * i + 1] == Spelt(ps[i].1)
    ensures forall i | 0 <= i < xy.Length && !(start <= i < start + 2 * |ps|) :: xy[i] == old(xy[i])
  {
    hide Encode, Spelt, ReadPairs, Table7, BitsOf, DecodedRegion, WFTable, Values;
    ghost var b := BitsOf(buf, off, bitsLeft);
    Table7WellFormed();
    TableShape();
    assert b[0..0 + |Encode(ps)|] == b[..|Encode(ps)|];
    PairsRead(ps, b, 0);
    r := DecodeHuffmanPairs(xy, start, 2 * |ps|, Table7(), bitsLeft, buf, off);
    NothingEncoded(ps);
    assert ps != [] ==> xy[start..start + 2 * |ps|] == Values(ps);
    forall i | 0 <= i < |ps|
      ensures xy[start + 2 * i] == Spelt(ps[i].0) && xy[start + 2 * i + 1] == Spelt(ps[i].1)
    {
      assert xy[start..start + 2 * |ps|][2 * i] == xy[start + 2 * i];
      assert xy[start..start + 2 * |ps|][2 * i + 1] == xy[start + 2 * i + 1];
    }
  }

  lemma NothingEncoded(ps: seq<(Signed, Signed)>)
    requires forall i | 0 <= i < |ps| :: InTable(ps[i].0, ps[i].1)
    ensures ps == [] ==> Encode(ps) == []
  {
  }
}
