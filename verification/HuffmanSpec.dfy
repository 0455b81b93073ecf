/** Huffman codewords of one granule at the level of single bits.

    First the ideal decoder: a walk of the code tree one bit at a time. Then the
    schedule of the table-driven decoder: which bits it has cached, when it refills
    two bytes at a time and when it pads with zeros. The lemmas compare the two. */
module HuffmanSpec {
  import opened Bits

  datatype Option<+T> = None | Some(value: T)

  datatype Kind = NoBits | OneShot | LoopNoLinbits | LoopLinbits | InvalidTab

  /** One pair table: its words, the offsets at which nodes start, the offset of the
      root, the width of an escape and the kind. */
  datatype Table = Table(words: seq<int>, nodes: set<nat>, base: nat, linBits: nat, kind: Kind)

  // ----- fields of a table word: 0xABCD is length, y, x, sign bits

  function MaxBits(x: int): nat { x % 16 }
  function HLen(x: int): nat { (x / 0x1000) % 16 }
  function CWY(x: int): nat { (x / 0x100) % 16 }
  function CWX(x: int): nat { (x / 0x10) % 16 }

  predicate NodeInRange(T: seq<int>, t: nat) {
    && t < |T|
    && 1 <= MaxBits(T[t]) <= 9
    && t + Pow2(MaxBits(T[t])) < |T|
  }

  /** The entry that the bits q select in node t; missing low bits count as zero. */
  function Entry(T: seq<int>, t: nat, q: seq<bool>): int
    requires NodeInRange(T, t) && |q| <= MaxBits(T[t])
  {
    T[t + 1 + Value(q + Zeros(MaxBits(T[t]) - |q|))]
  }

  /** A leaf is shared by all indices that begin with its codeword. */
  ghost predicate LeafShared(T: seq<int>, t: nat, w: seq<bool>)
    requires NodeInRange(T, t) && |w| == MaxBits(T[t])
  {
    var e := Entry(T, t, w);
    && HLen(e) <= |w|
    && forall v: seq<bool> {:trigger Entry(T, t, v)} |
         |v| == |w| && v[..HLen(e)] == w[..HLen(e)] :: Entry(T, t, v) == e
  }

  /** Every entry of a node is a shared leaf or a positive jump to another node. */
  ghost predicate EntryOk(tab: Table, t: nat, w: seq<bool>)
    requires NodeInRange(tab.words, t) && |w| == MaxBits(tab.words[t])
  {
    var e := Entry(tab.words, t, w);
    if HLen(e) == 0 then e > 0 && t + e in tab.nodes else LeafShared(tab.words, t, w)
  }

  ghost predicate NodeOk(tab: Table, t: nat) {
    && NodeInRange(tab.words, t)
    && forall w: seq<bool> {:trigger EntryOk(tab, t, w)} | |w| == MaxBits(tab.words[t]) :: EntryOk(tab, t, w)
  }

  ghost predicate WFNodes(tab: Table) {
    && tab.base in tab.nodes
    && forall t | t in tab.nodes :: NodeOk(tab, t)
  }

  /** A table of the decoder: every node is well formed, a one-shot table has no
      jumps, and an escape is 1 to 13 bits wide. */
  ghost predicate WFTable(tab: Table) {
    && (Coded(tab) ==> WFNodes(tab))
    && (tab.kind == OneShot ==> NoJumps(tab))
    && (tab.kind == LoopLinbits ==> tab.linBits >= 1)
    && tab.linBits <= 13
  }

  ghost predicate NoJumps(tab: Table)
    requires WFNodes(tab)
  {
    assert NodeOk(tab, tab.base);
    forall w: seq<bool> {:trigger Entry(tab.words, tab.base, w)} | |w| == MaxBits(tab.words[tab.base]) ::
      HLen(Entry(tab.words, tab.base, w)) > 0
  }

  predicate Coded(tab: Table) {
    tab.kind == OneShot || tab.kind == LoopNoLinbits || tab.kind == LoopLinbits
  }

  // ----- the ideal decoder

  /** Walk the code tree from node t, having read the bits q since entering it:
      the leaf reached and the position after it, or None when the bits run out. */
  function Walk(T: seq<int>, t: nat, q: seq<bool>, b: seq<bool>, p: nat): Option<(int, nat)>
    decreases |T| - t, 10 - |q|
  {
    if !NodeInRange(T, t) || |q| > MaxBits(T[t]) then None else
    var e := Entry(T, t, q);
    if |q| > 0 && HLen(e) == |q| then Some((e, p))
    else if |q| == MaxBits(T[t]) then
      if HLen(e) == 0 && e > 0 then Walk(T, t + e, [], b, p) else None
    else if p >= |b| then None
    else Walk(T, t, q + [b[p]], b, p + 1)
  }

  function ReadBits(b: seq<bool>, p: nat, k: nat): Option<(nat, nat)> {
    if p + k <= |b| then Some((Value(b[p..p + k]), p + k)) else None
  }

  function SignWord(v: int, negative: bool): int {
    v + (if negative then 0x80000000 else 0)
  }

  /** One decoded magnitude v: an escape extends 15 by linBits more bits, and a
      nonzero value is followed by its sign bit. */
  function ReadValue(tab: Table, b: seq<bool>, p: nat, v: nat): Option<(int, nat)> {
    var ext: Option<(nat, nat)> :=
      if tab.kind == LoopLinbits && v == 15 then ReadBits(b, p, tab.linBits) else Some((0, p));
    match ext
    case None => None
    case Some((extra, p1)) =>
      if v == 0 then Some((0, p1))
      else if p1 < |b| then Some((SignWord(v + extra, b[p1]), p1 + 1))
      else None
  }

  function ReadLeaf(tab: Table, b: seq<bool>, p: nat, e: int): Option<(int, int, nat)> {
    match ReadValue(tab, b, p, CWX(e))
    case None => None
    case Some((x, p1)) =>
      match ReadValue(tab, b, p1, CWY(e))
      case None => None
      case Some((y, p2)) => Some((x, y, p2))
  }

  /** Decode count pairs, the first one from node t: the values and the position
      after them, or None when the bits do not hold count complete codewords. */
  function ReadPairs(tab: Table, t: nat, b: seq<bool>, p: nat, count: nat): Option<(seq<int>, nat)>
    decreases count
  {
    if count == 0 then Some(([], p)) else
    match Walk(tab.words, t, [], b, p)
    case None => None
    case Some((e, p1)) =>
      match ReadLeaf(tab, b, p1, e)
      case None => None
      case Some((x, y, p2)) =>
        match ReadPairs(tab, tab.base, b, p2, count - 1)
        case None => None
        case Some((vals, p3)) => Some(([x, y] + vals, p3))
  }

  // ----- the schedule of the table-driven decoder

  /** Live: this many bits are cached (they may reach past the end of the stream).
      Padded: zeros follow, and the decoder takes `end` for the end of the stream. */
  datatype Mode = Live(cached: int) | Padded(end: int)
  datatype Cursor = Cursor(pos: nat, mode: Mode)

  /** Refill when fewer than pad bits are cached: two bytes if 16 bits are left,
      otherwise the rest of the stream and pad zero bits. */
  function Refill(b: seq<bool>, cur: Cursor, pad: nat): Option<Cursor> {
    match cur.mode
    case Live(c) =>
      if c >= pad then Some(cur)
      else if |b| - cur.pos - c >= 16 then Some(Cursor(cur.pos, Live(c + 16)))
      else if |b| - cur.pos <= 0 then None
      else Some(Cursor(cur.pos, Padded(|b|)))
    case Padded(end) =>
      if end + pad - cur.pos >= pad then Some(cur)
      else if end + pad - cur.pos <= 0 then None
      else Some(Cursor(cur.pos, Padded(end + pad)))
  }

  function Skip(cur: Cursor, n: nat): Cursor {
    match cur.mode
    case Live(c) => Cursor(cur.pos + n, Live(c - n))
    case Padded(end) => Cursor(cur.pos + n, cur.mode)
  }

  function FillUp(c: int, need: int): (r: int)
    ensures r >= need && r >= c && (r == c || r < need + 8) && (r - c) % 8 == 0
    decreases need - c
  {
    if c >= need then c else FillUp(c + 8, need)
  }

  /** Make `need` bits available for an escape, byte by byte. */
  function NeedBits(b: seq<bool>, cur: Cursor, need: nat): Option<Cursor> {
    match cur.mode
    case Live(c) =>
      if |b| - cur.pos < need then None else
      var c1 := FillUp(c, need);
      Some(Cursor(cur.pos, Live(if c1 > |b| - cur.pos then |b| - cur.pos else c1)))
    case Padded(end) =>
      if end + 11 - cur.pos < need then None else Some(cur)
  }

  function ScheduledValue(tab: Table, b: seq<bool>, cur: Cursor, v: nat, extra: nat): Option<(int, Cursor)> {
    var ext: Option<(int, Cursor)> := if tab.kind == LoopLinbits && v == 15 then
                 match NeedBits(b, cur, tab.linBits + 1 + extra)
                 case None => None
                 case Some(c) => Some((v + Value(Window(b, c.pos, tab.linBits)), Skip(c, tab.linBits)))
               else Some((v, cur));
    match ext
    case None => None
    case Some((x, c1)) =>
      if x == 0 then Some((0, c1)) else Some((SignWord(x, ZBit(b, c1.pos)), Skip(c1, 1)))
  }

  function ScheduledLeaf(tab: Table, b: seq<bool>, cur: Cursor, e: int): Option<(int, int, Cursor)> {
    match ScheduledValue(tab, b, cur, CWX(e), if CWY(e) == 0 then 0 else 1)
    case None => None
    case Some((x, c1)) =>
      match ScheduledValue(tab, b, c1, CWY(e), 0)
      case None => None
      case Some((y, c2)) =>
        if c2.mode.Padded? && c2.pos > c2.mode.end then None else Some((x, y, c2))
  }

  datatype Step = Fails | Jumps(node: nat, cur: Cursor) | Yields(x: int, y: int, cur: Cursor)

  /** One lookup in node t. */
  function Lookup(tab: Table, t: nat, b: seq<bool>, cur: Cursor): (r: Step)
    ensures r.Jumps? ==> t < r.node && t < |tab.words|
  {
    if !NodeInRange(tab.words, t) then Fails else
    var m := MaxBits(tab.words[t]);
    var e := Entry(tab.words, t, Window(b, cur.pos, m));
    if HLen(e) == 0 then
      if e > 0 then Jumps(t + e, Skip(cur, m)) else Fails
    else
      match ScheduledLeaf(tab, b, Skip(cur, HLen(e)), e)
      case None => Fails
      case Some((x, y, c)) => Yields(x, y, c)
  }

  datatype Decoded = OutOfBits | Decoded(vals: seq<int>, cur: Cursor)

  function Prepend(vals: seq<int>, d: Decoded): Decoded {
    match d
    case OutOfBits => OutOfBits
    case Decoded(rest, cur) => Decoded(vals + rest, cur)
  }

  /** What the table-driven decoder makes of count pairs, the first from node t. */
  function Schedule(tab: Table, t: nat, b: seq<bool>, cur: Cursor, count: nat): Decoded
    decreases count, |tab.words| - t
  {
    if count == 0 then Decoded([], cur) else
    match Refill(b, cur, 11)
    case None => OutOfBits
    case Some(c) =>
      match Lookup(tab, t, b, c)
      case Fails => OutOfBits
      case Jumps(node, c1) => Schedule(tab, node, b, c1, count)
      case Yields(x, y, c1) => Prepend([x, y], Schedule(tab, tab.base, b, c1, count - 1))
  }

  /** The number of bits the decoder reports as used. */
  function UsedBits(b: seq<bool>, cur: Cursor): int {
    match cur.mode
    case Live(_) => cur.pos
    case Padded(end) => cur.pos - (end - |b|)
  }

  /** The decoder starts with the rest of the byte that holds the first bit. */
  function StartCursor(off: nat): Cursor {
    Cursor(0, Live((8 - off) % 8))
  }
}
