/** The synthesis filter bank's memory: FDCT32 writes every value twice, eight cells apart, so that the
    polyphase filter can read the last eight without wrapping around. */
module SubbandFifo {
  import opened Mp3Tables

  const VBUF_LENGTH: nat := 1088    // 17 rows of 64 cells

  // ----- what one transformed block contributes

  type Sixteen = s: seq<int> | |s| == 16 witness seq(16, _ => 0)

  /** The value for row 16, and those for rows 0 to 15 of the lower and of the upper half. */
  datatype Block = Block(zero: int, lo: Sixteen, hi: Sixteen)

  /** The final shuffle of the 32-point DCT. */
  function Shuffle(y: seq<int>): Block
    requires |y| == 32
  {
    Block(y[0],
      [y[1], y[17] + (y[25] + y[29]), y[9] + y[13], y[21] + (y[25] + y[29]),
       y[5], y[21] + (y[29] + y[27]), y[13] + y[11], y[19] + (y[29] + y[27]),
       y[3], y[19] + (y[27] + y[31]), y[11] + y[15], y[23] + (y[27] + y[31]),
       y[7], y[23] + y[31], y[15], y[31]],
      [y[1], y[17] + (y[30] + y[25]), y[14] + y[9], y[22] + (y[30] + y[25]),
       y[6], y[22] + (y[26] + y[30]), y[10] + y[14], y[18] + (y[26] + y[30]),
       y[2], y[18] + (y[28] + y[26]), y[12] + y[10], y[20] + (y[28] + y[26]),
       y[4], y[20] + (y[24] + y[28]), y[8] + y[12], y[16] + (y[24] + y[28])])
  }

  /** A cosine transform put together from those of the folded input: the even coefficients are those of the sums,
      and an odd one is the sum of two neighbours among those of the scaled differences. */
  function Merge(even: seq<int>, odd: seq<int>): (x: seq<int>)
    requires |even| == |odd|
    ensures |x| == 2 * |even|
  {
    seq(2 * |even|, k requires 0 <= k < 2 * |even| =>
      if k % 2 == 0 then even[k / 2] else odd[k / 2] + if k / 2 + 1 < |odd| then odd[k / 2 + 1] else 0)
  }

  /** Eight values that lie in bit-reversed order from place p on. */
  function Reversed8(y: seq<int>, p: nat): (x: seq<int>)
    requires p + 8 <= |y|
    ensures |x| == 8
  {
    seq(8, k requires 0 <= k < 8 => y[p + 4 * (k % 2) + 2 * (k / 2 % 2) + k / 4])
  }

  function Even(y: seq<int>): (x: seq<int>)
    requires |y| == 32
    ensures |x| == 16
  {
    Merge(Reversed8(y, 0), Reversed8(y, 8))
  }

  function Odd(y: seq<int>): (x: seq<int>)
    requires |y| == 32
    ensures |x| == 16
  {
    Merge(Reversed8(y, 16), Reversed8(y, 24))
  }

  /** The 32 coefficients from the four transforms of eight that the passes leave. */
  function Coefficients(y: seq<int>): (x: seq<int>)
    requires |y| == 32
    ensures |x| == 32
  {
    Merge(Even(y), Odd(y))
  }

  lemma Reversed8Is(y: seq<int>, p: nat)
    requires p + 8 <= |y|
    ensures Reversed8(y, p) == [y[p], y[p + 4], y[p + 2], y[p + 6], y[p + 1], y[p + 5], y[p + 3], y[p + 7]]
  {
  }

  lemma MergeAt(even: seq<int>, odd: seq<int>, j: nat)
    requires j < |even| == |odd|
    ensures Merge(even, odd)[2 * j] == even[j]
    ensures Merge(even, odd)[2 * j + 1] == odd[j] + if j + 1 < |odd| then odd[j + 1] else 0
  {
  }

  /** Sixteen coefficients from the two transforms of eight at p and p + 8. */
  lemma SixteenAre(y: seq<int>, p: nat)
    requires p + 16 <= |y|
    ensures Merge(Reversed8(y, p), Reversed8(y, p + 8))
         == [y[p], y[p + 8] + y[p + 12], y[p + 4], y[p + 12] + y[p + 10],
             y[p + 2], y[p + 10] + y[p + 14], y[p + 6], y[p + 14] + y[p + 9],
             y[p + 1], y[p + 9] + y[p + 13], y[p + 5], y[p + 13] + y[p + 11],
             y[p + 3], y[p + 11] + y[p + 15], y[p + 7], y[p + 15]]
  {
    hide Merge, Reversed8;
    var a, b := Reversed8(y, p), Reversed8(y, p + 8);
    Reversed8Is(y, p);
    Reversed8Is(y, p + 8);
    MergeAt(a, b, 0);
    MergeAt(a, b, 1);
    MergeAt(a, b, 2);
    MergeAt(a, b, 3);
    MergeAt(a, b, 4);
    MergeAt(a, b, 5);
    MergeAt(a, b, 6);
    MergeAt(a, b, 7);
  }

  lemma LowerEven(y: seq<int>, j: nat)
    requires |y| == 32 && j < 8
    ensures Shuffle(y).lo[2 * j] == Even(y)[8 + j]
  {
    hide Merge, Reversed8;
    SixteenAre(y, 0);
  }

  lemma LowerOdd(y: seq<int>, j: nat)
    requires |y| == 32 && j < 8
    ensures Shuffle(y).lo[2 * j + 1] == Odd(y)[8 + j] + if j < 7 then Odd(y)[9 + j] else 0
  {
    hide Merge, Reversed8;
    SixteenAre(y, 16);
  }

  lemma UpperEven(y: seq<int>, j: nat)
    requires |y| == 32 && j < 8
    ensures Shuffle(y).hi[2 * j] == Even(y)[8 - j]
  {
    hide Merge, Reversed8;
    SixteenAre(y, 0);
  }

  lemma UpperOdd(y: seq<int>, j: nat)
    requires |y| == 32 && j < 8
    ensures Shuffle(y).hi[2 * j + 1] == Odd(y)[7 - j] + Odd(y)[8 - j]
  {
    hide Merge, Reversed8;
    SixteenAre(y, 16);
  }

  /** Row i of the lower half gets coefficient 16 + i, that of the upper half coefficient 16 - i. */
  lemma ShuffleIsTransform(y: seq<int>, i: nat)
    requires |y| == 32 && i < 16
    ensures Shuffle(y).lo[i] == Coefficients(y)[16 + i] && Shuffle(y).hi[i] == Coefficients(y)[16 - i]
    ensures Shuffle(y).zero == Coefficients(y)[0]
  {
    hide Merge, Reversed8, Shuffle, Even, Odd;
    var j := i / 2;
    LowerEven(y, j);
    LowerOdd(y, j);
    UpperEven(y, j);
    UpperOdd(y, j);
    MergeAt(Even(y), Odd(y), 8 + j);
    MergeAt(Even(y), Odd(y), if i % 2 == 0 then 8 - j else 7 - j);
    FirstIs(y);
  }

  lemma FirstIs(y: seq<int>)
    requires |y| == 32
    ensures Shuffle(y).zero == Coefficients(y)[0]
  {
    hide Merge, Reversed8;
    MergeAt(Even(y), Odd(y), 0);
    SixteenAre(y, 0);
  }

  /** The arithmetic that is not modelled: the passes of the DCT on a block scaled down by es bits,
      clipping and scaling back up, rounding to 16 bits. */
  datatype Numeric = Numeric(passes: (seq<int>, nat) -> seq<int>, rescale: (int, nat) -> int, round: int -> int)

  function Map(s: seq<int>, f: int -> int): (t: seq<int>)
    ensures |t| == |s| && forall i | 0 <= i < |s| :: t[i] == f(s[i])
  {
    seq(|s|, i requires 0 <= i < |s| => f(s[i]))
  }

  /** How far a block with gb guard bits is scaled down: as little as leaves six of them. */
  function Excess(gb: nat): (n: nat)
    ensures gb + n >= 6 && (n > 0 ==> gb + n == 6)
  {
    if gb < 6 then 6 - gb else 0
  }

  function Transformed(m: Numeric, x: seq<int>, gb: nat): Block
  {
    var y := m.passes(x, Excess(gb));
    var b := Shuffle(if |y| == 32 then y else seq(32, _ => 0));
    if Excess(gb) == 0 then b
    else
      var f := v => m.rescale(v, Excess(gb));
      Block(f(b.zero), Map(b.lo, f), Map(b.hi, f))
  }

  // ----- histories

  function LoVal(h: seq<Block>, s: int, r: nat): int
    requires s < |h| && r < 16
  {
    if s < 0 then 0 else h[s].lo[r]
  }

  function HiVal(h: seq<Block>, s: int, r: nat): int
    requires s < |h| && r < 16
  {
    if s < 0 then 0 else h[s].hi[r]
  }

  function ZeroVal(h: seq<Block>, s: int): int
    requires s < |h|
  {
    if s < 0 then 0 else h[s].zero
  }

  /** a & 7 for a in -8..15. */
  function And7(a: int): (r: nat)
    requires -8 <= a < 16
    ensures r < 8 && (r == a || r == a + 8 || r == a - 8)
  {
    if a < 0 then a + 8 else if a < 8 then a else a - 8
  }

  /** vindex before block t. */
  function VIndex(t: nat): (v: nat)
    ensures v < 8
  {
    if t == 0 then 0 else And7(VIndex(t - 1) - (t - 1) % 2)
  }

  /** Where block t writes the upper half, in the other bank. */
  function HiPos(t: nat): (p: nat)
    ensures p < 8
  {
    And7(VIndex(t) - t % 2)
  }

  /** The last block before t that wrote position p of the lower half in bank q, or -1. */
  function LastLo(t: nat, q: nat, p: nat): (s: int)
    ensures -1 <= s < t
  {
    if t == 0 then -1
    else if q == (t - 1) % 2 && p == VIndex(t - 1) then t - 1
    else LastLo(t - 1, q, p)
  }

  function LastHi(t: nat, q: nat, p: nat): (s: int)
    ensures -1 <= s < t
  {
    if t == 0 then -1
    else if q != (t - 1) % 2 && p == HiPos(t - 1) then t - 1
    else LastHi(t - 1, q, p)
  }

  lemma VIndexTwo(t: nat)
    requires t >= 2
    ensures VIndex(t - 2) == And7(VIndex(t) + 1)
  {
    assert (t - 1) % 2 + (t - 2) % 2 == 1;
  }

  /** Position VIndex(t) + x holds block t - 2x. */
  lemma {:induction false} LoAge(t: nat, x: nat)
    requires x < 8
    ensures LastLo(t + 1, t % 2, And7(VIndex(t) + x)) == if 2 * x <= t then t - 2 * x else -1
    decreases t
  {
    hide LastLo, VIndex;
    var p := And7(VIndex(t) + x);
    if x == 0 {
      LoNow(t);
    } else if t >= 2 {
      VIndexTwo(t);
      LoAge(t - 2, x - 1);
      LoOther(t, p);
    } else {
      LoFirst(t, p);
    }
  }

  lemma LoNow(t: nat)
    ensures LastLo(t + 1, t % 2, VIndex(t)) == t
  {
  }

  lemma LoOther(t: nat, p: nat)
    requires t >= 2 && p != VIndex(t)
    ensures LastLo(t + 1, t % 2, p) == LastLo(t - 1, (t - 2) % 2, p)
  {
    hide VIndex;
    assert t % 2 == (t - 2) % 2 != (t - 1) % 2;
    assert LastLo(t + 1, t % 2, p) == LastLo(t, t % 2, p);
  }

  lemma LoFirst(t: nat, p: nat)
    requires t < 2 && p != VIndex(t)
    ensures LastLo(t + 1, t % 2, p) == -1
  {
    assert LastLo(t + 1, t % 2, p) == LastLo(t, t % 2, p);
  }

  /** Position VIndex(t) + i of the upper half holds block t - 1 - 2i. */
  lemma {:induction false} HiAge(t: nat, i: nat)
    requires i < 8
    ensures LastHi(t, t % 2, And7(VIndex(t) + i)) == if 2 * i + 1 <= t then t - 1 - 2 * i else -1
    decreases t
  {
    hide LastHi, VIndex, HiPos;
    var p := And7(VIndex(t) + i);
    if t > 0 && i == 0 {
      HiNow(t);
    } else if t >= 2 {
      VIndexTwo(t);
      HiAge(t - 2, i - 1);
      HiNow(t);
      HiOther(t, p);
    } else {
      HiFirst(t, p);
    }
  }

  lemma HiNow(t: nat)
    requires t > 0
    ensures HiPos(t - 1) == VIndex(t) && LastHi(t, t % 2, VIndex(t)) == t - 1
  {
  }

  lemma HiFirst(t: nat, p: nat)
    requires t < 2 && (t == 1 ==> p != VIndex(t))
    ensures LastHi(t, t % 2, p) == -1
  {
    if t == 1 {
      HiNow(t);
      assert LastHi(t, t % 2, p) == LastHi(t - 1, t % 2, p);
    }
  }

  lemma HiOther(t: nat, p: nat)
    requires t >= 2 && p != HiPos(t - 1)
    ensures LastHi(t, t % 2, p) == LastHi(t - 2, (t - 2) % 2, p)
  {
    hide VIndex, HiPos;
    assert t % 2 == (t - 2) % 2 != (t - 1) % 2;
    assert LastHi(t, t % 2, p) == LastHi(t - 1, t % 2, p);
  }

  /** Block t itself writes the upper half of the other bank. */
  lemma HiAgeSame(t: nat, p: nat)
    ensures LastHi(t + 1, t % 2, p) == LastHi(t, t % 2, p)
  {
  }

  // ----- the cells of the buffer

  /** Bank q, row r, column c: channel ch has columns 32 * ch on, its upper half 16 further. */
  function Cell(v: seq<int>, q: nat, r: nat, c: nat): int
    requires |v| == 2 * VBUF_LENGTH && q < 2 && r < 17 && c < 64
  {
    v[VBUF_LENGTH * q + 64 * r + c]
  }

  /** w is v with x at column c0 and eight columns further, in row r0 of bank q0. */
  ghost predicate Put(v: seq<int>, w: seq<int>, q0: nat, r0: nat, c0: nat, x: int) {
    && |v| == |w| == 2 * VBUF_LENGTH
    && forall q, r, c {:trigger Cell(w, q, r, c)} | 0 <= q < 2 && 0 <= r < 17 && 0 <= c < 64 ::
         Cell(w, q, r, c) == if q == q0 && r == r0 && (c == c0 || c == c0 + 8) then x else Cell(v, q, r, c)
  }

  /** The same for rows 0 to n - 1. */
  ghost predicate PutRows(v: seq<int>, w: seq<int>, q0: nat, c0: nat, x: Sixteen, n: nat) {
    && |v| == |w| == 2 * VBUF_LENGTH && n <= 16
    && forall q, r, c {:trigger Cell(w, q, r, c)} | 0 <= q < 2 && 0 <= r < 17 && 0 <= c < 64 ::
         Cell(w, q, r, c) == if q == q0 && r < n && (c == c0 || c == c0 + 8) then x[r] else Cell(v, q, r, c)
  }

  method Write(vbuf: array<int>, d: nat, s: int, ghost q0: nat, ghost r0: nat, ghost c0: nat)
    requires vbuf.Length == 2 * VBUF_LENGTH && q0 < 2 && r0 < 17 && c0 + 8 < 64 && d == VBUF_LENGTH * q0 + 64 * r0 + c0
    modifies vbuf
    ensures Put(old(vbuf[..]), vbuf[..], q0, r0, c0, s)
  {
    vbuf[d] := s;
    vbuf[d + 8] := s;
  }

  lemma PutNext(v: seq<int>, w: seq<int>, w1: seq<int>, q0: nat, c0: nat, x: Sixteen, n: nat)
    requires PutRows(v, w, q0, c0, x, n) && n < 16 && Put(w, w1, q0, n, c0, x[n])
    ensures PutRows(v, w1, q0, c0, x, n + 1)
  {
    hide Cell;
  }

  /** Sixteen rows from d on. */
  method WriteRows(vbuf: array<int>, d0: nat, x: Sixteen, ghost q0: nat, ghost c0: nat)
    requires vbuf.Length == 2 * VBUF_LENGTH && q0 < 2 && c0 + 8 < 64 && d0 == VBUF_LENGTH * q0 + c0
    modifies vbuf
    ensures PutRows(old(vbuf[..]), vbuf[..], q0, c0, x, 16)
  {
    hide Cell;
    var i, d := 0, d0;
    while i < 16
      invariant 0 <= i <= 16 && d == d0 + 64 * i
      invariant PutRows(old(vbuf[..]), vbuf[..], q0, c0, x, i)
    {
      ghost var w := vbuf[..];
      Write(vbuf, d, x[i], q0, i, c0);
      PutNext(old(vbuf[..]), w, vbuf[..], q0, c0, x, i);
      d := d + 64;
      i := i + 1;
    }
  }

  /** Load, clip, shift and store sixteen rows again. */
  method RescaleRows(m: Numeric, vbuf: array<int>, d0: nat, es: nat, ghost x: Sixteen, ghost q0: nat, ghost c0: nat)
    requires vbuf.Length == 2 * VBUF_LENGTH && q0 < 2 && c0 + 8 < 64 && d0 == VBUF_LENGTH * q0 + c0
    requires RowsHold(vbuf[..], q0, c0, x)
    modifies vbuf
    ensures PutRows(old(vbuf[..]), vbuf[..], q0, c0, Map(x, v => m.rescale(v, es)), 16)
  {
    ghost var y: Sixteen := Map(x, v => m.rescale(v, es));
    var i, d := 0, d0;
    while i < 16
      invariant 0 <= i <= 16 && d == d0 + 64 * i
      invariant PutRows(old(vbuf[..]), vbuf[..], q0, c0, y, i)
    {
      ghost var w := vbuf[..];
      assert Cell(w, q0, i, c0) == x[i];
      Write(vbuf, d, m.rescale(vbuf[d], es), q0, i, c0);
      PutNext(old(vbuf[..]), w, vbuf[..], q0, c0, y, i);
      d := d + 64;
      i := i + 1;
    }
  }

  // ----- one block of one channel

  /** Whether FDCT32 writes the cell for channel ch in block t. */
  predicate Touches(t: nat, ch: nat, q: nat, r: nat, c: nat) {
    var odd, lo, hi := t % 2, 32 * ch + VIndex(t), 32 * ch + HiPos(t);
    if q == odd then r < 16 && (c == lo || c == lo + 8)
    else if r == 16 then c == hi || c == hi + 8
    else c == hi + 16 || c == hi + 24
  }

  function Value(b: Block, t: nat, q: nat, r: nat): int
    requires r < 17
  {
    if r == 16 then b.zero else if q == t % 2 then b.lo[r] else b.hi[r]
  }

  /** w is v with block b written. */
  ghost predicate Written(v: seq<int>, w: seq<int>, t: nat, ch: nat, b: Block) {
    && |v| == |w| == 2 * VBUF_LENGTH
    && forall q, r, c {:trigger Cell(w, q, r, c)} | 0 <= q < 2 && 0 <= r < 17 && 0 <= c < 64 ::
         Cell(w, q, r, c) == if Touches(t, ch, q, r, c) then Value(b, t, q, r) else Cell(v, q, r, c)
  }

  /** Three writes of the cells of a block, whatever they held before. */
  lemma ThreeWrites(v: seq<int>, w0: seq<int>, w1: seq<int>, w2: seq<int>, w3: seq<int>, t: nat, ch: nat, b0: Block,
                    b: Block)
    requires ch < 2 && ((w0 == v && |v| == 2 * VBUF_LENGTH) || Written(v, w0, t, ch, b0))
    requires Put(w0, w1, 1 - t % 2, 16, 32 * ch + HiPos(t), b.zero)
    requires PutRows(w1, w2, t % 2, 32 * ch + VIndex(t), b.lo, 16)
    requires PutRows(w2, w3, 1 - t % 2, 32 * ch + 16 + HiPos(t), b.hi, 16)
    ensures Written(v, w3, t, ch, b)
  {
    hide Cell, VIndex, HiPos;
  }

  ghost predicate RowsHold(w: seq<int>, q0: nat, c0: nat, x: Sixteen) {
    |w| == 2 * VBUF_LENGTH && q0 < 2 && c0 < 64 && forall r {:trigger x[r]} | 0 <= r < 16 :: Cell(w, q0, r, c0) == x[r]
  }

  /** What rescaling loads: each value of the block is still there when its turn comes. */
  lemma WrittenHolds(v: seq<int>, w: seq<int>, w1: seq<int>, w2: seq<int>, t: nat, ch: nat, b: Block, z: int, x: Sixteen)
    requires ch < 2 && Written(v, w, t, ch, b)
    ensures Cell(w, 1 - t % 2, 16, 32 * ch + HiPos(t)) == b.zero
    ensures Put(w, w1, 1 - t % 2, 16, 32 * ch + HiPos(t), z) ==> RowsHold(w1, t % 2, 32 * ch + VIndex(t), b.lo)
    ensures Put(w, w1, 1 - t % 2, 16, 32 * ch + HiPos(t), z) && PutRows(w1, w2, t % 2, 32 * ch + VIndex(t), x, 16) ==>
              RowsHold(w2, 1 - t % 2, 32 * ch + 16 + HiPos(t), b.hi)
  {
    hide Cell, VIndex, HiPos;
  }

  /** Transform one block and store it twice: the lower half in the bank of its parity, the upper half and
      row 16 in the other bank. */
  method FDCT32(m: Numeric, buf: seq<int>, vbuf: array<int>, dest: nat, offset: nat, oddBlock: nat, gb: nat,
                ghost t: nat, ghost ch: nat)
    requires vbuf.Length == 2 * VBUF_LENGTH && ch < 2
    requires dest == 32 * ch && offset == VIndex(t) && oddBlock == t % 2
    modifies vbuf
    ensures Written(old(vbuf[..]), vbuf[..], t, ch, Transformed(m, buf, gb))
  {
    hide Cell, VIndex, Shuffle, Put, PutRows, Written, RowsHold;
    var es := Excess(gb);
    var y := m.passes(buf, es);
    var b := Shuffle(if |y| == 32 then y else seq(32, _ => 0));
    var bank, other := if oddBlock == 1 then VBUF_LENGTH else 0, if oddBlock == 1 then 0 else VBUF_LENGTH;
    var late := And7(offset - oddBlock);
    ghost var v := vbuf[..];
    // row 16 takes its value one block late
    Write(vbuf, dest + 64 * 16 + late + other, b.zero, 1 - t % 2, 16, 32 * ch + late);
    ghost var w1 := vbuf[..];
    // the lower half
    WriteRows(vbuf, dest + offset + bank, b.lo, t % 2, 32 * ch + offset);
    ghost var w2 := vbuf[..];
    // the upper half
    WriteRows(vbuf, dest + 16 + late + other, b.hi, 1 - t % 2, 32 * ch + 16 + late);
    ThreeWrites(v, v, w1, w2, vbuf[..], t, ch, b, b);
    if es != 0 {
      Rescale(m, vbuf, es, dest + offset + bank, dest + late + other, t, ch, v, b);
    }
  }

  /** The block is clipped and scaled back up where it lies; lo and hi are where its two halves start,
      less 16. */
  method Rescale(m: Numeric, vbuf: array<int>, es: nat, lo: nat, hi: nat, ghost t: nat, ghost ch: nat,
                 ghost v: seq<int>, ghost b: Block)
    requires vbuf.Length == 2 * VBUF_LENGTH && ch < 2 && Written(v, vbuf[..], t, ch, b)
    requires lo == VBUF_LENGTH * (t % 2) + 32 * ch + VIndex(t) && hi == VBUF_LENGTH * (1 - t % 2) + 32 * ch + HiPos(t)
    modifies vbuf
    ensures var f := x => m.rescale(x, es);
            Written(v, vbuf[..], t, ch, Block(f(b.zero), Map(b.lo, f), Map(b.hi, f)))
  {
    hide VIndex, Put, PutRows, Written, RowsHold;
    ghost var f := x => m.rescale(x, es);
    ghost var w := vbuf[..];
    var s := vbuf[hi + 64 * 16];
    Write(vbuf, hi + 64 * 16, m.rescale(s, es), 1 - t % 2, 16, 32 * ch + HiPos(t));
    ghost var w1 := vbuf[..];
    WrittenHolds(v, w, w1, w1, t, ch, b, m.rescale(s, es), Map(b.lo, f));
    RescaleRows(m, vbuf, lo, es, b.lo, t % 2, 32 * ch + VIndex(t));
    ghost var w2 := vbuf[..];
    WrittenHolds(v, w, w1, w2, t, ch, b, m.rescale(s, es), Map(b.lo, f));
    RescaleRows(m, vbuf, hi + 16, es, b.hi, 1 - t % 2, 32 * ch + 16 + HiPos(t));
    ThreeWrites(v, w, w1, w2, vbuf[..], t, ch, b, Block(f(b.zero), Map(b.lo, f), Map(b.hi, f)));
  }

  // ----- the memory refines the history

  /** Position p of both halves of row r in bank q, and its double, hold what the last block to write
      them put there; zero before the first. */
  ghost predicate CellOk(v: seq<int>, ch: nat, h: seq<Block>, q: nat, r: nat, p: nat)
    requires |v| == 2 * VBUF_LENGTH && ch < 2 && q < 2 && r < 17 && p < 8
  {
    var c, lo, hi := 32 * ch + p, LastLo(|h|, q, p), LastHi(|h|, q, p);
    if r == 16 then
      Cell(v, q, r, c) == Cell(v, q, r, c + 8) == ZeroVal(h, hi)
    else
      && Cell(v, q, r, c) == Cell(v, q, r, c + 8) == LoVal(h, lo, r)
      && Cell(v, q, r, c + 16) == Cell(v, q, r, c + 24) == HiVal(h, hi, r)
  }

  ghost predicate ChannelOk(v: seq<int>, ch: nat, h: seq<Block>)
    requires ch < 2
  {
    && |v| == 2 * VBUF_LENGTH
    && forall q, r, p | 0 <= q < 2 && 0 <= r < 17 && 0 <= p < 8 :: CellOk(v, ch, h, q, r, p)
  }

  lemma ZerosOk(v: seq<int>, ch: nat)
    requires ch < 2 && |v| == 2 * VBUF_LENGTH && forall i | 0 <= i < |v| :: v[i] == 0
    ensures ChannelOk(v, ch, [])
  {
  }

  lemma BlockCell(v: seq<int>, w: seq<int>, ch: nat, h: seq<Block>, b: Block, q: nat, r: nat, p: nat)
    requires ch < 2 && Written(v, w, |h|, ch, b) && q < 2 && r < 17 && p < 8 && CellOk(v, ch, h, q, r, p)
    ensures CellOk(w, ch, h + [b], q, r, p)
  {
    hide Cell, VIndex, HiPos;
    var t := |h|;
    assert q == t % 2 || q == 1 - t % 2;
  }

  /** FDCT32 appends the block to the history of its channel. */
  lemma BlockAppended(v: seq<int>, w: seq<int>, ch: nat, h: seq<Block>, b: Block)
    requires ch < 2 && ChannelOk(v, ch, h) && Written(v, w, |h|, ch, b)
    ensures ChannelOk(w, ch, h + [b])
  {
    hide CellOk, Written;
    assert |w| == 2 * VBUF_LENGTH by { WrittenLength(v, w, |h|, ch, b); }
    forall q, r, p | 0 <= q < 2 && 0 <= r < 17 && 0 <= p < 8 ensures CellOk(w, ch, h + [b], q, r, p) {
      BlockCell(v, w, ch, h, b, q, r, p);
    }
  }

  lemma WrittenLength(v: seq<int>, w: seq<int>, t: nat, ch: nat, b: Block)
    requires Written(v, w, t, ch, b)
    ensures |w| == 2 * VBUF_LENGTH
  {
  }

  /** ... and leaves the other channel alone. */
  lemma OtherChannel(v: seq<int>, w: seq<int>, ch: nat, t: nat, b: Block, other: nat, h: seq<Block>)
    requires ch < 2 && other == 1 - ch && ChannelOk(v, other, h) && Written(v, w, t, ch, b)
    ensures ChannelOk(w, other, h)
  {
    hide Cell, VIndex, HiPos, LastLo, LastHi, LoVal, HiVal, ZeroVal;
    forall q, r, p | 0 <= q < 2 && 0 <= r < 17 && 0 <= p < 8 ensures CellOk(w, other, h, q, r, p) {
      assert CellOk(v, other, h, q, r, p);
    }
  }

  /** The filter input: the last eight values of the lower half of a row, every second block ... */
  function Lows(h: seq<Block>, r: nat): seq<int>
    requires h != [] && r < 16
  {
    seq(8, x requires 0 <= x < 8 => LoVal(h, |h| - 1 - 2 * x, r))
  }

  /** ... of the upper half, oldest first, from the blocks between ... */
  function Highs(h: seq<Block>, r: nat): seq<int>
    requires h != [] && r < 16
  {
    seq(8, x requires 0 <= x < 8 => HiVal(h, |h| - 16 + 2 * x, r))
  }

  /** ... and of row 16. */
  function Zeros(h: seq<Block>): seq<int>
    requires h != []
  {
    seq(8, x requires 0 <= x < 8 => ZeroVal(h, |h| - 2 - 2 * x))
  }

  /** Eight cells from d on. */
  function Eight(v: seq<int>, d: nat): seq<int>
    requires d + 8 <= |v|
  {
    seq(8, x requires 0 <= x < 8 => v[d + x])
  }

  /** Eight cells from d + 23 down. */
  function EightDown(v: seq<int>, d: nat): seq<int>
    requires d + 24 <= |v|
  {
    seq(8, x requires 0 <= x < 8 => v[d + 23 - x])
  }

  /** Where the filter starts to read row r of channel ch after block t. */
  function ReadAt(t: nat, ch: nat, r: nat): nat {
    VBUF_LENGTH * (t % 2) + 64 * r + 32 * ch + VIndex(t)
  }

  lemma ReadCell(v: seq<int>, ch: nat, h: seq<Block>, r: nat, x: nat)
    requires ch < 2 && h != [] && ChannelOk(v, ch, h) && r < 17 && x < 8
    ensures var t := |h| - 1; var d := ReadAt(t, ch, r);
            && d + 24 <= |v|
            && (r < 16 ==> v[d + x] == LoVal(h, t - 2 * x, r) && v[d + 16 + x] == HiVal(h, t - 1 - 2 * x, r))
            && (r == 16 ==> v[d + x] == ZeroVal(h, t - 1 - 2 * x))
  {
    hide VIndex, LastLo, LastHi;
    var t := |h| - 1;
    var p := And7(VIndex(t) + x);
    assert CellOk(v, ch, h, t % 2, r, p);
    LoAge(t, x);
    HiAge(t, x);
    HiAgeSame(t, p);
  }

  /** The last eight values of either half of a row lie side by side where the filter reads. */
  lemma ReadsHistory(v: seq<int>, ch: nat, h: seq<Block>, r: nat)
    requires ch < 2 && h != [] && ChannelOk(v, ch, h) && r < 17
    ensures ReadAt(|h| - 1, ch, r) + 24 <= |v|
    ensures r < 16 ==>
              Eight(v, ReadAt(|h| - 1, ch, r)) == Lows(h, r) && EightDown(v, ReadAt(|h| - 1, ch, r)) == Highs(h, r)
    ensures r == 16 ==> Eight(v, ReadAt(|h| - 1, ch, r)) == Zeros(h)
  {
    hide ChannelOk, ReadAt, LoVal, HiVal, ZeroVal;
    ReadCell(v, ch, h, r, 0);
    forall x | 0 <= x < 8
      ensures var t := |h| - 1; var d := ReadAt(t, ch, r);
              && d + 24 <= |v|
              && (r < 16 ==> v[d + x] == LoVal(h, t - 2 * x, r) && v[d + 23 - x] == HiVal(h, t - 15 + 2 * x, r))
              && (r == 16 ==> v[d + x] == ZeroVal(h, t - 1 - 2 * x))
    {
      ReadCell(v, ch, h, r, x);
      ReadCell(v, ch, h, r, 7 - x);
    }
  }

  // ----- the polyphase filter

  type Coefs = c: seq<int> | |c| == 264 witness seq(264, _ => 0)

  function Madd(sum: int, v: int, c: int): int {
    sum + v * c
  }

  /** The sums of the first n taps of a row. */
  function Sum1(lo: seq<int>, hi: seq<int>, coef: Coefs, at: nat, n: nat): int
    requires |lo| == |hi| == 8 && n <= 8 && at + 16 <= 264
  {
    if n == 0 then 0
    else Madd(Madd(Sum1(lo, hi, coef, at, n - 1), lo[n - 1], coef[at + 2 * n - 2]), hi[n - 1], -coef[at + 2 * n - 1])
  }

  function Sum2(lo: seq<int>, hi: seq<int>, coef: Coefs, at: nat, n: nat): int
    requires |lo| == |hi| == 8 && n <= 8 && at + 16 <= 264
  {
    if n == 0 then 0
    else Madd(Madd(Sum2(lo, hi, coef, at, n - 1), lo[n - 1], coef[at + 2 * n - 1]), hi[n - 1], coef[at + 2 * n - 2])
  }

  function SumZero(z: seq<int>, coef: Coefs, n: nat): int
    requires |z| == 8 && n <= 8
  {
    if n == 0 then 0 else Madd(SumZero(z, coef, n - 1), z[n - 1], coef[256 + n - 1])
  }

  /** Output sample j of the block that was written last. */
  function Sample(m: Numeric, coef: Coefs, h: seq<Block>, j: nat): int
    requires h != [] && j < 32
  {
    m.round(
      if j == 16 then SumZero(Zeros(h), coef, 8)
      else if j < 16 then Sum1(Lows(h, j), Highs(h, j), coef, 16 * j, 8)
      else Sum2(Lows(h, 32 - j), Highs(h, 32 - j), coef, 16 * (32 - j), 8))
  }

  /** MC0 and MC2: both sums of a row that starts at vb1. */
  method ConvolveRow(v: seq<int>, vb1: nat, coef: Coefs, at: nat) returns (sum1: int, sum2: int)
    requires vb1 + 24 <= |v| && at + 16 <= 264
    ensures sum1 == Sum1(Eight(v, vb1), EightDown(v, vb1), coef, at, 8)
    ensures sum2 == Sum2(Eight(v, vb1), EightDown(v, vb1), coef, at, 8)
  {
    hide Madd;
    sum1, sum2 := 0, 0;
    var x := 0;
    while x < 8
      invariant 0 <= x <= 8
      invariant sum1 == Sum1(Eight(v, vb1), EightDown(v, vb1), coef, at, x)
      invariant sum2 == Sum2(Eight(v, vb1), EightDown(v, vb1), coef, at, x)
    {
      var c1, c2 := coef[at + 2 * x], coef[at + 2 * x + 1];
      var vLo, vHi := v[vb1 + x], v[vb1 + 23 - x];
      sum1 := Madd(Madd(sum1, vLo, c1), vHi, -c2);
      sum2 := Madd(Madd(sum2, vLo, c2), vHi, c1);
      x := x + 1;
    }
  }

  /** MC1: the sum of row 16. */
  method ConvolveZero(v: seq<int>, vb1: nat, coef: Coefs) returns (sum1: int)
    requires vb1 + 8 <= |v|
    ensures sum1 == SumZero(Eight(v, vb1), coef, 8)
  {
    hide Madd;
    sum1 := 0;
    var x := 0;
    while x < 8
      invariant 0 <= x <= 8
      invariant sum1 == SumZero(Eight(v, vb1), coef, x)
    {
      sum1 := Madd(sum1, v[vb1 + x], coef[256 + x]);
      x := x + 1;
    }
  }

  /** Where sample j of channel ch goes: the channels are interleaved. */
  function PcmAt(stereo: bool, j: nat, ch: nat): nat {
    if stereo then 2 * j + ch else j
  }

  /** Sample j of all channels is in its place. */
  ghost predicate SampleOut(pcm: seq<int>, at: nat, stereo: bool, j: nat, m: Numeric, coef: Coefs, h: seq<seq<Block>>)
    requires j < 32 && |h| == Chans(stereo) && (forall ch | 0 <= ch < |h| :: h[ch] != [])
  {
    && at + Chans(stereo) * 32 <= |pcm|
    && forall ch | 0 <= ch < |h| :: pcm[at + PcmAt(stereo, j, ch)] == Sample(m, coef, h[ch], j)
  }

  function Chans(stereo: bool): nat {
    if stereo then 2 else 1
  }

  /** The 32 samples of all channels for the blocks that the histories end with. */
  ghost predicate SamplesOut(pcm: seq<int>, at: nat, stereo: bool, m: Numeric, coef: Coefs, h: seq<seq<Block>>)
    requires |h| == Chans(stereo) && (forall ch | 0 <= ch < |h| :: h[ch] != [])
  {
    forall j | 0 <= j < 32 :: SampleOut(pcm, at, stereo, j, m, coef, h)
  }

  lemma SamplesKept(p: seq<int>, q: seq<int>, at: nat, k: nat, stereo: bool, m: Numeric, coef: Coefs, h: seq<seq<Block>>)
    requires |h| == Chans(stereo) && (forall ch | 0 <= ch < |h| :: h[ch] != [])
    requires SamplesOut(p, at, stereo, m, coef, h) && at + Chans(stereo) * 32 <= k <= |p| == |q| && p[..k] == q[..k]
    ensures SamplesOut(q, at, stereo, m, coef, h)
  {
    hide Sample;
    forall j | 0 <= j < 32 ensures SampleOut(q, at, stereo, j, m, coef, h) {
      assert SampleOut(p, at, stereo, j, m, coef, h);
      forall ch | 0 <= ch < |h| ensures q[at + PcmAt(stereo, j, ch)] == p[at + PcmAt(stereo, j, ch)] {
        assert q[..k][at + PcmAt(stereo, j, ch)] == p[..k][at + PcmAt(stereo, j, ch)];
      }
    }
  }

  /** All channels have seen block t, and the buffer holds their histories. */
  ghost predicate BufferOk(v: seq<int>, h: seq<seq<Block>>, stereo: bool, t: nat) {
    && |h| == Chans(stereo)
    && forall ch | 0 <= ch < |h| :: |h[ch]| == t && ChannelOk(v, ch, h[ch])
  }

  /** The samples other than j and k stay, and so does everything around the block. */
  ghost predicate OthersKept(p: seq<int>, q: seq<int>, at: nat, stereo: bool, j: nat, k: nat) {
    && |p| == |q|
    && forall i | 0 <= i < |p| :: q[i] == p[i] || exists ch | 0 <= ch < Chans(stereo) ::
         i == at + PcmAt(stereo, j, ch) || i == at + PcmAt(stereo, k, ch)
  }

  lemma SampleKept(p: seq<int>, q: seq<int>, at: nat, stereo: bool, j: nat, k: nat, i: nat, m: Numeric, coef: Coefs,
                   h: seq<seq<Block>>)
    requires j < 32 && k < 32 && i < 32 && i != j && i != k && OthersKept(p, q, at, stereo, j, k)
    requires |h| == Chans(stereo) && (forall ch | 0 <= ch < |h| :: h[ch] != [])
    requires SampleOut(p, at, stereo, i, m, coef, h)
    ensures SampleOut(q, at, stereo, i, m, coef, h)
  {
    hide Sample;
  }

  lemma AroundKept(p: seq<int>, q: seq<int>, at: nat, stereo: bool, j: nat, k: nat)
    requires j < 32 && k < 32 && OthersKept(p, q, at, stereo, j, k) && at + Chans(stereo) * 32 <= |p|
    ensures q[..at] == p[..at] && q[at + Chans(stereo) * 32..] == p[at + Chans(stereo) * 32..]
  {
  }

  /** One channel of samples r and 32 - r, or of sample 0. */
  method EmitRow(m: Numeric, pcm: array<int>, at: nat, v: seq<int>, base: nat, coef: Coefs, stereo: bool, r: nat, ch: nat,
                 ghost h: seq<Block>, ghost t: nat)
    requires at + Chans(stereo) * 32 <= pcm.Length && r < 16 && ch < Chans(stereo)
    requires |h| == t + 1 && ChannelOk(v, ch, h) && base == ReadAt(t, 0, 0)
    modifies pcm
    ensures pcm[at + PcmAt(stereo, r, ch)] == Sample(m, coef, h, r)
    ensures r > 0 ==> pcm[at + PcmAt(stereo, 32 - r, ch)] == Sample(m, coef, h, 32 - r)
    ensures forall i | 0 <= i < pcm.Length && i != at + PcmAt(stereo, r, ch) &&
                       (r > 0 ==> i != at + PcmAt(stereo, 32 - r, ch)) ::
              pcm[i] == old(pcm[i])
  {
    hide ChannelOk, Sum1, Sum2, Eight, EightDown, Lows, Highs;
    ReadsHistory(v, ch, h, r);
    var sum1, sum2 := ConvolveRow(v, base + 64 * r + 32 * ch, coef, 16 * r);
    pcm[at + PcmAt(stereo, r, ch)] := m.round(sum1);
    if r > 0 {
      pcm[at + PcmAt(stereo, 32 - r, ch)] := m.round(sum2);
    }
  }

  /** Sample 16 of one channel. */
  method EmitZero(m: Numeric, pcm: array<int>, at: nat, v: seq<int>, base: nat, coef: Coefs, stereo: bool, ch: nat,
                  ghost h: seq<Block>, ghost t: nat)
    requires at + Chans(stereo) * 32 <= pcm.Length && ch < Chans(stereo)
    requires |h| == t + 1 && ChannelOk(v, ch, h) && base == ReadAt(t, 0, 0)
    modifies pcm
    ensures pcm[at + PcmAt(stereo, 16, ch)] == Sample(m, coef, h, 16)
    ensures forall i | 0 <= i < pcm.Length && i != at + PcmAt(stereo, 16, ch) :: pcm[i] == old(pcm[i])
  {
    hide ChannelOk, SumZero, Eight, Zeros;
    ReadsHistory(v, ch, h, 16);
    var sum1 := ConvolveZero(v, base + 64 * 16 + 32 * ch, coef);
    pcm[at + PcmAt(stereo, 16, ch)] := m.round(sum1);
  }

  /** All channels of a row. */
  method EmitRows(m: Numeric, pcm: array<int>, at: nat, v: seq<int>, base: nat, coef: Coefs, stereo: bool, r: nat,
                  ghost h: seq<seq<Block>>, ghost t: nat)
    requires at + Chans(stereo) * 32 <= pcm.Length && r <= 16
    requires BufferOk(v, h, stereo, t + 1) && base == ReadAt(t, 0, 0)
    modifies pcm
    ensures SampleOut(pcm[..], at, stereo, r, m, coef, h)
    ensures r > 0 ==> SampleOut(pcm[..], at, stereo, 32 - r, m, coef, h)
    ensures OthersKept(old(pcm[..]), pcm[..], at, stereo, r, if r == 0 then r else 32 - r)
  {
    hide ChannelOk, ReadAt, Sample;
    if r == 16 {
      EmitZero(m, pcm, at, v, base, coef, stereo, 0, h[0], t);
      if stereo {
        EmitZero(m, pcm, at, v, base, coef, stereo, 1, h[1], t);
      }
    } else {
      EmitRow(m, pcm, at, v, base, coef, stereo, r, 0, h[0], t);
      if stereo {
        EmitRow(m, pcm, at, v, base, coef, stereo, r, 1, h[1], t);
      }
    }
  }

  /** PolyphaseMono, PolyphaseStereo: 32 samples of each channel at pcm[at..]; base is where row 0 starts. */
  method Polyphase(m: Numeric, pcm: array<int>, at: nat, v: seq<int>, base: nat, coef: Coefs, stereo: bool,
                   ghost h: seq<seq<Block>>, ghost t: nat)
    requires at + Chans(stereo) * 32 <= pcm.Length
    requires BufferOk(v, h, stereo, t + 1) && base == ReadAt(t, 0, 0)
    modifies pcm
    ensures SamplesOut(pcm[..], at, stereo, m, coef, h)
    ensures pcm[..at] == old(pcm[..at]) && pcm[at + Chans(stereo) * 32..] == old(pcm[at + Chans(stereo) * 32..])
  {
    hide ChannelOk, ReadAt, Sample, SampleOut, OthersKept;
    ghost var p0 := pcm[..];
    // the first row
    EmitRows(m, pcm, at, v, base, coef, stereo, 0, h, t);
    ghost var p1 := pcm[..];
    AroundKept(p0, p1, at, stereo, 0, 0);
    // the middle row
    EmitRows(m, pcm, at, v, base, coef, stereo, 16, h, t);
    AroundKept(p1, pcm[..], at, stereo, 16, 16);
    SampleKept(p1, pcm[..], at, stereo, 16, 16, 0, m, coef, h);
    // the rows in between, from both ends
    var i := 15;
    while i > 0
      invariant 0 <= i <= 15
      invariant forall j | 0 <= j < 16 - i || j == 16 || 16 + i < j < 32 :: SampleOut(pcm[..], at, stereo, j, m, coef, h)
      invariant pcm[..at] == p0[..at] && pcm[at + Chans(stereo) * 32..] == p0[at + Chans(stereo) * 32..]
    {
      ghost var p := pcm[..];
      EmitRows(m, pcm, at, v, base, coef, stereo, 16 - i, h, t);
      AroundKept(p, pcm[..], at, stereo, 16 - i, 16 + i);
      forall j | 0 <= j < 16 - i || j == 16 || 16 + i < j < 32 ensures SampleOut(pcm[..], at, stereo, j, m, coef, h) {
        SampleKept(p, pcm[..], at, stereo, 16 - i, 16 + i, j, m, coef, h);
      }
      i := i - 1;
    }
  }

  // ----- a granule

  /** outBuf[ch][b] is block b of channel ch, gb[ch] its guard bits. */
  type Granule = g: seq<seq<seq<int>>> | |g| == 2 && |g[0]| == 18 && |g[1]| == 18
    witness [seq(18, _ => []), seq(18, _ => [])]

  /** The history of channel ch after the first n blocks of a granule. */
  function Grown(m: Numeric, h: seq<Block>, blocks: seq<seq<int>>, gb: nat, n: nat): (r: seq<Block>)
    requires n <= |blocks|
    ensures |r| == |h| + n
  {
    if n == 0 then h else Grown(m, h, blocks, gb, n - 1) + [Transformed(m, blocks[n - 1], gb)]
  }

  function Histories(m: Numeric, h: seq<seq<Block>>, outBuf: Granule, gb: (nat, nat), n: nat): (r: seq<seq<Block>>)
    requires n <= 18 && 1 <= |h| <= 2
    ensures |r| == |h| && forall ch | 0 <= ch < |h| :: |r[ch]| == |h[ch]| + n
  {
    if |h| == 1 then [Grown(m, h[0], outBuf[0], gb.0, n)]
    else [Grown(m, h[0], outBuf[0], gb.0, n), Grown(m, h[1], outBuf[1], gb.1, n)]
  }

  /** Block b of the granule has been turned into samples: each is the filter's answer to the history up to
      and including that block. */
  ghost predicate BlockOut(pcm: seq<int>, start: nat, stereo: bool, b: nat, m: Numeric, coef: Coefs,
                           h: seq<seq<Block>>, outBuf: Granule, gb: (nat, nat))
    requires b < 18 && |h| == Chans(stereo)
  {
    SamplesOut(pcm, start + BlockAt(stereo, b), stereo, m, coef, Histories(m, h, outBuf, gb, b + 1))
  }

  ghost predicate BlocksOut(pcm: seq<int>, start: nat, stereo: bool, n: nat, m: Numeric, coef: Coefs,
                            h: seq<seq<Block>>, outBuf: Granule, gb: (nat, nat))
    requires n <= 18 && |h| == Chans(stereo)
  {
    forall b | 0 <= b < n :: BlockOut(pcm, start, stereo, b, m, coef, h, outBuf, gb)
  }

  /** The next block leaves the samples of those before it alone. */
  lemma NextBlockOut(p: seq<int>, q: seq<int>, start: nat, stereo: bool, n: nat, m: Numeric, coef: Coefs,
                     h: seq<seq<Block>>, outBuf: Granule, gb: (nat, nat))
    requires n < 18 && |h| == Chans(stereo) && BlocksOut(p, start, stereo, n, m, coef, h, outBuf, gb)
    requires BlockOut(q, start, stereo, n, m, coef, h, outBuf, gb)
    requires start + BlockAt(stereo, n) <= |p| == |q| && p[..start + BlockAt(stereo,
        n)] == q[..start + BlockAt(stereo, n)]
    ensures BlocksOut(q, start, stereo, n + 1, m, coef, h, outBuf, gb)
  {
    hide SamplesOut, Histories;
    forall i | 0 <= i < n ensures BlockOut(q, start, stereo, i, m, coef, h, outBuf, gb) {
      assert BlockOut(p, start, stereo, i, m, coef, h, outBuf, gb);
      SamplesKept(p, q, start + BlockAt(stereo, i), start + BlockAt(stereo, n), stereo, m, coef, Histories(m, h,
          outBuf, gb, i + 1));
    }
  }

  function BlockAt(stereo: bool, b: nat): nat {
    if stereo then 64 * b else 32 * b
  }

  class SubbandInfo {
    const stereo: bool
    const vbuf: array<int>
    var vindex: nat
    ghost var t: nat                   // blocks so far
    ghost var h: seq<seq<Block>>       // what they were, by channel

    ghost predicate Valid()
      reads this, vbuf
    {
      && vbuf.Length == 2 * VBUF_LENGTH && t % 2 == 0 && vindex == VIndex(t)
      && BufferOk(vbuf[..], h, stereo, t)
    }

    constructor (stereo: bool)
      ensures Valid() && t == 0 && this.stereo == stereo && fresh(vbuf)
    {
      this.stereo := stereo;
      vbuf := new int[2 * VBUF_LENGTH](_ => 0);
      vindex, t := 0, 0;
      h := seq(Chans(stereo), _ => []);
      new;
      ZerosOk(vbuf[..], 0);
      ZerosOk(vbuf[..], 1);
    }

    /** Store one block of all channels. */
    method Store(m: Numeric, x0: seq<int>, x1: seq<int>, gb: (nat, nat), b: nat)
      requires vbuf.Length == 2 * VBUF_LENGTH && b % 2 == t % 2 && vindex == VIndex(t) && BufferOk(vbuf[..], h, stereo, t)
      modifies vbuf, this`h
      ensures h == if stereo then [old(h[0]) + [Transformed(m, x0, gb.0)], old(h[1]) + [Transformed(m, x1, gb.1)]]
                   else [old(h[0]) + [Transformed(m, x0, gb.0)]]
      ensures BufferOk(vbuf[..], h, stereo, t + 1)
    {
      hide ChannelOk, Written, Transformed, VIndex;
      ghost var v := vbuf[..];
      FDCT32(m, x0, vbuf, 0 * 32, vindex, b % 2, gb.0, t, 0);
      BlockAppended(v, vbuf[..], 0, h[0], Transformed(m, x0, gb.0));
      if stereo {
        ghost var w := vbuf[..];
        OtherChannel(v, w, 0, t, Transformed(m, x0, gb.0), 1, h[1]);
        FDCT32(m, x1, vbuf, 1 * 32, vindex, b % 2, gb.1, t, 1);
        BlockAppended(w, vbuf[..], 1, h[1], Transformed(m, x1, gb.1));
        OtherChannel(w, vbuf[..], 1, t, Transformed(m, x1, gb.1), 0, h[0] + [Transformed(m, x0, gb.0)]);
        h := [h[0] + [Transformed(m, x0, gb.0)], h[1] + [Transformed(m, x1, gb.1)]];
      } else {
        h := [h[0] + [Transformed(m, x0, gb.0)]];
      }
    }

    /** One block of all channels: store it and filter. */
    method SubbandBlock(m: Numeric, coef: Coefs, x0: seq<int>, x1: seq<int>, gb: (nat, nat), b: nat, pcm: array<int>,
                        at: nat)
      requires vbuf.Length == 2 * VBUF_LENGTH && b % 2 == t % 2 && vindex == VIndex(t) && BufferOk(vbuf[..], h, stereo, t)
      requires pcm != vbuf && at + Chans(stereo) * 32 <= pcm.Length
      modifies this`vindex, this`t, this`h, vbuf, pcm
      ensures t == old(t) + 1 && vindex == VIndex(t) && BufferOk(vbuf[..], h, stereo, t)
      ensures h == if stereo then [old(h[0]) + [Transformed(m, x0, gb.0)], old(h[1]) + [Transformed(m, x1, gb.1)]]
                   else [old(h[0]) + [Transformed(m, x0, gb.0)]]
      ensures SamplesOut(pcm[..], at, stereo, m, coef, h)
      ensures pcm[..at] == old(pcm[..at]) && pcm[at + Chans(stereo) * 32..] == old(pcm[at + Chans(stereo) * 32..])
    {
      hide ChannelOk, SamplesOut, VIndex, Transformed;
      Store(m, x0, x1, gb, b);
      Polyphase(m, pcm, at, vbuf[..], VBUF_LENGTH * (b % 2) + vindex, coef, stereo, h, t);
      VIndexNext(t);
      vindex := And7(vindex - b % 2);
      t := t + 1;
    }

    /** Subband transform of one granule into pcm[start..]. */
    method Subband(m: Numeric, coef: Coefs, outBuf: Granule, gb: (nat, nat), pcm: array<int>, start: nat)
      requires Valid() && pcm != vbuf && start + BlockAt(stereo, 18) <= pcm.Length
      modifies this`vindex, this`t, this`h, vbuf, pcm
      ensures Valid() && t == old(t) + 18 && h == Histories(m, old(h), outBuf, gb, 18)
      ensures BlocksOut(pcm[..], start, stereo, 18, m, coef, old(h), outBuf, gb)
      ensures pcm[..start] == old(pcm[..start]) && pcm[start + BlockAt(stereo,
          18)..] == old(pcm[start + BlockAt(stereo, 18)..])
    {
      hide ChannelOk, SamplesOut, BlocksOut, VIndex, Transformed;
      ghost var h0, p0 := h, pcm[..];
      NoBlockOut(p0, start, stereo, m, coef, h0, outBuf, gb);
      var b := 0;
      while b < 18
        invariant 0 <= b <= 18 && t == old(t) + b && vindex == VIndex(t)
        invariant h == Histories(m, h0, outBuf, gb, b) && BufferOk(vbuf[..], h, stereo, t)
        invariant BlocksOut(pcm[..], start, stereo, b, m, coef, h0, outBuf, gb)
        invariant pcm[..start] == p0[..start] && pcm[start + BlockAt(stereo, 18)..] == p0[start + BlockAt(stereo, 18)..]
      {
        var at := start + BlockAt(stereo, b);
        ghost var p := pcm[..];
        SubbandBlock(m, coef, outBuf[0][b], outBuf[1][b], gb, b, pcm, at);
        NextBlockOut(p, pcm[..], start, stereo, b, m, coef, h0, outBuf, gb);
        OutsideKept(p0, p, pcm[..], start, at, at + Chans(stereo) * 32, start + BlockAt(stereo, 18));
        b := b + 1;
      }
    }
  }

  lemma NoBlockOut(p: seq<int>, start: nat, stereo: bool, m: Numeric, coef: Coefs, h: seq<seq<Block>>,
                   outBuf: Granule, gb: (nat, nat))
    requires |h| == Chans(stereo)
    ensures BlocksOut(p, start, stereo, 0, m, coef, h, outBuf, gb)
  {
  }

  lemma VIndexNext(t: nat)
    ensures VIndex(t + 1) == And7(VIndex(t) - t % 2)
  {
  }

  lemma OutsideKept(p0: seq<int>, p: seq<int>, q: seq<int>, start: nat, at: nat, to: nat, end: nat)
    requires start <= at <= to <= end <= |p0| == |p| == |q|
    requires p[..start] == p0[..start] && p[end..] == p0[end..] && q[..at] == p[..at] && q[to..] == p[to..]
    ensures q[..start] == p0[..start] && q[end..] == p0[end..]
  {
    assert q[..start] == q[..at][..start];
    assert q[end..] == q[to..][end - to..] && p[end..] == p[to..][end - to..];
  }
}
