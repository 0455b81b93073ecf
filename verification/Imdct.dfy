/** Alias reduction and overlap-add on the part of the spectrum that may be non-zero. */
module Imdct {
  import opened Mp3Tables

  // ----- alias reduction

  /** csa: eight pairs of coefficients in Q31; the second of each is negative. */
  const CSA: seq<(int, int)> := [
    (0x6dc253f0, 0xbe2500aa - 0x1_0000_0000), (0x70dcebe4, 0xc39e4949 - 0x1_0000_0000),
    (0x798d6e73, 0xd7e33f4a - 0x1_0000_0000), (0x7ddd40a7, 0xe8b71176 - 0x1_0000_0000),
    (0x7f6d20b7, 0xf3e4fe2f - 0x1_0000_0000), (0x7fe47e40, 0xfac1a3c7 - 0x1_0000_0000),
    (0x7ffcb263, 0xfe2ebdc6 - 0x1_0000_0000), (0x7fffc694, 0xff86c25d - 0x1_0000_0000)]

  /** The upper word of the 64-bit product. */
  function MULSHIFT32(x: int, y: int): int {
    (x * y) / 0x1_0000_0000
  }

  /** The butterfly number j at a block boundary, on the samples a below and b above it. */
  function Below(j: nat, a: int, b: int): int
    requires j < 8
  {
    2 * (MULSHIFT32(CSA[j].0, a) - MULSHIFT32(CSA[j].1, b))
  }

  function Above(j: nat, a: int, b: int): int
    requires j < 8
  {
    2 * (MULSHIFT32(CSA[j].0, b) + MULSHIFT32(CSA[j].1, a))
  }

  /** Layer III's coefficients, in units of 1/10000: section 2.4.3.4 of ISO/IEC 11172-3. */
  const CI: seq<int> := [-6000, -5350, -3300, -1850, -950, -410, -142, -37]

  /** The pair j is 2^31 times the cosine and sine of the angle with the tangent CI[j]. */
  lemma CoefficientsAreRotations(j: nat)
    requires j < 8
    ensures var (c, s) := CSA[j];
            && c > 0 && -500000 < 10000 * s - CI[j] * c < 500000
            && -0x1_0000_0000 < c * c + s * s - 0x4000_0000_0000_0000 < 0x1_0000_0000
  {
  }

  /** The butterfly turns the pair (a, b) by that angle, but for rounding. */
  lemma ButterflyTurns(j: nat, a: int, b: int)
    requires j < 8
    ensures var (c, s) := CSA[j];
            && -0x1_0000_0000 < c * a - s * b - 0x8000_0000 * Below(j, a, b) < 0x1_0000_0000
            && 0 <= c * b + s * a - 0x8000_0000 * Above(j, a, b) < 0x2_0000_0000
  {
    var (c, s) := CSA[j];
    Floor(c, a);
    Floor(s, b);
    Floor(c, b);
    Floor(s, a);
  }

  lemma Floor(x: int, y: int)
    ensures 0 <= x * y - 0x1_0000_0000 * MULSHIFT32(x, y) < 0x1_0000_0000
  {
  }

  /** Sample i after the butterflies at the first n block boundaries, all taken from the samples before. */
  function Smoothed(x: seq<int>, n: nat, i: nat): int
    requires |x| == 576 && n <= 31 && i < 576
  {
    var k, r := i / 18, i % 18;
    if r < 8 && 1 <= k <= n then Above(r, x[i - 2 * r - 1], x[i])
    else if r >= 10 && k + 1 <= n then Below(17 - r, x[i], x[i + 35 - 2 * r])
    else x[i]
  }

  ghost predicate IsSmoothed(x: seq<int>, y: seq<int>, n: nat) {
    |x| == |y| == 576 && n <= 31 && forall i | 0 <= i < 576 :: y[i] == Smoothed(x, n, i)
  }

  /** Butterflies 0 to j - 1 at boundary n + 1 are done as well. */
  ghost predicate PartlySmoothed(x: seq<int>, y: seq<int>, n: nat, j: nat) {
    && |x| == |y| == 576 && n < 31 && j <= 8
    && forall i | 0 <= i < 576 ::
         y[i] == Smoothed(x, if 18 * (n + 1) - j <= i < 18 * (n + 1) + j then n + 1 else n, i)
  }

  lemma BeforeBoundary(x: seq<int>, n: nat, j: nat)
    requires |x| == 576 && n < 31 && j < 8
    ensures var m := 18 * (n + 1);
            && Smoothed(x, n, m - 1 - j) == x[m - 1 - j] && Smoothed(x, n, m + j) == x[m + j]
            && Smoothed(x, n + 1, m - 1 - j) == Below(j, x[m - 1 - j], x[m + j])
            && Smoothed(x, n + 1, m + j) == Above(j, x[m - 1 - j], x[m + j])
  {
    hide Below, Above;
    var m := 18 * (n + 1);
    assert (m - 1 - j) / 18 == n && (m - 1 - j) % 18 == 17 - j;
    assert (m + j) / 18 == n + 1 && (m + j) % 18 == j;
  }

  lemma PairDone(x: seq<int>, y: seq<int>, z: seq<int>, n: nat, j: nat)
    requires PartlySmoothed(x, y, n, j) && j < 8
    requires z == y[18 * (n + 1) - 1 - j := Below(j, x[18 * (n + 1) - 1 - j], x[18 * (n + 1) + j])]
                   [18 * (n + 1) + j := Above(j, x[18 * (n + 1) - 1 - j], x[18 * (n + 1) + j])]
    ensures PartlySmoothed(x, z, n, j + 1)
  {
    hide Below, Above, Smoothed;
    BeforeBoundary(x, n, j);
  }

  lemma BoundaryDone(x: seq<int>, y: seq<int>, n: nat)
    requires PartlySmoothed(x, y, n, 8)
    ensures IsSmoothed(x, y, n + 1)
  {
    hide Below, Above;
    forall i | 0 <= i < 576 ensures y[i] == Smoothed(x, n + 1, i) {
    }
  }

  /** Smooth the first nBfly block boundaries in place. */
  method AntiAlias(x: array<int>, nBfly: int)
    requires x.Length == 576 && nBfly <= 31
    modifies x
    ensures IsSmoothed(old(x[..]), x[..], if nBfly < 0 then 0 else nBfly)
  {
    hide Below, Above, Smoothed, PartlySmoothed, IsSmoothed;
    ghost var x0 := x[..];
    NothingDone(x0);
    var k, at := nBfly, 0;
    ghost var n := 0;
    while k > 0
      invariant n <= 31 && at == 18 * n && (if nBfly < 0 then k == nBfly && n == 0 else 0 <= k == nBfly - n)
      invariant IsSmoothed(x0, x[..], n)
    {
      at := at + 18;
      var j := 0;
      BoundaryBegins(x0, x[..], n);
      while j < 8
        invariant 0 <= j <= 8 && PartlySmoothed(x0, x[..], n, j)
      {
        ghost var y := x[..];
        PairUntouched(x0, y, n, j);
        var a0, b0 := x[at - 1 - j], x[at + j];
        x[at - 1 - j] := Below(j, a0, b0);
        x[at + j] := Above(j, a0, b0);
        PairDone(x0, y, x[..], n, j);
        j := j + 1;
      }
      BoundaryDone(x0, x[..], n);
      n := n + 1;
      k := k - 1;
    }
  }

  lemma NothingDone(x: seq<int>)
    requires |x| == 576
    ensures IsSmoothed(x, x, 0)
  {
  }

  lemma BoundaryBegins(x: seq<int>, y: seq<int>, n: nat)
    requires IsSmoothed(x, y, n) && n < 31
    ensures PartlySmoothed(x, y, n, 0)
  {
    hide Smoothed;
  }

  lemma PairUntouched(x: seq<int>, y: seq<int>, n: nat, j: nat)
    requires PartlySmoothed(x, y, n, j) && j < 8
    ensures y[18 * (n + 1) - 1 - j] == x[18 * (n + 1) - 1 - j] && y[18 * (n + 1) + j] == x[18 * (n + 1) + j]
  {
    hide Below, Above, Smoothed;
    BeforeBoundary(x, n, j);
  }

  // ----- it is enough to smooth up to the last non-zero sample

  lemma ZeroPair(j: nat)
    requires j < 8
    ensures Below(j, 0, 0) == 0 && Above(j, 0, 0) == 0
  {
  }

  function Butterflies(nonZeroBound: nat): nat
    requires nonZeroBound <= 576
  {
    if (nonZeroBound + 7) / 18 < 31 then (nonZeroBound + 7) / 18 else 31
  }

  /** The boundaries behind the last non-zero sample may be left out, */
  lemma TruncatedIsFull(x: seq<int>, nonZeroBound: nat, i: nat)
    requires |x| == 576 && nonZeroBound <= 576 && ZeroFrom(x, nonZeroBound) && i < 576
    ensures Smoothed(x, Butterflies(nonZeroBound), i) == Smoothed(x, 31, i)
  {
    hide Below, Above;
    var n, k, r := Butterflies(nonZeroBound), i / 18, i % 18;
    if k > n && r < 8 {
      assert i - 2 * r - 1 >= nonZeroBound;
      ZeroPair(r);
    } else if k + 1 > n && r >= 10 && k < 31 {
      assert i >= nonZeroBound;
      ZeroPair(17 - r);
    }
  }

  /** and after that everything from the raised bound on is zero. */
  lemma RaisedBound(x: seq<int>, y: seq<int>, nonZeroBound: nat, n: nat)
    requires IsSmoothed(x, y, n) && nonZeroBound <= 576 && ZeroFrom(x, nonZeroBound)
    ensures ZeroFrom(y, if nonZeroBound > 18 * n + 8 then nonZeroBound else 18 * n + 8)
  {
    hide Below, Above;
    var m := if nonZeroBound > 18 * n + 8 then nonZeroBound else 18 * n + 8;
    forall i | m <= i < 576 ensures y[i] == 0 {
      assert i / 18 > n || i % 18 >= 8;
      assert i / 18 >= n;
    }
  }

  // ----- no overflow

  function Abs(a: int): nat {
    if a < 0 then -a else a
  }

  lemma ProductBound(c: int, a: int, m: nat)
    requires Abs(a) <= m
    ensures -(Abs(c) * m) <= c * a <= Abs(c) * m
  {
  }

  lemma MulShiftBound(c: int, a: int, m: nat)
    requires Abs(a) <= m
    ensures 0x1_0000_0000 * Abs(MULSHIFT32(c, a)) <= Abs(c) * m + 0x1_0000_0000
  {
    ProductBound(c, a, m);
  }

  /** The gain of a butterfly is at most 1.372, up to rounding; samples with a guard bit stay inside
      32 bits. */
  lemma ButterflyGain(j: nat, a: int, b: int, m: nat)
    requires j < 8 && Abs(a) <= m && Abs(b) <= m
    ensures 1000 * Abs(Below(j, a, b)) <= 1372 * m + 4000 && 1000 * Abs(Above(j, a, b)) <= 1372 * m + 4000
    ensures m < 0x4000_0000 ==> Abs(Below(j, a, b)) < 0x8000_0000 && Abs(Above(j, a, b)) < 0x8000_0000
  {
    hide MULSHIFT32;
    var c0, c1 := CSA[j].0, CSA[j].1;
    MulShiftBound(c0, a, m);
    MulShiftBound(c1, b, m);
    MulShiftBound(c0, b, m);
    MulShiftBound(c1, a, m);
    PairGain(j, m);
    SumBound(MULSHIFT32(c0, a), -MULSHIFT32(c1, b), Abs(c0) * m, Abs(c1) * m, m);
    SumBound(MULSHIFT32(c0, b), MULSHIFT32(c1, a), Abs(c0) * m, Abs(c1) * m, m);
  }

  lemma SumBound(u: int, v: int, p: int, q: int, m: nat)
    requires 0x1_0000_0000 * Abs(u) <= p + 0x1_0000_0000 && 0x1_0000_0000 * Abs(v) <= q + 0x1_0000_0000
    requires 1000 * (p + q) <= 1372 * 0x8000_0000 * m
    ensures 1000 * Abs(2 * (u + v)) <= 1372 * m + 4000
  {
  }

  lemma PairGain(j: nat, m: nat)
    requires j < 8
    ensures 1000 * (Abs(CSA[j].0) * m + Abs(CSA[j].1) * m) <= 1372 * 0x8000_0000 * m
  {
  }

  // ----- overlap-add

  /** The transforms, windows included, which are not modelled: IMDCT36 and IMDCT12x3 take 18 samples and the
      9 of the overlap, window types, block index and guard bits, and give 18 samples and a new overlap;
      winPrev is WinPrevious. */
  datatype Transforms = Transforms(
    imdct36: (seq<int>, seq<int>, nat, nat, nat, int) -> (seq<int>, seq<int>),
    imdct12x3: (seq<int>, seq<int>, nat, nat, int) -> (seq<int>, seq<int>),
    winPrev: (seq<int>, nat) -> seq<int>)

  function ZeroSeq(n: nat): (s: seq<int>)
    ensures |s| == n && forall i | 0 <= i < n :: s[i] == 0
  {
    seq(n, _ => 0)
  }

  /** s if it has n elements. */
  function Fit(s: seq<int>, n: nat): (r: seq<int>)
    ensures |r| == n
  {
    if |s| == n then s else ZeroSeq(n)
  }

  /** Windowing an empty overlap gives nothing. */
  ghost predicate WindowsZeros(m: Transforms) {
    forall bt: nat :: Fit(m.winPrev(ZeroSeq(9), bt), 18) == ZeroSeq(18)
  }

  datatype BlockCount = BlockCount(nBlocksLong: nat, nBlocksTotal: nat, nBlocksPrev: nat, prevType: nat,
                                   prevWinSwitch: nat, currWinSwitch: nat, gbIn: int)

  function CurrWin(sis: SideInfoSub, bc: BlockCount, i: nat): nat {
    if sis.mixedBlock != 0 && i < bc.currWinSwitch then 0 else sis.blockType
  }

  function PrevWin(bc: BlockCount, i: nat): nat {
    if i < bc.prevWinSwitch then 0 else bc.prevType
  }

  /** Sample j of a block that only has an overlap: odd samples of odd blocks change sign. */
  function Inverted(win: seq<int>, i: nat, j: nat): int
    requires |win| == 18 && j < 18
  {
    if i % 2 == 1 && j % 2 == 1 then -(4 * win[j]) else 4 * win[j]
  }

  function OverlapOnly(m: Transforms, bc: BlockCount, i: nat, prev: seq<int>): (y: seq<int>)
    ensures |y| == 18
  {
    var win := Fit(m.winPrev(prev, PrevWin(bc, i)), 18);
    seq(18, j requires 0 <= j < 18 => Inverted(win, i, j))
  }

  /** Output and new overlap of block i, from its samples and its old overlap, when no block is skipped. */
  function BlockResult(m: Transforms, sis: SideInfoSub, bc: BlockCount, i: nat, x: seq<int>,
                       prev: seq<int>): (r: (seq<int>, seq<int>))
    ensures |r.0| == 18 && |r.1| == 9
  {
    if i < bc.nBlocksLong then
      var (y, over) := m.imdct36(x, prev, CurrWin(sis, bc, i), PrevWin(bc, i), i, bc.gbIn);
      (Fit(y, 18), Fit(over, 9))
    else if i < bc.nBlocksTotal then
      var (y, over) := m.imdct12x3(x, prev, PrevWin(bc, i), i, bc.gbIn);
      (Fit(y, 18), Fit(over, 9))
    else (OverlapOnly(m, bc, i, prev), ZeroSeq(9))
  }

  lemma NothingToOverlap(m: Transforms, bc: BlockCount, i: nat)
    requires WindowsZeros(m)
    ensures OverlapOnly(m, bc, i, ZeroSeq(9)) == ZeroSeq(18)
  {
    var win := Fit(m.winPrev(ZeroSeq(9), PrevWin(bc, i)), 18);
    assert win == ZeroSeq(18);
  }

  /** Block i of an array of blocks of n samples. */
  function BlockOf(s: seq<int>, i: nat, n: nat): (b: seq<int>)
    requires n == 9 || n == 18
    requires n * i + n <= |s|
    ensures |b| == n
  {
    s[n * i..n * i + n]
  }

  /** The output, block by block. */
  ghost function Columns(y: array2<int>): (c: seq<seq<int>>)
    requires y.Length0 == 18 && y.Length1 == 32
    reads y
    ensures |c| == 32 && forall i | 0 <= i < 32 :: |c[i]| == 18
    ensures forall i, j | 0 <= i < 32 && 0 <= j < 18 :: c[i][j] == y[j, i]
  {
    seq(32, i requires 0 <= i < 32 reads y => seq(18, j requires 0 <= j < 18 reads y => y[j, i]))
  }

  lemma ColumnsAre(y: array2<int>, c: seq<seq<int>>)
    requires y.Length0 == 18 && y.Length1 == 32 && |c| == 32 && forall i | 0 <= i < 32 :: |c[i]| == 18
    requires forall i, j | 0 <= i < 32 && 0 <= j < 18 :: c[i][j] == y[j, i]
    ensures Columns(y) == c
  {
    forall i | 0 <= i < 32 ensures Columns(y)[i] == c[i] {
    }
  }

  ghost predicate BlockDone(m: Transforms, sis: SideInfoSub, bc: BlockCount, x: seq<int>, prev0: seq<int>,
                            prev: seq<int>, col: seq<int>, i: nat)
    requires |x| == 576 && |prev0| == |prev| == 288 && i < 32
  {
    (col, BlockOf(prev, i, 9)) == BlockResult(m, sis, bc, i, BlockOf(x, i, 18), BlockOf(prev0, i, 9))
  }

  /** Blocks 0 to n - 1 are done and the overlap of the others is as before. */
  ghost predicate BlocksDone(m: Transforms, sis: SideInfoSub, bc: BlockCount, x: seq<int>, prev0: seq<int>,
                             prev: seq<int>, cols: seq<seq<int>>, n: nat)
  {
    && |x| == 576 && |prev0| == |prev| == 288 && |cols| == 32 && n <= 32
    && (forall i | 0 <= i < n :: BlockDone(m, sis, bc, x, prev0, prev, cols[i], i))
    && prev[9 * n..] == prev0[9 * n..]
  }

  /** The overlap with block i replaced. */
  function Replaced(prev: seq<int>, i: nat, over: seq<int>): (r: seq<int>)
    requires |prev| == 288 && i < 32 && |over| == 9
    ensures |r| == 288
  {
    prev[..9 * i] + over + prev[9 * i + 9..]
  }

  lemma ReplacedBlock(prev: seq<int>, i: nat, over: seq<int>, k: nat)
    requires |prev| == 288 && i < 32 && |over| == 9 && k < 32
    ensures BlockOf(Replaced(prev, i, over), k, 9) == if k == i then over else BlockOf(prev, k, 9)
    ensures Replaced(prev, i, over)[9 * i + 9..] == prev[9 * i + 9..]
  {
  }

  lemma NextBlock(m: Transforms, sis: SideInfoSub, bc: BlockCount, x: seq<int>, prev0: seq<int>, prev: seq<int>,
                  cols: seq<seq<int>>, n: nat,
                  out: seq<int>, over: seq<int>)
    requires BlocksDone(m, sis, bc, x, prev0, prev, cols, n) && n < 32 && |over| == 9
    requires (out, over) == BlockResult(m, sis, bc, n, BlockOf(x, n, 18), BlockOf(prev, n, 9))
    ensures BlocksDone(m, sis, bc, x, prev0, Replaced(prev, n, over), cols[n := out], n + 1)
  {
    hide BlockResult, Replaced, BlockOf;
    var prev1, cols1 := Replaced(prev, n, over), cols[n := out];
    SameBlock(prev0, prev, n);
    forall i | 0 <= i < n + 1 ensures BlockDone(m, sis, bc, x, prev0, prev1, cols1[i], i) {
      ReplacedBlock(prev, n, over, i);
      if i < n {
        assert BlockDone(m, sis, bc, x, prev0, prev, cols[i], i);
      }
    }
    ReplacedBlock(prev, n, over, n);
    assert prev[9 * n + 9..] == prev[9 * n..][9..] && prev0[9 * n + 9..] == prev0[9 * n..][9..];
  }

  lemma SameBlock(a: seq<int>, b: seq<int>, n: nat)
    requires |a| == |b| == 288 && n < 32 && a[9 * n..] == b[9 * n..]
    ensures BlockOf(a, n, 9) == BlockOf(b, n, 9)
  {
    assert BlockOf(a, n, 9) == a[9 * n..][..9] && BlockOf(b, n, 9) == b[9 * n..][..9];
  }

  /** Write one block of output and its overlap. */
  method PutBlock(y: array2<int>, xPrev: array<int>, i: nat, out: seq<int>, over: seq<int>)
    requires y.Length0 == 18 && y.Length1 == 32 && xPrev.Length == 288 && i < 32 && |out| == 18 && |over| == 9
    modifies y, xPrev
    ensures Columns(y) == old(Columns(y))[i := out]
    ensures xPrev[..] == Replaced(old(xPrev[..]), i, over)
  {
    ghost var cols := Columns(y);
    var j := 0;
    while j < 18
      invariant 0 <= j <= 18
      invariant forall k, l | 0 <= k < 32 && 0 <= l < 18 :: y[l, k] == if k == i && l < j then out[l] else cols[k][l]
      modifies y
    {
      y[j, i] := out[j];
      j := j + 1;
    }
    ColumnsAre(y, cols[i := out]);
    forall l | 0 <= l < 9 {
      xPrev[9 * i + l] := over[l];
    }
  }

  /** One block that has only an overlap; nonZero says whether any sample of it is not zero. */
  method OverlapBlock(m: Transforms, bc: BlockCount, y: array2<int>, xPrev: array<int>, i: nat) returns (nonZero: bool)
    requires y.Length0 == 18 && y.Length1 == 32 && xPrev.Length == 288 && i < 32
    modifies y, xPrev
    ensures var out := OverlapOnly(m, bc, i, BlockOf(old(xPrev[..]), i, 9));
            && Columns(y) == old(Columns(y))[i := out]
            && (nonZero <==> out != ZeroSeq(18))
    ensures xPrev[..] == Replaced(old(xPrev[..]), i, ZeroSeq(9))
  {
    hide OverlapOnly, Inverted, Fit, Columns;
    ghost var prev, cols := xPrev[..], Columns(y);
    var xPrevWin := Fit(m.winPrev(xPrev[9 * i..9 * i + 9], PrevWin(bc, i)), 18);
    ghost var out := OverlapOnly(m, bc, i, BlockOf(prev, i, 9));
    OverlapAt(m, bc, i, BlockOf(prev, i, 9));
    nonZero := false;
    var j := 0;
    while j < 9
      invariant 0 <= j <= 9
      invariant forall k, l | 0 <= k < 32 && 0 <= l < 18 :: y[l, k] == if k == i && l < 2 * j then out[l] else cols[k][l]
      invariant nonZero <==> exists l | 0 <= l < 2 * j :: out[l] != 0
      invariant forall l | 0 <= l < 288 :: xPrev[l] == if 9 * i <= l < 9 * i + j then 0 else prev[l]
    {
      var xp := xPrevWin[2 * j + 0] * 4;
      y[2 * j + 0, i] := xp;
      nonZero := nonZero || xp != 0;
      // flip the odd samples of an odd block
      xp := xPrevWin[2 * j + 1] * 4;
      xp := if i % 2 == 1 then -xp else xp;
      y[2 * j + 1, i] := xp;
      nonZero := nonZero || xp != 0;
      xPrev[9 * i + j] := 0;
      j := j + 1;
    }
    ColumnsAre(y, cols[i := out]);
    assert !nonZero ==> out == ZeroSeq(18);
  }

  lemma OverlapAt(m: Transforms, bc: BlockCount, i: nat, prev: seq<int>)
    ensures var win := Fit(m.winPrev(prev, PrevWin(bc, i)), 18);
            forall j | 0 <= j < 9 ::
              && OverlapOnly(m, bc, i, prev)[2 * j] == win[2 * j] * 4
              && OverlapOnly(m, bc, i,
                  prev)[2 * j + 1] == if i % 2 == 1 then -(win[2 * j + 1] * 4) else win[2 * j + 1] * 4
  {
    hide Fit;
  }

  /** The overlap of blocks n and up is empty. */
  ghost predicate OverlapZero(prev: seq<int>, n: nat) {
    |prev| == 288 && n <= 32 && ZeroFrom(prev, 9 * n)
  }

  /** Block i has no samples, but its windowed overlap is not zero. */
  ghost predicate Sounds(m: Transforms, bc: BlockCount, prev: seq<int>, i: nat)
    requires |prev| == 288 && i < 32
  {
    OverlapOnly(m, bc, i, BlockOf(prev, i, 9)) != ZeroSeq(18)
  }

  /** The last block from `first` on and below n that sounds, or first. */
  ghost function LastSounding(m: Transforms, bc: BlockCount, prev: seq<int>, first: nat, n: nat): (i: nat)
    requires |prev| == 288 && n <= 32
    ensures first <= i && (i == first || i < n)
    ensures forall k | i < k < n :: !Sounds(m, bc, prev, k)
    ensures (exists k | first <= k < n :: Sounds(m, bc, prev, k)) <==> i < n && Sounds(m, bc, prev, i)
  {
    if n <= first then first else if Sounds(m, bc, prev, n - 1) then n - 1 else LastSounding(m, bc, prev, first, n - 1)
  }

  function FirstWithout(bc: BlockCount): nat {
    if bc.nBlocksTotal > bc.nBlocksLong then bc.nBlocksTotal else bc.nBlocksLong
  }

  /** The returned block is not silent exactly if there is a block that sounds. */
  lemma ReturnedBlock(m: Transforms, sis: SideInfoSub, bc: BlockCount, x: seq<int>, prev0: seq<int>, prev: seq<int>,
                      cols: seq<seq<int>>, n: nat)
    requires BlocksDone(m, sis, bc, x, prev0, prev, cols, 32) && WindowsZeros(m) && OverlapZero(prev0, bc.nBlocksPrev)
    requires FirstWithout(bc) <= 32 && n == LastSounding(m, bc, prev0, FirstWithout(bc), bc.nBlocksPrev)
    ensures n < 32 && cols[n] != ZeroSeq(18) <==>
            exists i | FirstWithout(bc) <= i < bc.nBlocksPrev :: Sounds(m, bc, prev0, i)
    ensures forall i | n < i < 32 :: cols[i] == ZeroSeq(18)
  {
    hide BlockOf, OverlapOnly, BlockResult;
    forall i | FirstWithout(bc) <= i < 32
      ensures cols[i] == OverlapOnly(m, bc, i, BlockOf(prev0, i, 9))
      ensures i >= bc.nBlocksPrev || n < i ==> cols[i] == ZeroSeq(18)
    {
      assert BlockDone(m, sis, bc, x, prev0, prev, cols[i], i);
      TailBlock(m, sis, bc, x, prev0, i);
      if i >= bc.nBlocksPrev {
        EmptyBlock(prev0, bc.nBlocksPrev, i);
        NothingToOverlap(m, bc, i);
      } else {
        assert n < i ==> !Sounds(m, bc, prev0, i);
      }
    }
  }

  lemma SoundsNext(m: Transforms, bc: BlockCount, prev0: seq<int>, prev: seq<int>, first: nat, i: nat)
    requires first <= i < 32 && |prev0| == |prev| == 288 && prev[9 * i..] == prev0[9 * i..]
    ensures LastSounding(m, bc, prev0, first, first) == first
    ensures LastSounding(m, bc, prev0, first, i + 1) ==
            if OverlapOnly(m, bc, i, BlockOf(prev, i, 9)) != ZeroSeq(18) then i else LastSounding(m, bc, prev0, first, i)
  {
    hide OverlapOnly, BlockOf;
    SameBlock(prev0, prev, i);
  }

  lemma NoBlocksDone(m: Transforms, sis: SideInfoSub, bc: BlockCount, x: seq<int>, prev: seq<int>, cols: seq<seq<int>>)
    requires |x| == 576 && |prev| == 288 && |cols| == 32
    ensures BlocksDone(m, sis, bc, x, prev, prev, cols, 0)
  {
  }

  lemma DoneTail(m: Transforms, sis: SideInfoSub, bc: BlockCount, x: seq<int>, prev0: seq<int>, prev: seq<int>,
                 cols: seq<seq<int>>, n: nat)
    requires BlocksDone(m, sis, bc, x, prev0, prev, cols, n)
    ensures |prev| == |prev0| == 288 && n <= 32 && prev[9 * n..] == prev0[9 * n..]
  {
  }

  lemma AllDone(m: Transforms, sis: SideInfoSub, bc: BlockCount, x: seq<int>, prev0: seq<int>, prev: seq<int>,
                cols: seq<seq<int>>)
    requires BlocksDone(m, sis, bc, x, prev0, prev, cols, 32)
    ensures |x| == 576 && |prev| == |prev0| == 288 && |cols| == 32
    ensures forall i | 0 <= i < 32 :: BlockDone(m, sis, bc, x, prev0, prev, cols[i], i)
  {
  }

  lemma ZeroBehind(prev: seq<int>, a: nat, b: nat)
    requires OverlapZero(prev, a) && a <= b <= 32
    ensures OverlapZero(prev, b)
  {
  }

  lemma NoneSounds(m: Transforms, bc: BlockCount, prev: seq<int>, first: nat, n: nat)
    requires |prev| == 288 && n <= first <= 32
    ensures LastSounding(m, bc, prev, first, n) == LastSounding(m, bc, prev, first, first) == first
  {
  }

  /** Transform the blocks with samples, window the overlap of the others as far as there is any, and clear
      the rest. The result is as if no block had been skipped. */
  method HybridTransform(m: Transforms, x: array<int>, xPrev: array<int>, y: array2<int>, sis: SideInfoSub,
                         bc: BlockCount)
    returns (nBlocksOut: nat)
    requires WindowsZeros(m) && x.Length == 576 && xPrev.Length == 288 && y.Length0 == 18 && y.Length1 == 32 && x != xPrev
    requires bc.nBlocksLong <= 32 && bc.nBlocksTotal <= 32 && bc.nBlocksPrev <= 32
    requires bc.nBlocksTotal > bc.nBlocksLong ==> sis.blockType == 2
    requires OverlapZero(xPrev[..], bc.nBlocksPrev)
    modifies xPrev, y
    ensures forall i | 0 <= i < 32 :: BlockDone(m, sis, bc, x[..], old(xPrev[..]), xPrev[..], Columns(y)[i], i)
    ensures bc.nBlocksLong <= nBlocksOut <= 32 && bc.nBlocksTotal <= nBlocksOut && OverlapZero(xPrev[..], nBlocksOut)
    ensures nBlocksOut == LastSounding(m, bc, old(xPrev[..]), FirstWithout(bc), bc.nBlocksPrev)
    ensures nBlocksOut < 32 && Columns(y)[nBlocksOut] != ZeroSeq(18) <==>
            exists i | FirstWithout(bc) <= i < bc.nBlocksPrev :: Sounds(m, bc, old(xPrev[..]), i)
    ensures forall i | nBlocksOut < i < 32 :: Columns(y)[i] == ZeroSeq(18)
  {
    hide BlockResult, BlockDone, BlockOf, Replaced, Columns, OverlapOnly, WindowsZeros, Sounds, LastSounding, BlocksDone, ZeroFrom;
    ghost var prev0 := xPrev[..];
    NoBlocksDone(m, sis, bc, x[..], prev0, Columns(y));
    var i := 0;
    // the blocks with a long transform
    while i < bc.nBlocksLong
      invariant 0 <= i <= bc.nBlocksLong && BlocksDone(m, sis, bc, x[..], prev0, xPrev[..], Columns(y), i)
    {
      ghost var prev, cols := xPrev[..], Columns(y);
      var (out, over) := m.imdct36(x[18 * i..18 * i + 18], xPrev[9 * i..9 * i + 9], CurrWin(sis, bc, i),
          PrevWin(bc, i), i, bc.gbIn);
      PutBlock(y, xPrev, i, Fit(out, 18), Fit(over, 9));
      LongBlock(m, sis, bc, x[..], prev, i);
      NextBlock(m, sis, bc, x[..], prev0, prev, cols, i, Fit(out, 18), Fit(over, 9));
      i := i + 1;
    }
    // and those with three short ones
    while i < bc.nBlocksTotal
      invariant i <= 32 && i >= bc.nBlocksLong && (i <= bc.nBlocksTotal || i == bc.nBlocksLong)
      invariant BlocksDone(m, sis, bc, x[..], prev0, xPrev[..], Columns(y), i)
    {
      assert sis.blockType == 2;
      ghost var prev, cols := xPrev[..], Columns(y);
      var (out, over) := m.imdct12x3(x[18 * i..18 * i + 18], xPrev[9 * i..9 * i + 9], PrevWin(bc, i), i, bc.gbIn);
      PutBlock(y, xPrev, i, Fit(out, 18), Fit(over, 9));
      ShortBlock(m, sis, bc, x[..], prev, i);
      NextBlock(m, sis, bc, x[..], prev0, prev, cols, i, Fit(out, 18), Fit(over, 9));
      i := i + 1;
    }
    nBlocksOut := i;
    ghost var first := i;
    NoneSounds(m, bc, prev0, first, first);
    if bc.nBlocksPrev <= first {
      NoneSounds(m, bc, prev0, first, bc.nBlocksPrev);
    }
    // the previous granule may have reached farther
    while i < bc.nBlocksPrev
      invariant first <= i <= 32 && (i <= bc.nBlocksPrev || i == first) && first <= nBlocksOut <= i
      invariant BlocksDone(m, sis, bc, x[..], prev0, xPrev[..], Columns(y), i)
      invariant ZerosBetween(xPrev[..], first, i) && nBlocksOut == LastSounding(m, bc, prev0, first, i)
    {
      ghost var prev, cols := xPrev[..], Columns(y);
      var nonZero := OverlapBlock(m, bc, y, xPrev, i);
      ghost var out := OverlapOnly(m, bc, i, BlockOf(prev, i, 9));
      TailBlock(m, sis, bc, x[..], prev, i);
      DoneTail(m, sis, bc, x[..], prev0, prev, cols, i);
      SoundsNext(m, bc, prev0, prev, first, i);
      NextBlock(m, sis, bc, x[..], prev0, prev, cols, i, out, ZeroSeq(9));
      ZerosGrow(prev, first, i);
      if nonZero {
        nBlocksOut := i;
      }
      i := i + 1;
    }
    DoneTail(m, sis, bc, x[..], prev0, xPrev[..], Columns(y), i);
    TailZero(prev0, xPrev[..], bc.nBlocksPrev, i, first);
    ghost var last := xPrev[..];
    // nothing is left to sound here
    while i < 32
      invariant first <= i <= 32 && bc.nBlocksPrev <= i && xPrev[..] == last
      invariant BlocksDone(m, sis, bc, x[..], prev0, xPrev[..], Columns(y), i)
    {
      ghost var cols := Columns(y);
      EmptyBlock(last, first, i);
      TailBlock(m, sis, bc, x[..], last, i);
      NothingToOverlap(m, bc, i);
      NextBlock(m, sis, bc, x[..], prev0, last, cols, i, ZeroSeq(18), ZeroSeq(9));
      ClearColumn(y, i);
      i := i + 1;
    }
    ReturnedBlock(m, sis, bc, x[..], prev0, last, Columns(y), nBlocksOut);
    AllDone(m, sis, bc, x[..], prev0, last, Columns(y));
    ZeroBehind(last, first, nBlocksOut);
  }

  /** Whatever the transforms are: when block 0 is the only one with samples and is not silent, and the overlap
      of block 1 is not silent either, two blocks of output are not zero, yet the result is 1. */
  method IndexNotCount(m: Transforms, x: array<int>, xPrev: array<int>, y: array2<int>, sis: SideInfoSub,
                       bc: BlockCount)
    returns (n: nat)
    requires WindowsZeros(m) && x.Length == 576 && xPrev.Length == 288 && y.Length0 == 18 && y.Length1 == 32 && x != xPrev
    requires bc.nBlocksLong == bc.nBlocksTotal == 1 && bc.nBlocksPrev == 2 && OverlapZero(xPrev[..], 2)
    requires BlockResult(m, sis, bc, 0, BlockOf(x[..], 0, 18), BlockOf(xPrev[..], 0, 9)).0 != ZeroSeq(18)
    requires Sounds(m, bc, xPrev[..], 1)
    modifies xPrev, y
    ensures n == 1 && Columns(y)[0] != ZeroSeq(18) && Columns(y)[1] != ZeroSeq(18)
  {
    hide Columns, BlocksDone, BlockResult, Sounds;
    ghost var prev := xPrev[..];
    n := HybridTransform(m, x, xPrev, y, sis, bc);
    assert BlockDone(m, sis, bc, x[..], prev, xPrev[..], Columns(y)[0], 0);
  }

  method ClearColumn(y: array2<int>, i: nat)
    requires y.Length0 == 18 && y.Length1 == 32 && i < 32
    modifies y
    ensures Columns(y) == old(Columns(y))[i := ZeroSeq(18)]
  {
    ghost var cols := Columns(y);
    var j := 0;
    while j < 18
      invariant 0 <= j <= 18
      invariant forall k, l | 0 <= k < 32 && 0 <= l < 18 :: y[l, k] == if k == i && l < j then 0 else cols[k][l]
    {
      y[j, i] := 0;
      j := j + 1;
    }
    ColumnsAre(y, cols[i := ZeroSeq(18)]);
  }

  lemma LongBlock(m: Transforms, sis: SideInfoSub, bc: BlockCount, x: seq<int>, prev: seq<int>, i: nat)
    requires i < bc.nBlocksLong <= 32 && |x| == 576 && |prev| == 288
    ensures var (out, over) := m.imdct36(x[18 * i..18 * i + 18], prev[9 * i..9 * i + 9], CurrWin(sis, bc, i),
        PrevWin(bc, i), i, bc.gbIn);
            (Fit(out, 18), Fit(over, 9)) == BlockResult(m, sis, bc, i, BlockOf(x, i, 18), BlockOf(prev, i, 9))
  {
  }

  lemma ShortBlock(m: Transforms, sis: SideInfoSub, bc: BlockCount, x: seq<int>, prev: seq<int>, i: nat)
    requires bc.nBlocksLong <= i < bc.nBlocksTotal <= 32 && |x| == 576 && |prev| == 288
    ensures var (out, over) := m.imdct12x3(x[18 * i..18 * i + 18], prev[9 * i..9 * i + 9], PrevWin(bc, i), i, bc.gbIn);
            (Fit(out, 18), Fit(over, 9)) == BlockResult(m, sis, bc, i, BlockOf(x, i, 18), BlockOf(prev, i, 9))
  {
  }

  lemma TailBlock(m: Transforms, sis: SideInfoSub, bc: BlockCount, x: seq<int>, prev: seq<int>, i: nat)
    requires bc.nBlocksLong <= i < 32 && bc.nBlocksTotal <= i && |x| == 576 && |prev| == 288
    ensures (OverlapOnly(m, bc, i, BlockOf(prev, i, 9)), ZeroSeq(9)) ==
            BlockResult(m, sis, bc, i, BlockOf(x, i, 18), BlockOf(prev, i, 9))
  {
  }

  ghost predicate ZerosBetween(prev: seq<int>, from: nat, to: nat) {
    |prev| == 288 && from <= to <= 32 && forall k | 9 * from <= k < 9 * to :: prev[k] == 0
  }

  lemma ZerosGrow(prev: seq<int>, from: nat, to: nat)
    requires ZerosBetween(prev, from, to) && to < 32
    ensures ZerosBetween(Replaced(prev, to, ZeroSeq(9)), from, to + 1)
  {
  }

  lemma TailZero(prev0: seq<int>, prev: seq<int>, nPrev: nat, i: nat, first: nat)
    requires OverlapZero(prev0, nPrev) && |prev| == 288 && nPrev <= i <= 32 && prev[9 * i..] == prev0[9 * i..]
        && ZerosBetween(prev, first, i)
    ensures OverlapZero(prev, first)
  {
  }

  lemma EmptyBlock(prev: seq<int>, n: nat, i: nat)
    requires OverlapZero(prev, n) && n <= i < 32
    ensures BlockOf(prev, i, 9) == ZeroSeq(9) && Replaced(prev, i, ZeroSeq(9)) == prev
  {
  }

  // ----- one granule of one channel

  /** Where a mixed block goes over to short transforms. */
  function BlockCutoff(v: Version, sb: SfBand): (c: nat)
    ensures c <= 32
  {
    BandsClimb(sb.l, 23, 576, 0, if v == MPEG1 then 8 else 6);
    sb.l[if v == MPEG1 then 8 else 6] / 18
  }

  function LongBlocks(sis: SideInfoSub, cutoff: nat, nonZeroBound: nat): nat {
    if sis.blockType != 2 then Min((nonZeroBound + 7) / 18 + 1, 32) else if sis.mixedBlock != 0 then cutoff else 0
  }

  function NBfly(sis: SideInfoSub, cutoff: nat, nonZeroBound: nat): int {
    if sis.blockType == 2 && sis.mixedBlock == 0 then 0 else LongBlocks(sis, cutoff, nonZeroBound) - 1
  }

  function NewBound(sis: SideInfoSub, cutoff: nat, nonZeroBound: nat): nat {
    Max(nonZeroBound, NBfly(sis, cutoff, nonZeroBound) * 18 + 8)
  }

  function TotalBlocks(sis: SideInfoSub, cutoff: nat, nonZeroBound: nat): nat {
    (NewBound(sis, cutoff, nonZeroBound) + 17) / 18
  }

  /** Long granules have long transforms only: the loop over short blocks is not entered. */
  lemma Counts(sis: SideInfoSub, cutoff: nat, nonZeroBound: nat)
    requires cutoff <= 32 && nonZeroBound <= 576
    ensures var long, total := LongBlocks(sis, cutoff, nonZeroBound), TotalBlocks(sis, cutoff, nonZeroBound);
            && long <= total <= 32 && NBfly(sis, cutoff, nonZeroBound) <= 31 && NewBound(sis, cutoff, nonZeroBound) <= 576
            && (sis.blockType != 2 ==> long == total && NBfly(sis, cutoff, nonZeroBound) == Butterflies(nonZeroBound))
            && 18 * total >= NewBound(sis, cutoff, nonZeroBound)
  {
  }

  /** The window that the current half of block i gets in a granule: the normal one below the cutoff of a mixed
      block, and otherwise that of the granule's block type. */
  function WindowOf(sis: SideInfoSub, cutoff: nat, i: nat): nat {
    if sis.mixedBlock != 0 && i < cutoff then 0 else sis.blockType
  }

  /** Output and new overlap of a block, with the windows of its two halves. */
  function WindowedBlock(m: Transforms, nLong: nat, nTotal: nat, gb: int, i: nat, window: nat, before: nat,
                         x: seq<int>, prev: seq<int>): (r: (seq<int>, seq<int>))
    ensures |r.0| == 18 && |r.1| == 9
  {
    if i < nLong then
      var (y, over) := m.imdct36(x, prev, window, before, i, gb);
      (Fit(y, 18), Fit(over, 9))
    else if i < nTotal then
      var (y, over) := m.imdct12x3(x, prev, before, i, gb);
      (Fit(y, 18), Fit(over, 9))
    else
      var win := Fit(m.winPrev(prev, before), 18);
      (seq(18, j requires 0 <= j < 18 => Inverted(win, i, j)), ZeroSeq(9))
  }

  lemma WindowsFollow(m: Transforms, sis: SideInfoSub, bc: BlockCount, cutoff: nat, last: SideInfoSub,
                      lastCutoff: nat, i: nat, x: seq<int>, prev0: seq<int>, prev: seq<int>, col: seq<int>)
    requires |x| == 576 && |prev0| == |prev| == 288 && i < 32 && BlockDone(m, sis, bc, x, prev0, prev, col, i)
    requires bc.prevType == last.blockType && bc.prevWinSwitch == (if last.mixedBlock != 0 then lastCutoff else 0)
    requires bc.currWinSwitch == if sis.mixedBlock != 0 then cutoff else 0
    ensures (col, BlockOf(prev, i, 9)) ==
            WindowedBlock(m, bc.nBlocksLong, bc.nBlocksTotal, bc.gbIn, i, WindowOf(sis, cutoff, i),
                          WindowOf(last, lastCutoff, i), BlockOf(x, i, 18), BlockOf(prev0, i, 9))
  {
    hide Inverted, Fit, ZeroSeq, BlockOf;
  }

  class ImdctChannel {
    const overBuf: array<int>
    const outBuf: array2<int>
    var numPrevIMDCT: nat
    var prevType: nat
    var prevWinSwitch: nat
    ghost var last: SideInfoSub     // the granule before
    ghost var lastCutoff: nat

    /** There is no overlap in blocks numPrevIMDCT and up, and the window state is that of the granule before. */
    ghost predicate Valid()
      reads this, overBuf
    {
      && overBuf.Length == 288 && outBuf.Length0 == 18 && outBuf.Length1 == 32
      && OverlapZero(overBuf[..], numPrevIMDCT)
      && prevType == last.blockType && prevWinSwitch == if last.mixedBlock != 0 then lastCutoff else 0
    }

    constructor ()
      ensures Valid() && fresh(overBuf) && fresh(outBuf) && last.blockType == last.mixedBlock == 0
      ensures overBuf[..] == seq(288, _ => 0)
    {
      overBuf := new int[288](_ => 0);
      outBuf := new int[18, 32]((_, _) => 0);
      numPrevIMDCT, prevType, prevWinSwitch := 0, 0, 0;
      last := SideInfoSub(0, 0, 0, 0, 0, 0, 0, [0, 0, 0], [0, 0, 0], 0, 0, 0, 0, 0);
    }

    /** What this granule and the state say about its blocks. */
    function CountsOf(sis: SideInfoSub, cutoff: nat, nonZeroBound: nat, gb: int): BlockCount
      reads this
    {
      BlockCount(LongBlocks(sis, cutoff, nonZeroBound), TotalBlocks(sis, cutoff, nonZeroBound), numPrevIMDCT, prevType,
                 prevWinSwitch, if sis.mixedBlock != 0 then cutoff else 0, gb)
    }

    /** Alias reduction, inverse MDCT and overlap-add of the spectrum x, whose samples from nonZeroBound on
        are zero. The output is that of all butterflies and all blocks. */
    method IMDCT(m: Transforms, v: Version, sb: SfBand, sis: SideInfoSub, gb: int, x: array<int>,
                 nonZeroBound: nat) returns (nzb: nat)
      requires Valid() && WindowsZeros(m) && x.Length == 576 && x != overBuf
      requires nonZeroBound <= 576 && ZeroFrom(x[..], nonZeroBound)
      modifies this, overBuf, outBuf, x
      ensures Valid()
      ensures var cutoff := BlockCutoff(v, sb);
              var n := NBfly(sis, cutoff, nonZeroBound);
              && n <= 31 && IsSmoothed(old(x[..]), x[..], if sis.blockType != 2 then 31 else Max(n, 0))
              && nzb == NewBound(sis, cutoff, nonZeroBound) <= 576 && ZeroFrom(x[..], nzb)
              && ZeroFrom(x[..], 18 * TotalBlocks(sis, cutoff, nonZeroBound))
              && (forall i | 0 <= i < 32 :: BlockDone(m, sis, old(CountsOf(sis, cutoff, nonZeroBound, gb)), x[..],
                  old(overBuf[..]),
                                                      overBuf[..], Columns(outBuf)[i], i))
              && last == sis && lastCutoff == cutoff
              && forall i | 0 <= i < 32 ::
                   (Columns(outBuf)[i], BlockOf(overBuf[..], i, 9)) ==
                   WindowedBlock(m, LongBlocks(sis, cutoff, nonZeroBound), TotalBlocks(sis, cutoff, nonZeroBound), gb, i,
                                 WindowOf(sis, cutoff, i), WindowOf(old(last), old(lastCutoff), i), BlockOf(x[..], i, 18),
                                 BlockOf(old(overBuf[..]), i, 9))
    {
      hide WindowOf, WindowedBlock, BlockOf, BlockResult, BlockDone, Smoothed, BlockCutoff, NewBound, NBfly, LongBlocks,
          TotalBlocks;
      ghost var x0, over := x[..], overBuf[..];
      var blockCutoff := BlockCutoff(v, sb);
      Counts(sis, blockCutoff, nonZeroBound);
      var nBfly := NBfly(sis, blockCutoff, nonZeroBound);
      AntiAlias(x, nBfly);
      NewBoundIs(sis, blockCutoff, nonZeroBound);
      RaisedBoundOf(x0, x[..], nonZeroBound, nBfly);
      if sis.blockType != 2 {
        AllSmoothed(x0, x[..], nonZeroBound);
      }
      nzb := Max(nonZeroBound, nBfly * 18 + 8);
      var bc := CountsOf(sis, blockCutoff, nonZeroBound, gb);
      numPrevIMDCT := HybridTransform(m, x, overBuf, outBuf, sis, bc);
      prevType := sis.blockType;
      prevWinSwitch := bc.currWinSwitch;
      ghost var cols, now, y := Columns(outBuf), overBuf[..], x[..];
      forall i | 0 <= i < 32
        ensures (cols[i], BlockOf(now, i, 9)) ==
                WindowedBlock(m, bc.nBlocksLong, bc.nBlocksTotal, bc.gbIn, i, WindowOf(sis, blockCutoff, i),
                              WindowOf(last, lastCutoff, i), BlockOf(y, i, 18), BlockOf(over, i, 9))
      {
        WindowsFollow(m, sis, bc, blockCutoff, last, lastCutoff, i, y, over, now, cols[i]);
      }
      last, lastCutoff := sis, blockCutoff;
    }
  }

  /** Two granules in a row: the overlap of a block gets the window in the second that its current half had in the
      first, whichever of them are long, short or mixed. */
  method TwoGranules(c: ImdctChannel, m: Transforms, v: Version, sb: SfBand, sis: SideInfoSub, gb: int, x: array<int>,
                     bound: nat, sis2: SideInfoSub, gb2: int, x2: array<int>, bound2: nat)
    returns (ghost spectrum: seq<int>, ghost over: seq<int>)
    requires c.Valid() && WindowsZeros(m) && x.Length == x2.Length == 576
    requires x != c.overBuf && x2 != c.overBuf && x != x2
    requires bound <= 576 && ZeroFrom(x[..], bound) && bound2 <= 576 && ZeroFrom(x2[..], bound2)
    modifies c, c.overBuf, c.outBuf, x, x2
    ensures c.Valid() && spectrum == x2[..] && |over| == 288
    ensures var cutoff := BlockCutoff(v, sb);
            forall i | 0 <= i < 32 ::
              (Columns(c.outBuf)[i], BlockOf(c.overBuf[..], i, 9)) ==
              WindowedBlock(m, LongBlocks(sis2, cutoff, bound2), TotalBlocks(sis2, cutoff, bound2), gb2, i,
                            if sis2.mixedBlock != 0 && i < cutoff then 0 else sis2.blockType,
                            if sis.mixedBlock != 0 && i < cutoff then 0 else sis.blockType, BlockOf(spectrum, i, 18),
                            BlockOf(over, i, 9))
  {
    hide WindowedBlock, BlockOf, BlockDone, Smoothed, BlockCutoff, NewBound, NBfly, LongBlocks, TotalBlocks, Columns;
    var nzb := c.IMDCT(m, v, sb, sis, gb, x, bound);
    over := c.overBuf[..];
    nzb := c.IMDCT(m, v, sb, sis2, gb2, x2, bound2);
    spectrum := x2[..];
  }

  lemma NewBoundIs(sis: SideInfoSub, cutoff: nat, nonZeroBound: nat)
    ensures NewBound(sis, cutoff, nonZeroBound) == Max(nonZeroBound, NBfly(sis, cutoff, nonZeroBound) * 18 + 8)
  {
  }

  lemma AllSmoothed(x: seq<int>, y: seq<int>, nonZeroBound: nat)
    requires nonZeroBound <= 576 && ZeroFrom(x, nonZeroBound) && IsSmoothed(x, y, Butterflies(nonZeroBound))
    ensures IsSmoothed(x, y, 31)
  {
    hide Smoothed;
    forall i | 0 <= i < 576 ensures y[i] == Smoothed(x, 31, i) {
      TruncatedIsFull(x, nonZeroBound, i);
    }
  }

  lemma RaisedBoundOf(x: seq<int>, y: seq<int>, nonZeroBound: nat, nBfly: int)
    requires nBfly <= 31 && IsSmoothed(x, y, if nBfly < 0 then 0 else nBfly) && nonZeroBound <= 576
        && ZeroFrom(x, nonZeroBound)
    ensures ZeroFrom(y, Max(nonZeroBound, nBfly * 18 + 8))
  {
    hide Above, Below;
    if nBfly >= 0 {
      RaisedBound(x, y, nonZeroBound, nBfly);
    } else {
      assert forall i | 0 <= i < 576 :: Smoothed(x, 0, i) == x[i];
    }
  }
}
