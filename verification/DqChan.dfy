/** Dequantization of one channel in place, with the reordering of short blocks. */
module DqChan {
  import opened Mp3Tables

  /** The power function of DequantBlock, which is not modelled, by sample and gain: zero stays zero. */
  type Dequant = f: (int, int) -> int | forall g :: f(0, g) == 0 witness (x, g) => 0

  const MAX_REORDER_SAMPS: nat := (192 - 126) * 3
  const IMDCT_SCALE: int := 2
  const PRE_TAB: seq<nat> := [0, 0, 0, 0, 0, 0, 0, 0, 0, 0, 0] + [1, 1, 1, 1, 2, 2, 3, 3, 3, 2, 0]

  /** What the gains depend on: the side information, mid/side stereo, and the scale factors. */
  datatype Params = Params(sis: SideInfoSub, midSide: bool, l: seq<int>, s: seq<seq<int>>)

  predicate ParamsOk(p: Params) {
    |p.l| == 23 && |p.s| == 13 && (forall cb | 0 <= cb < 13 :: |p.s[cb]| == 3) && |p.sis.subBlockGain| == 3
  }

  function BaseGain(p: Params): int {
    p.sis.globalGain - (if p.midSide then 2 else 0) + IMDCT_SCALE
  }

  function LongGain(p: Params, cb: nat): int
    requires ParamsOk(p) && cb < 22
  {
    210 - BaseGain(p) + 2 * (p.sis.sfactScale + 1) * (p.l[cb] + if p.sis.preFlag != 0 then PRE_TAB[cb] else 0)
  }

  function ShortGain(p: Params, cb: nat, w: nat): int
    requires ParamsOk(p) && cb < 13 && w < 3
  {
    210 - BaseGain(p) + 8 * p.sis.subBlockGain[w] + 2 * (p.sis.sfactScale + 1) * p.s[cb][w]
  }

  /** The power of two by which a band is scaled: section 2.4.3.4 of ISO/IEC 11172-3. */
  function LongExponent(p: Params, cb: nat): real
    requires ParamsOk(p) && cb < 22
  {
    (p.sis.globalGain as real - 210.0) / 4.0
    - (if p.sis.sfactScale == 0 then 0.5 else 1.0) * (p.l[cb] as real + p.sis.preFlag as real * PRE_TAB[cb] as real)
  }

  function ShortExponent(p: Params, cb: nat, w: nat): real
    requires ParamsOk(p) && cb < 13 && w < 3
  {
    (p.sis.globalGain as real - 210.0 - 8.0 * p.sis.subBlockGain[w] as real) / 4.0
    - (if p.sis.sfactScale == 0 then 0.5 else 1.0) * p.s[cb][w] as real
  }

  /** A gain counts quarter powers of two downwards. The decoder keeps everything larger by the root of two, and
      smaller by it for middle and side channels. */
  lemma GainsAreExponents(p: Params, cb: nat, w: nat)
    requires ParamsOk(p) && p.sis.sfactScale < 2 && p.sis.preFlag < 2 && w < 3
    ensures var extra := 0.5 - if p.midSide then 0.5 else 0.0;
            && (cb < 22 ==> LongGain(p, cb) as real == -4.0 * (LongExponent(p, cb) + extra))
            && (cb < 13 ==> ShortGain(p, cb, w) as real == -4.0 * (ShortExponent(p, cb, w) + extra))
  {
  }

  ghost predicate ZeroIn(y: seq<int>, from: nat, to: nat) {
    forall i | from <= i < to && i < |y| :: y[i] == 0
  }

  /** Sample j of each of three windows of n samples, one after the other from `at` on. */
  function Apart(x: seq<int>, at: nat, n: nat, j: nat): (int, int, int)
    requires at + 3 * n <= |x| && j < n
  {
    (x[at + j], x[at + n + j], x[at + 2 * n + j])
  }

  /** The same when the windows are interleaved. */
  function Together(y: seq<int>, at: nat, n: nat, j: nat): (int, int, int)
    requires at + 3 * n <= |y| && j < n
  {
    (y[at + 3 * j], y[at + 3 * j + 1], y[at + 3 * j + 2])
  }

  function Dequantized(dq: Dequant, v: (int, int, int), g: (int, int, int)): (int, int, int) {
    (dq(v.0, g.0), dq(v.1, g.1), dq(v.2, g.2))
  }

  /** From `at` on, y holds the dequantized windows of x interleaved. */
  ghost predicate Interleaved(dq: Dequant, x: seq<int>, y: seq<int>, at: nat, n: nat, g: (int, int, int)) {
    && |x| == |y| && at + 3 * n <= |x|
    && forall j | 0 <= j < n :: Together(y, at, n, j) == Dequantized(dq, Apart(x, at, n, j), g)
  }

  /** Band cb of the long blocks. */
  ghost predicate LongBand(dq: Dequant, x: seq<int>, y: seq<int>, sb: SfBand, p: Params, cb: nat)
    requires ParamsOk(p) && cb < 22
  {
    && |x| == |y| == 576 && sb.l[cb] <= sb.l[cb + 1] <= 576
    && forall i | sb.l[cb] <= i < sb.l[cb + 1] :: y[i] == dq(x[i], LongGain(p, cb))
  }

  /** Band cb of the short blocks: out of place, out[3s + 3j + w] = dq(in[3s + w * width + j]). */
  ghost predicate ShortBand(dq: Dequant, x: seq<int>, y: seq<int>, sb: SfBand, p: Params, cb: nat)
    requires ParamsOk(p) && cb < 13
  {
    |x| == |y| == 576 && Interleaved(dq, x, y, Start(sb, cb), Width(sb, cb), Gains(p, cb))
  }

  /** First sample and width of the windows of short band cb. */
  function Start(sb: SfBand, cb: nat): (at: nat)
    requires cb <= 13
    ensures at <= 576 && (cb == 13 ==> at == 576)
  {
    BandsUpTo(sb.s, 14, 192, cb, 13);
    3 * sb.s[cb]
  }

  function Width(sb: SfBand, cb: nat): (n: nat)
    requires cb < 13
    ensures n > 0 && Start(sb, cb) + 3 * n == Start(sb, cb + 1)
  {
    BandsClimb(sb.s, 14, 192, cb, cb + 1);
    sb.s[cb + 1] - sb.s[cb]
  }

  lemma StartsClimb(sb: SfBand, i: nat, j: nat)
    requires i <= j <= 13
    ensures Start(sb, i) <= Start(sb, j)
  {
    BandsUpTo(sb.s, 14, 192, i, j);
  }

  function Gains(p: Params, cb: nat): (int, int, int)
    requires ParamsOk(p) && cb < 13
  {
    (ShortGain(p, cb, 0), ShortGain(p, cb, 1), ShortGain(p, cb, 2))
  }

  // ----- DequantBlock and one short band

  /** Dequantize num samples of src into dst, which may be the same samples. */
  method DequantBlock(dq: Dequant, src: array<int>, from: nat, dst: array<int>, to: nat, num: nat,
                      gain: int) returns (nonZero: bool)
    requires from + num <= src.Length && to + num <= dst.Length && (src == dst ==> from == to)
    modifies dst
    ensures Moved(dq, old(src[..]), from, old(dst[..]), dst[..], to, num, gain)
    ensures nonZero <==> !ZeroIn(dst[..], to, to + num)
  {
    nonZero := false;
    var k := 0;
    while k < num
      invariant 0 <= k <= num
      invariant forall i | 0 <= i < dst.Length ::
                  dst[i] == if to <= i < to + k then dq(old(src[from + (i - to)]), gain) else old(dst[i])
      invariant nonZero <==> exists i | to <= i < to + k :: dst[i] != 0
    {
      var y := dq(src[from + k], gain);
      nonZero := nonZero || y != 0;
      dst[to + k] := y;
      k := k + 1;
    }
  }

  /** The work buffer holds the dequantized windows one after the other. */
  ghost predicate InWork(dq: Dequant, x: seq<int>, work: seq<int>, at: nat, n: nat, g: (int, int, int)) {
    && at + 3 * n <= |x| && 3 * n <= |work|
    && forall j | 0 <= j < n :: Apart(work, 0, n, j) == Dequantized(dq, Apart(x, at, n, j), g)
  }

  /** DequantBlock moved n samples from x[from..] to work[to..], turning w into work. */
  ghost predicate Moved(dq: Dequant, x: seq<int>, from: nat, w: seq<int>, work: seq<int>, to: nat, n: nat, gain: int) {
    && |w| == |work| && from + n <= |x| && to + n <= |w|
    && forall k | 0 <= k < |w| :: work[k] == if to <= k < to + n then dq(x[from + (k - to)], gain) else w[k]
  }

  lemma ThreeMoves(dq: Dequant, x: seq<int>, w0: seq<int>, w1: seq<int>, w2: seq<int>, w3: seq<int>, at: nat, n: nat,
                   g: (int, int, int))
    requires Moved(dq, x, at, w0, w1, 0, n, g.0) && Moved(dq, x, at + n, w1, w2, n, n, g.1)
        && Moved(dq, x, at + n * 2, w2, w3, n * 2, n, g.2)
    ensures InWork(dq, x, w3, at, n, g)
    ensures WorkZero(w3, n, 0) <==> ZeroIn(w1, 0, n)
    ensures WorkZero(w3, n, 1) <==> ZeroIn(w2, n, n + n)
    ensures WorkZero(w3, n, 2) <==> ZeroIn(w3, n * 2, n * 2 + n)
  {
    hide WorkZero, ZeroIn, Dequantized, Moved, Apart;
    MovedLengths(dq, x, w0, w1, w2, w3, at, n, g);
    forall j | 0 <= j < n
      ensures Apart(w3, 0, n, j) == (w1[j], w2[n + j], w3[n * 2 + j])
      ensures Apart(w3, 0, n, j) == Dequantized(dq, Apart(x, at, n, j), g)
    {
      MovedAt(dq, x, w0, w1, w2, w3, at, n, g, j);
    }
    WorkWindow(w3, n, 0, w1, 0);
    WorkWindow(w3, n, 1, w2, n);
    WorkWindow(w3, n, 2, w3, n * 2);
  }

  lemma MovedLengths(dq: Dequant, x: seq<int>, w0: seq<int>, w1: seq<int>, w2: seq<int>, w3: seq<int>, at: nat, n: nat,
                     g: (int, int, int))
    requires Moved(dq, x, at, w0, w1, 0, n, g.0) && Moved(dq, x, at + n, w1, w2, n, n, g.1)
        && Moved(dq, x, at + n * 2, w2, w3, n * 2, n, g.2)
    ensures 3 * n <= |w1| == |w2| == |w3| && at + 3 * n <= |x|
  {
  }

  lemma MovedAt(dq: Dequant, x: seq<int>, w0: seq<int>, w1: seq<int>, w2: seq<int>, w3: seq<int>, at: nat, n: nat,
                g: (int, int, int), j: nat)
    requires j < n && Moved(dq, x, at, w0, w1, 0, n, g.0) && Moved(dq, x, at + n, w1, w2, n, n, g.1)
        && Moved(dq, x, at + n * 2, w2, w3, n * 2, n, g.2)
    ensures Apart(w3, 0, n, j) == (w1[j], w2[n + j], w3[n * 2 + j]) == Dequantized(dq, Apart(x, at, n, j), g)
  {
  }

  /** Window w of the work buffer, seen in the buffer when it was written from `at` on. */
  lemma WorkWindow(work: seq<int>, n: nat, w: nat, past: seq<int>, at: nat)
    requires w < 3 && 3 * n <= |work| && at + n <= |past|
    requires forall j | 0 <= j < n :: Nth(Apart(work, 0, n, j), w) == past[at + j]
    ensures WorkZero(work, n, w) <==> ZeroIn(past, at, at + n)
  {
    hide Apart, Nth;
    if WorkZero(work, n, w) {
      forall i | at <= i < at + n ensures past[i] == 0 {
        assert Nth(Apart(work, 0, n, i - at), w) == past[at + (i - at)];
      }
    }
  }

  /** Dequantize the three windows into the work buffer; nonZero tells which have a sample that is not zero. */
  method DequantWindows(dq: Dequant, x: array<int>, work: array<int>, at: nat, n: nat, g: (int, int,
                        int)) returns (nonZero: (bool, bool, bool))
    requires x != work && at + 3 * n <= x.Length && 3 * n <= work.Length
    modifies work
    ensures InWork(dq, x[..], work[..], at, n, g)
    ensures forall w | 0 <= w < 3 :: MarkOf(nonZero, w) <==> !WorkZero(work[..], n, w)
  {
    hide Moved, ZeroIn, InWork, WorkZero, Apart;
    ghost var w0 := work[..];
    var z0 := DequantBlock(dq, x, at, work, 0, n, g.0);
    ghost var w1 := work[..];
    var z1 := DequantBlock(dq, x, at + n, work, n, n, g.1);
    ghost var w2 := work[..];
    var z2 := DequantBlock(dq, x, at + n * 2, work, n * 2, n, g.2);
    nonZero := (z0, z1, z2);
    ThreeMoves(dq, x[..], w0, w1, w2, work[..], at, n, g);
  }

  function Nth(v: (int, int, int), w: nat): int
    requires w < 3
  {
    if w == 0 then v.0 else if w == 1 then v.1 else v.2
  }

  predicate MarkOf(nonZero: (bool, bool, bool), w: nat)
    requires w < 3
  {
    if w == 0 then nonZero.0 else if w == 1 then nonZero.1 else nonZero.2
  }

  ghost predicate WorkZero(work: seq<int>, n: nat, w: nat)
    requires w < 3
  {
    3 * n <= |work| && forall j | 0 <= j < n :: Nth(Apart(work, 0, n, j), w) == 0
  }

  ghost predicate WindowZeroAt(y: seq<int>, at: nat, n: nat, w: nat)
    requires at + 3 * n <= |y| && w < 3
  {
    forall j | 0 <= j < n :: Nth(Together(y, at, n, j), w) == 0
  }

  /** Exactly the windows that are not zero are marked. */
  ghost predicate MarksNonZero(y: seq<int>, at: nat, n: nat, nonZero: (bool, bool, bool)) {
    at + 3 * n <= |y| && forall w | 0 <= w < 3 :: MarkOf(nonZero, w) <==> !WindowZeroAt(y, at, n, w)
  }

  lemma MarksMove(work: seq<int>, y: seq<int>, at: nat, n: nat, nonZero: (bool, bool, bool))
    requires at + 3 * n <= |y| && 3 * n <= |work|
    requires forall j | 0 <= j < n :: Together(y, at, n, j) == Apart(work, 0, n, j)
    requires forall w | 0 <= w < 3 :: MarkOf(nonZero, w) <==> !WorkZero(work, n, w)
    ensures MarksNonZero(y, at, n, nonZero)
  {
    hide Together, Apart;
    forall w | 0 <= w < 3 ensures WorkZero(work, n, w) <==> WindowZeroAt(y, at, n, w) {
    }
  }

  lemma NextTriple(y: seq<int>, z: seq<int>, at: nat, n: nat, j: nat, v: (int, int, int), k: nat)
    requires at + 3 * n <= |y| && k <= j < n && z == y[at + 3 * j := v.0][at + 3 * j + 1 := v.1][at + 3 * j + 2 := v.2]
    ensures Together(z, at, n, k) == if k == j then v else Together(y, at, n, k)
    ensures z[..at] == y[..at] && z[at + 3 * n..] == y[at + 3 * n..]
  {
  }

  /** Interleave three windows of the work buffer. */
  method Reorder(x: array<int>, work: array<int>, at: nat, n: nat)
    requires x != work && at + 3 * n <= x.Length && 3 * n <= work.Length
    modifies x
    ensures forall k | 0 <= k < n :: Together(x[..], at, n, k) == Apart(work[..], 0, n, k)
    ensures x[..at] == old(x[..at]) && x[at + 3 * n..] == old(x[at + 3 * n..])
  {
    hide Together;
    var j := 0;
    while j < n
      invariant 0 <= j <= n
      invariant forall k | 0 <= k < j :: Together(x[..], at, n, k) == Apart(work[..], 0, n, k)
      invariant x[..at] == old(x[..at]) && x[at + 3 * n..] == old(x[at + 3 * n..])
    {
      ghost var y, v := x[..], Apart(work[..], 0, n, j);
      x[at + 3 * j] := work[0 * n + j];
      x[at + 3 * j + 1] := work[1 * n + j];
      x[at + 3 * j + 2] := work[2 * n + j];
      forall k | 0 <= k <= j
        ensures Together(x[..], at, n, k) == if k == j then v else Together(y, at, n, k)
        ensures x[..][..at] == y[..at] && x[..][at + 3 * n..] == y[at + 3 * n..]
      {
        NextTriple(y, x[..], at, n, j, v, k);
      }
      j := j + 1;
    }
  }

  /** Dequantize a short band of n samples to a window and interleave its windows in place. */
  method ReorderBand(dq: Dequant, x: array<int>, work: array<int>, at: nat, n: nat, g: (int, int,
                     int)) returns (nonZero: (bool, bool, bool))
    requires x != work && at + 3 * n <= x.Length && 3 * n <= work.Length
    modifies x, work
    ensures Interleaved(dq, old(x[..]), x[..], at, n, g)
    ensures x[..at] == old(x[..at]) && x[at + 3 * n..] == old(x[at + 3 * n..])
    ensures MarksNonZero(x[..], at, n, nonZero)
  {
    hide Together, Apart, Dequantized, WorkZero;
    nonZero := DequantWindows(dq, x, work, at, n, g);
    Reorder(x, work, at, n);
    MarksMove(work[..], x[..], at, n, nonZero);
  }

  // ----- long bands

  /** Bands 0 to n - 1 are done and the rest is as before. */
  ghost predicate LongDone(dq: Dequant, x: seq<int>, y: seq<int>, sb: SfBand, p: Params, n: nat)
    requires ParamsOk(p) && n <= 22
  {
    && |x| == |y| == 576 && sb.l[n] <= 576
    && (forall cb | 0 <= cb < n :: LongBand(dq, x, y, sb, p, cb))
    && y[sb.l[n]..] == x[sb.l[n]..]
  }

  /** All samples of the bands above cb, up to band n, are zero. */
  ghost predicate LongZeroAbove(y: seq<int>, sb: SfBand, cb: nat, n: nat)
    requires n <= 22
  {
    |y| == 576 && forall c | cb < c < n :: ZeroIn(y, sb.l[c], sb.l[c + 1])
  }

  /** cb is the last of the first n bands with a sample that is not zero, or 0. */
  ghost predicate LongEnd(y: seq<int>, sb: SfBand, cb: nat, n: nat)
    requires n <= 22
  {
    LongZeroAbove(y, sb, cb, n) && (cb == 0 || (cb < n && !ZeroIn(y, sb.l[cb], sb.l[cb + 1])))
  }

  /** The first n long bands are left at sample `at`: the start of the first band but band 0 at or behind the bound,
      or their end. */
  ghost predicate LongLeft(sb: SfBand, n: nat, bound: nat, at: nat)
    requires n <= 22
  {
    if n == 0 then at == 0
    else exists c {:trigger sb.l[c]} | 1 <= c <= n ::
           at == sb.l[c] && (c < n ==> bound <= sb.l[c]) && (c > 1 ==> sb.l[c - 1] < bound)
  }

  lemma LongNext(dq: Dequant, x: seq<int>, y: seq<int>, z: seq<int>, sb: SfBand, p: Params, n: nat)
    requires ParamsOk(p) && n < 22 && LongDone(dq, x, y, sb, p, n) && sb.l[n] < sb.l[n + 1] <= 576
    requires Moved(dq, y, sb.l[n], y, z, sb.l[n], sb.l[n + 1] - sb.l[n], LongGain(p, n))
    ensures LongDone(dq, x, z, sb, p, n + 1)
  {
    hide LongGain;
    assert forall i | sb.l[n] <= i < 576 :: y[i] == x[i] by {
      forall i | sb.l[n] <= i < 576 ensures y[i] == x[i] {
        assert y[sb.l[n]..][i - sb.l[n]] == x[sb.l[n]..][i - sb.l[n]];
      }
    }
    forall cb | 0 <= cb < n + 1 ensures LongBand(dq, x, z, sb, p, cb) {
      if cb < n {
        assert LongBand(dq, x, y, sb, p, cb);
        BandsUpTo(sb.l, 23, 576, cb + 1, n);
      }
    }
  }

  lemma BandsUpTo(s: seq<nat>, n: nat, end: nat, i: nat, j: nat)
    requires IsBands(s, n, end) && i <= j < n
    ensures s[i] <= s[j] <= end
  {
    if i < j {
      BandsClimb(s, n, end, i, j);
    } else if j > 0 {
      BandsClimb(s, n, end, 0, j);
    }
  }

  lemma BandStep(s: seq<nat>, n: nat, end: nat, i: nat)
    requires IsBands(s, n, end) && i + 1 < n
    ensures s[i] < s[i + 1] <= end
  {
    BandsClimb(s, n, end, i, i + 1);
  }

  lemma LongUpTo(sb: SfBand, c: nat, n: nat)
    requires c < n <= 22
    ensures |sb.l| == 23 && sb.l[c] < sb.l[c + 1] <= sb.l[n] <= 576
  {
    BandStep(sb.l, 23, 576, c);
    BandsUpTo(sb.l, 23, 576, c + 1, n);
  }

  /** Beyond the last non-zero sample the remaining bands are done as they are. */
  lemma LongRest(dq: Dequant, x: seq<int>, y: seq<int>, sb: SfBand, p: Params, n: nat, m: nat, nonZeroBound: nat)
    requires ParamsOk(p) && n <= m <= 22 && LongDone(dq, x, y, sb, p, n)
    requires ZeroFrom(x, nonZeroBound) && nonZeroBound <= sb.l[n]
    ensures LongDone(dq, x, y, sb, p, m) && forall c | n <= c < m :: ZeroIn(y, sb.l[c], sb.l[c + 1])
  {
    hide LongGain, IsBands;
    LongUpToEnd(sb, n, m);
    assert forall i | sb.l[n] <= i < 576 :: y[i] == 0 && x[i] == 0 by {
      forall i | sb.l[n] <= i < 576 ensures y[i] == x[i] {
        assert y[sb.l[n]..][i - sb.l[n]] == x[sb.l[n]..][i - sb.l[n]];
      }
    }
    forall cb | n <= cb < m ensures LongBand(dq, x, y, sb, p, cb) && ZeroIn(y, sb.l[cb], sb.l[cb + 1]) {
      LongUpToEnd(sb, n, cb);
      LongUpTo(sb, cb, m);
    }
    TailAt(x, y, sb.l[n], sb.l[m]);
  }

  lemma LongUpToEnd(sb: SfBand, n: nat, m: nat)
    requires n <= m <= 22
    ensures |sb.l| == 23 && sb.l[n] <= sb.l[m] <= 576
  {
    BandsUpTo(sb.l, 23, 576, n, m);
  }

  lemma TailAt(x: seq<int>, y: seq<int>, a: nat, b: nat)
    requires a <= b <= |x| == |y| && x[a..] == y[a..]
    ensures x[b..] == y[b..]
  {
    assert x[b..] == x[a..][b - a..] && y[b..] == y[a..][b - a..];
  }

  /** The zero bound stays one. */
  lemma LongKeepsZeros(dq: Dequant, x: seq<int>, y: seq<int>, sb: SfBand, p: Params, n: nat, nonZeroBound: nat)
    requires ParamsOk(p) && n <= 22 && LongDone(dq, x, y, sb, p, n) && ZeroFrom(x, nonZeroBound)
    ensures ZeroFrom(y, nonZeroBound)
  {
    hide LongGain;
    forall i | nonZeroBound <= i < 576 ensures y[i] == 0 {
      if i < sb.l[n] {
        var cb := BandOf(sb.l, n, i);
        assert LongBand(dq, x, y, sb, p, cb);
      } else {
        assert y[sb.l[n]..][i - sb.l[n]] == x[sb.l[n]..][i - sb.l[n]];
      }
    }
  }

  /** The band of a sample. */
  lemma BandOf(l: LongBands, n: nat, i: nat) returns (cb: nat)
    requires n <= 22 && l[0] <= i < l[n]
    ensures cb < n && l[cb] <= i < l[cb + 1]
  {
    cb := n - 1;
    while i < l[cb]
      invariant cb < n && i < l[cb + 1]
    {
      cb := cb - 1;
    }
  }

  /** Dequantize the long bands in place until the last non-zero sample is passed. at is the sample
      reached, cbMax the highest band with a non-zero sample. */
  method DequantLong(dq: Dequant, x: array<int>, sb: SfBand, p: Params, cbEndL: nat,
                     nonZeroBound: nat) returns (at: nat, cbMax: nat)
    requires ParamsOk(p) && x.Length == 576 && cbEndL <= 22 && ZeroFrom(x[..], nonZeroBound)
    modifies x
    ensures LongDone(dq, old(x[..]), x[..], sb, p, cbEndL)
    ensures at <= sb.l[cbEndL] && (at == sb.l[cbEndL] || at >= nonZeroBound)
    ensures LongEnd(x[..], sb, cbMax, cbEndL) && LongLeft(sb, cbEndL, nonZeroBound, at)
  {
    hide LongGain, LongBand, LongDone, ZeroIn, IsBands, LongZeroAbove;
    ghost var x0 := x[..];
    NoLong(dq, x0, sb, p);
    at, cbMax := 0, 0;
    var cb := 0;
    while cb < cbEndL
      invariant 0 <= cb <= cbEndL && at == sb.l[cb]
      invariant LongDone(dq, x0, x[..], sb, p, cb) && LongEnd(x[..], sb, cbMax, cb)
      invariant cb > 0 ==> sb.l[cb] < nonZeroBound
      invariant cb > 1 ==> sb.l[cb - 1] < nonZeroBound
    {
      BandStep(sb.l, 23, 576, cb);
      var nSamps := sb.l[cb + 1] - sb.l[cb];
      ghost var y := x[..];
      var nonZero := DequantBlock(dq, x, at, x, at, nSamps, LongGain(p, cb));
      LongNext(dq, x0, y, x[..], sb, p, cb);
      LongEndNext(y, x[..], sb, cbMax, cb, nonZero);
      at := at + nSamps;
      // the band counts if any of its values does
      if nonZero {
        cbMax := cb;
      }
      cb := cb + 1;
      if at >= nonZeroBound {
        break;
      }
    }
    if cb < cbEndL {
      LongRest(dq, x0, x[..], sb, p, cb, cbEndL, nonZeroBound);
      BandsUpTo(sb.l, 23, 576, cb, cbEndL);
      LongEndRest(x[..], sb, cbMax, cb, cbEndL);
    }
    assert cbEndL > 0 ==> at == sb.l[cb];
  }

  lemma NoLong(dq: Dequant, x: seq<int>, sb: SfBand, p: Params)
    requires ParamsOk(p) && |x| == 576
    ensures LongDone(dq, x, x, sb, p, 0) && LongEnd(x, sb, 0, 0) && sb.l[0] == 0 && |sb.l| == 23
  {
  }

  lemma LongEndRest(y: seq<int>, sb: SfBand, cbMax: nat, n: nat, m: nat)
    requires n <= m <= 22 && LongEnd(y, sb, cbMax, n) && forall c | n <= c < m :: ZeroIn(y, sb.l[c], sb.l[c + 1])
    ensures LongEnd(y, sb, cbMax, m)
  {
    hide IsBands, ZeroIn;
  }

  lemma LongEndNext(y: seq<int>, z: seq<int>, sb: SfBand, cbMax: nat, cb: nat, nonZero: bool)
    requires cb < 22 && LongEnd(y, sb, cbMax, cb) && sb.l[cb] <= sb.l[cb + 1] <= 576
    requires |z| == 576 && forall i | 0 <= i < sb.l[cb] :: z[i] == y[i]
    requires nonZero <==> !ZeroIn(z, sb.l[cb], sb.l[cb + 1])
    ensures LongEnd(z, sb, if nonZero then cb else cbMax, cb + 1)
  {
    hide IsBands;
    assert |sb.l| == 23 by { LongUpTo(sb, 0, 1); }
    forall c | 0 <= c < cb ensures ZeroIn(y, sb.l[c], sb.l[c + 1]) <==> ZeroIn(z, sb.l[c], sb.l[c + 1]) {
      LongUpTo(sb, c, cb);
    }
  }

  // ----- short bands

  /** Bands first to n - 1 are done and the rest is as before. */
  ghost predicate ShortDone(dq: Dequant, x: seq<int>, y: seq<int>, sb: SfBand, p: Params, first: nat, n: nat)
    requires ParamsOk(p) && first <= n <= 13
  {
    && |x| == |y| == 576
    && (forall cb | first <= cb < n :: ShortBand(dq, x, y, sb, p, cb))
    && y[..Start(sb, first)] == x[..Start(sb, first)] && y[Start(sb, n)..] == x[Start(sb, n)..]
  }

  lemma InterleavedKept(dq: Dequant, x: seq<int>, y: seq<int>, z: seq<int>, at: nat, n: nat, g: (int, int, int),
                        upTo: nat)
    requires Interleaved(dq, x, y, at, n, g) && at + 3 * n <= upTo <= |y| == |z| && z[..upTo] == y[..upTo]
    ensures Interleaved(dq, x, z, at, n, g)
  {
    hide Together, Apart, Dequantized;
    TogetherKept(y, z, at, n, upTo);
  }

  lemma TogetherKept(y: seq<int>, z: seq<int>, at: nat, n: nat, upTo: nat)
    requires at + 3 * n <= upTo <= |y| == |z| && z[..upTo] == y[..upTo]
    ensures forall j | 0 <= j < n :: Together(z, at, n, j) == Together(y, at, n, j)
  {
    assert forall i | 0 <= i < upTo :: z[..upTo][i] == z[i] && y[..upTo][i] == y[i];
  }

  lemma InterleavedFrom(dq: Dequant, x: seq<int>, y: seq<int>, z: seq<int>, at: nat, n: nat, g: (int, int, int))
    requires Interleaved(dq, y, z, at, n, g) && |x| == |y| && x[at..] == y[at..]
    ensures Interleaved(dq, x, z, at, n, g)
  {
    forall j | 0 <= j < n ensures Apart(x, at, n, j) == Apart(y, at, n, j) {
      assert x[at..][j] == y[at..][j] && x[at..][n + j] == y[at..][n + j] && x[at..][2 * n + j] == y[at..][2 * n + j];
    }
  }

  lemma ShortNext(dq: Dequant, x: seq<int>, y: seq<int>, z: seq<int>, sb: SfBand, p: Params, first: nat, n: nat)
    requires ParamsOk(p) && first <= n < 13 && ShortDone(dq, x, y, sb, p, first, n)
    requires Interleaved(dq, y, z, Start(sb, n), Width(sb, n), Gains(p, n))
    requires z[..Start(sb, n)] == y[..Start(sb, n)] && z[Start(sb, n + 1)..] == y[Start(sb, n + 1)..]
    ensures ShortDone(dq, x, z, sb, p, first, n + 1)
  {
    hide Gains, Interleaved, Start, Width;
    LengthKept(dq, y, z, Start(sb, n), Width(sb, n), Gains(p, n));
    forall cb | first <= cb < n + 1 ensures ShortBand(dq, x, z, sb, p, cb) {
      if cb < n {
        assert ShortBand(dq, x, y, sb, p, cb);
        StartsClimb(sb, cb + 1, n);
        InterleavedKept(dq, x, y, z, Start(sb, cb), Width(sb, cb), Gains(p, cb), Start(sb, n));
      } else {
        InterleavedFrom(dq, x, y, z, Start(sb, n), Width(sb, n), Gains(p, n));
      }
    }
    StartsClimb(sb, first, n);
    SlicesKept(x, y, z, Start(sb, first), Start(sb, n), Start(sb, n + 1));
  }

  lemma LengthKept(dq: Dequant, y: seq<int>, z: seq<int>, at: nat, n: nat, g: (int, int, int))
    requires Interleaved(dq, y, z, at, n, g)
    ensures |y| == |z|
  {
  }

  lemma SlicesKept(x: seq<int>, y: seq<int>, z: seq<int>, a: nat, b: nat, c: nat)
    requires a <= b <= c <= |x| == |y| == |z|
    requires y[..a] == x[..a] && y[b..] == x[b..] && z[..b] == y[..b] && z[c..] == y[c..]
    ensures z[..a] == x[..a] && z[c..] == x[c..]
  {
    assert z[..a] == z[..b][..a] && y[..b][..a] == y[..a];
    assert x[c..] == x[b..][c - b..] && y[c..] == y[b..][c - b..];
  }

  lemma ZeroBand(dq: Dequant, x: seq<int>, y: seq<int>, at: nat, n: nat, g: (int, int, int))
    requires |x| == |y| && at + 3 * n <= |x| && ZeroFrom(x, at) && ZeroFrom(y, at)
    ensures Interleaved(dq, x, y, at, n, g) && forall j | 0 <= j < n :: Together(y, at, n, j) == (0, 0, 0)
  {
  }

  /** Window w of band c is zero. */
  ghost predicate WindowZero(y: seq<int>, sb: SfBand, c: nat, w: nat)
    requires c < 13 && w < 3 && |y| == 576
  {
    WindowZeroAt(y, Start(sb, c), Width(sb, c), w)
  }

  /** In each window all bands above cbMax, up to band n, are zero. */
  ghost predicate ShortZeroAbove(y: seq<int>, sb: SfBand, first: nat, cbMax: (nat, nat, nat), n: nat)
    requires n <= 13 && |y| == 576
  {
    forall c, w | first <= c < n && 0 <= w < 3 && Highest(cbMax, w) < c :: WindowZero(y, sb, c, w)
  }

  /** In each window cbMax is the last band, from `first` on and below n, with a sample that is not zero, or first. */
  ghost predicate ShortEnd(y: seq<int>, sb: SfBand, first: nat, cbMax: (nat, nat, nat), n: nat)
    requires n <= 13 && |y| == 576
  {
    && ShortZeroAbove(y, sb, first, cbMax, n)
    && forall w | 0 <= w < 3 ::
         Highest(cbMax, w) == first || (first < Highest(cbMax, w) < n && !WindowZero(y, sb, Highest(cbMax, w), w))
  }

  /** The short bands from `first` on, entered at sample `from`, are left at sample `at`: the end of the first band
      that ends at or behind the bound. A mixed block whose long bands were left early takes one band from there. */
  ghost predicate ShortLeft(sb: SfBand, first: nat, from: nat, bound: nat, at: nat)
    requires first < 13
  {
    if from == Start(sb, first) then
      exists c {:trigger Start(sb, c)} | first < c <= 13 ::
        at == Start(sb, c) && bound <= at && (c > first + 1 ==> Start(sb, c - 1) < bound)
    else at == from + 3 * Width(sb, first)
  }

  function Highest(cbMax: (nat, nat, nat), w: nat): nat {
    if w == 0 then cbMax.0 else if w == 1 then cbMax.1 else cbMax.2
  }

  function NextMax(cbMax: (nat, nat, nat), cb: nat, nonZero: (bool, bool, bool)): (nat, nat, nat) {
    (if nonZero.0 then cb else cbMax.0, if nonZero.1 then cb else cbMax.1, if nonZero.2 then cb else cbMax.2)
  }

  lemma TailsZero(x: seq<int>, y: seq<int>, at: nat, bound: nat)
    requires at <= |x| == |y| && y[at..] == x[at..] && ZeroFrom(x, bound) && bound <= at
    ensures ZeroFrom(x, at) && ZeroFrom(y, at)
  {
    forall i | at <= i < |x| ensures y[i] == x[i] {
      assert y[at..][i - at] == x[at..][i - at];
    }
  }

  /** Beyond the last non-zero sample the remaining bands are done as they are. */
  lemma ShortRest(dq: Dequant, x: seq<int>, y: seq<int>, sb: SfBand, p: Params, first: nat, n: nat, nonZeroBound: nat)
    requires ParamsOk(p) && first <= n <= 13 && ShortDone(dq, x, y, sb, p, first, n)
    requires ZeroFrom(x, nonZeroBound) && nonZeroBound <= Start(sb, n)
    ensures ShortDone(dq, x, y, sb, p, first, 13) && ZeroFrom(y, Start(sb, n))
    ensures forall c, w | n <= c < 13 && 0 <= w < 3 :: WindowZero(y, sb, c, w)
  {
    hide Gains, Interleaved, Start, Width, Together;
    TailsZero(x, y, Start(sb, n), nonZeroBound);
    forall c | n <= c < 13 ensures ShortBand(dq, x, y, sb, p, c) {
      StartsClimb(sb, n, c);
      ZeroBand(dq, x, y, Start(sb, c), Width(sb, c), Gains(p, c));
    }
    forall c, w | n <= c < 13 && 0 <= w < 3 ensures WindowZero(y, sb, c, w) {
      StartsClimb(sb, n, c);
      ZeroBand(dq, x, y, Start(sb, c), Width(sb, c), (0, 0, 0));
    }
  }

  lemma ShortEndNext(y: seq<int>, z: seq<int>, sb: SfBand, first: nat, cbMax: (nat, nat, nat), cb: nat,
                     nonZero: (bool, bool, bool))
    requires first <= cb < 13 && |z| == |y| == 576 && ShortEnd(y, sb, first, cbMax, cb)
    requires z[..Start(sb, cb)] == y[..Start(sb, cb)]
    requires MarksNonZero(z, Start(sb, cb), Width(sb, cb), nonZero)
    ensures ShortEnd(z, sb, first, NextMax(cbMax, cb, nonZero), cb + 1)
  {
    hide Together, Start, Width;
    forall c, w | first <= c < cb && 0 <= w < 3 ensures WindowZero(z, sb, c, w) <==> WindowZero(y, sb, c, w) {
      StartsClimb(sb, c + 1, cb);
      TogetherKept(y, z, Start(sb, c), Width(sb, c), Start(sb, cb));
    }
    forall w | 0 <= w < 3
      ensures Highest(NextMax(cbMax, cb, nonZero), w) == if MarkOf(nonZero, w) then cb else Highest(cbMax, w)
      ensures MarkOf(nonZero, w) <==> !WindowZero(z, sb, cb, w)
    {
    }
  }

  /** A band of zeros is not marked. */
  lemma ZerosUnmarked(y: seq<int>, at: nat, n: nat, nonZero: (bool, bool, bool), bound: nat)
    requires MarksNonZero(y, at, n, nonZero) && ZeroFrom(y, bound) && bound <= at
    ensures nonZero == (false, false, false)
  {
    assert WindowZeroAt(y, at, n, 0) && WindowZeroAt(y, at, n, 1) && WindowZeroAt(y, at, n, 2);
    assert !MarkOf(nonZero, 0) && !MarkOf(nonZero, 1) && !MarkOf(nonZero, 2);
  }

  /** The work buffer takes the widest band. */
  ghost predicate Fits(sb: SfBand, work: nat) {
    forall cb | 0 <= cb < 13 :: 3 * Width(sb, cb) <= work
  }

  /** Dequantize and reorder the short bands in place from sample `from` on until the last non-zero sample is
      passed. Either this is where band `first` starts, or everything from there on is zero and stays so.
      at is the sample reached, cbMax the highest band with a non-zero sample in each window. */
  method DequantShort(dq: Dequant, x: array<int>, work: array<int>, sb: SfBand, p: Params, first: nat, from: nat,
                      nonZeroBound: nat)
    returns (at: nat, cbMax: (nat, nat, nat))
    requires ParamsOk(p) && x.Length == 576 && x != work && Fits(sb, work.Length) && first < 13
    requires nonZeroBound <= 576 && ZeroFrom(x[..], nonZeroBound)
    requires from == Start(sb, first) || (nonZeroBound <= from <= Start(sb, first))
    modifies x, work
    ensures ShortDone(dq, old(x[..]), x[..], sb, p, first, 13)
    ensures nonZeroBound <= at <= 576 && ZeroFrom(x[..], at)
    ensures ShortEnd(x[..], sb, first, cbMax, 13) && ShortLeft(sb, first, from, nonZeroBound, at)
  {
    hide Gains, Interleaved, Start, Width, MarksNonZero, ShortDone, ShortEnd, ZeroFrom, NextMax, IsBands, ParamsOk;
    ghost var x0, aligned := x[..], from == Start(sb, first);
    NoShort(dq, x0, sb, p, first);
    at, cbMax := from, (first, first, first);
    var cb := first;
    while cb < 13
      invariant first <= cb <= 13
      invariant if aligned then at == Start(sb, cb) else at == from && cb == first && x[..] == x0
      invariant aligned ==> ShortDone(dq, x0, x[..], sb, p, first, cb) && ShortEnd(x[..], sb, first, cbMax, cb)
      invariant aligned && cb > first ==> Start(sb, cb) < nonZeroBound
      invariant !aligned ==> cbMax == (first, first, first)
    {
      var nSamps := Width(sb, cb);
      ghost var y, max := x[..], cbMax;
      if !aligned {
        StartsClimb(sb, first, first + 1);
      }
      var nonZero := ReorderBand(dq, x, work, at, nSamps, Gains(p, cb));
      // the highest band of each window that is not silent
      cbMax := NextMax(cbMax, cb, nonZero);
      if aligned {
        ShortNext(dq, x0, y, x[..], sb, p, first, cb);
        ShortEndNext(y, x[..], sb, first, max, cb, nonZero);
      } else {
        ZerosStay(dq, y, x[..], at, nSamps, Gains(p, cb), nonZeroBound);
        ZerosUnmarked(x[..], at, nSamps, nonZero, nonZeroBound);
        NoNextMax(max, cb);
      }
      at := at + 3 * nSamps;
      cb := cb + 1;
      if at >= nonZeroBound {
        break;
      }
    }
    ghost var reached := if aligned then cb else first;
    ShortRest(dq, x0, x[..], sb, p, first, reached, nonZeroBound);
    ShortAllZero(x[..], sb, first, cbMax, reached);
    if !aligned {
      ZerosGrow(x[..], nonZeroBound, at);
    }
  }

  lemma NoNextMax(cbMax: (nat, nat, nat), cb: nat)
    ensures NextMax(cbMax, cb, (false, false, false)) == cbMax
  {
  }

  lemma NoShort(dq: Dequant, x: seq<int>, sb: SfBand, p: Params, first: nat)
    requires ParamsOk(p) && |x| == 576 && first < 13
    ensures ShortDone(dq, x, x, sb, p, first, first) && ShortEnd(x, sb, first, (first, first, first), first)
  {
  }

  lemma ZerosGrow(x: seq<int>, a: nat, b: nat)
    requires ZeroFrom(x, a) && a <= b
    ensures ZeroFrom(x, b)
  {
  }

  /** A band of zeros is not changed. */
  lemma ZerosStay(dq: Dequant, y: seq<int>, z: seq<int>, at: nat, n: nat, g: (int, int, int), nonZeroBound: nat)
    requires ZeroFrom(y, nonZeroBound) && nonZeroBound <= at && Interleaved(dq, y, z, at, n, g)
    requires z[..at] == y[..at] && z[at + 3 * n..] == y[at + 3 * n..]
    ensures z == y
  {
    forall i | 0 <= i < |y| ensures z[i] == y[i] {
      if i < at {
        assert z[..at][i] == y[..at][i];
      } else if i < at + 3 * n {
        var j := (i - at) / 3;
        assert Together(z, at, n, j) == Dequantized(dq, Apart(y, at, n, j), g);
        assert at + 3 * j <= i <= at + 3 * j + 2;
      } else {
        assert z[at + 3 * n..][i - (at + 3 * n)] == y[at + 3 * n..][i - (at + 3 * n)];
      }
    }
  }

  lemma ShortAllZero(y: seq<int>, sb: SfBand, first: nat, cbMax: (nat, nat, nat), n: nat)
    requires first <= n <= 13 && |y| == 576
    requires ShortEnd(y, sb, first, cbMax, n)
    requires forall c, w | n <= c < 13 && 0 <= w < 3 :: WindowZero(y, sb, c, w)
    ensures ShortEnd(y, sb, first, cbMax, 13)
  {
    hide Start, Width;
  }

  // ----- a channel

  datatype CriticalBandInfo = CriticalBandInfo(cbType: nat, cbEndL: nat, cbEndS: (nat, nat, nat), cbEndSMax: nat)

  /** The number of long bands, and the first short band, if any. */
  function LongBandsOf(sis: SideInfoSub, v: Version): nat {
    if sis.blockType != 2 then 22 else if sis.mixedBlock == 0 then 0 else if v == MPEG1 then 8 else 6
  }

  function FirstShort(sis: SideInfoSub): nat {
    if sis.blockType != 2 then 13 else if sis.mixedBlock != 0 then 3 else 0
  }

  /** In mixed blocks the short bands start where the long ones end. */
  predicate Joined(sb: SfBand, v: Version) {
    sb.l[if v == MPEG1 then 8 else 6] == 3 * sb.s[3]
  }

  /** y is x dequantized band by band, with the windows of the short bands interleaved. */
  ghost predicate IsDequantized(dq: Dequant, x: seq<int>, y: seq<int>, sb: SfBand, p: Params, v: Version)
    requires ParamsOk(p)
  {
    && |x| == |y| == 576
    && (forall cb | 0 <= cb < LongBandsOf(p.sis, v) :: LongBand(dq, x, y, sb, p, cb))
    && (forall cb | FirstShort(p.sis) <= cb < 13 :: ShortBand(dq, x, y, sb, p, cb))
  }

  lemma LongKept(dq: Dequant, x: seq<int>, y: seq<int>, z: seq<int>, sb: SfBand, p: Params, n: nat, cbMax: nat)
    requires ParamsOk(p) && n <= 22 && LongDone(dq, x, y, sb, p, n) && LongEnd(y, sb, cbMax, n)
    requires |z| == 576 && z[..sb.l[n]] == y[..sb.l[n]]
    ensures (forall cb | 0 <= cb < n :: LongBand(dq, x, z, sb, p, cb)) && LongEnd(z, sb, cbMax, n)
  {
    hide LongGain, IsBands;
    assert |sb.l| == 23 by { LongUpTo(sb, 0, 1); }
    var upTo := sb.l[n];
    assert forall i | 0 <= i < upTo :: z[i] == y[i] by {
      assert forall i | 0 <= i < upTo :: z[..upTo][i] == z[i] && y[..upTo][i] == y[i];
    }
    forall cb | 0 <= cb < n ensures LongBand(dq, x, z, sb, p, cb) {
      assert LongBand(dq, x, y, sb, p, cb);
      LongUpTo(sb, cb, n);
    }
    forall c | 0 <= c < n ensures ZeroIn(z, sb.l[c], sb.l[c + 1]) <==> ZeroIn(y, sb.l[c], sb.l[c + 1]) {
      LongUpTo(sb, c, n);
    }
  }

  lemma ShortFrom(dq: Dequant, x: seq<int>, y: seq<int>, z: seq<int>, sb: SfBand, p: Params, first: nat)
    requires ParamsOk(p) && first < 13 && ShortDone(dq, y, z, sb, p, first, 13) && |x| == 576
    requires x[Start(sb, first)..] == y[Start(sb, first)..]
    ensures forall cb | first <= cb < 13 :: ShortBand(dq, x, z, sb, p, cb)
  {
    hide Gains, Interleaved, Start, Width;
    forall cb | first <= cb < 13 ensures ShortBand(dq, x, z, sb, p, cb) {
      assert ShortBand(dq, y, z, sb, p, cb);
      StartsClimb(sb, first, cb);
      assert x[Start(sb, cb)..] == x[Start(sb, first)..][Start(sb, cb) - Start(sb, first)..];
      assert y[Start(sb, cb)..] == y[Start(sb, first)..][Start(sb, cb) - Start(sb, first)..];
      InterleavedFrom(dq, x, y, z, Start(sb, cb), Width(sb, cb), Gains(p, cb));
    }
  }

  /** The new bound is the old one for long blocks, and for short ones the end of the band in which the old bound
      lies; a mixed block may be left early in its long bands and then takes one short band more. */
  ghost predicate NewBound(sb: SfBand, sis: SideInfoSub, v: Version, bound: nat, nzb: nat) {
    if FirstShort(sis) == 13 then nzb == bound
    else exists from: nat ::
           LongLeft(sb, LongBandsOf(sis, v), bound, from) && ShortLeft(sb, FirstShort(sis), from, bound, nzb)
  }

  predicate IsMax(m: nat, v: (nat, nat, nat)) {
    v.0 <= m && v.1 <= m && v.2 <= m && m in {v.0, v.1, v.2}
  }

  /** Dequantize one channel in place. */
  method DequantChannel(dq: Dequant, x: array<int>, work: array<int>, sb: SfBand, p: Params, v: Version,
                        nonZeroBound: nat)
    returns (nzb: nat, cbi: CriticalBandInfo)
    requires ParamsOk(p) && x.Length == 576 && x != work && Fits(sb, work.Length) && Joined(sb, v)
    requires nonZeroBound <= 576 && ZeroFrom(x[..], nonZeroBound)
    modifies x, work
    ensures IsDequantized(dq, old(x[..]), x[..], sb, p, v)
    ensures nonZeroBound <= nzb <= 576 && ZeroFrom(x[..], nzb) && NewBound(sb, p.sis, v, nonZeroBound, nzb)
    ensures LongEnd(x[..], sb, cbi.cbEndL, LongBandsOf(p.sis, v))
    ensures if FirstShort(p.sis) < 13 then ShortEnd(x[..], sb, FirstShort(p.sis), cbi.cbEndS, 13)
            else cbi.cbEndS == (0, 0, 0)
    ensures IsMax(cbi.cbEndSMax, cbi.cbEndS)
    ensures cbi.cbType == (if p.sis.blockType != 2 then 0 else if p.sis.mixedBlock != 0 then 2 else 1)
  {
    hide LongDone, LongBand, ShortDone, ShortBand, Width, Fits, LongEnd, ShortEnd, LongLeft, ShortLeft, IsBands;
    var cbEndL, cbStartS := LongBandsOf(p.sis, v), FirstShort(p.sis);
    ghost var x0 := x[..];
    var i, cbMaxL := DequantLong(dq, x, sb, p, cbEndL, nonZeroBound);
    ghost var x1 := x[..];
    LongKeepsZeros(dq, x0, x1, sb, p, cbEndL, nonZeroBound);
    nzb, cbi := nonZeroBound, CriticalBandInfo(0, cbMaxL, (0, 0, 0), 0);
    // a long block ends here
    if cbStartS >= 12 {
      LongKept(dq, x0, x1, x1, sb, p, cbEndL, cbMaxL);
      return;
    }
    LongMeetsShort(dq, x0, x1, sb, p, v);
    var cbMax;
    i, cbMax := DequantShort(dq, x, work, sb, p, cbStartS, i, nonZeroBound);
    ShortFront(dq, x1, x[..], sb, p, cbStartS);
    LongKept(dq, x0, x1, x[..], sb, p, cbEndL, cbMaxL);
    ShortFrom(dq, x0, x1, x[..], sb, p, cbStartS);
    nzb := i;
    cbi := CriticalBandInfo(if p.sis.mixedBlock != 0 then 2 else 1, cbMaxL, cbMax, Max(Max(cbMax.0, cbMax.1), cbMax.2));
  }

  lemma LongMeetsShort(dq: Dequant, x: seq<int>, y: seq<int>, sb: SfBand, p: Params, v: Version)
    requires ParamsOk(p) && p.sis.blockType == 2 && Joined(sb, v) && LongDone(dq, x, y, sb, p, LongBandsOf(p.sis, v))
    ensures |sb.l| == 23 && sb.l[LongBandsOf(p.sis, v)] == Start(sb, FirstShort(p.sis))
    ensures |x| == |y| == 576 && x[Start(sb, FirstShort(p.sis))..] == y[Start(sb, FirstShort(p.sis))..]
  {
  }

  lemma ShortFront(dq: Dequant, x: seq<int>, y: seq<int>, sb: SfBand, p: Params, first: nat)
    requires ParamsOk(p) && first < 13 && ShortDone(dq, x, y, sb, p, first, 13)
    ensures |x| == |y| == 576 && y[..Start(sb, first)] == x[..Start(sb, first)]
  {
  }

  // ----- the tables of the decoder

  predicate Narrow(s: ShortBands) {
    && 3 * (s[1] - s[0]) <= 198 && 3 * (s[2] - s[1]) <= 198 && 3 * (s[3] - s[2]) <= 198 && 3 * (s[4] - s[3]) <= 198
    && 3 * (s[5] - s[4]) <= 198 && 3 * (s[6] - s[5]) <= 198 && 3 * (s[7] - s[6]) <= 198 && 3 * (s[8] - s[7]) <= 198
    && 3 * (s[9] - s[8]) <= 198 && 3 * (s[10] - s[9]) <= 198 && 3 * (s[11] - s[10]) <= 198 && 3 * (s[12] - s[11]) <= 198
    && 3 * (s[13] - s[12]) <= 198
  }

  lemma NarrowFits(sb: SfBand)
    requires Narrow(sb.s)
    ensures Fits(sb, MAX_REORDER_SAMPS)
  {
    hide IsBands;
    assert |sb.s| == 14 by { Fourteen(sb.s); }
    forall cb | 0 <= cb < 13 ensures 3 * Width(sb, cb) <= MAX_REORDER_SAMPS {
      assert cb in {0, 1, 2, 3, 4, 5, 6, 7, 8, 9, 10, 11, 12};
    }
  }

  lemma Fourteen(s: ShortBands)
    ensures |s| == 14
  {
  }

  lemma ShortTablesNarrow()
    ensures Narrow(S_44) && Narrow(S_48) && Narrow(S_32) && Narrow(S_22) && Narrow(S_24) && Narrow(S_16) && Narrow(S_8)
  {
    hide Narrow, IsBands;
    NarrowMpeg1();
    NarrowMpeg2();
    NarrowMpeg25();
  }

  lemma NarrowMpeg1()
    ensures Narrow(S_44) && Narrow(S_48) && Narrow(S_32)
  {
    hide IsBands;
  }

  lemma NarrowMpeg2()
    ensures Narrow(S_22) && Narrow(S_24)
  {
    hide IsBands;
  }

  lemma NarrowMpeg25()
    ensures Narrow(S_16) && Narrow(S_8)
  {
    hide IsBands;
  }

  /** The assumptions on the bands hold for all sample rates: the work buffer is large enough, and mixed
      blocks join. */
  lemma TablesFit(v: Version, sr: nat)
    requires sr < 3
    ensures Fits(SfBands(SF_BAND_TABLE, v, sr), MAX_REORDER_SAMPS) && Joined(SfBands(SF_BAND_TABLE, v, sr), v)
  {
    hide IsBands, Narrow, Fits;
    ShortTablesNarrow();
    NarrowFits(SfBands(SF_BAND_TABLE, v, sr));
  }
}
