/** DecodeHuffman: one granule and channel of Huffman codes fills the whole spectrum. */
module HuffmanBlock {
  import opened Bits
  import opened Mp3Tables
  import opened HuffmanSpec
  import opened HuffmanTheory
  import opened Huffman
  import opened HuffmanQuads

  datatype HuffTables = HuffTables(pairs: seq<Table>, quads: seq<QuadTable>)

  predicate TablesShape(ht: HuffTables) {
    |ht.pairs| == 32 && |ht.quads| == 2
  }

  ghost predicate TablesOk(ht: HuffTables) {
    && TablesShape(ht)
    && (forall i | 0 <= i < 32 :: WFTable(ht.pairs[i]))
    && (forall i | 0 <= i < 2 :: WFQuads(ht.quads[i]))
  }

  lemma TableOk(ht: HuffTables, i: nat)
    requires TablesOk(ht) && i < 32
    ensures TablesShape(ht) && WFTable(ht.pairs[i])
  {
  }

  /** The side information selects existing tables and bands. */
  predicate SideOk(sis: SideInfoSub) {
    && |sis.tableSelect| == 3
    && (forall i | 0 <= i < 3 :: sis.tableSelect[i] < 32)
    && sis.count1TableSelect < 2
    && sis.region0Count + sis.region1Count <= 20
  }

  function R1Start(v: Version, sb: SfBand, sis: SideInfoSub): nat
    requires SideOk(sis)
  {
    if sis.winSwitchFlag != 0 && sis.blockType == 2 then
      if sis.mixedBlock == 0 then sb.s[(sis.region0Count + 1) / 3] * 3
      else if v == MPEG1 then sb.l[sis.region0Count + 1]
      else
        // the first six long bands, up to the fourth short one
        BandsClimb(sb.s, 14, 192, 3, 4);
        sb.l[6] + 2 * (sb.s[4] - sb.s[3])
    else sb.l[sis.region0Count + 1]
  }

  function R2Start(sb: SfBand, sis: SideInfoSub): nat
    requires SideOk(sis)
  {
    if sis.winSwitchFlag != 0 && sis.blockType == 2 then MAX_NSAMP
    else sb.l[sis.region0Count + 1 + sis.region1Count + 1]
  }

  /** Where the big-value regions end. */
  function RegionEnds(v: Version, sb: SfBand, sis: SideInfoSub): seq<nat>
    requires SideOk(sis)
  {
    var e3 := Min(MAX_NSAMP, 2 * sis.nBigvals);
    [0, Min(R1Start(v, sb, sis), e3), Min(R2Start(sb, sis), e3), e3]
  }

  // ----- the regions as numbers of scale factor bands

  predicate ShortBlock(sis: SideInfoSub) {
    sis.winSwitchFlag != 0 && sis.blockType == 2
  }

  /** Widths of the bands in the order in which they are coded: a short band once for each window. A mixed block
      starts with the long bands up to the fourth short one. */
  function CodedBands(v: Version, sb: SfBand, sis: SideInfoSub): seq<int> {
    var long, short := Widths(sb.l, 22), Windows(sb.s);
    if !ShortBlock(sis) then long
    else if sis.mixedBlock == 0 then short
    else long[..LongOfMixed(v)] + short[9..]
  }

  function Widths(s: seq<nat>, n: nat): (w: seq<int>)
    requires n < |s|
    ensures |w| == n
  {
    seq(n, i requires 0 <= i < n => var end: int := s[i + 1]; end - s[i])
  }

  function Windows(s: ShortBands): (w: seq<int>)
    ensures |w| == 39
  {
    seq(39, i requires 0 <= i < 39 => s[i / 3 + 1] - s[i / 3])
  }

  function Sum(w: seq<int>): int {
    if w == [] then 0 else Sum(w[..|w| - 1]) + w[|w| - 1]
  }

  lemma {:induction false} WidthsSum(s: seq<nat>, n: nat, k: nat)
    requires k <= n < |s| && s[0] == 0
    ensures Sum(Widths(s, n)[..k]) == s[k]
  {
    if k > 0 {
      WidthsSum(s, n, k - 1);
      assert Widths(s, n)[..k][..k - 1] == Widths(s, n)[..k - 1];
    }
  }

  lemma SumLast(w: seq<int>, i: nat)
    requires i < |w|
    ensures Sum(w[..i + 1]) == Sum(w[..i]) + w[i]
  {
    assert w[..i + 1][..i] == w[..i];
  }

  lemma NothingSum(w: seq<int>)
    ensures w == [] ==> Sum(w) == 0
  {
  }

  lemma WindowsAre(s: ShortBands, k: nat)
    requires k < 13
    ensures |s| == 14
    ensures var w := Windows(s); w[3 * k] == w[3 * k + 1] == w[3 * k + 2] == s[k + 1] - s[k]
  {
    hide IsBands;
    FirstBand(s, 14, 192);
  }

  lemma {:induction false} WindowsSum(s: ShortBands, k: nat)
    requires k <= 13
    ensures Sum(Windows(s)[..3 * k]) == 3 * s[k]
  {
    hide IsBands, Sum, Windows;
    FirstBand(s, 14, 192);
    if k == 0 {
      NothingSum(Windows(s)[..0]);
    } else {
      var w := Windows(s);
      WindowsSum(s, k - 1);
      WindowsAre(s, k - 1);
      SumLast(w, 3 * k - 3);
      SumLast(w, 3 * k - 2);
      SumLast(w, 3 * k - 1);
    }
  }

  lemma FirstBand(s: seq<nat>, n: nat, end: nat)
    requires IsBands(s, n, end)
    ensures |s| == n && s[0] == 0 && s[n - 1] == end
  {
  }

  lemma {:induction false} SumJoined(a: seq<int>, b: seq<int>)
    ensures Sum(a + b) == Sum(a) + Sum(b)
  {
    if b == [] {
      assert a + b == a;
    } else {
      assert (a + b)[..|a + b| - 1] == a + b[..|b| - 1];
      SumJoined(a, b[..|b| - 1]);
    }
  }

  /** The long bands of a mixed block. */
  function LongOfMixed(v: Version): nat {
    if v == MPEG1 then 8 else 6
  }

  /** With the region counts that the side information gives or implies, the first region has one band more than
      its count says. So has the second one of a long block; that of a short block takes all that is left. */
  lemma RegionsAreBands(v: Version, sb: SfBand, sis: SideInfoSub)
    requires SideOk(sis) && sb.l[LongOfMixed(v)] == 3 * sb.s[3]
    requires ShortBlock(sis) ==> sis.region0Count == if sis.mixedBlock == 0 then 8 else 7
    ensures var w := CodedBands(v, sb, sis);
            && R1Start(v, sb, sis) == Sum(w[..sis.region0Count + 1])
            && R2Start(sb, sis) == if ShortBlock(sis) then Sum(w) else Sum(w[..sis.region0Count + sis.region1Count + 2])
  {
    hide IsBands;
    FirstBand(sb.l, 23, 576);
    FirstBand(sb.s, 14, 192);
    if !ShortBlock(sis) {
      WidthsSum(sb.l, 22, sis.region0Count + 1);
      WidthsSum(sb.l, 22, sis.region0Count + sis.region1Count + 2);
    } else if sis.mixedBlock == 0 {
      WindowsSum(sb.s, 3);
      WindowsSum(sb.s, 13);
      assert Windows(sb.s)[..39] == Windows(sb.s);
    } else {
      MixedRegions(v, sb);
    }
  }

  lemma MixedRegions(v: Version, sb: SfBand)
    requires sb.l[LongOfMixed(v)] == 3 * sb.s[3]
    ensures var w := Widths(sb.l, 22)[..LongOfMixed(v)] + Windows(sb.s)[9..];
            && Sum(w) == 576
            && Sum(w[..8]) == if v == MPEG1 then sb.l[8] else sb.l[6] + 2 * (sb.s[4] - sb.s[3])
  {
    hide IsBands, Sum;
    FirstBand(sb.l, 23, 576);
    FirstBand(sb.s, 14, 192);
    var long, short := Widths(sb.l, 22)[..LongOfMixed(v)], Windows(sb.s);
    WidthsSum(sb.l, 22, LongOfMixed(v));
    WindowsSum(sb.s, 3);
    WindowsSum(sb.s, 13);
    assert short == short[..39] == short[..9] + short[9..];
    SumJoined(short[..9], short[9..]);
    SumJoined(long, short[9..]);
    if v == MPEG1 {
      assert (long + short[9..])[..8] == long;
    } else {
      assert (long + short[9..])[..8] == long + [short[9], short[10]];
      SumJoined(long, [short[9], short[10]]);
      TwoSum(short[9], short[10]);
    }
  }

  lemma TwoSum(x: int, y: int)
    ensures Sum([x, y]) == x + y
  {
    assert [x, y][..1] == [x] && Sum([x]) == Sum([]) + x;
  }

  lemma StartsEven(v: Version, sb: SfBand, sis: SideInfoSub)
    requires SideOk(sis)
    ensures R1Start(v, sb, sis) % 2 == 0 && R2Start(sb, sis) % 2 == 0
  {
    hide IsBands;
    BandEven(sb.s, 14, 192, (sis.region0Count + 1) / 3);
    BandEven(sb.l, 23, 576, sis.region0Count + 1);
    BandEven(sb.l, 23, 576, sis.region0Count + 1 + sis.region1Count + 1);
    BandEven(sb.l, 23, 576, 6);
    EvenThrice(sb.s[(sis.region0Count + 1) / 3]);
    BandEven(sb.s, 14, 192, 4);
    BandsClimb(sb.s, 14, 192, 3, 4);
    EvenSum(sb.l[6], sb.s[4] - sb.s[3]);
  }

  lemma BandEven(s: seq<nat>, n: nat, end: nat, i: nat)
    requires IsBands(s, n, end) && i < n
    ensures i < |s| && s[i] % 2 == 0
  {
    if i > 0 {
      assert s[i - 1] < s[i];
    }
  }

  lemma EvenThrice(a: int)
    requires a % 2 == 0
    ensures a * 3 % 2 == 0
  {
  }

  lemma EvenSum(a: int, b: int)
    requires a % 2 == 0
    ensures (a + 2 * b) % 2 == 0
  {
  }

  lemma StartsOrdered(v: Version, sb: SfBand, sis: SideInfoSub)
    requires SideOk(sis)
    ensures R1Start(v, sb, sis) <= R2Start(sb, sis) || R2Start(sb, sis) == MAX_NSAMP
  {
    hide IsBands;
    if !(sis.winSwitchFlag != 0 && sis.blockType == 2) {
      BandsClimb(sb.l, 23, 576, sis.region0Count + 1, sis.region0Count + 1 + sis.region1Count + 1);
    }
  }

  lemma RegionEndsOrdered(v: Version, sb: SfBand, sis: SideInfoSub)
    requires SideOk(sis)
    ensures var e := RegionEnds(v, sb, sis);
            && |e| == 4 && e[0] == 0 && e[1] <= e[2] <= e[3] <= 576
            && e[1] % 2 == 0 && e[2] % 2 == 0 && e[3] % 2 == 0
  {
    hide R1Start, R2Start, IsBands;
    StartsEven(v, sb, sis);
    StartsOrdered(v, sb, sis);
  }

  // ----- specification

  function Join(vals: seq<int>, r: BigValues): BigValues {
    match r
    case Short => r
    case Regions(rest, p) => Regions(vals + rest, p)
  }

  /** Regions i, i + 1, ... 2 from position p of the bits b. */
  function ReadRegions(ht: HuffTables, select: seq<nat>, ends: seq<nat>, b: seq<bool>, i: nat, p: nat): BigValues
    requires |ht.pairs| == 32 && |select| == 3 && (forall k | 0 <= k < 3 :: select[k] < 32)
    requires |ends| == 4 && (forall k | 0 <= k < 3 :: ends[k] <= ends[k + 1])
    requires i <= 3
    decreases 3 - i
  {
    if i == 3 then Regions([], p)
    else if p > |b| then Short
    else
      match ReadRegion(ht.pairs[select[i]], b[p..], ends[i + 1] - ends[i])
      case Short => Short
      case Regions(vals, used) => Join(vals, ReadRegions(ht, select, ends, b, i + 1, p + used))
  }

  /** The same regions as the table-driven decoder takes them; off is the position of the first bit of b
      in its byte. */
  function DecodedRegions(ht: HuffTables, select: seq<nat>, ends: seq<nat>, b: seq<bool>, off: nat, i: nat,
                            p: nat): BigValues
    requires TablesShape(ht) && |select| == 3 && (forall k | 0 <= k < 3 :: select[k] < 32)
    requires |ends| == 4 && (forall k | 0 <= k < 3 :: ends[k] <= ends[k + 1])
    requires i <= 3
    decreases 3 - i
  {
    if i == 3 then Regions([], p)
    else if p > |b| then Short
    else
      match DecodedRegion(ht.pairs[select[i]], b[p..], (off + p) % 8, ends[i + 1] - ends[i])
      case Short => Short
      case Regions(vals, used) => Join(vals, DecodedRegions(ht, select, ends, b, off, i + 1, p + used))
  }

  /** No table in use has jumps; a region without values does not use its table. */
  predicate NoLoops(ht: HuffTables, select: seq<nat>, ends: seq<nat>)
    requires TablesShape(ht) && |select| == 3 && (forall k | 0 <= k < 3 :: select[k] < 32) && |ends| == 4
  {
    forall k {:trigger select[k]} | 0 <= k < 3 :: ends[k] == ends[k + 1] || !Loops(ht.pairs[select[k]])
  }

  /** The decoder's regions are those of the walk whenever the bits hold the codewords, and short
      otherwise if no table in use has jumps. */
  lemma {:induction false} RegionsByWalk(ht: HuffTables, select: seq<nat>, ends: seq<nat>, b: seq<bool>, off: nat,
                                         i: nat, p: nat)
    requires TablesOk(ht) && |select| == 3 && (forall k | 0 <= k < 3 :: select[k] < 32)
    requires |ends| == 4 && (forall k | 0 <= k < 3 :: ends[k] <= ends[k + 1])
        && (forall k | 0 <= k < 4 :: ends[k] % 2 == 0)
    requires i <= 3
    ensures ReadRegions(ht, select, ends, b, i, p).Regions? || NoLoops(ht, select, ends) ==>
              DecodedRegions(ht, select, ends, b, off, i, p) == ReadRegions(ht, select, ends, b, i, p)
    decreases 3 - i
  {
    hide ReadRegion, DecodedRegion, ReadRegions, DecodedRegions, WFTable, WFQuads;
    ReadRegionsStep(ht, select, ends, b, i, p);
    DecodedRegionsStep(ht, select, ends, b, off, i, p);
    if i < 3 && p <= |b| {
      var tab, n := ht.pairs[select[i]], ends[i + 1] - ends[i];
      RegionByWalk(tab, b[p..], (off + p) % 8, n);
      match ReadRegion(tab, b[p..], n)
      case Short =>
      case Regions(vals, used) => RegionsByWalk(ht, select, ends, b, off, i + 1, p + used);
    }
  }

  lemma ReadRegionsStep(ht: HuffTables, select: seq<nat>, ends: seq<nat>, b: seq<bool>, i: nat, p: nat)
    requires TablesShape(ht) && |select| == 3 && (forall k | 0 <= k < 3 :: select[k] < 32)
    requires |ends| == 4 && (forall k | 0 <= k < 3 :: ends[k] <= ends[k + 1])
    requires i <= 3
    ensures ReadRegions(ht, select, ends, b, i, p) ==
            if i == 3 then Regions([], p)
            else if p > |b| then Short
            else
              match ReadRegion(ht.pairs[select[i]], b[p..], ends[i + 1] - ends[i])
              case Short => Short
              case Regions(vals, used) => Join(vals, ReadRegions(ht, select, ends, b, i + 1, p + used))
  {
    hide ReadRegion;
  }

  /** The 576 values: big values, then quads, then zeros. */
  function Spectrum(big: seq<int>, quads: seq<int>): (s: seq<int>)
    requires |big| + |quads| <= 576
    ensures |s| == 576
  {
    big + quads + seq(576 - |big| - |quads|, _ => 0)
  }

  function QuadsAfter(qt: QuadTable, b: seq<bool>, p: nat, big: nat): (s: seq<int>)
    requires p <= |b| && big <= 576
    ensures |s| <= 576 - big
  {
    if p == |b| then [] else QuadRun(qt, b[p..], 0, 576 - big)
  }

  // ----- the bits behind a moving byte pointer

  lemma BitAtMoves(buf: seq<Byte>, at: nat, d: nat, j: nat)
    requires at + d <= |buf| && j < 8 * |buf[at + d..]|
    ensures BitAt(buf[at + d..], j) == BitAt(buf[at..], 8 * d + j)
  {
    hide ByteBits;
    assert (8 * d + j) / 8 == d + j / 8 && (8 * d + j) % 8 == j % 8;
    assert buf[at + d..][j / 8] == buf[at..][d + j / 8];
  }

  /** Advancing the byte pointer and the bit offset by used bits drops used bits. */
  lemma BitsMove(buf: seq<Byte>, at: nat, off: nat, n: nat, used: nat)
    requires at <= |buf| && used <= n && off + n <= 8 * |buf[at..]|
    ensures var at1 := at + (used + off) / 8;
            var off1 := (used + off) % 8;
            && at1 <= |buf| && off1 + (n - used) <= 8 * |buf[at1..]|
            && BitsOf(buf[at1..], off1, n - used) == BitsOf(buf[at..], off, n)[used..]
  {
    hide BitAt;
    var d, off1 := (used + off) / 8, (used + off) % 8;
    var s, t := BitsOf(buf[at + d..], off1, n - used), BitsOf(buf[at..], off, n)[used..];
    forall i | 0 <= i < n - used ensures s[i] == t[i] {
      BitAtMoves(buf, at, d, off1 + i);
      assert 8 * d + (off1 + i) == off + (used + i);
    }
  }

  lemma JoinTwice(a: seq<int>, b: seq<int>, r: BigValues)
    ensures Join(a + b, r) == Join(a, Join(b, r))
  {
    if r.Regions? {
      assert a + b + r.vals == a + (b + r.vals);
    }
  }

  /** The quads behind `big` values and the zeros behind them; nzb is where the zeros start. */
  method DecodeCount1(huffDecBuf: array<int>, big: nat, qt: QuadTable, bitsLeft: nat, buf: seq<Byte>, off: nat)
    returns (nzb: nat)
    requires huffDecBuf.Length == 576 && WFQuads(qt) && big <= 576 && off < 8 && off + bitsLeft <= 8 * |buf|
    modifies huffDecBuf
    ensures huffDecBuf[..] == Spectrum(old(huffDecBuf[..big]), QuadsAfter(qt, BitsOf(buf, off, bitsLeft), 0, big))
    ensures nzb == big + |QuadsAfter(qt, BitsOf(buf, off, bitsLeft), 0, big)| <= 576
  {
    hide WFQuads, QuadRun, BitsOf;
    ghost var b := BitsOf(buf, off, bitsLeft);
    assert b[0..] == b;
    var nQuads := DecodeHuffmanQuads(huffDecBuf, big, 576 - big, qt, bitsLeft, buf, off);
    nzb := big + nQuads;
    ghost var head := huffDecBuf[..nzb];
    assert huffDecBuf[big..nzb] == QuadsAfter(qt, b, 0, big);
    assert head == old(huffDecBuf[..big]) + QuadsAfter(qt, b, 0, big);
    var i := nzb;
    while i < 576
      invariant nzb <= i <= 576
      invariant huffDecBuf[..nzb] == head
      invariant forall k | nzb <= k < i :: huffDecBuf[k] == 0
    {
      huffDecBuf[i] := 0;
      i := i + 1;
    }
    assert huffDecBuf[..] == head + seq(576 - nzb, _ => 0);
  }

  lemma QuadsAfterDrop(qt: QuadTable, b: seq<bool>, p: nat, big: nat)
    requires p <= |b| && big <= 576
    ensures QuadsAfter(qt, b[p..], 0, big) == QuadsAfter(qt, b, p, big)
  {
    hide QuadRun;
    assert b[p..][0..] == b[p..];
  }

  /** The big-value regions, the longest run of quads behind them and zeros make up the
      spectrum; the call fails exactly when a region is short of bits. */
  ghost predicate FillsSpectrum(ht: HuffTables, v: Version, sb: SfBand, sis: SideInfoSub, b: seq<bool>, off: nat,
                                r: int, nzb: nat, out: seq<int>)
    requires TablesShape(ht) && SideOk(sis)
  {
    RegionEndsOrdered(v, sb, sis);
    var ends := RegionEnds(v, sb, sis);
    match DecodedRegions(ht, sis.tableSelect, ends, b, off, 0, 0)
    case Short => r == -1
    case Regions(vals, p) => IsSpectrum(ht.quads[sis.count1TableSelect], b, ends[3], vals, p, r, nzb, out)
  }

  /** The spectrum that big values up to bit p make, if the call succeeds. */
  ghost predicate IsSpectrum(qt: QuadTable, b: seq<bool>, end: nat, vals: seq<int>, p: nat, r: int, nzb: nat,
                             out: seq<int>) {
    && r >= 0 && p <= |b| && |vals| == end <= 576
    && nzb == end + |QuadsAfter(qt, b, p, end)| && out == Spectrum(vals, QuadsAfter(qt, b, p, end))
  }

  /** What the bit-by-bit walk says about a call: when it reads all regions, the spectrum is its values,
      quads and zeros; when it runs out of bits and no table in use has jumps, the call fails. */
  ghost predicate WalkAllows(ht: HuffTables, v: Version, sb: SfBand, sis: SideInfoSub, b: seq<bool>, r: int,
                             nzb: nat, out: seq<int>)
    requires TablesShape(ht) && SideOk(sis)
  {
    RegionEndsOrdered(v, sb, sis);
    var ends := RegionEnds(v, sb, sis);
    match ReadRegions(ht, sis.tableSelect, ends, b, 0, 0)
    case Short => NoLoops(ht, sis.tableSelect, ends) ==> r == -1
    case Regions(vals, p) => IsSpectrum(ht.quads[sis.count1TableSelect], b, ends[3], vals, p, r, nzb, out)
  }

  lemma FillsByWalk(ht: HuffTables, v: Version, sb: SfBand, sis: SideInfoSub, b: seq<bool>, off: nat, r: int,
                    nzb: nat, out: seq<int>)
    requires TablesOk(ht) && SideOk(sis) && FillsSpectrum(ht, v, sb, sis, b, off, r, nzb, out)
    ensures WalkAllows(ht, v, sb, sis, b, r, nzb, out)
  {
    hide ReadRegions, DecodedRegions, RegionEnds, WFTable, WFQuads, IsSpectrum;
    RegionEndsOrdered(v, sb, sis);
    RegionsByWalk(ht, sis.tableSelect, RegionEnds(v, sb, sis), b, off, 0, 0);
  }

  /** After regions 0 .. i - 1 the pointer and bit offset stand at bit p of b, and the values so far
      are the specification's. off0 is the position of the first bit of b in its byte. */
  ghost predicate AtRegion(ht: HuffTables, select: seq<nat>, ends: seq<nat>, b: seq<bool>, off0: nat, i: nat,
                           out: seq<int>, buf: seq<Byte>, at: nat, off: nat, bitsLeft: int)
    requires TablesShape(ht) && |select| == 3 && (forall k | 0 <= k < 3 :: select[k] < 32)
    requires |ends| == 4 && (forall k | 0 <= k < 3 :: ends[k] <= ends[k + 1])
    requires i <= 3
  {
    && 0 <= bitsLeft <= |b| && at <= |buf| && off < 8 && off + bitsLeft <= 8 * |buf[at..]|
    && off == (off0 + (|b| - bitsLeft)) % 8
    && BitsOf(buf[at..], off, bitsLeft) == b[|b| - bitsLeft..]
    && DecodedRegions(ht, select, ends, b, off0, 0, 0) ==
       Join(out, DecodedRegions(ht, select, ends, b, off0, i, |b| - bitsLeft))
  }

  /** The effect of one region on that state. */
  lemma RegionAdvances(ht: HuffTables, select: seq<nat>, ends: seq<nat>, b: seq<bool>, off0: nat, i: nat,
                       out: seq<int>, vals: seq<int>, buf: seq<Byte>, at: nat, off: nat, bitsLeft: nat, used: int)
    requires TablesOk(ht) && |select| == 3 && (forall k | 0 <= k < 3 :: select[k] < 32)
    requires |ends| == 4 && (forall k | 0 <= k < 3 :: ends[k] <= ends[k + 1])
        && (forall k | 0 <= k < 4 :: ends[k] % 2 == 0)
    requires i < 3 && AtRegion(ht, select, ends, b, off0, i, out, buf, at, off, bitsLeft)
    requires match DecodedRegion(ht.pairs[select[i]], BitsOf(buf[at..], off, bitsLeft), off, ends[i + 1] - ends[i])
             case Regions(v, p) => vals == v && used == p
             case Short => used < 0
    ensures used <= bitsLeft
    ensures used < 0 ==> DecodedRegions(ht, select, ends, b, off0, 0, 0).Short?
    ensures 0 <= used <= bitsLeft ==>
              AtRegion(ht, select, ends, b, off0, i + 1, out + vals, buf, at + (used + off) / 8, (used + off) % 8,
                  bitsLeft - used)
  {
    hide BitsOf, DecodedRegion, DecodedRegions, TablesOk, WFTable, Value, BitAt, Coded, Pow2;
    TableOk(ht, select[i]);
    var p := |b| - bitsLeft;
    DecodedRegionsStep(ht, select, ends, b, off0, i, p);
    RegionFits(ht.pairs[select[i]], BitsOf(buf[at..], off, bitsLeft), off, ends[i + 1] - ends[i]);
    if 0 <= used <= bitsLeft {
      BitsMove(buf, at, off, bitsLeft, used);
      assert b[p..][used..] == b[p + used..];
      JoinTwice(out, vals, DecodedRegions(ht, select, ends, b, off0, i + 1, p + used));
    }
  }

  /** The three big-value regions. */
  method DecodeBigValues(huffDecBuf: array<int>, ht: HuffTables, select: seq<nat>, ends: seq<nat>,
                         buf: seq<Byte>, start: nat, bitOffset: nat, bits: nat)
    returns (ok: bool, at: nat, off: nat, bitsLeft: int)
    requires huffDecBuf.Length == 576 && TablesOk(ht)
    requires |select| == 3 && (forall k | 0 <= k < 3 :: select[k] < 32)
    requires |ends| == 4 && ends[0] == 0 && (forall k | 0 <= k < 3 :: ends[k] <= ends[k + 1])
    requires forall k | 0 <= k < 4 :: ends[k] % 2 == 0 && ends[k] <= 576
    requires start <= |buf| && bitOffset < 8 && bitOffset + bits <= 8 * |buf[start..]|
    modifies huffDecBuf
    ensures ok <==> DecodedRegions(ht, select, ends, BitsOf(buf[start..], bitOffset, bits), bitOffset, 0, 0).Regions?
    ensures ok ==> 8 * at + off + bitsLeft == 8 * start + bitOffset + bits
    ensures ok ==> AtRegion(ht, select, ends, BitsOf(buf[start..], bitOffset, bits), bitOffset, 3,
        huffDecBuf[..ends[3]], buf, at, off, bitsLeft)
  {
    hide BitsOf, DecodedRegion, ReadRegion, DecodedRegions, WFTable, WFQuads, AtRegion;
    ghost var b := BitsOf(buf[start..], bitOffset, bits);
    at, off, bitsLeft, ok := start, bitOffset, bits, true;
    RegionsStart(ht, select, ends, buf, start, bitOffset, bits);
    assert huffDecBuf[..ends[0]] == [];
    var i, bitsUsed := 0, 0;
    while i < 3
      invariant 0 <= i <= 3 && ok
      invariant 8 * at + off + bitsLeft == 8 * start + bitOffset + bits
      invariant AtRegion(ht, select, ends, b, bitOffset, i, huffDecBuf[..ends[i]], buf, at, off, bitsLeft)
    {
      var tab, n := ht.pairs[select[i]], ends[i + 1] - ends[i];
      ghost var was := huffDecBuf[..ends[i]];
      AtRegionInside(ht, select, ends, b, bitOffset, i, was, buf, at, off, bitsLeft);
      bitsUsed := DecodeHuffmanPairs(huffDecBuf, ends[i], n, tab, bitsLeft, buf[at..], off);
      assert huffDecBuf[..ends[i]] == was;
      RegionAdvances(ht, select, ends, b, bitOffset, i, was, huffDecBuf[ends[i]..ends[i + 1]], buf, at, off,
          bitsLeft, bitsUsed);
      // cut off
      if bitsUsed < 0 || bitsUsed > bitsLeft {
        ok := false;
        return;
      }
      assert huffDecBuf[..ends[i + 1]] == was + huffDecBuf[ends[i]..ends[i + 1]];
      // move behind the region
      at := at + (bitsUsed + off) / 8;
      off := (bitsUsed + off) % 8;
      bitsLeft := bitsLeft - bitsUsed;
      i := i + 1;
    }
    AllRegionsRead(ht, select, ends, b, bitOffset, huffDecBuf[..ends[3]], buf, at, off, bitsLeft);
  }

  lemma AllRegionsRead(ht: HuffTables, select: seq<nat>, ends: seq<nat>, b: seq<bool>, off0: nat,
                       out: seq<int>, buf: seq<Byte>, at: nat, off: nat, bitsLeft: int)
    requires TablesShape(ht) && |select| == 3 && (forall k | 0 <= k < 3 :: select[k] < 32)
    requires |ends| == 4 && (forall k | 0 <= k < 3 :: ends[k] <= ends[k + 1])
    requires AtRegion(ht, select, ends, b, off0, 3, out, buf, at, off, bitsLeft)
    ensures DecodedRegions(ht, select, ends, b, off0, 0, 0) == Regions(out, |b| - bitsLeft)
  {
    hide BitsOf, DecodedRegion;
    assert DecodedRegions(ht, select, ends, b, off0, 3, |b| - bitsLeft) == Regions([], |b| - bitsLeft);
    assert out + [] == out;
  }

  lemma RegionsStart(ht: HuffTables, select: seq<nat>, ends: seq<nat>, buf: seq<Byte>, start: nat, off: nat, bits: nat)
    requires TablesShape(ht) && |select| == 3 && (forall k | 0 <= k < 3 :: select[k] < 32)
    requires |ends| == 4 && (forall k | 0 <= k < 3 :: ends[k] <= ends[k + 1])
    requires start <= |buf| && off < 8 && off + bits <= 8 * |buf[start..]|
    ensures AtRegion(ht, select, ends, BitsOf(buf[start..], off, bits), off, 0, [], buf, start, off, bits)
  {
    hide BitsOf, DecodedRegions;
    var b := BitsOf(buf[start..], off, bits);
    assert b[0..] == b;
    JoinNothing(DecodedRegions(ht, select, ends, b, off, 0, 0));
  }

  lemma AtRegionInside(ht: HuffTables, select: seq<nat>, ends: seq<nat>, b: seq<bool>, off0: nat, i: nat,
                       out: seq<int>, buf: seq<Byte>, at: nat, off: nat, bitsLeft: int)
    requires TablesShape(ht) && |select| == 3 && (forall k | 0 <= k < 3 :: select[k] < 32)
    requires |ends| == 4 && (forall k | 0 <= k < 3 :: ends[k] <= ends[k + 1])
    requires i <= 3 && AtRegion(ht, select, ends, b, off0, i, out, buf, at, off, bitsLeft)
    ensures 0 <= bitsLeft <= |b| && at <= |buf| && off < 8 && off + bitsLeft <= 8 * |buf[at..]|
    ensures BitsOf(buf[at..], off, bitsLeft) == b[|b| - bitsLeft..]
  {
  }

  /** Decode one granule and channel into huffDecBuf. r is the number of bytes the pointer moves
      or -1, off the new bit offset, nzb the new non-zero bound. */
  method DecodeHuffman(huffDecBuf: array<int>, ht: HuffTables, v: Version, sb: SfBand, sis: SideInfoSub,
                       buf: seq<Byte>, start: nat, bitOffset: nat, huffBlockBits: int)
    returns (r: int, off: nat, nzb: nat)
    requires huffDecBuf.Length == 576 && TablesOk(ht) && SideOk(sis)
    requires bitOffset < 8
    requires huffBlockBits >= 0 ==> start <= |buf| && bitOffset + huffBlockBits <= 8 * |buf[start..]|
    modifies huffDecBuf
    ensures huffBlockBits < 0 ==> r == -1
    ensures r == -1 || r >= 0
    ensures r >= 0 ==> 8 * r + off == bitOffset + huffBlockBits && off < 8
    ensures r >= 0 ==> RegionEnds(v, sb, sis)[3] <= nzb <= 576 && forall i | nzb <= i < 576 :: huffDecBuf[i] == 0
    ensures huffBlockBits >= 0 ==>
              FillsSpectrum(ht, v, sb, sis, BitsOf(buf[start..], bitOffset, huffBlockBits), bitOffset, r, nzb,
                  huffDecBuf[..])
  {
    hide BitsOf, DecodedRegions, RegionEnds, IsBands, WFTable, WFQuads, QuadsAfter, Spectrum, AtRegion;
    off, nzb := bitOffset, 0;
    if huffBlockBits < 0 {
      return -1, off, nzb;
    }
    var ends := RegionEnds(v, sb, sis);
    RegionEndsOrdered(v, sb, sis);
    ghost var b := BitsOf(buf[start..], bitOffset, huffBlockBits);
    var ok, at, bitsLeft;
    ok, at, off, bitsLeft := DecodeBigValues(huffDecBuf, ht, sis.tableSelect, ends, buf, start, bitOffset, huffBlockBits);
    if !ok {
      return -1, off, nzb;
    }
    ghost var big, p := huffDecBuf[..ends[3]], huffBlockBits - bitsLeft;
    AtRegionInside(ht, sis.tableSelect, ends, b, bitOffset, 3, big, buf, at, off, bitsLeft);
    AllRegionsRead(ht, sis.tableSelect, ends, b, bitOffset, big, buf, at, off, bitsLeft);
    nzb := DecodeCount1(huffDecBuf, ends[3], ht.quads[sis.count1TableSelect], bitsLeft, buf[at..], off);
    QuadsAfterDrop(ht.quads[sis.count1TableSelect], b, p, ends[3]);
    SpectrumTail(big, QuadsAfter(ht.quads[sis.count1TableSelect], BitsOf(buf[at..], off, bitsLeft), 0, ends[3]));
    // the rest is stuffing
    at := at + (bitsLeft + off) / 8;
    off := (bitsLeft + off) % 8;
    r := at - start;
  }

  lemma SpectrumTail(big: seq<int>, quads: seq<int>)
    requires |big| + |quads| <= 576
    ensures forall i | |big| + |quads| <= i < 576 :: Spectrum(big, quads)[i] == 0
  {
  }

  lemma JoinNothing(r: BigValues)
    ensures Join([], r) == r
  {
    if r.Regions? {
      assert [] + r.vals == r.vals;
    }
  }

  lemma DecodedRegionsStep(ht: HuffTables, select: seq<nat>, ends: seq<nat>, b: seq<bool>, off: nat, i: nat, p: nat)
    requires TablesShape(ht) && |select| == 3 && (forall k | 0 <= k < 3 :: select[k] < 32)
    requires |ends| == 4 && (forall k | 0 <= k < 3 :: ends[k] <= ends[k + 1])
    requires i <= 3
    ensures DecodedRegions(ht, select, ends, b, off, i, p) ==
            if i == 3 then Regions([], p)
            else if p > |b| then Short
            else
              match DecodedRegion(ht.pairs[select[i]], b[p..], (off + p) % 8, ends[i + 1] - ends[i])
              case Short => Short
              case Regions(vals, used) => Join(vals, DecodedRegions(ht, select, ends, b, off, i + 1, p + used))
  {
    hide DecodedRegion;
  }
}
