/** UnpackSideInfo: the side information of a frame. */
module SideInfo {
  import opened Bits
  import opened BitStream
  import opened Mp3Tables

  /** scfsi is indexed by channel and band, sis by granule and channel. */
  datatype SideInfo = SideInfo(mainDataBegin: nat, privateBits: nat, scfsi: seq<seq<nat>>, sis: seq<seq<SideInfoSub>>)

  /** Room for two granules and two channels. */
  predicate SideShape(si: SideInfo) {
    && |si.scfsi| == 2 && (forall ch | 0 <= ch < 2 :: |si.scfsi[ch]| == 4)
    && |si.sis| == 2 && (forall gr | 0 <= gr < 2 :: |si.sis[gr]| == 2)
  }

  // ----- the layout of the standard

  /** Bits of one granule and channel. */
  function SubBits(mpeg1: bool): nat {
    if mpeg1 then 59 else 63
  }

  function PrivateBits(mpeg1: bool, mono: bool): nat {
    if mpeg1 then (if mono then 5 else 3) else (if mono then 1 else 2)
  }

  function BeginBits(mpeg1: bool): nat {
    if mpeg1 then 9 else 8
  }

  /** Bits before the first granule. */
  function PrefixBits(mpeg1: bool, mono: bool): nat {
    BeginBits(mpeg1) + PrivateBits(mpeg1, mono) + if mpeg1 then (if mono then 4 else 8) else 0
  }

  function Granules(mpeg1: bool): nat {
    if mpeg1 then 2 else 1
  }

  function Channels(mono: bool): nat {
    if mono then 1 else 2
  }

  /** Where granule gr of channel ch starts: granule by granule, the channels interleaved. */
  function SubPos(mpeg1: bool, mono: bool, gr: nat, ch: nat): nat {
    var i := if mono then gr + ch else 2 * gr + ch;
    PrefixBits(mpeg1, mono) + if mpeg1 then 59 * i else 63 * i
  }

  function SideBytes(mpeg1: bool, mono: bool): nat {
    if mpeg1 then (if mono then 17 else 32) else (if mono then 9 else 17)
  }

  /** The fields fill the bytes of the side information to the last bit. */
  lemma LayoutFillsBytes(mpeg1: bool, mono: bool)
    ensures SubPos(mpeg1, mono, Granules(mpeg1) - 1, Channels(mono) - 1) + SubBits(mpeg1) == 8 * SideBytes(mpeg1, mono)
  {
  }

  /** What the bits from position p on mean. Behind the window switching flag come 22 bits: with
      the flag block type, mixed flag, two table selectors and three gains, and the region counts
      are implied; without it three selectors and the two region counts. */
  function SubAt(b: seq<bool>, p: nat, mpeg1: bool, prev: SideInfoSub): SideInfoSub {
    var sfBits := if mpeg1 then 4 else 9;
    var d := p + 30 + sfBits;
    var e := d + 22;
    var f := if mpeg1 then e + 1 else e;
    var head := HeadAt(b, p, mpeg1, prev);
    var body := if head.winSwitchFlag != 0 then SwitchedAt(b, d, head) else NormalAt(b, d, head);
    body.(preFlag := if mpeg1 then Field(b, e, 1) else 0, sfactScale := Field(b, f, 1), count1TableSelect := Field(b,
        f + 1, 1))
  }

  function NormalAt(b: seq<bool>, d: nat, head: SideInfoSub): SideInfoSub {
    head.(blockType := 0, mixedBlock := 0,
          tableSelect := [Field(b, d, 5), Field(b, d + 5, 5), Field(b, d + 10, 5)],
          region0Count := Field(b, d + 15, 4), region1Count := Field(b, d + 19, 3))
  }

  function SwitchedAt(b: seq<bool>, d: nat, head: SideInfoSub): SideInfoSub {
    var s := head.(blockType := Field(b, d, 2), mixedBlock := Field(b, d + 2, 1),
                   tableSelect := [Field(b, d + 3, 5), Field(b, d + 8, 5), 0],
                   subBlockGain := [Field(b, d + 13, 3), Field(b, d + 16, 3), Field(b, d + 19, 3)]);
    var t := if s.blockType == 0 then s.(nBigvals := 0, part23Length := 0, sfCompress := 0)
             else if s.blockType == 2 && s.mixedBlock == 0 then s.(region0Count := 8)
             else s.(region0Count := 7);
    t.(region1Count := if t.region0Count <= 20 then 20 - t.region0Count else 0)
  }

  // ----- the parser

  method UnpackSwitched(bsi: BitStreamInfo, head: SideInfoSub) returns (sis: SideInfoSub)
    requires bsi.Valid() && bsi.Pos() >= 0 && head.region0Count <= 20
    modifies bsi
    ensures bsi.Valid() && bsi.Stream() == old(bsi.Stream()) && bsi.Pos() == old(bsi.Pos()) + 22
    ensures bsi.bytePtr + bsi.nBytes == old(bsi.bytePtr + bsi.nBytes) && bsi.buf == old(bsi.buf)
    ensures sis == SwitchedAt(old(bsi.Stream()), old(bsi.Pos()), head)
  {
    hide BitStreamInfo.Valid, BitStreamInfo.Stream, Field;
    sis := head;
    var v := bsi.GetBits(2);
    sis := sis.(blockType := v);
    v := bsi.GetBits(1);
    sis := sis.(mixedBlock := v);
    v := bsi.GetBits(5);
    var t1 := bsi.GetBits(5);
    sis := sis.(tableSelect := [v, t1, 0]);
    v := bsi.GetBits(3);
    t1 := bsi.GetBits(3);
    var t2 := bsi.GetBits(3);
    sis := sis.(subBlockGain := [v, t1, t2]);
    if sis.blockType == 0 {
      sis := sis.(nBigvals := 0, part23Length := 0, sfCompress := 0);
    } else if sis.blockType == 2 && sis.mixedBlock == 0 {
      sis := sis.(region0Count := 8);
    } else {
      sis := sis.(region0Count := 7);
    }
    sis := sis.(region1Count := 20 - sis.region0Count);
  }

  method UnpackNormal(bsi: BitStreamInfo, head: SideInfoSub) returns (sis: SideInfoSub)
    requires bsi.Valid() && bsi.Pos() >= 0
    modifies bsi
    ensures bsi.Valid() && bsi.Stream() == old(bsi.Stream()) && bsi.Pos() == old(bsi.Pos()) + 22
    ensures bsi.bytePtr + bsi.nBytes == old(bsi.bytePtr + bsi.nBytes) && bsi.buf == old(bsi.buf)
    ensures sis == NormalAt(old(bsi.Stream()), old(bsi.Pos()), head)
  {
    hide BitStreamInfo.Valid, BitStreamInfo.Stream, Field;
    var t0 := bsi.GetBits(5);
    var t1 := bsi.GetBits(5);
    var t2 := bsi.GetBits(5);
    sis := head.(blockType := 0, mixedBlock := 0, tableSelect := [t0, t1, t2]);
    var v := bsi.GetBits(4);
    sis := sis.(region0Count := v);
    v := bsi.GetBits(3);
    sis := sis.(region1Count := v);
  }

  function HeadAt(b: seq<bool>, p: nat, mpeg1: bool, prev: SideInfoSub): SideInfoSub {
    var sfBits := if mpeg1 then 4 else 9;
    prev.(part23Length := Field(b, p, 12), nBigvals := Field(b, p + 12, 9), globalGain := Field(b, p + 21, 8),
          sfCompress := Field(b, p + 29, sfBits), winSwitchFlag := Field(b, p + 29 + sfBits, 1))
  }

  method UnpackHead(bsi: BitStreamInfo, mpeg1: bool, prev: SideInfoSub) returns (sis: SideInfoSub)
    requires bsi.Valid() && bsi.Pos() >= 0
    modifies bsi
    ensures bsi.Valid() && bsi.Stream() == old(bsi.Stream()) && bsi.Pos() == old(bsi.Pos()) + (if mpeg1 then 34 else 39)
    ensures bsi.bytePtr + bsi.nBytes == old(bsi.bytePtr + bsi.nBytes) && bsi.buf == old(bsi.buf)
    ensures sis == HeadAt(old(bsi.Stream()), old(bsi.Pos()), mpeg1, prev)
  {
    hide BitStreamInfo.Valid, BitStreamInfo.Stream, Field;
    var v := bsi.GetBits(12);
    sis := prev.(part23Length := v);
    v := bsi.GetBits(9);
    sis := sis.(nBigvals := v);
    v := bsi.GetBits(8);
    sis := sis.(globalGain := v);
    v := bsi.GetBits(if mpeg1 then 4 else 9);
    sis := sis.(sfCompress := v);
    v := bsi.GetBits(1);
    sis := sis.(winSwitchFlag := v);
  }

  /** One granule and channel. */
  method UnpackSub(bsi: BitStreamInfo, mpeg1: bool, prev: SideInfoSub) returns (sis: SideInfoSub)
    requires bsi.Valid() && bsi.Pos() >= 0 && prev.region0Count <= 20
    modifies bsi
    ensures bsi.Valid() && bsi.Stream() == old(bsi.Stream()) && bsi.Pos() == old(bsi.Pos()) + SubBits(mpeg1)
    ensures bsi.bytePtr + bsi.nBytes == old(bsi.bytePtr + bsi.nBytes) && bsi.buf == old(bsi.buf)
    ensures sis == SubAt(old(bsi.Stream()), old(bsi.Pos()), mpeg1, prev)
  {
    hide BitStreamInfo.Valid, BitStreamInfo.Stream, Field, NormalAt, SwitchedAt;
    sis := UnpackHead(bsi, mpeg1, prev);
    if sis.winSwitchFlag != 0 {
      sis := UnpackSwitched(bsi, sis);
    } else {
      sis := UnpackNormal(bsi, sis);
    }
    var v := 0;
    if mpeg1 {
      v := bsi.GetBits(1);
    }
    sis := sis.(preFlag := v);
    v := bsi.GetBits(1);
    sis := sis.(sfactScale := v);
    v := bsi.GetBits(1);
    sis := sis.(count1TableSelect := v);
  }

  /** Values that fit their fields. */
  predicate SubInRange(sis: SideInfoSub) {
    && |sis.tableSelect| == 3 && (forall i | 0 <= i < 3 :: sis.tableSelect[i] < 32)
    && |sis.subBlockGain| == 3
    && sis.part23Length < 4096 && sis.nBigvals < 512 && sis.sfCompress < 512
    && sis.blockType < 4 && sis.count1TableSelect < 2 && sis.region0Count <= 15
  }

  lemma FieldBound(b: seq<bool>, p: nat, n: nat)
    requires n <= 12
    ensures Field(b, p, n) < 4096
    ensures n == 1 ==> Field(b, p, n) < 2
    ensures n == 2 ==> Field(b, p, n) < 4
    ensures n == 4 ==> Field(b, p, n) < 16
    ensures n == 5 ==> Field(b, p, n) < 32
    ensures n == 8 ==> Field(b, p, n) < 256
    ensures n == 9 ==> Field(b, p, n) < 512
  {
    hide Value, Window;
    assert Pow2(1) == 2 && Pow2(2) == 4 && Pow2(4) == 16 && Pow2(5) == 32 && Pow2(8) == 256 && Pow2(9) == 512
        && Pow2(12) == 4096;
    Pow2Add(n, 12 - n);
    assert Pow2(12) >= Pow2(n) by { TimesAtLeast(Pow2(n), Pow2(12 - n)); }
  }

  lemma TimesAtLeast(a: nat, b: nat)
    requires b >= 1
    ensures a * b >= a
  {
  }

  lemma SubAtInRange(b: seq<bool>, p: nat, mpeg1: bool, prev: SideInfoSub)
    requires |prev.subBlockGain| == 3 && prev.region0Count <= 15
    ensures SubInRange(SubAt(b, p, mpeg1, prev))
    ensures SubAt(b, p, mpeg1, prev).winSwitchFlag != 0 ==>
              var s := SubAt(b, p, mpeg1, prev); s.region0Count + s.region1Count == 20
  {
    hide Field;
    forall q, n | n <= 12
      ensures Field(b, q, n) < 4096 && (n == 1 ==> Field(b, q, n) < 2) && (n == 2 ==> Field(b, q, n) < 4)
      ensures (n == 4 ==> Field(b, q, n) < 16) && (n == 5 ==> Field(b, q, n) < 32) && (n == 9 ==> Field(b, q, n) < 512)
    {
      FieldBound(b, q, n);
    }
  }

  // ----- the encoder of one granule and channel

  /** The fields between the window switching flag and the flags at the end. */
  datatype WindowCode =
    | Normal(select0: nat, select1: nat, select2: nat, region0: nat, region1: nat)
    | Switched(blockType: nat, mixed: nat, selectA: nat, selectB: nat, gain0: nat, gain1: nat, gain2: nat)

  datatype SubCode = SubCode(part23: nat, bigValues: nat, gain: nat, scaleCode: nat, window: WindowCode, pre: nat,
                             scale: nat, count1: nat)

  /** A field of the bit stream. */
  datatype Item = Item(width: nat, value: nat)

  /** Section 2.4.1.7 of ISO/IEC 11172-3 and of ISO/IEC 13818-3. */
  function Items(c: SubCode, mpeg1: bool): seq<Item> {
    [Item(12, c.part23), Item(9, c.bigValues), Item(8, c.gain), Item(if mpeg1 then 4 else 9, c.scaleCode)]
    + WindowItems(c.window)
    + [Item(if mpeg1 then 1 else 0, if mpeg1 then c.pre else 0), Item(1, c.scale), Item(1, c.count1)]
  }

  function WindowItems(w: WindowCode): seq<Item> {
    match w
    case Normal(t0, t1, t2, r0, r1) => [Item(1, 0), Item(5, t0), Item(5, t1), Item(5, t2), Item(4, r0), Item(3, r1)]
    case Switched(t, m, t0, t1, g0, g1, g2) =>
      [Item(1, 1), Item(2, t), Item(1, m), Item(5, t0), Item(5, t1), Item(3, g0), Item(3, g1), Item(3, g2)]
  }

  /** The bits of the items from i on. */
  function Pack(items: seq<Item>, i: nat): (b: seq<bool>)
    decreases |items| - i
  {
    if i >= |items| then [] else Digits(items[i].value, items[i].width) + Pack(items, i + 1)
  }

  predicate Fits(items: seq<Item>) {
    forall i | 0 <= i < |items| :: items[i].value < Pow2(items[i].width)
  }

  /** The items from i on stand in b from place p on, and end at place `end`. */
  ghost predicate Reads(b: seq<bool>, p: nat, items: seq<Item>, i: nat, end: nat)
    decreases |items| - i
  {
    if i >= |items| then p == end
    else Field(b, p, items[i].width) == items[i].value && Reads(b, p + items[i].width, items, i + 1, end)
  }

  lemma {:induction false} PackReads(pre: seq<bool>, items: seq<Item>, i: nat, post: seq<bool>)
    requires Fits(items)
    ensures Reads(pre + Pack(items, i) + post, |pre|, items, i, |pre| + |Pack(items, i)|)
    decreases |items| - i
  {
    hide Digits, Field, Pow2;
    if i < |items| {
      var d, rest := Digits(items[i].value, items[i].width), Pack(items, i + 1);
      PackReads(pre + d, items, i + 1, post);
      assert pre + d + rest + post == pre + Pack(items, i) + post;
      FieldIs(pre, d, rest + post);
      assert pre + d + (rest + post) == pre + Pack(items, i) + post;
      ValueDigits(items[i].value, items[i].width);
    }
  }

  lemma NextItems(b: seq<bool>, p: nat, items: seq<Item>, i: nat, end: nat)
    requires i + 2 < |items| && Reads(b, p, items, i, end)
    ensures Field(b, p, items[i].width) == items[i].value
    ensures var q := p + items[i].width;
            var r := q + items[i + 1].width;
            && Field(b, q, items[i + 1].width) == items[i + 1].value
            && Field(b, r, items[i + 2].width) == items[i + 2].value
            && Reads(b, r + items[i + 2].width, items, i + 3, end)
  {
    hide Field;
    assert Reads(b, p + items[i].width, items, i + 1, end);
  }

  lemma FieldIs(pre: seq<bool>, d: seq<bool>, post: seq<bool>)
    ensures Field(pre + d + post, |pre|, |d|) == Value(d)
  {
    hide Value;
    assert Window(pre + d + post, |pre|, |d|) == d;
  }

  /** What the decoder is to make of the fields: for block type 0 with the flag the values count as missing. */
  function Meant(c: SubCode, mpeg1: bool, prev: SideInfoSub): SideInfoSub
    requires |prev.subBlockGain| == 3
  {
    var w := c.window;
    var pre := if mpeg1 then c.pre else 0;
    if w.Normal? then
      SideInfoSub(c.part23, c.bigValues, c.gain, c.scaleCode, 0, 0, 0, [w.select0, w.select1, w.select2],
                  prev.subBlockGain, w.region0, w.region1, pre, c.scale, c.count1)
    else
      var none := w.blockType == 0;
      var region0 := if none then prev.region0Count else if w.blockType == 2 && w.mixed == 0 then 8 else 7;
      SideInfoSub(if none then 0 else c.part23, if none then 0 else c.bigValues, c.gain,
                  if none then 0 else c.scaleCode, 1, w.blockType, w.mixed, [w.selectA, w.selectB, 0],
                  [w.gain0, w.gain1, w.gain2], region0, if region0 <= 20 then 20 - region0 else 0, pre, c.scale,
                  c.count1)
  }

  /** The decoder reads what the encoder has written, wherever it stands in the bits. */
  lemma SubRoundTrip(before: seq<bool>, c: SubCode, after: seq<bool>, mpeg1: bool, prev: SideInfoSub)
    requires Fits(Items(c, mpeg1)) && |prev.subBlockGain| == 3
    ensures |Pack(Items(c, mpeg1), 0)| == SubBits(mpeg1)
    ensures SubAt(before + Pack(Items(c, mpeg1), 0) + after, |before|, mpeg1, prev) == Meant(c, mpeg1, prev)
  {
    hide SubAt, Meant, Pack, Fits;
    PackReads(before, Items(c, mpeg1), 0, after);
    SubRead(before + Pack(Items(c, mpeg1), 0) + after, |before|, c, |before| + |Pack(Items(c, mpeg1), 0)|, mpeg1, prev);
  }

  lemma SubRead(b: seq<bool>, p: nat, c: SubCode, end: nat, mpeg1: bool, prev: SideInfoSub)
    requires Reads(b, p, Items(c, mpeg1), 0, end) && |prev.subBlockGain| == 3
    ensures end == p + SubBits(mpeg1) && SubAt(b, p, mpeg1, prev) == Meant(c, mpeg1, prev)
  {
    hide Field, Reads;
    var items, e := Items(c, mpeg1), p + if mpeg1 then 33 else 38;
    NextItems(b, p, items, 0, end);
    NextItems(b, p + 29, items, 3, end);
    var tail := if mpeg1 then 1 else 0;
    if c.window.Normal? {
      NextItems(b, e + 6, items, 6, end);
      NextItems(b, e + 20, items, 9, end);
      LastItem(b, e + 24 + tail, items, 12, end);
    } else {
      NextItems(b, e + 3, items, 6, end);
      NextItems(b, e + 14, items, 9, end);
      NextItems(b, e + 23, items, 12, end);
      NoItem(b, e + 25 + tail, items, end);
    }
  }

  lemma LastItem(b: seq<bool>, p: nat, items: seq<Item>, i: nat, end: nat)
    requires i + 1 == |items| && Reads(b, p, items, i, end)
    ensures Field(b, p, items[i].width) == items[i].value && end == p + items[i].width
  {
  }

  lemma NoItem(b: seq<bool>, p: nat, items: seq<Item>, end: nat)
    requires Reads(b, p, items, |items|, end)
    ensures end == p
  {
  }

  /** The side information at the start of the bits b. */
  ghost predicate SideInfoAt(si: SideInfo, prev: SideInfo, b: seq<bool>, mpeg1: bool, mono: bool)
    requires SideShape(si) && SideShape(prev)
  {
    && si.mainDataBegin == Field(b, 0, BeginBits(mpeg1))
    && si.privateBits == Field(b, BeginBits(mpeg1), PrivateBits(mpeg1, mono))
    && (mpeg1 ==> forall ch, bd | 0 <= ch < Channels(mono) && 0 <= bd < 4 ::
          si.scfsi[ch][bd] == Field(b, BeginBits(mpeg1) + PrivateBits(mpeg1, mono) + 4 * ch + bd, 1))
    && forall gr, ch | 0 <= gr < Granules(mpeg1) && 0 <= ch < Channels(mono) ::
         si.sis[gr][ch] == SubAt(b, SubPos(mpeg1, mono, gr, ch), mpeg1, prev.sis[gr][ch])
  }

  /** What the frame does not carry keeps its previous contents. */
  ghost predicate RestKept(si: SideInfo, prev: SideInfo, mpeg1: bool, mono: bool)
    requires SideShape(si) && SideShape(prev)
  {
    && (!mpeg1 ==> si.scfsi == prev.scfsi) && (mono ==> si.scfsi[1] == prev.scfsi[1])
    && forall gr, ch | 0 <= gr < 2 && 0 <= ch < 2 && (gr >= Granules(mpeg1) || ch >= Channels(mono)) ::
         si.sis[gr][ch] == prev.sis[gr][ch]
  }

  /** The scfsi flags of MPEG-1. */
  method UnpackScfsi(bsi: BitStreamInfo, nChans: nat, prev: seq<seq<nat>>) returns (scfsi: seq<seq<nat>>)
    requires bsi.Valid() && bsi.Pos() >= 0 && nChans <= 2 && |prev| == 2 && (forall ch | 0 <= ch < 2 :: |prev[ch]| == 4)
    modifies bsi
    ensures bsi.Valid() && bsi.Stream() == old(bsi.Stream()) && bsi.Pos() == old(bsi.Pos()) + 4 * nChans
    ensures bsi.bytePtr + bsi.nBytes == old(bsi.bytePtr + bsi.nBytes) && bsi.buf == old(bsi.buf)
    ensures |scfsi| == 2 && (forall ch | 0 <= ch < 2 :: |scfsi[ch]| == 4)
    ensures forall c, d | 0 <= c < nChans && 0 <= d < 4 ::
              scfsi[c][d] == Field(old(bsi.Stream()), old(bsi.Pos()) + 4 * c + d, 1)
    ensures scfsi[nChans..] == prev[nChans..]
  {
    hide BitStreamInfo.Valid, BitStreamInfo.Stream, Field;
    scfsi := prev;
    var ch := 0;
    while ch < nChans
      invariant 0 <= ch <= nChans && bsi.Valid() && bsi.bytePtr + bsi.nBytes == old(bsi.bytePtr + bsi.nBytes)
      invariant bsi.buf == old(bsi.buf) && bsi.Stream() == old(bsi.Stream()) && bsi.Pos() == old(bsi.Pos()) + 4 * ch
      invariant |scfsi| == 2 && (forall c | 0 <= c < 2 :: |scfsi[c]| == 4)
      invariant forall c, d | 0 <= c < ch && 0 <= d < 4 ::
                  scfsi[c][d] == Field(old(bsi.Stream()), old(bsi.Pos()) + 4 * c + d, 1)
      invariant forall c | ch <= c < 2 :: scfsi[c] == prev[c]
    {
      var b0 := bsi.GetBits(1);
      var b1 := bsi.GetBits(1);
      var b2 := bsi.GetBits(1);
      var b3 := bsi.GetBits(1);
      scfsi := scfsi[ch := [b0, b1, b2, b3]];
      ch := ch + 1;
    }
  }

  /** All granules and channels. */
  method UnpackSubs(bsi: BitStreamInfo, mpeg1: bool, mono: bool,
                    prev: seq<seq<SideInfoSub>>) returns (sis: seq<seq<SideInfoSub>>)
    requires bsi.Valid() && bsi.Pos() == PrefixBits(mpeg1, mono)
    requires |prev| == 2 && (forall gr | 0 <= gr < 2 :: |prev[gr]| == 2)
    requires forall gr, ch | 0 <= gr < 2 && 0 <= ch < 2 :: prev[gr][ch].region0Count <= 20
    modifies bsi
    ensures bsi.Valid() && bsi.Pos() == 8 * SideBytes(mpeg1, mono)
    ensures bsi.buf == old(bsi.buf) && bsi.bytePtr + bsi.nBytes == old(bsi.bytePtr + bsi.nBytes)
    ensures |sis| == 2 && (forall gr | 0 <= gr < 2 :: |sis[gr]| == 2)
    ensures forall gr, ch | 0 <= gr < Granules(mpeg1) && 0 <= ch < Channels(mono) ::
              sis[gr][ch] == SubAt(old(bsi.Stream()), SubPos(mpeg1, mono, gr, ch), mpeg1, prev[gr][ch])
    ensures forall gr, ch | 0 <= gr < 2 && 0 <= ch < 2 && (gr >= Granules(mpeg1) || ch >= Channels(mono)) ::
              sis[gr][ch] == prev[gr][ch]
  {
    hide BitStreamInfo.Valid, BitStreamInfo.Stream, SubAt, PrefixBits;
    sis := prev;
    ghost var b := bsi.Stream();
    var gr := 0;
    while gr < Granules(mpeg1)
      invariant 0 <= gr <= Granules(mpeg1) && bsi.Valid() && bsi.bytePtr + bsi.nBytes == old(bsi.bytePtr + bsi.nBytes)
      invariant bsi.buf == old(bsi.buf) && bsi.Stream() == b && bsi.Pos() == SubPos(mpeg1, mono, gr, 0)
      invariant |sis| == 2 && (forall g | 0 <= g < 2 :: |sis[g]| == 2)
      invariant forall g, c | 0 <= g < gr && 0 <= c < Channels(mono) ::
                  sis[g][c] == SubAt(b, SubPos(mpeg1, mono, g, c), mpeg1, prev[g][c])
      invariant forall g | gr <= g < 2 :: sis[g] == prev[g]
      invariant forall g, c | 0 <= g < gr && Channels(mono) <= c < 2 :: sis[g][c] == prev[g][c]
    {
      var ch, row := 0, sis[gr];
      while ch < Channels(mono)
        invariant 0 <= ch <= Channels(mono) && bsi.Valid() && bsi.bytePtr + bsi.nBytes == old(bsi.bytePtr + bsi.nBytes)
        invariant bsi.buf == old(bsi.buf) && bsi.Stream() == b && bsi.Pos() == SubPos(mpeg1, mono, gr, ch)
        invariant |row| == 2
        invariant forall c | 0 <= c < ch :: row[c] == SubAt(b, SubPos(mpeg1, mono, gr, c), mpeg1, prev[gr][c])
        invariant forall c | ch <= c < 2 :: row[c] == prev[gr][c]
      {
        var v := UnpackSub(bsi, mpeg1, row[ch]);
        row := row[ch := v];
        ch := ch + 1;
      }
      sis := sis[gr := row];
      gr := gr + 1;
    }
    LayoutFillsBytes(mpeg1, mono);
  }

  /** Parse the side information in buf[start..] over the previous contents of the structure. */
  method UnpackSideInfo(prev: SideInfo, mpeg1: bool, mono: bool, buf: seq<Byte>, start: nat)
    returns (nBytes: nat, si: SideInfo)
    requires SideShape(prev) && (forall gr, ch | 0 <= gr < 2 && 0 <= ch < 2 :: prev.sis[gr][ch].region0Count <= 20)
    requires start + SideBytes(mpeg1, mono) <= |buf|
    ensures nBytes == SideBytes(mpeg1, mono)
    ensures SideShape(si) && SideInfoAt(si, prev, BitsOf(buf[start..], 0, 8 * nBytes), mpeg1, mono)
    ensures RestKept(si, prev, mpeg1, mono)
  {
    hide BitStreamInfo.Valid, BitStreamInfo.Stream, Field, SubAt, BitsOf;
    nBytes := SideBytes(mpeg1, mono);
    var bsi := new BitStreamInfo.SetBitstreamPointer(nBytes, buf, start);
    var begin := bsi.GetBits(BeginBits(mpeg1));
    var priv := bsi.GetBits(PrivateBits(mpeg1, mono));
    var scfsi := prev.scfsi;
    if mpeg1 {
      scfsi := UnpackScfsi(bsi, Channels(mono), scfsi);
    }
    var sis := UnpackSubs(bsi, mpeg1, mono, prev.sis);
    si := SideInfo(begin, priv, scfsi, sis);
    assert nBytes == bsi.CalcBitsUsed(0) / 8;
  }
}
