/** MP3Decode up to the spectra: the bit reservoir and the main data cursor. */
module Mp3Decode {
  import opened Bits
  import opened HuffmanSpec
  import opened HuffmanQuads
  import opened BitStream
  import opened Mp3Tables
  import opened SideInfo
  import opened ScaleFactors
  import opened HuffmanBlock
  import opened Mp3Frame

  const MAINBUF_SIZE: nat := 1940

  datatype Result = NONE | INDATA_UNDERFLOW | MAINDATA_UNDERFLOW | INVALID_FRAMEHEADER | INVALID_SCALEFACT | INVALID_HUFFCODES

  // ----- what a frame's main data means

  /** What stays the same for all granules and channels of a frame: its main data as bits, the
      header, the scale factor bands, and the side information. */
  datatype Frame = Frame(main: seq<bool>, h: Header, sb: SfBand, si: SideInfo)

  ghost predicate FrameOk(f: Frame) {
    SidesOk(f.h, f.si)
  }

  ghost predicate SidesOk(h: Header, si: SideInfo) {
    && SideShape(si)
    && (forall gr, ch | 0 <= gr < Granules(IsMpeg1(h)) && 0 <= ch < Channels(h.mono) ::
          SubInRange(si.sis[gr][ch]) && SideOk(si.sis[gr][ch]))
  }

  /** The k-th step of the decoder handles granule k.0 and channel k.1. */
  function Place(h: Header, k: nat): (p: (nat, nat))
    ensures p.1 < Channels(h.mono) && p.1 <= k
    ensures k < Granules(IsMpeg1(h)) * Channels(h.mono) ==> p.0 < Granules(IsMpeg1(h))
  {
    if h.mono then (k, 0) else (k / 2, k % 2)
  }

  function Steps(h: Header): nat {
    Granules(IsMpeg1(h)) * Channels(h.mono)
  }

  /** Intensity stereo codes the right channel. */
  function IsRight(h: Header, ch: nat): bool {
    h.modeExt % 2 == 1 && ch == 1
  }

  function SubOf(f: Frame, k: nat): SideInfoSub
    requires FrameOk(f) && k < Steps(f.h)
  {
    f.si.sis[Place(f.h, k).0][Place(f.h, k).1]
  }

  function Part2Of(f: Frame, k: nat): nat
    requires FrameOk(f) && k < Steps(f.h)
  {
    var (gr, ch) := Place(f.h, k);
    Part2Length(f.si.sis[gr][ch], IsMpeg1(f.h), f.si.scfsi[ch], gr, IsRight(f.h, ch))
  }

  /** The bit of the main data at which step k starts: the sum of the part23 lengths before it. */
  function StartOf(f: Frame, k: nat): nat
    requires FrameOk(f) && k <= Steps(f.h)
  {
    if k == 0 then 0 else StartOf(f, k - 1) + SubOf(f, k - 1).part23Length
  }

  /** The result of one step: the scale factors of long and short bands with their flag, the return value
      and non-zero bound of the Huffman stage, and the values. */
  datatype Granule = Granule(preFlag: nat, l: seq<int>, s: seq<seq<int>>, moved: int, nzb: nat, spectrum: seq<int>)

  /** The scale factors are those at the start of step k, in the bits from its byte on; l0 are the long ones
      of granule 0. */
  ghost predicate FactorsExact(f: Frame, k: nat, l0: seq<int>, preFlag: nat, l: seq<int>, s: seq<seq<int>>)
    requires FrameOk(f) && k < Steps(f.h) && StartOf(f, k) <= |f.main|
  {
    var p, sis, (gr, ch) := StartOf(f, k), SubOf(f, k), Place(f.h, k);
    && preFlag == PreFlagOf(sis, IsMpeg1(f.h), IsRight(f.h, ch))
    && Factors(l, s, l0, f.main[8 * (p / 8)..], p % 8, sis, IsMpeg1(f.h), f.si.scfsi[ch], gr, IsRight(f.h, ch))
  }

  /** The scale factors take the part2 length and the spectrum is decoded from exactly the rest of
      the part23 bits. */
  ghost predicate StepExact(ht: HuffTables, f: Frame, k: nat, l0: seq<int>, x: Granule)
    requires TablesShape(ht) && FrameOk(f) && k < Steps(f.h)
  {
    var start, sis := StartOf(f, k), SubOf(f, k);
    && Part2Of(f, k) <= sis.part23Length && start + sis.part23Length <= |f.main|
    && FactorsExact(f, k, l0, x.preFlag, x.l, x.s)
    && FillsSpectrum(ht, f.h.ver, f.sb, sis,
                     f.main[start + Part2Of(f, k)..start + sis.part23Length], (start + Part2Of(f, k)) % 8,
                     x.moved, x.nzb, x.spectrum)
  }

  /** The long scale factors of granule 0 in the channel of the step that gives x after the steps g. */
  function FirstLong(h: Header, g: seq<Granule>, x: Granule): seq<int> {
    (g + [x])[Place(h, |g|).1].l
  }

  ghost predicate Exact(ht: HuffTables, f: Frame, g: seq<Granule>)
    requires TablesShape(ht) && FrameOk(f)
  {
    && |g| <= Steps(f.h)
    && forall k | 0 <= k < |g| :: g[k].moved >= 0 && StepExact(ht, f, k, FirstLong(f.h, g[..k], g[k]), g[k])
  }

  /** Why the step after g failed: its part23 bits go beyond the main data, or its scale factors beyond
      its part23 bits, or its Huffman codes are cut off. */
  ghost predicate StepFails(ht: HuffTables, f: Frame, g: seq<Granule>, err: Result)
    requires TablesShape(ht) && FrameOk(f)
  {
    var k := |g|;
    && k < Steps(f.h)
    && match err
       case INVALID_SCALEFACT => StartOf(f, k) + SubOf(f, k).part23Length > |f.main|
       case INVALID_HUFFCODES =>
         || SubOf(f, k).part23Length < Part2Of(f, k)
         || exists x: Granule :: x.moved == -1 && StepExact(ht, f, k, FirstLong(f.h, g, x), x)
       case _ => false
  }

  /** The decoder works exactly up to the first step that fails, or through all of them. */
  ghost predicate DecodedAs(ht: HuffTables, f: Frame, g: seq<Granule>, err: Result)
    requires TablesShape(ht) && FrameOk(f)
  {
    && Exact(ht, f, g)
    && (err == NONE ==> |g| == Steps(f.h))
    && (err != NONE ==> |g| < Steps(f.h) && StepFails(ht, f, g, err))
  }

  lemma ExactExtends(ht: HuffTables, f: Frame, g: seq<Granule>, x: Granule)
    requires TablesShape(ht) && FrameOk(f) && Exact(ht, f, g) && |g| < Steps(f.h)
    requires x.moved >= 0 && StepExact(ht, f, |g|, FirstLong(f.h, g, x), x)
    ensures Exact(ht, f, g + [x])
  {
    hide IsBands, StepExact, TablesShape, FrameOk, Steps, FirstLong;
    var g1 := g + [x];
    forall k | 0 <= k < |g1| ensures g1[k].moved >= 0 && StepExact(ht, f, k, FirstLong(f.h, g1[..k], g1[k]), g1[k]) {
      assert g1[..k] == g[..k];
      assert g[..|g|] == g;
    }
  }

  /** What the decoder keeps of a frame: the scale factors and their flags by granule and channel, the values and
      bounds of the last granule by channel, and the data for intensity stereo. */
  datatype Store = Store(l: seq<seq<int>>, s: seq<seq<seq<int>>>, preFlag: seq<nat>, spectrum: seq<seq<int>>,
                         nzb: seq<nat>, js: ScaleFactorJS)

  predicate StoreShape(st: Store) {
    |st.l| == |st.s| == |st.preFlag| == 4 && |st.spectrum| == |st.nzb| == 2
  }

  function Flags(sis: seq<seq<SideInfoSub>>): (r: seq<nat>)
    requires |sis| == 2 && |sis[0]| == |sis[1]| == 2
    ensures |r| == 4
  {
    [sis[0][0].preFlag, sis[0][1].preFlag, sis[1][0].preFlag, sis[1][1].preFlag]
  }

  /** Where the store has granule p.0 and channel p.1. */
  function At(p: (nat, nat)): nat {
    2 * p.0 + p.1
  }

  function WithFactors(st: Store, i: nat, x: Granule, js: ScaleFactorJS): Store
    requires StoreShape(st) && i < 4
  {
    st.(l := st.l[i := x.l], s := st.s[i := x.s], preFlag := st.preFlag[i := x.preFlag], js := js)
  }

  function WithCodes(st: Store, ch: nat, x: Granule): Store
    requires StoreShape(st) && ch < 2
  {
    st.(spectrum := st.spectrum[ch := x.spectrum], nzb := st.nzb[ch := x.nzb])
  }

  /** The store has the factors of step k; and its values, if k is the last step so far of its channel. */
  ghost predicate HasStep(h: Header, g: seq<Granule>, st: Store, k: nat)
    requires StoreShape(st) && k < |g| <= Steps(h)
  {
    var p := Place(h, k);
    && st.l[At(p)] == g[k].l && st.s[At(p)] == g[k].s && st.preFlag[At(p)] == g[k].preFlag
    && (k + Channels(h.mono) >= |g| ==> st.spectrum[p.1] == g[k].spectrum && st.nzb[p.1] == g[k].nzb)
  }

  /** The store has what all steps so far gave. */
  ghost predicate HasSteps(h: Header, g: seq<Granule>, st: Store) {
    StoreShape(st) && |g| <= Steps(h) && forall k | 0 <= k < |g| :: HasStep(h, g, st, k)
  }

  lemma PlacesDiffer(h: Header, j: nat, k: nat)
    requires j < k < Steps(h)
    ensures At(Place(h, j)) != At(Place(h, k))
    ensures Place(h, j).1 == Place(h, k).1 ==> j + Channels(h.mono) <= k
  {
  }

  /** One more step: no other step's factors are overwritten, and only the values of the step before it in its
      channel are. What granule 1 copies are the long factors of granule 0. */
  lemma StepStored(h: Header, g: seq<Granule>, x: Granule, st: Store, js: ScaleFactorJS)
    requires HasSteps(h, g, st) && |g| < Steps(h)
    ensures var p := Place(h, |g|);
            var st1 := WithCodes(WithFactors(st, At(p), x, js), p.1, x);
            HasSteps(h, g + [x], st1) && FirstLong(h, g, x) == st1.l[p.1]
  {
    var p, g1 := Place(h, |g|), g + [x];
    var st1 := WithCodes(WithFactors(st, At(p), x, js), p.1, x);
    forall k | 0 <= k < |g1| ensures HasStep(h, g1, st1, k) {
      if k < |g| {
        assert HasStep(h, g, st, k);
        PlacesDiffer(h, k, |g|);
      }
    }
    assert HasStep(h, g1, st1, p.1);
  }

  /** The data for intensity stereo after k steps. */
  function JointAfter(f: Frame, k: nat, js: ScaleFactorJS): ScaleFactorJS
    requires FrameOk(f) && k <= Steps(f.h)
  {
    if k == 0 then js
    else JointOf(SubOf(f, k - 1), IsMpeg1(f.h), IsRight(f.h, Place(f.h, k - 1).1), JointAfter(f, k - 1, js))
  }

  /** A run of bits behind the cursor is a slice of the main data. */
  lemma MainSlice(buf: seq<Byte>, n: nat, at: nat, off: nat, len: nat)
    requires off < 8 && 8 * at + off + len <= n <= 8 * |buf|
    ensures at <= |buf| && off + len <= 8 * |buf[at..]|
    ensures BitsOf(buf[at..], off, len) == BitsOf(buf, 0, n)[8 * at + off..8 * at + off + len]
  {
    hide IsBands, BitAt;
    var s, t := BitsOf(buf[at..], off, len), BitsOf(buf, 0, n)[8 * at + off..8 * at + off + len];
    forall i | 0 <= i < len ensures s[i] == t[i] {
      BitAtMoves(buf, 0, at, off + i);
      assert buf[0..] == buf && 0 + at == at;
    }
  }

  /** The bits from the byte of the cursor on. */
  lemma RestOfMain(buf: seq<Byte>, n: nat, at: nat, off: nat, left: nat)
    requires off < 8 && 8 * at + off + left == 8 * n <= 8 * |buf|
    ensures at + (left + off + 7) / 8 == n
    ensures BitsOf(buf[at..], 0, 8 * ((left + off + 7) / 8)) == BitsOf(buf, 0, 8 * n)[8 * ((8 * at + off) / 8)..]
    ensures (8 * at + off) % 8 == off
  {
    MainSlice(buf, 8 * n, at, 0, 8 * n - 8 * at);
  }

  lemma LeftInside(len: nat, n: nat, at: nat, off: nat, left: nat)
    requires off < 8 && 8 * at + off + left == 8 * n && n <= len
    ensures at + (left + off + 7) / 8 <= len
  {
  }

  /** Factors read behind the cursor are those of step k. */
  lemma FactorsAre(f: Frame, k: nat, l0: seq<int>, x: Granule, buf: seq<Byte>, n: nat, at: nat, off: nat, left: nat)
    requires FrameOk(f) && k < Steps(f.h) && off < 8 && 8 * at + off == StartOf(f, k)
    requires 8 * at + off + left == 8 * n <= 8 * |buf| && f.main == BitsOf(buf, 0, 8 * n) && at + (left + off + 7) / 8 <= |buf|
    requires var (gr, ch) := Place(f.h, k);
             && |f.si.scfsi| == 2 && |f.si.scfsi[ch]| == 4 && SubOf(f, k).sfCompress < 512
             && x.preFlag == PreFlagOf(SubOf(f, k), IsMpeg1(f.h), IsRight(f.h, ch))
             && Factors(x.l, x.s, l0, BitsOf(buf[at..], 0, 8 * ((left + off + 7) / 8)), off, SubOf(f, k), IsMpeg1(f.h),
                        f.si.scfsi[ch], gr, IsRight(f.h, ch))
    ensures StartOf(f, k) <= |f.main| && FactorsExact(f, k, l0, x.preFlag, x.l, x.s)
  {
    hide IsBands, BitsOf, Factors, PreFlagOf, StartOf, FrameOk;
    RestOfMain(buf, n, at, off, left);
  }

  // ----- the reservoir

  ghost predicate IsTail(t: seq<Byte>, all: seq<Byte>) {
    |t| <= |all| && t == all[|all| - |t|..]
  }

  lemma TailOfTail(t: seq<Byte>, all: seq<Byte>, k: nat)
    requires IsTail(t, all) && k <= |t|
    ensures IsTail(t[|t| - k..], all) && |t| <= |all| && t[|t| - k..] == all[|all| - k..]
  {
  }

  lemma TailGrows(t: seq<Byte>, all: seq<Byte>, slot: seq<Byte>)
    requires IsTail(t, all)
    ensures IsTail(t + slot, all + slot)
  {
  }

  method MoveDown(a: array<Byte>, from: nat, n: nat)
    requires from + n <= a.Length
    modifies a
    ensures a[..n] == old(a[from..from + n])
  {
    forall i | 0 <= i < n {
      a[i] := a[i + from];
    }
  }

  method CopyIn(a: array<Byte>, at: nat, src: seq<Byte>)
    requires at + |src| <= a.Length
    modifies a
    ensures a[..at + |src|] == old(a[..at]) + src
  {
    forall i | 0 <= i < |src| {
      a[at + i] := src[i];
    }
  }

  /** The bytes before the slot. */
  function HeadBytes(h: Header): nat {
    HeaderBytes(h) + SideBytesOf(h)
  }

  /** A bit rate from the table. */
  predicate Supported(h: Header) {
    h.srIdx < 3 && 1 <= h.brIdx < 15
  }

  function SideBits(inbuf: seq<Byte>, inPtr: nat, h: Header): seq<bool>
    requires inPtr + HeadBytes(h) <= |inbuf|
  {
    BitsOf(inbuf[inPtr + HeaderBytes(h)..], 0, 8 * SideBytesOf(h))
  }

  function Begin(inbuf: seq<Byte>, inPtr: nat, h: Header): nat
    requires inPtr + HeadBytes(h) <= |inbuf|
  {
    Field(SideBits(inbuf, inPtr, h), 0, BeginBits(IsMpeg1(h)))
  }

  function Slot(inbuf: seq<Byte>, inPtr: nat, h: Header): seq<Byte>
    requires Supported(h) && inPtr + HeadBytes(h) + NSlots(h) <= |inbuf|
  {
    inbuf[inPtr + HeadBytes(h)..inPtr + HeadBytes(h) + NSlots(h)]
  }

  /** Header and side information can be read, and the region counts of the frame stay inside the
      table of bands. */
  ghost predicate InputOk(inbuf: seq<Byte>, inPtr: nat, prev: SideInfo)
    requires SideShape(prev)
  {
    && inPtr + 4 <= |inbuf|
    && var r := ParseHeader(inbuf, inPtr);
       r.Some? ==>
         var h := r.value;
         && Supported(h) && inPtr + HeadBytes(h) <= |inbuf|
         && forall gr, ch | 0 <= gr < Granules(IsMpeg1(h)) && 0 <= ch < Channels(h.mono) ::
              var sis := SubAt(SideBits(inbuf, inPtr, h), SubPos(IsMpeg1(h), h.mono, gr, ch), IsMpeg1(h),
                  prev.sis[gr][ch]);
              sis.region0Count + sis.region1Count <= 20
  }

  /** The main data of the frame start mainDataBegin bytes before its slot. */
  ghost predicate IsFrame(f: Frame, bands: BandTable, inbuf: seq<Byte>, inPtr: nat, h: Header, prev: SideInfo,
                          all: seq<Byte>)
    requires Supported(h) && inPtr + HeadBytes(h) + NSlots(h) <= |inbuf| && SideShape(prev)
  {
    && f.h == h && f.sb == SfBands(bands, h.ver, h.srIdx)
    && FrameOk(f) && SideInfoAt(f.si, prev, SideBits(inbuf, inPtr, h), IsMpeg1(h), h.mono)
    && Begin(inbuf, inPtr, h) <= |all|
    && MainIs(f, all[|all| - Begin(inbuf, inPtr, h)..] + Slot(inbuf, inPtr, h))
  }

  ghost predicate MainIs(f: Frame, bytes: seq<Byte>) {
    f.main == BitsOf(bytes, 0, 8 * |bytes|)
  }

  class MP3Decoder {
    const bands: BandTable
    const mainBuf: array<Byte>
    var mainDataBytes: nat
    var si: SideInfo
    const sfis: seq<seq<ScaleFactorInfoSub>>
    var sfjs: ScaleFactorJS
    const huffDecBuf: seq<array<int>>
    var nonZeroBound: seq<nat>
    ghost var accepted: seq<Byte>     // all slot bytes taken in so far
    ghost const buffers: set<object>  // what the decoder of one granule writes

    /** The main data are the last bytes taken in. */
    ghost predicate Valid()
      reads this, mainBuf
    {
      && Tidy() && mainBuf.Length == MAINBUF_SIZE && mainDataBytes <= MAINBUF_SIZE
      && IsTail(mainBuf[..mainDataBytes], accepted)
    }

    ghost predicate Storage() {
      StorageOk(sfis, huffDecBuf, buffers) && this !in buffers && mainBuf !in buffers
    }

    constructor (bands: BandTable)
      ensures Valid() && accepted == [] && mainDataBytes == 0 && fresh(buffers) && fresh(mainBuf) && this.bands == bands
    {
      this.bands := bands;
      mainBuf := new Byte[MAINBUF_SIZE](_ => 0);
      mainDataBytes := 0;
      accepted := [];
      var sub := SideInfoSub(0, 0, 0, 0, 0, 0, 0, [0, 0, 0], [0, 0, 0], 0, 0, 0, 0, 0);
      si := SideInfo(0, 0, [[0, 0, 0, 0], [0, 0, 0, 0]], [[sub, sub], [sub, sub]]);
      nonZeroBound := [0, 0];
      sfjs := ScaleFactorJS(0, [0, 0, 0, 0], [0, 0, 0, 0]);
      var s0, h0, b0 := NewChannel();
      var s1, h1, b1 := NewChannel();
      sfis := [[s0[0], s1[0]], [s0[1], s1[1]]];
      huffDecBuf := [h0, h1];
      buffers := b0 + b1;
    }

    /** Take in the slot bytes behind the last begin bytes of the old. When there are fewer
        old bytes than that, they are all kept, the new ones are appended, and the frame is skipped. */
    method FillMainData(slot: seq<Byte>, begin: nat) returns (ok: bool)
      requires Valid() && begin + |slot| <= MAINBUF_SIZE
      modifies this`mainDataBytes, this`accepted, mainBuf
      ensures Valid() && accepted == old(accepted) + slot
      ensures ok == (old(mainDataBytes) >= begin)
      ensures old(mainDataBytes) <= |old(accepted)|
      ensures ok ==> mainDataBytes == begin + |slot|
                     && mainBuf[..mainDataBytes] == old(accepted)[|old(accepted)| - begin..] + slot
      ensures !ok ==> mainDataBytes == old(mainDataBytes) + |slot|
    {
      hide IsBands, MP3Decoder.Storage, PrevOk, IsTail;
      var kept := mainDataBytes;
      ok := mainDataBytes >= begin;
      TailOfTail(mainBuf[..mainDataBytes], accepted, Min(begin, mainDataBytes));
      if ok {
        // the reservoir reaches back far enough
        MoveDown(mainBuf, mainDataBytes - begin, begin);
        kept := begin;
      }
      TailGrows(mainBuf[..kept], accepted, slot);
      CopyIn(mainBuf, kept, slot);
      mainDataBytes := kept + |slot|;
      accepted := accepted + slot;
    }

    /** What holds between frames, but for the reservoir. */
    ghost predicate Tidy()
      reads this
    {
      Storage() && PrevOk(si) && |nonZeroBound| == 2
    }

    ghost function LongRows(): (r: seq<seq<int>>)
      requires Storage()
      reads buffers
      ensures |r| == 4
    {
      [sfis[0][0].l[..], sfis[0][1].l[..], sfis[1][0].l[..], sfis[1][1].l[..]]
    }

    ghost function ShortRows(): (r: seq<seq<seq<int>>>)
      requires Storage()
      reads buffers
      ensures |r| == 4
    {
      [Rows(sfis[0][0].s), Rows(sfis[0][1].s), Rows(sfis[1][0].s), Rows(sfis[1][1].s)]
    }

    /** What is kept now. */
    ghost function Held(): (st: Store)
      requires Tidy()
      reads this, buffers
      ensures StoreShape(st) && st.js == sfjs
    {
      Store(LongRows(), ShortRows(),
            Flags(si.sis), [huffDecBuf[0][..], huffDecBuf[1][..]], nonZeroBound, sfjs)
    }

    /** What is kept are the results of the steps g; js was kept before the frame. */
    ghost predicate Results(f: Frame, g: seq<Granule>, js: ScaleFactorJS)
      requires FrameOk(f)
      reads this, buffers
    {
      Tidy() && HasSteps(f.h, g, Held()) && sfjs == JointAfter(f, |g|, js)
    }

    /** What the decoder of the main data works on. */
    ghost predicate Decoding(f: Frame, k: nat)
      requires FrameOk(f)
      reads this, mainBuf
    {
      && Tidy()
      && mainDataBytes <= mainBuf.Length && f.main == BitsOf(mainBuf[..], 0, 8 * mainDataBytes)
      && f.si.scfsi == si.scfsi && SidesLeft(f, k, si.sis)
    }

    /** What one step writes, and that it is nothing else. */
    lemma Written(gr: nat, ch: nat)
      requires Storage() && gr < 2 && ch < 2
      ensures |sfis| == |sfis[0]| == |sfis[1]| == |huffDecBuf| == 2
      ensures sfis[gr][ch].Valid() && sfis[0][ch].Valid() && huffDecBuf[ch].Length == 576
      ensures sfis[gr][ch].l in buffers && sfis[gr][ch].s in buffers && huffDecBuf[ch] in buffers
      ensures forall a, b | 0 <= a < 2 && 0 <= b < 2 ::
                && sfis[a][b].Valid() && sfis[a][b].l != huffDecBuf[ch] && huffDecBuf[b] != sfis[gr][ch].l
                && ((a, b) != (gr, ch) ==> sfis[a][b].l != sfis[gr][ch].l && sfis[a][b].s != sfis[gr][ch].s)
      ensures huffDecBuf[1 - ch] != huffDecBuf[ch]
      ensures mainBuf !in buffers && this !in buffers
    {
    }

    /** Unpack the scale factors of granule gr and channel ch. */
    method UnpackRows(mainPtr: nat, bitOffset: nat, mainBits: nat, sis: SideInfoSub, mpeg1: bool, scfsi: seq<nat>,
                      gr: nat, ch: nat, right: bool)
      returns (offset: nat, off: nat, preFlag: nat)
      requires Tidy() && gr < 2 && ch < 2 && |scfsi| == 4 && sis.sfCompress < 512
      requires bitOffset < 8 && mainPtr + (mainBits + bitOffset + 7) / 8 <= mainBuf.Length
      modifies this`sfjs, sfis[gr][ch].l, sfis[gr][ch].s
      ensures Tidy() && off < 8 && 8 * offset + off == bitOffset + Part2Length(sis, mpeg1, scfsi, gr, right)
      ensures Held() == old(Held()).(l := old(Held()).l[At((gr, ch)) := sfis[gr][ch].l[..]],
                                     s := old(Held()).s[At((gr, ch)) := Rows(sfis[gr][ch].s)],
                                     js := JointOf(sis, mpeg1, right, old(sfjs)))
      ensures Factors(sfis[gr][ch].l[..], Rows(sfis[gr][ch].s), Held().l[ch],
                      BitsOf(mainBuf[mainPtr..], 0, 8 * ((mainBits + bitOffset + 7) / 8)), bitOffset, sis, mpeg1,
                      scfsi, gr, right)
      ensures preFlag == PreFlagOf(sis, mpeg1, right)
    {
      hide IsBands, BitsOf, Part2Length, Factors, PreFlagOf, JointOf, Rows, StorageOk, PrevOk, Flags;
      Written(gr, ch);
      assert mainBuf[..][mainPtr..] == mainBuf[mainPtr..];
      offset, off, preFlag, sfjs := UnpackScaleFactors(mainBuf[..], mainPtr, bitOffset, mainBits, sis, mpeg1, scfsi, gr,
          right, sfis[gr][ch], sfis[0][ch], sfjs);
    }

    /** The flag of step k. */
    method SetFlag(ghost f: Frame, ghost k: nat, gr: nat, ch: nat, preFlag: nat)
      requires FrameOk(f) && k < Steps(f.h) && (gr, ch) == Place(f.h, k) && gr < 2 && ch < 2 && Decoding(f, k)
      modifies this`si
      ensures Decoding(f, k + 1)
      ensures Held() == old(Held()).(preFlag := old(Held()).preFlag[At((gr, ch)) := preFlag])
    {
      hide IsBands, BitsOf, StorageOk, SidesLeft, MP3Decoder.LongRows, MP3Decoder.ShortRows, Flags, PrevOk, FrameOk;
      Written(gr, ch);
      SideDone(f, k, si.sis, preFlag);
      PrevStays(si, gr, ch, preFlag);
      si := si.(sis := si.sis[gr := si.sis[gr][ch := si.sis[gr][ch].(preFlag := preFlag)]]);
    }

    /** Unpack the scale factors of step k. */
    method StepFactors(ghost f: Frame, h: Header, gr: nat, ch: nat, ghost k: nat, mainPtr: nat, bitOffset: nat,
                       mainBits: nat)
      returns (sis: SideInfoSub, offset: nat, off: nat, ghost x: Granule)
      requires FrameOk(f) && h == f.h && k < Steps(h) && (gr, ch) == Place(h, k) && Decoding(f, k)
      requires bitOffset < 8 && 8 * mainPtr + bitOffset == StartOf(f, k) && mainBits == |f.main| - StartOf(f, k)
      modifies this`si, this`sfjs, sfis[gr][ch].l, sfis[gr][ch].s
      ensures Decoding(f, k + 1) && sis == SubOf(f, k)
      ensures off < 8 && 8 * offset + off == bitOffset + Part2Of(f, k)
      ensures FactorsExact(f, k, Held().l[ch], x.preFlag, x.l, x.s)
      ensures Held() == WithFactors(old(Held()), At((gr, ch)), x, JointOf(sis, IsMpeg1(h), IsRight(h, ch), old(sfjs)))
    {
      hide IsBands, BitsOf, Part2Length, Factors, SideOk, PreFlagOf, JointOf, Rows, StorageOk, SidesLeft, StartOf,
          MP3Decoder.LongRows, MP3Decoder.ShortRows, Flags, PrevOk, FactorsExact, FrameOk, IsMpeg1, IsRight,
          MP3Decoder.Held;
      StepInside(f, k);
      Written(gr, ch);
      NextSide(f, k, si.sis);
      sis := si.sis[gr][ch];
      var preFlag;
      LeftInside(mainBuf.Length, mainDataBytes, mainPtr, bitOffset, mainBits);
      offset, off, preFlag := UnpackRows(mainPtr, bitOffset, mainBits, sis, IsMpeg1(h), si.scfsi[ch], gr, ch,
          IsRight(h, ch));
      SetFlag(f, k, gr, ch, preFlag);
      x := Granule(preFlag, sfis[gr][ch].l[..], Rows(sfis[gr][ch].s), 0, 0, []);
      assert mainBuf[..][mainPtr..] == mainBuf[mainPtr..];
      FactorsAre(f, k, Held().l[ch], x, mainBuf[..], mainDataBytes, mainPtr, bitOffset, mainBits);
    }

    /** Decode Huffman codes into the buffer of channel ch. */
    method DecodeInto(ht: HuffTables, ver: Version, sb: SfBand, sis: SideInfoSub, ch: nat, ptr: nat, bitOffset: nat,
                      huffBlockBits: int)
      returns (moved: int, off: nat, nzb: nat)
      requires Tidy() && ch < 2 && TablesOk(ht) && SideOk(sis) && bitOffset < 8
      requires huffBlockBits >= 0 ==> ptr <= mainBuf.Length && bitOffset + huffBlockBits <= 8 * |mainBuf[ptr..]|
      modifies this`nonZeroBound, huffDecBuf[ch]
      ensures Tidy() && huffDecBuf[ch].Length == 576
      ensures Held() == old(Held()).(spectrum := old(Held()).spectrum[ch := huffDecBuf[ch][..]],
                                     nzb := old(nonZeroBound)[ch := nzb])
      ensures huffBlockBits < 0 ==> moved == -1
      ensures moved == -1 || moved >= 0
      ensures moved >= 0 ==> 8 * moved + off == bitOffset + huffBlockBits && off < 8
      ensures huffBlockBits >= 0 ==>
                FillsSpectrum(ht, ver, sb, sis, BitsOf(mainBuf[ptr..], bitOffset, huffBlockBits), bitOffset, moved, nzb,
                              huffDecBuf[ch][..])
    {
      hide IsBands, WFTable, WFQuads, FillsSpectrum, BitsOf, StorageOk, Rows, PrevOk, SideOk, Flags;
      Written(0, ch);
      assert huffBlockBits >= 0 ==> mainBuf[..][ptr..] == mainBuf[ptr..];
      moved, off, nzb := DecodeHuffman(huffDecBuf[ch], ht, ver, sb, sis, mainBuf[..], ptr, bitOffset, huffBlockBits);
      nonZeroBound := nonZeroBound[ch := nzb];
    }

    /** Decode the Huffman codes of step k, which start at bit off of byte ptr. */
    method StepCodes(ht: HuffTables, ghost f: Frame, h: Header, sb: SfBand, ch: nat, ghost k: nat, sis: SideInfoSub,
                     ptr: nat, bitOffset: nat, huffBlockBits: int, ghost l0: seq<int>, ghost x0: Granule)
      returns (moved: int, off: nat, ghost x: Granule)
      requires TablesOk(ht) && FrameOk(f) && h == f.h && sb == f.sb && k < Steps(h) && ch == Place(h, k).1
          && Decoding(f, k + 1)
      requires sis == SubOf(f, k) && huffBlockBits == sis.part23Length - Part2Of(f, k)
      requires bitOffset < 8 && 8 * ptr + bitOffset == StartOf(f, k) + Part2Of(f, k)
      requires StartOf(f, k) + sis.part23Length <= |f.main|
      requires FactorsExact(f, k, l0, x0.preFlag, x0.l, x0.s)
      modifies this`nonZeroBound, huffDecBuf[ch]
      ensures Decoding(f, k + 1) && x == x0.(moved := moved, nzb := x.nzb, spectrum := x.spectrum)
      ensures Held() == WithCodes(old(Held()), ch, x)
      ensures huffBlockBits >= 0 ==> StepExact(ht, f, k, l0, x)
      ensures moved == -1 || moved >= 0
      ensures huffBlockBits < 0 ==> moved < 0
      ensures moved >= 0 ==> off < 8 && 8 * moved + off == bitOffset + huffBlockBits
    {
      hide IsBands, WFTable, WFQuads, FillsSpectrum, BitsOf, Part2Of, SidesLeft, FactorsExact, StorageOk, StartOf,
          StepExact, FrameOk;
      var nzb;
      if huffBlockBits >= 0 {
        MainSlice(mainBuf[..], 8 * mainDataBytes, ptr, bitOffset, huffBlockBits);
      }
      StepInside(f, k);
      Written(Place(h, k).0, ch);
      moved, off, nzb := DecodeInto(ht, h.ver, sb, sis, ch, ptr, bitOffset, huffBlockBits);
      x := x0.(moved := moved, nzb := nzb, spectrum := huffDecBuf[ch][..]);
      if huffBlockBits >= 0 {
        CodesExact(ht, f, k, l0, x, mainBuf[..], mainDataBytes, ptr, bitOffset);
      }
    }

    /** Scale factors and Huffman codes of granule gr and channel ch; the cursor is byte mainPtr and
        bit bitOffset, and mainBits are left behind it. */
    method DecodeStep(ht: HuffTables, ghost f: Frame, h: Header, sb: SfBand, gr: nat, ch: nat, ghost g: seq<Granule>,
                      mainPtr: nat, bitOffset: nat, mainBits: nat)
      returns (err: Result, ptr: nat, off: nat, bits: int, ghost x: Granule)
      requires TablesOk(ht) && FrameOk(f) && h == f.h && sb == f.sb && |g| < Steps(h) && (gr, ch) == Place(h, |g|)
          && Decoding(f, |g|) && HasSteps(h, g, Held())
      requires bitOffset < 8 && 8 * mainPtr + bitOffset == StartOf(f, |g|) && mainBits == |f.main| - StartOf(f, |g|)
      modifies this`si, this`sfjs, this`nonZeroBound, buffers
      ensures err == NONE || err == INVALID_SCALEFACT || err == INVALID_HUFFCODES
      ensures err != NONE ==> StepFails(ht, f, g, err)
      ensures Decoding(f, |g| + 1)
      ensures err == NONE ==> x.moved >= 0 && StepExact(ht, f, |g|, FirstLong(h, g, x), x)
                              && HasSteps(h, g + [x], Held())
                              && sfjs == JointOf(SubOf(f, |g|), IsMpeg1(h), IsRight(h, ch), old(sfjs))
      ensures err == NONE ==> off < 8 && 8 * ptr + off == StartOf(f, |g| + 1) && bits == |f.main| - StartOf(f, |g| + 1)
    {
      hide IsBands, WFTable, WFQuads, FillsSpectrum, BitsOf, Part2Of, StepExact, FrameOk, Steps, SidesLeft, FactorsExact,
          HasSteps, FirstLong, Rows, JointOf, StorageOk, MP3Decoder.Held, MP3Decoder.Decoding, StepFails, Place,
          IsMpeg1, IsRight, StartOf, SubOf;
      ptr, off, bits := mainPtr, bitOffset, mainBits;
      // the scale factors, and how many bits they take
      var prevBitOffset := bitOffset;
      ghost var k := |g|;
      StepInside(f, k);
      NextStart(f, k);
      DecodingTidy(f, k);
      ghost var st := Held();
      Written(gr, ch);
      var sis, offset;
      sis, offset, off, x := StepFactors(f, h, gr, ch, k, mainPtr, bitOffset, mainBits);
      DecodingTidy(f, k + 1);
      var sfBlockBits := 8 * offset - prevBitOffset + off;
      var huffBlockBits := sis.part23Length - sfBlockBits;
      ptr := ptr + offset;
      bits := bits - sfBlockBits;
      if bits < huffBlockBits {
        err := INVALID_SCALEFACT;
        StepTooLong(ht, f, g);
        return;
      }
      // the codewords behind them
      prevBitOffset := off;
      var moved;
      moved, off, x := StepCodes(ht, f, h, sb, ch, k, sis, ptr, off, huffBlockBits, Held().l[ch], x);
      DecodingTidy(f, k + 1);
      StepStored(h, g, x, st, sfjs);
      StepCut(ht, f, g, x);
      if moved < 0 {
        err := INVALID_HUFFCODES;
        return;
      }
      ptr := ptr + moved;
      bits := bits - (8 * moved - prevBitOffset + off);
      err := NONE;
    }

    /** One granule: all channels. */
    method DecodeGranule(ht: HuffTables, ghost f: Frame, h: Header, sb: SfBand, gr: nat, ghost g0: seq<Granule>,
                         ghost js: ScaleFactorJS, mainPtr: nat, bitOffset: nat, mainBits: int)
      returns (err: Result, ptr: nat, off: nat, bits: int, ghost g: seq<Granule>)
      requires TablesOk(ht) && FrameOk(f) && h == f.h && sb == f.sb && gr < Granules(IsMpeg1(h))
      requires |g0| == gr * Channels(h.mono) && Decoding(f, |g0|) && Results(f, g0, js)
      requires AtStep(ht, f, g0, mainPtr, bitOffset, mainBits)
      modifies this`si, this`sfjs, this`nonZeroBound, buffers
      ensures Tidy() && AtStep(ht, f, g, ptr, off, bits)
      ensures err == NONE ==> |g| == (gr + 1) * Channels(h.mono) && Decoding(f, |g|) && Results(f, g, js)
      ensures err != NONE ==> |g| < Steps(h) && StepFails(ht, f, g, err)
    {
      hide IsBands, WFTable, WFQuads, StepExact, StepFails, FrameOk, MP3Decoder.Decoding, AtStep, Exact, StartOf, IsMpeg1,
          MP3Decoder.Tidy, MP3Decoder.Results, FirstLong;
      ptr, off, bits, g, err := mainPtr, bitOffset, mainBits, g0, NONE;
      DecodingTidy(f, |g|);
      var ch := 0;
      while ch < Channels(h.mono)
        invariant ch <= Channels(h.mono) && |g| == gr * Channels(h.mono) + ch && err == NONE
        invariant AtStep(ht, f, g, ptr, off, bits) && Decoding(f, |g|) && Tidy()
        invariant Results(f, g, js)
      {
        PlaceOf(h, gr, ch);
        ResultsGive(f, g, js);
        AtStepGives(ht, f, g, ptr, off, bits);
        ghost var x: Granule;
        var ptr1, off1, bits1;
        err, ptr1, off1, bits1, x := DecodeStep(ht, f, h, sb, gr, ch, g, ptr, off, bits);
        DecodingTidy(f, |g| + 1);
        if err != NONE {
          return;
        }
        AtNext(ht, f, g, x, ptr1, off1, bits1);
        ResultsOn(f, g, x, js);
        ptr, off, bits, g := ptr1, off1, bits1, g + [x];
        ch := ch + 1;
      }
    }

    /** Scale factors and spectra of all granules and channels. */
    method DecodeMainData(ht: HuffTables, ghost f: Frame, h: Header, sb: SfBand) returns (err: Result,
                          ghost g: seq<Granule>)
      requires TablesOk(ht) && FrameOk(f) && h == f.h && sb == f.sb && Decoding(f, 0)
      modifies this`si, this`sfjs, this`nonZeroBound, buffers
      ensures Tidy()
      ensures Exact(ht, f, g)
      ensures err == NONE ==> |g| == Steps(h) && Results(f, g, old(sfjs))
      ensures err != NONE ==> |g| < Steps(h) && StepFails(ht, f, g, err)
    {
      hide IsBands, WFTable, WFQuads, StepExact, StepFails, FrameOk, MP3Decoder.Decoding, AtStep, Exact, StartOf, IsMpeg1,
          MP3Decoder.Tidy, MP3Decoder.Results;
      ghost var js := sfjs;
      var mainPtr, bitOffset, mainBits := 0, 0, 8 * mainDataBytes;
      g, err := [], NONE;
      DecodingTidy(f, 0);
      AtFirst(ht, f);
      NoResults(f);
      var gr := 0;
      while gr < Granules(IsMpeg1(h))
        invariant gr <= Granules(IsMpeg1(h)) && |g| == gr * Channels(h.mono) && err == NONE
        invariant AtStep(ht, f, g, mainPtr, bitOffset, mainBits) && Decoding(f, |g|) && Tidy()
        invariant Results(f, g, old(sfjs))
      {
        err, mainPtr, bitOffset, mainBits, g := DecodeGranule(ht, f, h, sb, gr, g, js, mainPtr, bitOffset, mainBits);
        AtStepGives(ht, f, g, mainPtr, bitOffset, mainBits);
        if err != NONE {
          return;
        }
        gr := gr + 1;
      }
      AtStepGives(ht, f, g, mainPtr, bitOffset, mainBits);
    }

    /** The reservoir has the bytes for this frame: decode its main data. */
    method DecodeFilled(ht: HuffTables, h: Header, ghost bytes: seq<Byte>)
      returns (err: Result, ghost f: Frame, ghost g: seq<Granule>)
      requires TablesOk(ht) && Supported(h) && Valid() && SidesOk(h, si) && mainBuf[..mainDataBytes] == bytes
      modifies this`si, this`sfjs, this`nonZeroBound, buffers
      ensures Valid() && FrameOk(f) && f.h == h && f.sb == SfBands(bands, h.ver, h.srIdx) && f.si == old(si)
      ensures MainIs(f, bytes)
      ensures DecodedAs(ht, f, g, err) && (err == NONE ==> Results(f, g, old(sfjs)))
    {
      hide IsBands, WFTable, WFQuads, StorageOk, PrevOk, IsTail, SidesOk, Exact, StepFails, BitsOf, SfBands;
      var sb := SfBands(bands, h.ver, h.srIdx);
      f := Frame(BitsOf(mainBuf[..], 0, 8 * mainDataBytes), h, sb, si);
      BitsOfPrefix(mainBuf[..], mainDataBytes);
      SidesStart(f);
      err, g := DecodeMainData(ht, f, h, sb);
    }

    /** Fill the main data buffer with the slot and decode what it holds. */
    method DecodeSlot(ht: HuffTables, h: Header, slot: seq<Byte>)
      returns (err: Result, ghost f: Frame, ghost g: seq<Granule>)
      requires TablesOk(ht) && Supported(h) && Valid() && SidesOk(h, si) && si.mainDataBegin + |slot| <= MAINBUF_SIZE
      modifies this, mainBuf, buffers
      ensures Valid() && accepted == old(accepted) + slot
      ensures if old(mainDataBytes) < old(si.mainDataBegin) then err == MAINDATA_UNDERFLOW
              else
                && FrameOk(f) && f.h == h && f.sb == SfBands(bands, h.ver, h.srIdx) && f.si == old(si)
                && f.si.mainDataBegin <= |old(accepted)|
                && MainIs(f, old(accepted)[|old(accepted)| - f.si.mainDataBegin..] + slot)
                && DecodedAs(ht, f, g, err) && (err == NONE ==> Results(f, g, old(sfjs)))
    {
      hide IsBands, WFTable, WFQuads, StorageOk, PrevOk, IsTail, SidesOk, DecodedAs, BitsOf, SfBands;
      var ok := FillMainData(slot, si.mainDataBegin);
      if ok {
        err, f, g := DecodeFilled(ht, h, mainBuf[..mainDataBytes]);
      } else {
        err, g, f := MAINDATA_UNDERFLOW, [], Frame([], h, SfBands(bands, h.ver, h.srIdx), si);
      }
    }

    /** Unpack header and side information. */
    method UnpackHead(inbuf: seq<Byte>, inPtr: nat) returns (header: Option<Header>, n: nat)
      requires Valid() && InputOk(inbuf, inPtr, si)
      modifies this`si
      ensures header == ParseHeader(inbuf, inPtr) && Valid()
      ensures header.None? ==> n == 0
      ensures header.Some? ==>
                var h := header.value;
                && Supported(h) && inPtr + n <= |inbuf|
                && n == HeadBytes(h) && si.mainDataBegin == Begin(inbuf, inPtr, h) < 512
                && SidesOk(h, si) && SideInfoAt(si, old(si), SideBits(inbuf, inPtr, h), IsMpeg1(h), h.mono)
    {
      hide IsBands, ParseHeader, MP3Decoder.Storage, IsTail;
      n := 0;
      header := ParseHeader(inbuf, inPtr);
      if header.Some? {
        var h := header.value;
        ghost var prev := si;
        n, si := UnpackSideInfo(si, IsMpeg1(h), h.mono, inbuf, inPtr + HeaderBytes(h));
        SideFrame(inbuf, inPtr, h, prev, si);
        n := HeaderBytes(h) + n;
      }
    }

    /** Decode the frame at inbuf[inPtr]; bytesLeft bytes of input are left. f and g say what the
        main data are and what was decoded from them. */
    method MP3Decode(ht: HuffTables, inbuf: seq<Byte>, inPtr: nat, bytesLeft: int)
      returns (err: Result, ptr: nat, left: int, ghost f: Frame, ghost g: seq<Granule>)
      requires Valid() && TablesOk(ht) && inPtr + bytesLeft <= |inbuf| && InputOk(inbuf, inPtr, si)
      modifies this, mainBuf, buffers
      ensures Valid() && ptr - inPtr == bytesLeft - left
      ensures var r := ParseHeader(inbuf, inPtr);
              if r.None? then err == INVALID_FRAMEHEADER && ptr == inPtr && ReservoirKept(old(accepted),
                  old(mainDataBytes))
              else if NSlots(r.value) > bytesLeft - HeadBytes(r.value) then
                err == INDATA_UNDERFLOW && ptr == inPtr + HeadBytes(r.value) && ReservoirKept(old(accepted),
                    old(mainDataBytes))
              else
                && ptr == inPtr + HeadBytes(r.value) + NSlots(r.value)
                && accepted == old(accepted) + Slot(inbuf, inPtr, r.value)
                && if old(mainDataBytes) < Begin(inbuf, inPtr, r.value) then err == MAINDATA_UNDERFLOW
                   else
                     && IsFrame(f, bands, inbuf, inPtr, r.value, old(si), old(accepted)) && DecodedAs(ht, f, g, err)
                     && (err == NONE ==> Results(f, g, old(sfjs)))
    {
      hide IsBands, WFTable, WFQuads, MP3Decoder.Tidy, IsTail, NSlots, ParseHeader, SidesOk, DecodedAs, Begin, InputOk;
      hide SideInfoAt, SideBits, BitsOf, SfBands, MP3Decoder.Valid, TablesOk, IsMpeg1, MainIs, HeaderBytes, SideBytesOf;
      hide Window, BitAt, Min;
      ptr, left, err, f, g := inPtr, bytesLeft, INVALID_FRAMEHEADER, Frame([], Header(MPEG1, 3, false, 1, 0, false,
          false, 0), SfBands(bands, MPEG1, 0), si), [];
      // what comes before the slot
      var header, headBytes := UnpackHead(inbuf, inPtr);
      if header.None? {
        return;
      }
      var h := header.value;
      ptr := ptr + headBytes;
      left := left - headBytes;
      var nSlots := NSlots(h);
      // the slot is not all there
      if nSlots > left {
        err := INDATA_UNDERFLOW;
        return;
      }
      err, f, g := DecodeSlot(ht, h, inbuf[ptr..ptr + nSlots]);
      ptr := ptr + nSlots;
      left := left - nSlots;
    }

    ghost predicate ReservoirKept(all: seq<Byte>, n: nat)
      reads this
    {
      accepted == all && mainDataBytes == n
    }

    lemma ResultsGive(f: Frame, g: seq<Granule>, js: ScaleFactorJS)
      requires FrameOk(f) && Results(f, g, js)
      ensures Tidy() && HasSteps(f.h, g, Held()) && sfjs == JointAfter(f, |g|, js)
    {
    }

    lemma ResultsOn(f: Frame, g: seq<Granule>, x: Granule, js: ScaleFactorJS)
      requires FrameOk(f) && Tidy() && |g| < Steps(f.h) && HasSteps(f.h, g + [x], Held())
      requires sfjs == JointOf(SubOf(f, |g|), IsMpeg1(f.h), IsRight(f.h, Place(f.h, |g|).1), JointAfter(f, |g|, js))
      ensures Results(f, g + [x], js)
    {
    }

    lemma NoResults(f: Frame)
      requires FrameOk(f) && Tidy()
      ensures Results(f, [], sfjs)
    {
    }

    lemma DecodingTidy(f: Frame, k: nat)
      requires FrameOk(f) && Decoding(f, k)
      ensures |f.main| == 8 * mainDataBytes && Tidy()
    {
    }
  }

  /** After the steps g the cursor stands at their end, and all bits behind it are left. */
  ghost predicate AtStep(ht: HuffTables, f: Frame, g: seq<Granule>, mainPtr: nat, bitOffset: nat, mainBits: int)
    requires TablesShape(ht) && FrameOk(f)
  {
    && Exact(ht, f, g)
    && bitOffset < 8 && 8 * mainPtr + bitOffset == StartOf(f, |g|)
    && mainBits == |f.main| - StartOf(f, |g|)
  }

  lemma AtFirst(ht: HuffTables, f: Frame)
    requires TablesShape(ht) && FrameOk(f)
    ensures AtStep(ht, f, [], 0, 0, |f.main|)
  {
  }

  lemma AtStepGives(ht: HuffTables, f: Frame, g: seq<Granule>, mainPtr: nat, bitOffset: nat, mainBits: int)
    requires TablesShape(ht) && FrameOk(f) && AtStep(ht, f, g, mainPtr, bitOffset, mainBits)
    ensures |g| <= Steps(f.h) && Exact(ht, f, g)
    ensures bitOffset < 8 && 8 * mainPtr + bitOffset == StartOf(f, |g|)
    ensures mainBits == |f.main| - StartOf(f, |g|) >= 0
  {
    hide IsBands, FrameOk, StepExact;
    if |g| > 0 {
      var k := |g| - 1;
      assert StepExact(ht, f, k, FirstLong(f.h, g[..k], g[k]), g[k]);
      StepFits(ht, f, k, FirstLong(f.h, g[..k], g[k]), g[k]);
    }
  }

  lemma StepFits(ht: HuffTables, f: Frame, k: nat, l0: seq<int>, x: Granule)
    requires TablesShape(ht) && FrameOk(f) && k < Steps(f.h) && StepExact(ht, f, k, l0, x)
    ensures StartOf(f, k + 1) <= |f.main|
  {
    hide IsBands, FrameOk, FillsSpectrum, FactorsExact;
  }

  lemma AtNext(ht: HuffTables, f: Frame, g: seq<Granule>, x: Granule, mainPtr: nat, bitOffset: nat, mainBits: int)
    requires TablesShape(ht) && FrameOk(f) && Exact(ht, f, g) && |g| < Steps(f.h)
    requires x.moved >= 0 && StepExact(ht, f, |g|, FirstLong(f.h, g, x), x)
    requires bitOffset < 8 && 8 * mainPtr + bitOffset == StartOf(f, |g| + 1) && mainBits == |f.main| - StartOf(f, |g| + 1)
    ensures AtStep(ht, f, g + [x], mainPtr, bitOffset, mainBits)
  {
    hide FrameOk, StepExact, Exact, StartOf, FirstLong;
    ExactExtends(ht, f, g, x);
  }

  /** The codes behind the cursor are those of step k. */
  lemma CodesExact(ht: HuffTables, f: Frame, k: nat, l0: seq<int>, x: Granule, buf: seq<Byte>, n: nat, ptr: nat,
                   off: nat)
    requires TablesShape(ht) && FrameOk(f) && k < Steps(f.h) && 8 * n <= 8 * |buf| && f.main == BitsOf(buf, 0, 8 * n)
    requires off < 8 && 8 * ptr + off == StartOf(f, k) + Part2Of(f, k) && Part2Of(f, k) <= SubOf(f, k).part23Length
    requires StartOf(f, k) + SubOf(f, k).part23Length <= |f.main| && ptr <= |buf|
    requires FactorsExact(f, k, l0, x.preFlag, x.l, x.s)
    requires FillsSpectrum(ht, f.h.ver, f.sb, SubOf(f, k),
                           BitsOf(buf[ptr..], off, SubOf(f, k).part23Length - Part2Of(f, k)), off, x.moved, x.nzb,
                           x.spectrum)
    ensures StepExact(ht, f, k, l0, x)
  {
    hide IsBands, FillsSpectrum, BitsOf, Part2Of, FactorsExact, StartOf, FrameOk;
    MainSlice(buf, 8 * n, ptr, off, SubOf(f, k).part23Length - Part2Of(f, k));
  }

  lemma PlaceOf(h: Header, gr: nat, ch: nat)
    requires gr < Granules(IsMpeg1(h)) && ch < Channels(h.mono)
    ensures gr * Channels(h.mono) + ch < Steps(h)
    ensures Place(h, gr * Channels(h.mono) + ch) == (gr, ch)
  {
  }

  lemma NextSide(f: Frame, k: nat, sis: seq<seq<SideInfoSub>>)
    requires FrameOk(f) && k < Steps(f.h) && SidesLeft(f, k, sis)
    ensures |sis| == 2 && |sis[0]| == |sis[1]| == 2 && Place(f.h, k).0 < 2
    ensures sis[Place(f.h, k).0][Place(f.h, k).1] == SubOf(f, k)
  {
    hide IsBands, SidesOk;
  }

  lemma NextStart(f: Frame, k: nat)
    requires FrameOk(f) && k < Steps(f.h)
    ensures StartOf(f, k + 1) == StartOf(f, k) + SubOf(f, k).part23Length
  {
  }

  lemma StepInside(f: Frame, k: nat)
    requires FrameOk(f) && k < Steps(f.h)
    ensures SubInRange(SubOf(f, k)) && SideOk(SubOf(f, k)) && Place(f.h, k).0 < 2
    ensures |f.si.scfsi| == 2 && |f.si.scfsi[Place(f.h, k).1]| == 4
  {
  }

  lemma StepTooLong(ht: HuffTables, f: Frame, g: seq<Granule>)
    requires TablesShape(ht) && FrameOk(f) && |g| < Steps(f.h)
    requires StartOf(f, |g|) + SubOf(f, |g|).part23Length > |f.main|
    ensures StepFails(ht, f, g, INVALID_SCALEFACT)
  {
  }

  lemma StepCut(ht: HuffTables, f: Frame, g: seq<Granule>, x: Granule)
    requires TablesShape(ht) && FrameOk(f) && |g| < Steps(f.h)
    requires SubOf(f, |g|).part23Length >= Part2Of(f, |g|) ==> StepExact(ht, f, |g|, FirstLong(f.h, g, x), x)
    ensures x.moved == -1 ==> StepFails(ht, f, g, INVALID_HUFFCODES)
  {
    hide StepExact, TablesShape, FrameOk, Steps, Part2Of, FirstLong;
  }

  lemma SideDone(f: Frame, k: nat, sis: seq<seq<SideInfoSub>>, preFlag: nat)
    requires FrameOk(f) && k < Steps(f.h) && SidesLeft(f, k, sis)
    ensures var (gr, ch) := Place(f.h, k);
            var sis1 := sis[gr := sis[gr][ch := sis[gr][ch].(preFlag := preFlag)]];
            SidesLeft(f, k + 1, sis1) && Flags(sis1) == Flags(sis)[At((gr, ch)) := preFlag]
  {
    hide IsBands, SideOk, SubInRange;
  }

  /** The side information of the steps from k on is still the frame's. */
  ghost predicate SidesLeft(f: Frame, k: nat, sis: seq<seq<SideInfoSub>>)
    requires FrameOk(f)
  {
    && |sis| == 2 && (forall gr | 0 <= gr < 2 :: |sis[gr]| == 2)
    && forall j | k <= j < Steps(f.h) :: sis[Place(f.h, j).0][Place(f.h, j).1] == SubOf(f, j)
  }

  lemma BitsOfPrefix(buf: seq<Byte>, n: nat)
    requires n <= |buf|
    ensures BitsOf(buf, 0, 8 * n) == BitsOf(buf[..n], 0, 8 * n)
  {
    hide ByteBits;
  }

  lemma SidesStart(f: Frame)
    requires FrameOk(f)
    ensures SidesLeft(f, 0, f.si.sis)
  {
  }

  /** The side information just read. */
  lemma SideFrame(inbuf: seq<Byte>, inPtr: nat, h: Header, prev: SideInfo, si: SideInfo)
    requires SideShape(si) && PrevOk(prev) && InputOk(inbuf, inPtr, prev) && ParseHeader(inbuf, inPtr) == Some(h)
    requires SideInfoAt(si, prev, SideBits(inbuf, inPtr, h), IsMpeg1(h), h.mono) && RestKept(si, prev, IsMpeg1(h), h.mono)
    ensures PrevOk(si) && SidesOk(h, si)
    ensures si.mainDataBegin == Begin(inbuf, inPtr, h) < 512
  {
    hide SubAt, SideBits, ParseHeader, Field;
    var b := SideBits(inbuf, inPtr, h);
    FieldBound(b, 0, BeginBits(IsMpeg1(h)));
    forall gr, ch | 0 <= gr < Granules(IsMpeg1(h)) && 0 <= ch < Channels(h.mono)
      ensures SubInRange(si.sis[gr][ch]) && SideOk(si.sis[gr][ch])
    {
      SubAtInRange(b, SubPos(IsMpeg1(h), h.mono, gr, ch), IsMpeg1(h), prev.sis[gr][ch]);
    }
  }

  method NewChannel() returns (sfis: seq<ScaleFactorInfoSub>, h: array<int>, ghost buffers: set<object>)
    ensures |sfis| == 2 && ChannelOk(sfis[0], sfis[1], h, buffers) && fresh(buffers)
  {
    var s0 := new ScaleFactorInfoSub();
    var s1 := new ScaleFactorInfoSub();
    h := new int[576];
    sfis := [s0, s1];
    buffers := {s0.l, s0.s, s1.l, s1.s, h};
  }

  /** The buffers of one channel have their sizes and are distinct. */
  ghost predicate ChannelOk(s0: ScaleFactorInfoSub, s1: ScaleFactorInfoSub, h: array<int>, buffers: set<object>) {
    && s0.Valid() && s1.Valid() && s1.l != s0.l && h != s0.l && h != s1.l && s1.s != s0.s && h.Length == 576
    && s0.l in buffers && s0.s in buffers && s1.l in buffers && s1.s in buffers && h in buffers
  }

  /** The buffers of two channels are different ones. */
  ghost predicate ChannelsApart(a0: ScaleFactorInfoSub, a1: ScaleFactorInfoSub, g: array<int>, b0: ScaleFactorInfoSub,
                                b1: ScaleFactorInfoSub, h: array<int>) {
    && a0.l !in {b0.l, b1.l, h} && a1.l !in {b0.l, b1.l, h} && g !in {b0.l, b1.l, h}
    && a0.s !in {b0.s, b1.s} && a1.s !in {b0.s, b1.s}
  }

  ghost predicate StorageOk(sfis: seq<seq<ScaleFactorInfoSub>>, huffDecBuf: seq<array<int>>, buffers: set<object>) {
    && |sfis| == 2 && |sfis[0]| == 2 && |sfis[1]| == 2 && |huffDecBuf| == 2
    && (forall ch | 0 <= ch < 2 :: ChannelOk(sfis[0][ch], sfis[1][ch], huffDecBuf[ch], buffers))
    && ChannelsApart(sfis[0][0], sfis[1][0], huffDecBuf[0], sfis[0][1], sfis[1][1], huffDecBuf[1])
  }

  lemma PrevStays(si: SideInfo, gr: nat, ch: nat, preFlag: nat)
    requires PrevOk(si) && gr < 2 && ch < 2
    ensures |si.sis| == |si.sis[0]| == |si.sis[1]| == 2
    ensures PrevOk(si.(sis := si.sis[gr := si.sis[gr][ch := si.sis[gr][ch].(preFlag := preFlag)]]))
  {
  }

  predicate PrevOk(si: SideInfo) {
    && SideShape(si)
    && forall gr, ch | 0 <= gr < 2 && 0 <= ch < 2 ::
         var sis := si.sis[gr][ch]; sis.region0Count <= 15 && |sis.subBlockGain| == 3
  }
}
