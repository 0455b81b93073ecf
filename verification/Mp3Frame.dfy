/** Frame header, sync word and frame sizes. */
module Mp3Frame {
  import opened Bits
  import opened HuffmanSpec
  import opened BitStream
  import opened Mp3Tables
  import opened SideInfo

  datatype Header = Header(ver: Version, layer: nat, crc: bool, brIdx: nat, srIdx: nat, padding: bool, mono: bool,
      modeExt: nat)

  predicate SyncAt(buf: seq<Byte>, i: nat) {
    i + 1 < |buf| && buf[i] == 0xff && buf[i + 1] / 0x20 == 7
  }

  function VersionOf(verIdx: nat): Version {
    if verIdx == 0 then MPEG25 else if verIdx % 2 == 1 then MPEG1 else MPEG2
  }

  /** The header at buf[at], or None when it is not one. */
  function ParseHeader(buf: seq<Byte>, at: nat): (r: Option<Header>)
    requires at + 4 <= |buf|
    ensures r.Some? ==> SyncAt(buf, at) && 1 <= r.value.layer <= 3 && r.value.srIdx < 3 && r.value.brIdx < 15
  {
    if !SyncAt(buf, at) then None else
    var b1, b2, b3 := buf[at + 1], buf[at + 2], buf[at + 3];
    var h := Header(
      VersionOf((b1 / 8) % 4), 4 - (b1 / 2) % 4, b1 % 2 == 0, b2 / 16, (b2 / 4) % 4, (b2 / 2) % 2 == 1,
      b3 / 64 == 3, if b3 / 64 == 1 then (b3 / 16) % 4 else 0);
    if h.srIdx == 3 || h.layer == 4 || h.brIdx == 15 then None else Some(h)
  }

  /** The fields of the header in bit order: sync word 11, version 2, layer 2, CRC 1, bit rate 4, sample rate 2,
      padding 1, private 1, mode 2, extension 2. A header is refused exactly for a missing sync word or an
      index without a table entry. */
  lemma HeaderLayout(buf: seq<Byte>, at: nat)
    requires at + 4 <= |buf|
    ensures var b, r := BitsOf(buf[at..], 0, 32), ParseHeader(buf, at);
            && (r.None? <==> Field(b, 0, 11) != 0x7ff || Field(b, 13, 2) == 0 || Field(b, 16, 4) == 15
                             || Field(b, 20, 2) == 3)
            && (r.Some? ==>
                  var h := r.value;
                  && (h.ver == MPEG25 <==> Field(b, 11, 2) == 0) && (h.ver == MPEG2 <==> Field(b, 11, 2) == 2)
                  && h.layer == 4 - Field(b, 13, 2) && (h.crc <==> Field(b, 15, 1) == 0)
                  && h.brIdx == Field(b, 16, 4) && h.srIdx == Field(b, 20, 2)
                  && (h.padding <==> Field(b, 22, 1) == 1) && (h.mono <==> Field(b, 24, 2) == 3)
                  && h.modeExt == if Field(b, 24, 2) == 1 then Field(b, 26, 2) else 0)
  {
    hide BitsOf, Field;
    var head := buf[at..];
    SyncField(head);
    FieldsOfByte1(head);
    FieldsOfBytes2And3(head);
    assert head[0] == buf[at] && head[1] == buf[at + 1] && head[2] == buf[at + 2] && head[3] == buf[at + 3];
  }

  lemma FieldsOfByte1(buf: seq<Byte>)
    requires |buf| >= 4
    ensures var b := BitsOf(buf, 0, 32);
            Field(b, 11, 2) == (buf[1] / 8) % 4 && Field(b, 13, 2) == (buf[1] / 2) % 4 && Field(b, 15, 1) == buf[1] % 2
  {
    hide BitsOf, Field, Pow2;
    SmallPowers();
    ByteField(buf, 1, 3, 2);
    ByteField(buf, 1, 5, 2);
    ByteField(buf, 1, 7, 1);
  }

  lemma FieldsOfBytes2And3(buf: seq<Byte>)
    requires |buf| >= 4
    ensures var b := BitsOf(buf, 0, 32);
            && Field(b, 16, 4) == buf[2] / 16 && Field(b, 20, 2) == (buf[2] / 4) % 4
            && Field(b, 22, 1) == (buf[2] / 2) % 2
            && Field(b, 24, 2) == buf[3] / 64 && Field(b, 26, 2) == (buf[3] / 16) % 4
  {
    hide BitsOf, Field, Pow2;
    SmallPowers();
    ByteField(buf, 2, 0, 4);
    ByteField(buf, 2, 4, 2);
    ByteField(buf, 2, 6, 1);
    ByteField(buf, 3, 0, 2);
    ByteField(buf, 3, 2, 2);
  }

  lemma SmallPowers()
    ensures Pow2(0) == 1 && Pow2(1) == 2 && Pow2(2) == 4 && Pow2(3) == 8 && Pow2(4) == 16 && Pow2(5) == 32
    ensures Pow2(6) == 64
  {
  }

  /** Bits i .. i + n - 1 of byte k. */
  lemma ByteField(buf: seq<Byte>, k: nat, i: nat, n: nat)
    requires |buf| >= 4 && k < 4 && i + n <= 8
    ensures Field(BitsOf(buf, 0, 32), 8 * k + i, n) == buf[k] as int / Pow2(8 - i - n) % Pow2(n)
  {
    hide Value, ByteBits, Pow2;
    var w := ByteBits(buf[k]);
    var s := Window(BitsOf(buf, 0, 32), 8 * k + i, n);
    forall j | 0 <= j < n ensures s[j] == w[i..i + n][j] {
      BitAtByte(buf, k, i + j);
    }
    assert s == w[i..i + n];
    ByteBitsValue(buf[k]);
    ValuePrefix(w, i + n);
    assert w[..i] + w[i..i + n] == w[..i + n];
    ValueConcat(w[..i], w[i..i + n]);
    DivUnique(Value(w[..i + n]), Value(w[..i]), Pow2(n), Value(w[i..i + n]));
  }

  lemma SyncField(buf: seq<Byte>)
    requires |buf| >= 4
    ensures Field(BitsOf(buf, 0, 32), 0, 11) == 0x7ff <==> SyncAt(buf, 0)
  {
    hide Value, BitsOf;
    var b := BitsOf(buf, 0, 32);
    assert Window(b, 0, 11) == Window(b, 0, 8) + Window(b, 8, 3);
    ValueConcat(Window(b, 0, 8), Window(b, 8, 3));
    ByteField(buf, 0, 0, 8);
    ByteField(buf, 1, 0, 3);
    assert Pow2(8) == 256 && Pow2(5) == 32 && Pow2(3) == 8 && Pow2(0) == 1;
  }

  function HeaderBytes(h: Header): nat {
    if h.crc then 6 else 4
  }

  predicate IsMpeg1(h: Header) {
    h.ver == MPEG1
  }

  function SideBytesOf(h: Header): nat {
    SideBytes(IsMpeg1(h), h.mono)
  }

  /** slotTab: bytes per frame by version, sample rate and bit rate index. */
  function FrameBytes(v: Version, sr: nat, br: nat): nat
    requires sr < 3 && br < 15
  {
    match v
    case MPEG1 =>
      [[0, 104, 130, 156, 182, 208, 261, 313, 365, 417, 522, 626, 731, 835, 1044],
       [0, 96, 120, 144, 168, 192, 240, 288, 336, 384, 480, 576, 672, 768, 960],
       [0, 144, 180, 216, 252, 288, 360, 432, 504, 576, 720, 864, 1008, 1152, 1440]][sr][br]
    case MPEG2 =>
      [[0, 26, 52, 78, 104, 130, 156, 182, 208, 261, 313, 365, 417, 470, 522],
       [0, 24, 48, 72, 96, 120, 144, 168, 192, 240, 288, 336, 384, 432, 480],
       [0, 36, 72, 108, 144, 180, 216, 252, 288, 360, 432, 504, 576, 648, 720]][sr][br]
    case MPEG25 =>
      [[0, 52, 104, 156, 208, 261, 313, 365, 417, 522, 626, 731, 835, 940, 1044],
       [0, 48, 96, 144, 192, 240, 288, 336, 384, 480, 576, 672, 768, 864, 960],
       [0, 72, 144, 216, 288, 360, 432, 504, 576, 720, 864, 1008, 1152, 1296, 1440]][sr][br]
  }

  /** Main data bytes of the frame: what is left after header, CRC and side information. */
  function NSlots(h: Header): (r: int)
    requires h.srIdx < 3 && h.brIdx < 15
    ensures h.brIdx > 0 ==> 1 <= r <= 1429
  {
    var n := FrameBytes(h.ver, h.srIdx, h.brIdx);
    assert h.brIdx > 0 ==> 24 <= n <= 1440 && (IsMpeg1(h) ==> 96 <= n) by {
      if h.brIdx > 0 {
        FrameBytesBounds(h.ver, h.srIdx, h.brIdx);
      }
    }
    n - SideBytesOf(h) - 4 - (if h.crc then 2 else 0) + (if h.padding then 1 else 0)
  }

  /** Header, CRC, side information and main data are the frame, to the last byte: 32 bits, 16 with a CRC, the
      fields of the side information, and all that is left with the padding. */
  lemma FrameIsFilled(h: Header)
    requires h.srIdx < 3 && h.brIdx < 15
    ensures HeaderBytes(h) + SideBytesOf(h) + NSlots(h)
         == FrameBytes(h.ver, h.srIdx, h.brIdx) + if h.padding then 1 else 0
    ensures 8 * HeaderBytes(h) == 32 + if h.crc then 16 else 0
  {
    hide FrameBytes;
  }

  lemma FrameBytesBounds(v: Version, sr: nat, br: nat)
    requires sr < 3 && 1 <= br < 15
    ensures 24 <= FrameBytes(v, sr, br) <= 1440
    ensures v == MPEG1 ==> FrameBytes(v, sr, br) >= 96
  {
  }

  const KBPS_1: seq<nat> := [0, 32, 40, 48, 56, 64, 80, 96, 112, 128, 160, 192, 224, 256, 320]
  const KBPS_2: seq<nat> := [0, 8, 16, 24, 32, 40, 48, 56, 64, 80, 96, 112, 128, 144, 160]

  /** Bit rate and sample rate of layer III, in 1000 bits a second and in Hz. */
  function BitRate(v: Version, br: nat): nat
    requires br < 15
  {
    if v == MPEG1 then KBPS_1[br] else KBPS_2[br]
  }

  function SampleRate(v: Version, sr: nat): (r: nat)
    requires sr < 3
    ensures r > 0
  {
    [44100, 48000, 32000][sr] / (match v case MPEG1 => 1 case MPEG2 => 2 case MPEG25 => 4)
  }

  /** A frame lasts 1152 samples, or 576 in the later versions, and has as many whole bytes as that time takes. */
  lemma FrameBytesAre(v: Version, sr: nat, br: nat)
    requires sr < 3 && br < 15
    ensures FrameBytes(v, sr, br) == (if v == MPEG1 then 1152 else 576) * 125 * BitRate(v, br) / SampleRate(v, sr)
  {
    if sr == 0 {
      FrameBytes44(v, br);
    } else if sr == 1 {
      FrameBytes48(v, br);
    } else {
      FrameBytes32(v, br);
    }
  }

  lemma FrameBytes44(v: Version, br: nat)
    requires br < 15
    ensures FrameBytes(v, 0, br) == (if v == MPEG1 then 1152 else 576) * 125 * BitRate(v, br) / SampleRate(v, 0)
  {
  }

  lemma FrameBytes48(v: Version, br: nat)
    requires br < 15
    ensures FrameBytes(v, 1, br) == (if v == MPEG1 then 1152 else 576) * 125 * BitRate(v, br) / SampleRate(v, 1)
  {
  }

  lemma FrameBytes32(v: Version, br: nat)
    requires br < 15
    ensures FrameBytes(v, 2, br) == (if v == MPEG1 then 1152 else 576) * 125 * BitRate(v, br) / SampleRate(v, 2)
  {
  }

  /** With the longest reservoir a frame still fits the main data buffer of 1940 bytes. */
  lemma FrameFits(h: Header, begin: nat)
    requires h.srIdx < 3 && 1 <= h.brIdx < 15 && begin < 512
    ensures 1 <= NSlots(h) && begin + NSlots(h) <= 1940
  {
    FrameBytesBounds(h.ver, h.srIdx, h.brIdx);
  }

  /** The first sync word in the first nBytes of buf, or -1. */
  method MP3FindSyncWord(buf: seq<Byte>, nBytes: int) returns (r: int)
    requires nBytes <= |buf|
    ensures r == -1 ==> forall i | 0 <= i < nBytes - 1 :: !SyncAt(buf, i)
    ensures r != -1 ==> 0 <= r < nBytes - 1 && SyncAt(buf, r) && forall i | 0 <= i < r :: !SyncAt(buf, i)
  {
    var i := 0;
    while i < nBytes - 1
      invariant 0 <= i && forall k | 0 <= k < i :: !SyncAt(buf, k)
    {
      if buf[i] == 0xff && buf[i + 1] / 0x20 == 7 {
        return i;
      }
      i := i + 1;
    }
    r := -1;
  }
}
