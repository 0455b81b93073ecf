/** UnpackScaleFactors: the scale factors of one granule and channel. */
module ScaleFactors {
  import opened Bits
  import opened BitStream
  import opened Mp3Tables
  import opened SideInfo

  class ScaleFactorInfoSub {
    const l: array<int>     // [band]
    const s: array2<int>    // [band, window]

    ghost predicate Valid() {
      l.Length == 23 && s.Length0 == 13 && s.Length1 == 3
    }

    constructor ()
      ensures Valid() && fresh(l) && fresh(s)
    {
      l := new int[23](_ => 0);
      s := new int[13, 3]((_, _) => 0);
    }
  }

  // ----- runs of bands

  /** Bands from .. to - 1 hold consecutive fields of slen bits from position p on. */
  ghost predicate LongRead(l: seq<int>, b: seq<bool>, p: nat, from: nat, to: nat, slen: nat) {
    && from <= to <= |l|
    && forall k {:trigger l[k]} | from <= k < to :: l[k] == Field(b, p + (k - from) * slen, slen)
  }

  /** The contents of s, band by band. */
  ghost function Rows(s: array2<int>): (r: seq<seq<int>>)
    requires s.Length1 == 3
    reads s
    ensures |r| == s.Length0 && forall k | 0 <= k < |r| :: |r[k]| == 3
  {
    seq(s.Length0, k requires 0 <= k < s.Length0 reads s => [s[k, 0], s[k, 1], s[k, 2]])
  }

  /** The same for short blocks, three windows to a band. */
  ghost predicate ShortRead(s: seq<seq<int>>, b: seq<bool>, p: nat, from: nat, to: nat, slen: nat) {
    && from <= to <= |s|
    && forall k {:trigger s[k]} | from <= k < to ::
         s[k] == [Field(b, p + 3 * (k - from) * slen, slen), Field(b, p + (3 * (k - from) + 1) * slen, slen),
                  Field(b, p + (3 * (k - from) + 2) * slen, slen)]
  }

  lemma MulNext(a: int, n: int)
    ensures (a + 1) * n == a * n + n
  {
  }

  method ReadLong(bsi: BitStreamInfo, l: array<int>, from: nat, to: nat, slen: nat)
    requires bsi.Valid() && bsi.Pos() >= 0 && from <= to <= l.Length && slen < 32
    modifies bsi, l
    ensures bsi.Valid() && bsi.Stream() == old(bsi.Stream()) && bsi.Pos() == old(bsi.Pos()) + (to - from) * slen
    ensures bsi.bytePtr + bsi.nBytes == old(bsi.bytePtr + bsi.nBytes) && bsi.buf == old(bsi.buf)
    ensures LongRead(l[..], old(bsi.Stream()), old(bsi.Pos()), from, to, slen)
    ensures l[..from] == old(l[..from]) && l[to..] == old(l[to..])
  {
    hide BitStreamInfo.Valid, BitStreamInfo.Stream, Field;
    var sfb := from;
    while sfb < to
      invariant from <= sfb <= to && bsi.Valid() && bsi.bytePtr + bsi.nBytes == old(bsi.bytePtr + bsi.nBytes)
      invariant bsi.buf == old(bsi.buf) && bsi.Stream() == old(bsi.Stream())
      invariant bsi.Pos() == old(bsi.Pos()) + (sfb - from) * slen && bsi.Pos() >= 0
      invariant LongRead(l[..], old(bsi.Stream()), old(bsi.Pos()), from, sfb, slen)
      invariant l[..from] == old(l[..from]) && l[sfb..] == old(l[sfb..])
    {
      var v := bsi.GetBits(slen);
      ghost var was := l[..];
      l[sfb] := v;
      assert l[..] == was[sfb := v];
      MulNext(sfb - from, slen);
      sfb := sfb + 1;
    }
  }

  /** The three windows of one band. */
  method ReadBand(bsi: BitStreamInfo, s: array2<int>, sfb: nat, slen: nat)
    requires bsi.Valid() && bsi.Pos() >= 0 && sfb < s.Length0 && s.Length1 == 3 && slen < 32
    modifies bsi, s
    ensures bsi.Valid() && bsi.Stream() == old(bsi.Stream()) && bsi.Pos() == old(bsi.Pos()) + 3 * slen
    ensures bsi.bytePtr + bsi.nBytes == old(bsi.bytePtr + bsi.nBytes) && bsi.buf == old(bsi.buf)
    ensures var b, p := old(bsi.Stream()), old(bsi.Pos());
            Rows(s) == old(Rows(s))[sfb := [Field(b, p, slen), Field(b, p + slen, slen), Field(b, p + 2 * slen, slen)]]
  {
    hide BitStreamInfo.Valid, BitStreamInfo.Stream, Field;
    var v0 := bsi.GetBits(slen);
    s[sfb, 0] := v0;
    var v1 := bsi.GetBits(slen);
    s[sfb, 1] := v1;
    var v2 := bsi.GetBits(slen);
    s[sfb, 2] := v2;
  }

  method ReadShort(bsi: BitStreamInfo, s: array2<int>, from: nat, to: nat, slen: nat)
    requires bsi.Valid() && bsi.Pos() >= 0 && from <= to <= s.Length0 && s.Length1 == 3 && slen < 32
    modifies bsi, s
    ensures bsi.Valid() && bsi.Stream() == old(bsi.Stream()) && bsi.Pos() == old(bsi.Pos()) + 3 * (to - from) * slen
    ensures bsi.bytePtr + bsi.nBytes == old(bsi.bytePtr + bsi.nBytes) && bsi.buf == old(bsi.buf)
    ensures ShortRead(Rows(s), old(bsi.Stream()), old(bsi.Pos()), from, to, slen)
    ensures Rows(s)[..from] == old(Rows(s)[..from]) && Rows(s)[to..] == old(Rows(s)[to..])
  {
    hide BitStreamInfo.Valid, BitStreamInfo.Stream, Field, Rows;
    var sfb := from;
    while sfb < to
      invariant from <= sfb <= to && bsi.Valid() && bsi.bytePtr + bsi.nBytes == old(bsi.bytePtr + bsi.nBytes)
      invariant bsi.buf == old(bsi.buf) && bsi.Stream() == old(bsi.Stream())
      invariant bsi.Pos() == old(bsi.Pos()) + 3 * (sfb - from) * slen && bsi.Pos() >= 0
      invariant ShortRead(Rows(s), old(bsi.Stream()), old(bsi.Pos()), from, sfb, slen)
      invariant Rows(s)[..from] == old(Rows(s)[..from]) && Rows(s)[sfb..] == old(Rows(s)[sfb..])
    {
      MulNext(3 * (sfb - from), slen);
      MulNext(3 * (sfb - from) + 1, slen);
      MulNext(3 * (sfb - from) + 2, slen);
      ReadBand(bsi, s, sfb, slen);
      sfb := sfb + 1;
    }
  }

  // ----- MPEG-1

  const SF_LEN_TAB: seq<(nat, nat)> := [
    (0, 0), (0, 1), (0, 2), (0, 3), (3, 0), (1, 1), (1, 2), (1, 3),
    (2, 1), (2, 2), (2, 3), (3, 1), (3, 2), (3, 3), (4, 2), (4, 3)]

  function Slen(sfCompress: nat): (r: (nat, nat))
    ensures r.0 <= 4 && r.1 <= 3
  {
    SF_LEN_TAB[sfCompress % 16]
  }

  /** The two rows of the standard's table: slen1 and slen2 by scalefac_compress. */
  lemma SlenRows(sfCompress: nat)
    requires sfCompress < 16
    ensures Slen(sfCompress).0 == [0, 0, 0, 0, 3, 1, 1, 1, 2, 2, 2, 3, 3, 3, 4, 4][sfCompress]
    ensures Slen(sfCompress).1 == [0, 1, 2, 3, 0, 1, 2, 3, 1, 2, 3, 1, 2, 3, 2, 3][sfCompress]
  {
  }

  /** The bits of a group of long bands of granule 1, or none when granule 0's factors are reused. */
  function GroupBits(copied: bool, bands: nat, slen: nat): nat {
    if copied then 0 else bands * slen
  }

  /** part2_length of ISO/IEC 11172-3, section 2.4.3.4. */
  function Part2LengthMpeg1(sis: SideInfoSub, scfsi: seq<nat>, gr: nat): nat
    requires |scfsi| == 4
  {
    var (slen1, slen2) := Slen(sis.sfCompress);
    if sis.blockType == 2 then
      if sis.mixedBlock != 0 then 17 * slen1 + 18 * slen2 else 18 * slen1 + 18 * slen2
    else if gr == 0 then 11 * slen1 + 10 * slen2
    else GroupBits(scfsi[0] != 0, 6, slen1) + GroupBits(scfsi[1] != 0, 5, slen1)
         + GroupBits(scfsi[2] != 0, 5, slen2) + GroupBits(scfsi[3] != 0, 5, slen2)
  }

  ghost predicate GroupRead(l: seq<int>, l0: seq<int>, b: seq<bool>, p: nat, from: nat, to: nat, slen: nat,
                            copied: bool) {
    && from <= to <= |l| && |l0| == |l|
    && if copied then l[from..to] == l0[from..to] else LongRead(l, b, p, from, to, slen)
  }

  /** Where each scale factor comes from. */
  ghost predicate FactorsMpeg1(l: seq<int>, s: seq<seq<int>>, l0: seq<int>, b: seq<bool>, p: nat, sis: SideInfoSub,
                               scfsi: seq<nat>, gr: nat)
    requires |l| == 23 && |s| == 13 && |scfsi| == 4
  {
    var (slen1, slen2) := Slen(sis.sfCompress);
    if sis.blockType == 2 then
      && s[12] == [0, 0, 0]
      && if sis.mixedBlock != 0 then
           && LongRead(l, b, p, 0, 8, slen1)
           && ShortRead(s, b, p + 8 * slen1, 3, 6, slen1)
           && ShortRead(s, b, p + 17 * slen1, 6, 12, slen2)
         else
           && ShortRead(s, b, p, 0, 6, slen1)
           && ShortRead(s, b, p + 18 * slen1, 6, 12, slen2)
    else if gr == 0 then
      && LongRead(l, b, p, 0, 11, slen1)
      && LongRead(l, b, p + 11 * slen1, 11, 21, slen2)
    else
      var p1 := p + GroupBits(scfsi[0] != 0, 6, slen1);
      var p2 := p1 + GroupBits(scfsi[1] != 0, 5, slen1);
      var p3 := p2 + GroupBits(scfsi[2] != 0, 5, slen2);
      && GroupRead(l, l0, b, p, 0, 6, slen1, scfsi[0] != 0)
      && GroupRead(l, l0, b, p1, 6, 11, slen1, scfsi[1] != 0)
      && GroupRead(l, l0, b, p2, 11, 16, slen2, scfsi[2] != 0)
      && GroupRead(l, l0, b, p3, 16, 21, slen2, scfsi[3] != 0)
      && l[21] == 0 && l[22] == 0
  }

  method CopyOrRead(bsi: BitStreamInfo, l: array<int>, l0: array<int>, from: nat, to: nat, slen: nat, copied: bool)
    requires bsi.Valid() && bsi.Pos() >= 0 && from <= to <= l.Length == l0.Length && slen < 32 && l != l0
    modifies bsi, l
    ensures bsi.Valid() && bsi.Stream() == old(bsi.Stream())
        && bsi.Pos() == old(bsi.Pos()) + GroupBits(copied, to - from, slen)
    ensures bsi.bytePtr + bsi.nBytes == old(bsi.bytePtr + bsi.nBytes) && bsi.buf == old(bsi.buf)
    ensures GroupRead(l[..], l0[..], old(bsi.Stream()), old(bsi.Pos()), from, to, slen, copied)
    ensures l[..from] == old(l[..from]) && l[to..] == old(l[to..])
  {
    hide BitStreamInfo.Valid, BitStreamInfo.Stream, LongRead;
    if copied {
      var sfb := from;
      while sfb < to
        invariant from <= sfb <= to
        invariant forall k | 0 <= k < l.Length :: l[k] == if from <= k < sfb then l0[k] else old(l[k])
        modifies l
      {
        l[sfb] := l0[sfb];
        sfb := sfb + 1;
      }
    } else {
      ReadLong(bsi, l, from, to, slen);
    }
  }

  /** Later writes behind a group do not disturb it. */
  lemma LongReadKept(l: seq<int>, m: seq<int>, b: seq<bool>, p: nat, from: nat, to: nat, slen: nat, upTo: nat)
    requires LongRead(l, b, p, from, to, slen) && to <= upTo <= |l| == |m| && l[..upTo] == m[..upTo]
    ensures LongRead(m, b, p, from, to, slen)
  {
    hide Field;
    forall k | from <= k < to ensures m[k] == Field(b, p + (k - from) * slen, slen) {
      assert m[k] == m[..upTo][k] == l[..upTo][k];
    }
  }

  lemma GroupKept(l: seq<int>, m: seq<int>, l0: seq<int>, b: seq<bool>, p: nat, from: nat, to: nat, slen: nat,
                  copied: bool, upTo: nat)
    requires GroupRead(l, l0, b, p, from, to, slen, copied) && to <= upTo <= |l| == |m| && l[..upTo] == m[..upTo]
    ensures GroupRead(m, l0, b, p, from, to, slen, copied)
  {
    hide LongRead;
    if copied {
      assert m[from..to] == m[..upTo][from..to] == l[..upTo][from..to] == l[from..to];
    } else {
      LongReadKept(l, m, b, p, from, to, slen, upTo);
    }
  }

  lemma ShortReadKept(s: seq<seq<int>>, t: seq<seq<int>>, b: seq<bool>, p: nat, from: nat, to: nat, slen: nat, upTo: nat)
    requires ShortRead(s, b, p, from, to, slen) && to <= upTo <= |s| == |t| && s[..upTo] == t[..upTo]
    ensures ShortRead(t, b, p, from, to, slen)
  {
    hide Field;
    forall k | from <= k < to ensures t[k] == s[k] {
      assert t[k] == t[..upTo][k] == s[..upTo][k];
    }
  }

  /** Granule 1 of a long block. */
  method UnpackGroups(bsi: BitStreamInfo, l: array<int>, l0: array<int>, slen1: nat, slen2: nat, scfsi: seq<nat>)
    requires bsi.Valid() && bsi.Pos() >= 0 && l.Length == l0.Length == 23 && l != l0
    requires slen1 < 32 && slen2 < 32 && |scfsi| == 4
    modifies bsi, l
    ensures bsi.Valid() && bsi.Stream() == old(bsi.Stream())
    ensures bsi.bytePtr + bsi.nBytes == old(bsi.bytePtr + bsi.nBytes) && bsi.buf == old(bsi.buf)
    ensures var p1 := old(bsi.Pos()) + GroupBits(scfsi[0] != 0, 6, slen1);
            var p2 := p1 + GroupBits(scfsi[1] != 0, 5, slen1);
            var p3 := p2 + GroupBits(scfsi[2] != 0, 5, slen2);
            var b := old(bsi.Stream());
            && bsi.Pos() == p3 + GroupBits(scfsi[3] != 0, 5, slen2)
            && GroupRead(l[..], l0[..], b, old(bsi.Pos()), 0, 6, slen1, scfsi[0] != 0)
            && GroupRead(l[..], l0[..], b, p1, 6, 11, slen1, scfsi[1] != 0)
            && GroupRead(l[..], l0[..], b, p2, 11, 16, slen2, scfsi[2] != 0)
            && GroupRead(l[..], l0[..], b, p3, 16, 21, slen2, scfsi[3] != 0)
            && l[21] == 0 && l[22] == 0
  {
    hide BitStreamInfo.Valid, BitStreamInfo.Stream, GroupRead, GroupBits;
    ghost var b, p := bsi.Stream(), bsi.Pos();
    CopyOrRead(bsi, l, l0, 0, 6, slen1, scfsi[0] != 0);
    ghost var l1, p1 := l[..], bsi.Pos();
    CopyOrRead(bsi, l, l0, 6, 11, slen1, scfsi[1] != 0);
    ghost var l2, p2 := l[..], bsi.Pos();
    CopyOrRead(bsi, l, l0, 11, 16, slen2, scfsi[2] != 0);
    ghost var l3, p3 := l[..], bsi.Pos();
    CopyOrRead(bsi, l, l0, 16, 21, slen2, scfsi[3] != 0);
    ghost var l4 := l[..];
    // bands without a transmitted factor
    l[21] := 0;
    l[22] := 0;
    GroupKept(l4, l[..], l0[..], b, p3, 16, 21, slen2, scfsi[3] != 0, 21);
    assert l3[..16] == l[..][..16];
    GroupKept(l3, l[..], l0[..], b, p2, 11, 16, slen2, scfsi[2] != 0, 16);
    assert l2[..11] == l3[..16][..11] == l[..][..11];
    GroupKept(l2, l[..], l0[..], b, p1, 6, 11, slen1, scfsi[1] != 0, 11);
    assert l1[..6] == l2[..11][..6] == l[..][..6];
    GroupKept(l1, l[..], l0[..], b, p, 0, 6, slen1, scfsi[0] != 0, 6);
  }

  /** The short bands of a pure or mixed short block. */
  method UnpackShortMpeg1(bsi: BitStreamInfo, s: array2<int>, first: nat, slen1: nat, slen2: nat)
    requires bsi.Valid() && bsi.Pos() >= 0 && s.Length0 == 13 && s.Length1 == 3 && first <= 6 && slen1 < 32 && slen2 < 32
    modifies bsi, s
    ensures bsi.Valid() && bsi.Stream() == old(bsi.Stream())
    ensures bsi.bytePtr + bsi.nBytes == old(bsi.bytePtr + bsi.nBytes) && bsi.buf == old(bsi.buf)
    ensures bsi.Pos() == old(bsi.Pos()) + 3 * (6 - first) * slen1 + 18 * slen2
    ensures ShortRead(Rows(s), old(bsi.Stream()), old(bsi.Pos()), first, 6, slen1)
    ensures old(bsi.Pos()) + 3 * (6 - first) * slen1 >= 0
    ensures ShortRead(Rows(s), old(bsi.Stream()), old(bsi.Pos()) + 3 * (6 - first) * slen1, 6, 12, slen2)
    ensures Rows(s)[12] == [0, 0, 0]
  {
    hide BitStreamInfo.Valid, BitStreamInfo.Stream, ShortRead;
    ghost var b, p := bsi.Stream(), bsi.Pos();
    ReadShort(bsi, s, first, 6, slen1);
    ghost var s1, p1 := Rows(s), bsi.Pos();
    ReadShort(bsi, s, 6, 12, slen2);
    ghost var s2 := Rows(s);
    ClearLastBand(s);
    ShortReadKept(s2, Rows(s), b, p1, 6, 12, slen2, 12);
    assert s1[..6] == s2[..6] == s2[..12][..6] == Rows(s)[..6];
    ShortReadKept(s1, Rows(s), b, p, first, 6, slen1, 6);
  }

  // the last band has no transmitted factors
  method ClearLastBand(s: array2<int>)
    requires s.Length0 == 13 && s.Length1 == 3
    modifies s
    ensures Rows(s)[..12] == old(Rows(s)[..12]) && Rows(s)[12] == [0, 0, 0]
  {
    s[12, 0], s[12, 1], s[12, 2] := 0, 0, 0;
  }

  method UnpackSFMPEG1(bsi: BitStreamInfo, sis: SideInfoSub, sfis: ScaleFactorInfoSub, scfsi: seq<nat>, gr: nat,
                       sfisGr0: ScaleFactorInfoSub)
    requires bsi.Valid() && bsi.Pos() >= 0 && sfis.Valid() && sfisGr0.Valid() && |scfsi| == 4
    requires gr != 0 ==> sfis.l != sfisGr0.l
    modifies bsi, sfis.l, sfis.s
    ensures bsi.Valid() && bsi.Stream() == old(bsi.Stream())
    ensures bsi.bytePtr + bsi.nBytes == old(bsi.bytePtr + bsi.nBytes) && bsi.buf == old(bsi.buf)
    ensures bsi.Pos() == old(bsi.Pos()) + Part2LengthMpeg1(sis, scfsi, gr)
    ensures FactorsMpeg1(sfis.l[..], Rows(sfis.s), sfisGr0.l[..], old(bsi.Stream()), old(bsi.Pos()), sis, scfsi, gr)
  {
    hide BitStreamInfo.Valid, BitStreamInfo.Stream, LongRead, ShortRead, GroupRead, GroupBits;
    var (slen0, slen1) := Slen(sis.sfCompress);
    ghost var b, p := bsi.Stream(), bsi.Pos();
    if sis.blockType == 2 {
      var sfb := 0;
      if sis.mixedBlock != 0 {
        ReadLong(bsi, sfis.l, 0, 8, slen0);
        sfb := 3;
      }
      UnpackShortMpeg1(bsi, sfis.s, sfb, slen0, slen1);
    } else if gr == 0 {
      ReadLong(bsi, sfis.l, 0, 11, slen0);
      ghost var l1 := sfis.l[..];
      ReadLong(bsi, sfis.l, 11, 21, slen1);
      LongReadKept(l1, sfis.l[..], b, p, 0, 11, slen0, 11);
    } else {
      UnpackGroups(bsi, sfis.l, sfisGr0.l, slen0, slen1, scfsi);
    }
  }

  // ----- MPEG-2 and 2.5

  /** Field widths of the four partitions, the row of the band-count tables, and the flag that
      goes with it. */
  datatype Partition = Partition(slen: seq<nat>, row: nat, preFlag: nat, intensityScale: nat)

  /** The decoder's partition; in the third row a mixed block moves its widths up by one. */
  function PartitionOf(sfCompress: nat, right: bool, mixed: bool): (r: Partition)
    requires sfCompress < 512
    ensures |r.slen| == 4 && r.row < 6 && forall i | 0 <= i < 4 :: r.slen[i] <= 5
  {
    var c := sfCompress;
    if !right then
      if c < 400 then Partition([(c / 16) / 5, (c / 16) % 5, (c % 16) / 4, c % 4], 0, 0, 0)
      else if c < 500 then Partition([((c - 400) / 4) / 5, ((c - 400) / 4) % 5, (c - 400) % 4, 0], 1, 0, 0)
      else
        var s0, s1 := (c - 500) / 3, (c - 500) % 3;
        Partition(if mixed then [s0, s0, s1, 0] else [s0, s1, 0, 0], 2, 1, 0)
    else
      var scale, h := c % 2, c / 2;
      if h < 180 then Partition([h / 36, (h % 36) / 6, (h % 36) % 6, 0], 3, 0, scale)
      else if h < 244 then Partition([((h - 180) % 64) / 16, ((h - 180) % 16) / 4, (h - 180) % 4, 0], 4, 0, scale)
      else Partition([(h - 244) / 3, (h - 244) % 3, 0, 0], 5, 0, scale)
  }

  /** What an encoder writes for the widths, by class: section 2.4.3.2 of ISO/IEC 13818-3. In the intensity
      channel the lowest bit is the intensity scale. */
  function Coded(w: seq<nat>, class_: nat, scale: nat): nat
    requires |w| == 4
  {
    if class_ == 0 then 80 * w[0] + 16 * w[1] + 4 * w[2] + w[3]
    else if class_ == 1 then 400 + 20 * w[0] + 4 * w[1] + w[2]
    else if class_ == 2 then 500 + 3 * w[0] + w[1]
    else if class_ == 3 then 2 * (36 * w[0] + 6 * w[1] + w[2]) + scale
    else if class_ == 4 then 2 * (180 + 16 * w[0] + 4 * w[1] + w[2]) + scale
    else 2 * (244 + 3 * w[0] + w[1]) + scale
  }

  /** First excluded width of each class and partition. */
  const WIDTH_ENDS: seq<seq<nat>> := [[5, 5, 4, 4], [5, 5, 4, 1], [4, 3, 1, 1], [5, 6, 6, 1], [4, 4, 4, 1], [4, 3, 1, 1]]

  predicate Codable(w: seq<nat>, class_: nat, scale: nat) {
    && |w| == 4 && class_ < 6 && (forall i | 0 <= i < 4 :: w[i] < WIDTH_ENDS[class_][i])
    && (if class_ < 3 then scale == 0 else scale < 2)
  }

  lemma CodedInRange(w: seq<nat>, class_: nat, scale: nat)
    requires Codable(w, class_, scale)
    ensures class_ == 0 ==> Coded(w, class_, scale) < 400
    ensures class_ == 1 ==> 400 <= Coded(w, class_, scale) < 500
    ensures class_ >= 2 ==> Coded(w, class_, scale) < 512
    ensures class_ == 3 ==> Coded(w, class_, scale) < 360
    ensures class_ == 4 ==> 360 <= Coded(w, class_, scale) < 488
    ensures class_ == 2 ==> Coded(w, class_, scale) >= 500
    ensures class_ == 5 ==> Coded(w, class_, scale) >= 488
  {
  }

  /** The decoder gets the widths back, but that a mixed block of the third class takes the first one twice. */
  lemma WidthsDecoded(w: seq<nat>, class_: nat, scale: nat, mixed: bool)
    requires Codable(w, class_, scale)
    ensures Coded(w, class_, scale) < 512
    ensures PartitionOf(Coded(w, class_, scale), class_ >= 3, mixed)
         == Partition(if class_ == 2 && mixed then [w[0], w[0], w[1], 0] else w, class_,
                      if class_ == 2 then 1 else 0, scale)
  {
    hide PartitionOf;
    CodedInRange(w, class_, scale);
    assert w == [w[0], w[1], w[2], w[3]];
    if class_ == 0 {
      Class0(w[0], w[1], w[2], w[3], mixed);
    } else if class_ == 1 {
      Class1(w[0], w[1], w[2], mixed);
    } else if class_ == 2 {
      Class2(w[0], w[1], mixed);
    } else if class_ == 3 {
      Class3(w[0], w[1], w[2], scale, mixed);
    } else if class_ == 4 {
      Class4(w[0], w[1], w[2], scale, mixed);
    } else {
      Class5(w[0], w[1], scale, mixed);
    }
  }

  lemma Class0(a: nat, b: nat, c: nat, d: nat, mixed: bool)
    requires a < 5 && b < 5 && c < 4 && d < 4
    ensures PartitionOf(80 * a + 16 * b + 4 * c + d, false, mixed) == Partition([a, b, c, d], 0, 0, 0)
  {
    DivUnique(80 * a + 16 * b + 4 * c + d, 5 * a + b, 16, 4 * c + d);
  }

  lemma Class1(a: nat, b: nat, c: nat, mixed: bool)
    requires a < 5 && b < 5 && c < 4
    ensures PartitionOf(400 + 20 * a + 4 * b + c, false, mixed) == Partition([a, b, c, 0], 1, 0, 0)
  {
    DivUnique(20 * a + 4 * b + c, 5 * a + b, 4, c);
  }

  lemma Class2(a: nat, b: nat, mixed: bool)
    requires a < 4 && b < 3
    ensures PartitionOf(500 + 3 * a + b, false, mixed) == Partition(if mixed then [a, a, b, 0] else [a, b, 0, 0], 2, 1, 0)
  {
  }

  lemma Class3(a: nat, b: nat, c: nat, scale: nat, mixed: bool)
    requires a < 5 && b < 6 && c < 6 && scale < 2
    ensures PartitionOf(2 * (36 * a + 6 * b + c) + scale, true, mixed) == Partition([a, b, c, 0], 3, 0, scale)
  {
    var h := 36 * a + 6 * b + c;
    DivUnique(2 * h + scale, h, 2, scale);
    DivUnique(h, a, 36, 6 * b + c);
  }

  lemma Class4(a: nat, b: nat, c: nat, scale: nat, mixed: bool)
    requires a < 4 && b < 4 && c < 4 && scale < 2
    ensures PartitionOf(2 * (180 + 16 * a + 4 * b + c) + scale, true, mixed) == Partition([a, b, c, 0], 4, 0, scale)
  {
    var h := 16 * a + 4 * b + c;
    DivUnique(2 * (180 + h) + scale, 180 + h, 2, scale);
    DivUnique(h, a, 16, 4 * b + c);
  }

  lemma Class5(a: nat, b: nat, scale: nat, mixed: bool)
    requires a < 4 && b < 3 && scale < 2
    ensures PartitionOf(2 * (244 + 3 * a + b) + scale, true, mixed) == Partition([a, b, 0, 0], 5, 0, scale)
  {
    var h := 244 + 3 * a + b;
    DivUnique(2 * h + scale, h, 2, scale);
  }

  function BlockColumn(sis: SideInfoSub): nat {
    if sis.blockType == 2 then (if sis.mixedBlock != 0 then 2 else 1) else 0
  }

  /** NRTab: bands per partition, short bands counted once for their three windows. */
  const NR_TAB: seq<seq<seq<nat>>> := [
    [[6, 5, 5, 5], [3, 3, 3, 3], [6, 3, 3, 3]],
    [[6, 5, 7, 3], [3, 3, 4, 2], [6, 3, 4, 2]],
    [[11, 10, 0, 0], [6, 6, 0, 0], [6, 3, 6, 0]],
    [[7, 7, 7, 0], [4, 4, 4, 0], [6, 5, 4, 0]],
    [[6, 6, 6, 3], [4, 3, 3, 2], [6, 4, 3, 2]],
    [[8, 8, 5, 0], [5, 4, 3, 0], [6, 6, 3, 0]]]

  /** nr_of_sfb of ISO/IEC 13818-3, section 2.4.3.2: factors per partition. */
  const NR_OF_SFB: seq<seq<seq<nat>>> := [
    [[6, 5, 5, 5], [9, 9, 9, 9], [6, 9, 9, 9]],
    [[6, 5, 7, 3], [9, 9, 12, 6], [6, 9, 12, 6]],
    [[11, 10, 0, 0], [18, 18, 0, 0], [15, 18, 0, 0]],
    [[7, 7, 7, 0], [12, 12, 12, 0], [6, 15, 12, 0]],
    [[6, 6, 6, 3], [12, 9, 9, 6], [6, 12, 9, 6]],
    [[8, 8, 5, 0], [15, 12, 9, 0], [6, 18, 9, 0]]]

  function Nr(row: nat, col: nat): (r: seq<nat>)
    requires row < 6 && col < 3
    ensures |r| == 4
  {
    NR_TAB[row][col]
  }

  /** part2 length by the standard: factors times their width, partition by partition. */
  function Part2LengthLsf(sis: SideInfoSub, right: bool): nat
    requires sis.sfCompress < 512
  {
    var p := PartitionOf(sis.sfCompress, right, false);
    Dot(NR_OF_SFB[p.row][BlockColumn(sis)], p.slen)
  }

  function Dot(n: seq<nat>, x: seq<nat>): nat
    requires |n| == |x| == 4
  {
    n[0] * x[0] + n[1] * x[1] + n[2] * x[2] + n[3] * x[3]
  }

  // Bands and bits of the partitions first .. j - 1, each band worth `per` fields.

  function BandsBefore(nr: seq<nat>, first: nat, j: nat): nat
    requires first <= j <= |nr|
    decreases j
  {
    if j == first then 0 else BandsBefore(nr, first, j - 1) + nr[j - 1]
  }

  function BitsBefore(nr: seq<nat>, slen: seq<nat>, per: nat, first: nat, j: nat): nat
    requires first <= j <= |nr| == |slen|
    decreases j
  {
    if j == first then 0 else BitsBefore(nr, slen, per, first, j - 1) + per * nr[j - 1] * slen[j - 1]
  }

  /** Partitions 0 .. n - 1 of a long block. */
  ghost predicate LongParts(l: seq<int>, b: seq<bool>, p: nat, nr: seq<nat>, slen: seq<nat>, n: nat)
    requires |nr| == |slen| && n <= |nr|
  {
    forall j | 0 <= j < n ::
      LongRead(l, b, p + BitsBefore(nr, slen, 1, 0, j), BandsBefore(nr, 0, j), BandsBefore(nr, 0, j + 1), slen[j])
  }

  /** Partitions first .. n - 1 of a short block, from band `base` on. */
  ghost predicate ShortParts(s: seq<seq<int>>, b: seq<bool>, p: nat, nr: seq<nat>, slen: seq<nat>, first: nat,
                             base: nat, n: nat)
    requires |nr| == |slen| && n <= |nr|
  {
    forall j | first <= j < n ::
      ShortRead(s, b, p + BitsBefore(nr, slen, 3, first, j), base + BandsBefore(nr, first, j), base + BandsBefore(nr,
          first, j + 1), slen[j])
  }

  lemma LongPartsKept(l: seq<int>, m: seq<int>, b: seq<bool>, p: nat, nr: seq<nat>, slen: seq<nat>, n: nat)
    requires |nr| == |slen| && n <= |nr| && LongParts(l, b, p, nr, slen, n)
    requires var k := BandsBefore(nr, 0, n); k <= |l| == |m| && l[..k] == m[..k]
    ensures LongParts(m, b, p, nr, slen, n)
  {
    hide LongRead, BandsBefore, BitsBefore;
    forall j | 0 <= j < n
      ensures LongRead(m, b, p + BitsBefore(nr, slen, 1, 0, j), BandsBefore(nr, 0, j), BandsBefore(nr, 0, j + 1), slen[j])
    {
      var q, from, to := p + BitsBefore(nr, slen, 1, 0, j), BandsBefore(nr, 0, j), BandsBefore(nr, 0, j + 1);
      BandsGrow(nr, 0, j + 1, n);
      assert LongRead(l, b, q, from, to, slen[j]);
      LongReadKept(l, m, b, q, from, to, slen[j], BandsBefore(nr, 0, n));
    }
  }

  lemma ShortPartsKept(s: seq<seq<int>>, t: seq<seq<int>>, b: seq<bool>, p: nat, nr: seq<nat>, slen: seq<nat>,
                       first: nat, base: nat, n: nat)
    requires |nr| == |slen| && first <= n <= |nr| && ShortParts(s, b, p, nr, slen, first, base, n)
    requires var k := base + BandsBefore(nr, first, n); k <= |s| == |t| && s[..k] == t[..k]
    ensures ShortParts(t, b, p, nr, slen, first, base, n)
  {
    hide ShortRead, BandsBefore, BitsBefore;
    forall j | first <= j < n
      ensures ShortRead(t, b, p + BitsBefore(nr, slen, 3, first, j), base + BandsBefore(nr, first, j),
          base + BandsBefore(nr, first, j + 1), slen[j])
    {
      var q, from, to := p + BitsBefore(nr, slen, 3, first, j), base + BandsBefore(nr, first, j),
          base + BandsBefore(nr, first, j + 1);
      BandsGrow(nr, first, j + 1, n);
      assert ShortRead(s, b, q, from, to, slen[j]);
      ShortReadKept(s, t, b, q, from, to, slen[j], base + BandsBefore(nr, first, n));
    }
  }

  method UnpackLongLsf(bsi: BitStreamInfo, l: array<int>, nr: seq<nat>, slen: seq<nat>)
    requires bsi.Valid() && bsi.Pos() >= 0 && l.Length == 23 && |nr| == |slen| == 4
    requires (forall i | 0 <= i < 4 :: slen[i] < 32) && BandsBefore(nr, 0, 4) == 21
    modifies bsi, l
    ensures bsi.Valid() && bsi.Stream() == old(bsi.Stream())
    ensures bsi.bytePtr + bsi.nBytes == old(bsi.bytePtr + bsi.nBytes) && bsi.buf == old(bsi.buf)
    ensures bsi.Pos() == old(bsi.Pos()) + BitsBefore(nr, slen, 1, 0, 4)
    ensures LongParts(l[..], old(bsi.Stream()), old(bsi.Pos()), nr, slen, 4)
    ensures l[21] == 0 && l[22] == 0
  {
    hide BitStreamInfo.Valid, BitStreamInfo.Stream, LongRead, LongParts;
    ghost var b, p := bsi.Stream(), bsi.Pos();
    NoLongParts(l[..], b, p, nr, slen);
    var sfb, nrIdx := 0, 0;
    while nrIdx <= 3
      invariant 0 <= nrIdx <= 4 && sfb == BandsBefore(nr, 0, nrIdx) <= 21
      invariant bsi.Valid() && bsi.Stream() == b
      invariant bsi.bytePtr + bsi.nBytes == old(bsi.bytePtr + bsi.nBytes) && bsi.buf == old(bsi.buf)
      invariant bsi.Pos() == p + BitsBefore(nr, slen, 1, 0, nrIdx)
      invariant LongParts(l[..], b, p, nr, slen, nrIdx)
    {
      BandsGrow(nr, 0, nrIdx + 1, 4);
      ghost var was := l[..];
      ReadLong(bsi, l, sfb, sfb + nr[nrIdx], slen[nrIdx]);
      LongPartsKept(was, l[..], b, p, nr, slen, nrIdx);
      OneMoreLongPart(l[..], b, p, nr, slen, nrIdx);
      sfb := sfb + nr[nrIdx];
      nrIdx := nrIdx + 1;
    }
    ghost var was := l[..];
    // bands without a transmitted factor
    l[21] := 0;
    l[22] := 0;
    LongPartsKept(was, l[..], b, p, nr, slen, 4);
  }

  lemma NoLongParts(l: seq<int>, b: seq<bool>, p: nat, nr: seq<nat>, slen: seq<nat>)
    requires |nr| == |slen|
    ensures LongParts(l, b, p, nr, slen, 0)
  {
  }

  lemma OneMoreLongPart(l: seq<int>, b: seq<bool>, p: nat, nr: seq<nat>, slen: seq<nat>, n: nat)
    requires |nr| == |slen| && n < |nr| && LongParts(l, b, p, nr, slen, n)
    requires LongRead(l, b, p + BitsBefore(nr, slen, 1, 0, n), BandsBefore(nr, 0, n), BandsBefore(nr, 0, n + 1), slen[n])
    ensures LongParts(l, b, p, nr, slen, n + 1)
  {
    hide LongRead, BitsBefore, BandsBefore;
  }

  method UnpackShortLsf(bsi: BitStreamInfo, s: array2<int>, nr: seq<nat>, slen: seq<nat>, first: nat, base: nat)
    requires bsi.Valid() && bsi.Pos() >= 0 && s.Length0 == 13 && s.Length1 == 3 && |nr| == |slen| == 4 && first <= 1
    requires (forall i | 0 <= i < 4 :: slen[i] < 32) && base + BandsBefore(nr, first, 4) == 12
    modifies bsi, s
    ensures bsi.Valid() && bsi.Stream() == old(bsi.Stream())
    ensures bsi.bytePtr + bsi.nBytes == old(bsi.bytePtr + bsi.nBytes) && bsi.buf == old(bsi.buf)
    ensures bsi.Pos() == old(bsi.Pos()) + BitsBefore(nr, slen, 3, first, 4)
    ensures ShortParts(Rows(s), old(bsi.Stream()), old(bsi.Pos()), nr, slen, first, base, 4)
    ensures Rows(s)[12] == [0, 0, 0]
  {
    hide BitStreamInfo.Valid, BitStreamInfo.Stream, ShortRead, ShortParts;
    ghost var b, p := bsi.Stream(), bsi.Pos();
    NoShortParts(Rows(s), b, p, nr, slen, first, base);
    var sfb, nrIdx := base, first;
    while nrIdx <= 3
      invariant first <= nrIdx <= 4 && sfb == base + BandsBefore(nr, first, nrIdx) <= 12
      invariant bsi.Valid() && bsi.Stream() == b
      invariant bsi.bytePtr + bsi.nBytes == old(bsi.bytePtr + bsi.nBytes) && bsi.buf == old(bsi.buf)
      invariant bsi.Pos() == p + BitsBefore(nr, slen, 3, first, nrIdx)
      invariant ShortParts(Rows(s), b, p, nr, slen, first, base, nrIdx)
    {
      BandsGrow(nr, first, nrIdx + 1, 4);
      ghost var was := Rows(s);
      ReadShort(bsi, s, sfb, sfb + nr[nrIdx], slen[nrIdx]);
      ShortPartsKept(was, Rows(s), b, p, nr, slen, first, base, nrIdx);
      OneMoreShortPart(Rows(s), b, p, nr, slen, first, base, nrIdx);
      sfb := sfb + nr[nrIdx];
      nrIdx := nrIdx + 1;
    }
    ghost var was := Rows(s);
    ClearLastBand(s);
    ShortPartsKept(was, Rows(s), b, p, nr, slen, first, base, 4);
  }

  lemma NoShortParts(s: seq<seq<int>>, b: seq<bool>, p: nat, nr: seq<nat>, slen: seq<nat>, first: nat, base: nat)
    requires |nr| == |slen| && first <= |nr|
    ensures ShortParts(s, b, p, nr, slen, first, base, first)
  {
  }

  lemma OneMoreShortPart(s: seq<seq<int>>, b: seq<bool>, p: nat, nr: seq<nat>, slen: seq<nat>, first: nat, base: nat,
                         n: nat)
    requires |nr| == |slen| && first <= n < |nr| && ShortParts(s, b, p, nr, slen, first, base, n)
    requires ShortRead(s, b, p + BitsBefore(nr, slen, 3, first, n), base + BandsBefore(nr, first, n),
        base + BandsBefore(nr, first, n + 1), slen[n])
    ensures ShortParts(s, b, p, nr, slen, first, base, n + 1)
  {
    hide ShortRead, BitsBefore, BandsBefore;
  }

  lemma {:induction false} BandsGrow(nr: seq<nat>, first: nat, i: nat, j: nat)
    requires first <= i <= j <= |nr|
    ensures BandsBefore(nr, first, i) <= BandsBefore(nr, first, j)
    decreases j
  {
    if i < j {
      BandsGrow(nr, first, i, j - 1);
    }
  }

  /** The tables count 21 long or 12 short bands. */
  lemma BandCounts(row: nat, col: nat)
    requires row < 6 && col < 3
    ensures col == 0 ==> BandsBefore(Nr(row, col), 0, 4) == 21
    ensures col == 1 ==> BandsBefore(Nr(row, col), 0, 4) == 12
    ensures col == 2 ==> 3 + BandsBefore(Nr(row, col), 1, 4) == 12
  {
    var nr := Nr(row, col);
    BandsSum(nr, 0);
    BandsSum(nr, 1);
  }

  lemma BandsSum(nr: seq<nat>, first: nat)
    requires |nr| == 4 && first <= 1
    ensures BandsBefore(nr, first, 4) == (if first == 0 then nr[0] else 0) + nr[1] + nr[2] + nr[3]
  {
    assert BandsBefore(nr, first, 4) == BandsBefore(nr, first, 3) + nr[3];
    assert BandsBefore(nr, first, 3) == BandsBefore(nr, first, 2) + nr[2];
    assert BandsBefore(nr, first, 2) == BandsBefore(nr, first, 1) + nr[1];
  }

  lemma BitsSum(nr: seq<nat>, slen: seq<nat>, per: nat, first: nat)
    requires |nr| == |slen| == 4 && first <= 1
    ensures BitsBefore(nr, slen, per, first, 4)
         == (if first == 0 then per * nr[0] * slen[0] else 0) + per * nr[1] * slen[1] + per * nr[2] * slen[2] + per * nr[3] * slen[3]
  {
    assert BitsBefore(nr, slen, per, first, 4) == BitsBefore(nr, slen, per, first, 3) + per * nr[3] * slen[3];
    assert BitsBefore(nr, slen, per, first, 3) == BitsBefore(nr, slen, per, first, 2) + per * nr[2] * slen[2];
    assert BitsBefore(nr, slen, per, first, 2) == BitsBefore(nr, slen, per, first, 1) + per * nr[1] * slen[1];
  }

  /** The bits that the decoder's tables make it read. */
  function TableBits(sis: SideInfoSub, right: bool): nat
    requires sis.sfCompress < 512
  {
    var p, col := PartitionOf(sis.sfCompress, right, sis.mixedBlock != 0), BlockColumn(sis);
    var nr := Nr(p.row, col);
    if col == 0 then BitsBefore(nr, p.slen, 1, 0, 4)
    else if col == 1 then BitsBefore(nr, p.slen, 3, 0, 4)
    else 6 * p.slen[0] + BitsBefore(nr, p.slen, 3, 1, 4)
  }

  /** NR_TAB against NR_OF_SFB: three fields to a short band, six long bands first in a mixed block. */
  lemma TablesAgree(row: nat, col: nat)
    requires row < 6 && col < 3
    ensures var n, m := Nr(row, col), NR_OF_SFB[row][col];
            if col == 0 then n == m
            else if col == 1 then m == [3 * n[0], 3 * n[1], 3 * n[2], 3 * n[3]]
            else if row == 2 then n == [6, 3, 6, 0] && m == [15, 18, 0, 0]
            else m == [6, 3 * n[1], 3 * n[2], 3 * n[3]]
    ensures row == 2 && col == 0 ==> Nr(row, col) == [11, 10, 0, 0]
  {
  }

  lemma MixedOnlyMovesRow2(c: nat, right: bool, mixed: bool)
    requires c < 512
    ensures var p, q := PartitionOf(c, right, mixed), PartitionOf(c, right, false);
            && p.row == q.row && (p.row != 2 || !mixed ==> p == q)
            && (p.row == 2 <==> !right && c >= 500)
            && (p.row == 2 ==> q.slen == [(c - 500) / 3, (c - 500) % 3, 0, 0])
            && (p.row == 2 && mixed ==> p.slen == [(c - 500) / 3, (c - 500) / 3, (c - 500) % 3, 0])
  {
  }

  lemma LongDot(n: seq<nat>, x: seq<nat>)
    requires |n| == |x| == 4
    ensures BitsBefore(n, x, 1, 0, 4) == Dot(n, x)
  {
    BitsSum(n, x, 1, 0);
  }

  lemma ShortDot(n: seq<nat>, x: seq<nat>)
    requires |n| == |x| == 4
    ensures BitsBefore(n, x, 3, 0, 4) == Dot([3 * n[0], 3 * n[1], 3 * n[2], 3 * n[3]], x)
  {
    BitsSum(n, x, 3, 0);
  }

  lemma MixedDot(n: seq<nat>, x: seq<nat>)
    requires |n| == |x| == 4
    ensures 6 * x[0] + BitsBefore(n, x, 3, 1, 4) == Dot([6, 3 * n[1], 3 * n[2], 3 * n[3]], x)
  {
    BitsSum(n, x, 3, 1);
  }

  /** A start or stop block that carries the mixed flag: its widths are moved although its bands
      are those of a long block. */
  predicate MisreadsWidths(sis: SideInfoSub, right: bool) {
    && !right && sis.mixedBlock != 0 && sis.blockType != 2 && sis.sfCompress >= 500
    && (sis.sfCompress - 500) / 3 != (sis.sfCompress - 500) % 3
  }

  /** The decoder reads the part2 length of the standard on exactly the other blocks. */
  lemma TableBitsIsPart2Length(sis: SideInfoSub, right: bool)
    requires sis.sfCompress < 512
    ensures TableBits(sis, right) == Part2LengthLsf(sis, right) <==> !MisreadsWidths(sis, right)
  {
    hide PartitionOf, Nr, BitsBefore, Dot;
    var mixed, col := sis.mixedBlock != 0, BlockColumn(sis);
    var p, q := PartitionOf(sis.sfCompress, right, mixed), PartitionOf(sis.sfCompress, right, false);
    MixedOnlyMovesRow2(sis.sfCompress, right, mixed);
    TablesAgree(p.row, col);
    var n := Nr(p.row, col);
    if col == 0 {
      LongDot(n, p.slen);
    } else if col == 1 {
      ShortDot(n, p.slen);
    } else {
      MixedDot(n, p.slen);
    }
    if p.row == 2 && mixed {
      Row2Dot(n, p.slen, q.slen, col);
    }
  }

  /** Such a block: a start block with the mixed flag and the class code 501, whose widths are 0 and 1. */
  lemma MisreadBlock(sis: SideInfoSub)
    requires sis.sfCompress == 501 && sis.blockType == 1 && sis.mixedBlock == 1
    ensures TableBits(sis, false) == 0 && Part2LengthLsf(sis, false) == 10
  {
  }

  lemma Row2Dot(n: seq<nat>, x: seq<nat>, y: seq<nat>, col: nat)
    requires |x| == |y| == 4 && x == [y[0], y[0], y[1], 0] && y[2] == y[3] == 0
    ensures Dot([11, 10, 0, 0], x) == Dot([11, 10, 0, 0], y) <==> y[0] == y[1]
    ensures Dot([6, 9, 18, 0], x) == Dot([15, 18, 0, 0], y)
  {
  }

  /** Kept for intensity stereo. */
  datatype ScaleFactorJS = ScaleFactorJS(intensityScale: nat, slen: seq<nat>, nr: seq<nat>)

  /** The flag that adds the preemphasis table: read in MPEG-1, and implied by the partition later. */
  function PreFlagOf(sis: SideInfoSub, mpeg1: bool, right: bool): nat {
    if mpeg1 then sis.preFlag else if !right && sis.sfCompress >= 500 then 1 else 0
  }

  /** What is kept for intensity stereo: the partition of an MPEG-2 right channel, or what was kept before. */
  function JointOf(sis: SideInfoSub, mpeg1: bool, right: bool, js: ScaleFactorJS): ScaleFactorJS
    requires sis.sfCompress < 512
  {
    if mpeg1 || !right then js else
    var part := PartitionOf(sis.sfCompress, right, sis.mixedBlock != 0);
    ScaleFactorJS(part.intensityScale, part.slen, Nr(part.row, BlockColumn(sis)))
  }

  /** Where each MPEG-2 scale factor comes from. */
  ghost predicate FactorsLsf(l: seq<int>, s: seq<seq<int>>, b: seq<bool>, p: nat, sis: SideInfoSub, right: bool)
    requires |l| == 23 && |s| == 13 && sis.sfCompress < 512
  {
    var part, col := PartitionOf(sis.sfCompress, right, sis.mixedBlock != 0), BlockColumn(sis);
    var nr, slen := Nr(part.row, col), part.slen;
    if col == 0 then
      LongParts(l, b, p, nr, slen, 4) && l[21] == 0 && l[22] == 0
    else
      && s[12] == [0, 0, 0]
      && if col == 1 then ShortParts(s, b, p, nr, slen, 0, 0, 4)
         else LongRead(l, b, p, 0, 6, slen[0]) && ShortParts(s, b, p + 6 * slen[0], nr, slen, 1, 3, 4)
  }

  /** right: intensity stereo is on and this is the right channel. */
  method UnpackSFMPEG2(bsi: BitStreamInfo, sis: SideInfoSub, sfis: ScaleFactorInfoSub, right: bool, js: ScaleFactorJS)
    returns (preFlag: nat, sfjs: ScaleFactorJS)
    requires bsi.Valid() && bsi.Pos() >= 0 && sfis.Valid() && sis.sfCompress < 512
    modifies bsi, sfis.l, sfis.s
    ensures bsi.Valid() && bsi.Stream() == old(bsi.Stream())
    ensures bsi.bytePtr + bsi.nBytes == old(bsi.bytePtr + bsi.nBytes) && bsi.buf == old(bsi.buf)
    ensures bsi.Pos() == old(bsi.Pos()) + TableBits(sis, right)
    ensures FactorsLsf(sfis.l[..], Rows(sfis.s), old(bsi.Stream()), old(bsi.Pos()), sis, right)
    ensures preFlag == PreFlagOf(sis, false, right) && sfjs == JointOf(sis, false, right, js)
  {
    hide BitStreamInfo.Valid, BitStreamInfo.Stream, LongRead, LongParts, ShortParts, BitsBefore, BandsBefore, Nr;
    var part := PartitionOf(sis.sfCompress, right, sis.mixedBlock != 0);
    var nr := Nr(part.row, BlockColumn(sis));
    BandCounts(part.row, BlockColumn(sis));
    sfjs := if right then ScaleFactorJS(part.intensityScale, part.slen, nr) else js;
    preFlag := part.preFlag;
    if sis.blockType == 2 {
      var sfb, nrIdx := 0, 0;
      if sis.mixedBlock != 0 {
        ReadLong(bsi, sfis.l, 0, 6, part.slen[0]);
        sfb, nrIdx := 3, 1;
      }
      UnpackShortLsf(bsi, sfis.s, nr, part.slen, nrIdx, sfb);
    } else {
      UnpackLongLsf(bsi, sfis.l, nr, part.slen);
    }
  }

  // ----- all versions

  /** The bits the scale factor stage takes. */
  function Part2Length(sis: SideInfoSub, mpeg1: bool, scfsi: seq<nat>, gr: nat, right: bool): nat
    requires |scfsi| == 4 && sis.sfCompress < 512
  {
    if mpeg1 then Part2LengthMpeg1(sis, scfsi, gr) else TableBits(sis, right)
  }

  ghost predicate Factors(l: seq<int>, s: seq<seq<int>>, l0: seq<int>, b: seq<bool>, p: nat, sis: SideInfoSub,
                          mpeg1: bool, scfsi: seq<nat>, gr: nat, right: bool)
    requires |scfsi| == 4 && sis.sfCompress < 512
  {
    && |l| == 23 && |s| == 13
    && if mpeg1 then FactorsMpeg1(l, s, l0, b, p, sis, scfsi, gr) else FactorsLsf(l, s, b, p, sis, right)
  }

  method UnpackByVersion(bsi: BitStreamInfo, sis: SideInfoSub, mpeg1: bool, scfsi: seq<nat>, gr: nat, right: bool,
                         sfis: ScaleFactorInfoSub, sfisGr0: ScaleFactorInfoSub, js: ScaleFactorJS)
    returns (preFlag: nat, sfjs: ScaleFactorJS)
    requires bsi.Valid() && bsi.Pos() >= 0 && sfis.Valid() && sfisGr0.Valid() && |scfsi| == 4 && sis.sfCompress < 512
    requires gr != 0 ==> sfis.l != sfisGr0.l
    modifies bsi, sfis.l, sfis.s
    ensures bsi.Valid() && bsi.Pos() == old(bsi.Pos()) + Part2Length(sis, mpeg1, scfsi, gr, right)
    ensures Factors(sfis.l[..], Rows(sfis.s), sfisGr0.l[..], old(bsi.Stream()), old(bsi.Pos()), sis, mpeg1, scfsi, gr,
                    right)
    ensures preFlag == PreFlagOf(sis, mpeg1, right) && sfjs == JointOf(sis, mpeg1, right, js)
  {
    hide BitStreamInfo.Valid, BitStreamInfo.Stream, FactorsMpeg1, FactorsLsf, Part2LengthMpeg1, TableBits,
        PartitionOf, Nr;
    sfjs, preFlag := js, sis.preFlag;
    if mpeg1 {
      UnpackSFMPEG1(bsi, sis, sfis, scfsi, gr, sfisGr0);
    } else {
      preFlag, sfjs := UnpackSFMPEG2(bsi, sis, sfis, right, js);
    }
  }

  /** Unpack the scale factors from bit bitOffset of buf[start]. r is the number of bytes the
      pointer moves, off the new bit offset. */
  method UnpackScaleFactors(buf: seq<Byte>, start: nat, bitOffset: nat, bitsAvail: nat, sis: SideInfoSub, mpeg1: bool,
                            scfsi: seq<nat>, gr: nat, right: bool, sfis: ScaleFactorInfoSub, sfisGr0: ScaleFactorInfoSub,
                            js: ScaleFactorJS)
    returns (r: nat, off: nat, preFlag: nat, sfjs: ScaleFactorJS)
    requires bitOffset < 8 && start + (bitsAvail + bitOffset + 7) / 8 <= |buf|
    requires sfis.Valid() && sfisGr0.Valid() && |scfsi| == 4 && sis.sfCompress < 512
    requires gr != 0 ==> sfis.l != sfisGr0.l
    modifies sfis.l, sfis.s
    ensures off < 8 && 8 * r + off == bitOffset + Part2Length(sis, mpeg1, scfsi, gr, right)
    ensures Factors(sfis.l[..], Rows(sfis.s), sfisGr0.l[..],
                    BitsOf(buf[start..], 0, 8 * ((bitsAvail + bitOffset + 7) / 8)), bitOffset,
                    sis, mpeg1, scfsi, gr, right)
    ensures preFlag == PreFlagOf(sis, mpeg1, right) && sfjs == JointOf(sis, mpeg1, right, js)
  {
    hide BitStreamInfo.Valid, BitStreamInfo.Stream, Factors, Part2Length, BitsOf, Field, PreFlagOf, JointOf, Rows;
    var bsi := new BitStreamInfo.SetBitstreamPointer((bitsAvail + bitOffset + 7) / 8, buf, start);
    if bitOffset != 0 {
      var skipped := bsi.GetBits(bitOffset);
    }
    preFlag, sfjs := UnpackByVersion(bsi, sis, mpeg1, scfsi, gr, right, sfis, sfisGr0, js);
    var bitsUsed := bsi.CalcBitsUsed(bitOffset);
    r := (bitsUsed + bitOffset) / 8;
    off := (bitsUsed + bitOffset) % 8;
  }
}
