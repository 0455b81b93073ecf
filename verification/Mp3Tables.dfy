/** Frame parameters, side information and the tables of mp3tabs.c that the front end needs. */
module Mp3Tables {

  datatype Version = MPEG1 | MPEG2 | MPEG25

  const MAX_NSAMP: nat := 576
  const NBANDS: nat := 32

  /** The fields of one granule and channel in the side information. */
  datatype SideInfoSub = SideInfoSub(
    part23Length: nat, nBigvals: nat, globalGain: nat, sfCompress: nat, winSwitchFlag: nat,
    blockType: nat, mixedBlock: nat, tableSelect: seq<nat>, subBlockGain: seq<nat>,
    region0Count: nat, region1Count: nat, preFlag: nat, sfactScale: nat, count1TableSelect: nat)

  /** First bin of each critical band: n increasing even numbers from 0 to `end`. */
  predicate IsBands(s: seq<nat>, n: nat, end: nat) {
    && |s| == n && n > 0 && s[0] == 0 && s[n - 1] == end
    && (forall i {:trigger s[i]} | 0 < i < n :: s[i - 1] < s[i] && s[i] % 2 == 0)
  }

  type LongBands = s: seq<nat> | IsBands(s, 23, 576)
    witness [0,4,8,12,16,20,24,30] + [36,44,52,62,74,90,110,134] + [162,196,238,288,342,418,576]

  type ShortBands = s: seq<nat> | IsBands(s, 14, 192)
    witness [0,4,8,12,16,22,30,40,52,66,84,106,136,192]

  datatype SfBand = SfBand(l: LongBands, s: ShortBands)

  const L_44: LongBands := [0,4,8,12,16,20,24,30] + [36,44,52,62,74,90,110,134] + [162,196,238,288,342,418,576]
  const L_48: LongBands := [0,4,8,12,16,20,24,30] + [36,42,50,60,72,88,106,128] + [156,190,230,276,330,384,576]
  const L_32: LongBands := [0,4,8,12,16,20,24,30] + [36,44,54,66,82,102,126,156] + [194,240,296,364,448,550,576]
  const L_22: LongBands := [0,6,12,18,24,30,36,44] + [54,66,80,96,116,140,168,200] + [238,284,336,396,464,522,576]
  const L_24: LongBands := [0,6,12,18,24,30,36,44] + [54,66,80,96,114,136,162,194] + [232,278,332,394,464,540,576]
  const L_8: LongBands := [0,12,24,36,48,60,72,88] + [108,132,160,192,232,280,336,400] + [476,566,568,570,572,574,576]
  const S_44: ShortBands := [0,4,8,12,16,22,30,40,52,66,84,106,136,192]
  const S_48: ShortBands := [0,4,8,12,16,22,28,38,50,64,80,100,126,192]
  const S_32: ShortBands := [0,4,8,12,16,22,30,42,58,78,104,138,180,192]
  const S_22: ShortBands := [0,4,8,12,18,24,32,42,56,74,100,132,174,192]
  const S_24: ShortBands := [0,4,8,12,18,26,36,48,62,80,104,136,180,192]
  const S_16: ShortBands := [0,4,8,12,18,26,36,48,62,80,104,134,174,192]
  const S_8: ShortBands := [0,8,16,24,36,52,72,96,124,160,162,164,166,192]

  /** Indexed by version and sample rate index. */
  type BandTable = t: seq<seq<SfBand>> | |t| == 3 && forall v | 0 <= v < 3 :: |t[v]| == 3
    witness [[SfBand(L_44, S_44), SfBand(L_44, S_44), SfBand(L_44, S_44)],
             [SfBand(L_44, S_44), SfBand(L_44, S_44), SfBand(L_44, S_44)],
             [SfBand(L_44, S_44), SfBand(L_44, S_44), SfBand(L_44, S_44)]]

  const SF_BAND_TABLE: BandTable := [
    [SfBand(L_44, S_44), SfBand(L_48, S_48), SfBand(L_32, S_32)],
    [SfBand(L_22, S_22), SfBand(L_24, S_24), SfBand(L_22, S_16)],
    [SfBand(L_22, S_16), SfBand(L_22, S_16), SfBand(L_8, S_8)]]

  function SfBands(t: BandTable, v: Version, sr: nat): SfBand
    requires sr < 3
  {
    t[match v case MPEG1 => 0 case MPEG2 => 1 case MPEG25 => 2][sr]
  }

  lemma {:induction false} BandsClimb(s: seq<nat>, n: nat, end: nat, i: nat, j: nat)
    requires IsBands(s, n, end) && i < j < n
    ensures s[i] < s[j] <= end
    decreases n - i
  {
    if j < n - 1 {
      BandsClimb(s, n, end, j, n - 1);
    }
    if i + 1 < j {
      BandsClimb(s, n, end, i + 1, j);
    }
  }

  // ----- shared by the stages

  function Min(a: int, b: int): int {
    if a < b then a else b
  }

  function Max(a: int, b: int): int {
    if a > b then a else b
  }

  /** The samples from the bound on are zero. */
  ghost predicate ZeroFrom(x: seq<int>, bound: nat) {
    forall i | bound <= i < |x| :: x[i] == 0
  }
}
