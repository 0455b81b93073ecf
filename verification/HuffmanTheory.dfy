/** The schedule of the table-driven decoder against the bit-by-bit tree walk. */
module HuffmanTheory {
  import opened Bits
  import opened HuffmanSpec

  /** What one table lookup at position p says about the walk from node t. */
  function WalkByLookup(T: seq<int>, t: nat, b: seq<bool>, p: nat): Option<(int, nat)>
    requires NodeInRange(T, t)
  {
    var m := MaxBits(T[t]);
    var e := Entry(T, t, Window(b, p, m));
    if HLen(e) > 0 then
      if p + HLen(e) <= |b| then Some((e, p + HLen(e))) else None
    else
      if p + m <= |b| && e > 0 then Walk(T, t + e, [], b, p + m) else None
  }

  lemma EntryOfPadded(T: seq<int>, t: nat, q: seq<bool>)
    requires NodeInRange(T, t) && |q| <= MaxBits(T[t])
    ensures Entry(T, t, q + Zeros(MaxBits(T[t]) - |q|)) == Entry(T, t, q)
  {
    hide Value;
    var w := q + Zeros(MaxBits(T[t]) - |q|);
    assert w + Zeros(0) == w;
  }

  /** After k of its bits the walk has not yet met the leaf that the lookup finds. */
  lemma LeafDepth(tab: Table, t: nat, w: seq<bool>, k: nat)
    requires NodeOk(tab, t) && |w| == MaxBits(tab.words[t]) && 0 < k <= |w|
    ensures HLen(Entry(tab.words, t, w)) == k <==> HLen(Entry(tab.words, t, w[..k])) == k
    ensures HLen(Entry(tab.words, t, w)) == k ==> Entry(tab.words, t, w[..k]) == Entry(tab.words, t, w)
  {
    var v := w[..k] + Zeros(|w| - k);
    EntryOfPadded(tab.words, t, w[..k]);
    assert v[..k] == w[..k];
    assert EntryOk(tab, t, w) && EntryOk(tab, t, v);
  }

  lemma WalkStep(T: seq<int>, t: nat, q: seq<bool>, b: seq<bool>, p: nat)
    requires NodeInRange(T, t) && |q| <= MaxBits(T[t])
    ensures Walk(T, t, q, b, p) ==
            if |q| > 0 && HLen(Entry(T, t, q)) == |q| then Some((Entry(T, t, q), p))
            else if |q| == MaxBits(T[t]) then
              if HLen(Entry(T, t, q)) == 0 && Entry(T, t, q) > 0 then Walk(T, t + Entry(T, t, q), [], b, p) else None
            else if p >= |b| then None
            else Walk(T, t, q + [b[p]], b, p + 1)
  {
  }

  /** Looking up maxBits bits at once agrees with walking one bit at a time. */
  lemma {:induction false} LookupIsWalk(tab: Table, t: nat, b: seq<bool>, p: nat, w: seq<bool>, k: nat)
    requires NodeOk(tab, t) && p + k <= |b| && k <= |w|
    requires w == Window(b, p, MaxBits(tab.words[t]))
    requires HLen(Entry(tab.words, t, w)) == 0 || k <= HLen(Entry(tab.words, t, w))
    ensures Walk(tab.words, t, w[..k], b, p + k) == WalkByLookup(tab.words, t, b, p)
    decreases |w| - k
  {
    hide Value, Entry;
    var q := w[..k];
    assert EntryOk(tab, t, w);
    WalkStep(tab.words, t, q, b, p + k);
    if k > 0 {
      LeafDepth(tab, t, w, k);
    }
    if k > 0 && HLen(Entry(tab.words, t, w)) == k {
    } else if k == |w| {
      assert q == w;
    } else if p + k < |b| {
      assert q + [b[p + k]] == w[..k + 1];
      LookupIsWalk(tab, t, b, p, w, k + 1);
    }
  }

  lemma WalkIsLookup(tab: Table, t: nat, b: seq<bool>, p: nat)
    requires NodeOk(tab, t) && p <= |b|
    ensures Walk(tab.words, t, [], b, p) == WalkByLookup(tab.words, t, b, p)
  {
    var w := Window(b, p, MaxBits(tab.words[t]));
    assert w[..0] == [];
    LookupIsWalk(tab, t, b, p, w, 0);
  }

  // ----- one leaf

  /** The cache holds only bits of the stream, and padding has not been extended. */
  predicate Ready(b: seq<bool>, cur: Cursor) {
    match cur.mode
    case Live(c) => 0 <= c <= |b| - cur.pos
    case Padded(end) => end == |b|
  }

  predicate Holds(cur: Cursor, n: int) {
    cur.mode.Live? ==> cur.mode.cached >= n
  }

  predicate Overrun(b: seq<bool>, r: Option<(int, Cursor)>) {
    r.None? || (r.value.1.mode == Padded(|b|) && r.value.1.pos > |b|)
  }

  lemma ScheduledValueMoves(tab: Table, b: seq<bool>, cur: Cursor, v: nat, extra: nat)
    requires cur.mode.Padded?
    ensures var r := ScheduledValue(tab, b, cur, v, extra);
            r.Some? ==> r.value.1.mode == cur.mode && r.value.1.pos >= cur.pos
  {
  }

  lemma ScheduledValueStaysReady(tab: Table, b: seq<bool>, cur: Cursor, v: nat, extra: nat)
    requires Ready(b, cur) && cur.mode.Live? && Holds(cur, extra + if v == 0 then 0 else 1)
    ensures var r := ScheduledValue(tab, b, cur, v, extra);
            r.Some? ==> r.value.1.mode.Live? && Ready(b, r.value.1) && Holds(r.value.1, extra)
  {
  }

  lemma ScheduledValueAgrees(tab: Table, b: seq<bool>, cur: Cursor, v: nat, extra: nat)
    requires v < 16 && extra <= 1 && tab.linBits <= 13
    requires Ready(b, cur) && cur.pos <= |b| && Holds(cur, extra + if v == 0 then 0 else 1)
    ensures match ReadValue(tab, b, cur.pos, v)
            case None => Overrun(b, ScheduledValue(tab, b, cur, v, extra))
            case Some((x, p)) =>
              match ScheduledValue(tab, b, cur, v, extra)
              case None => p + extra > |b|
              case Some((x1, c)) => x1 == x && c.pos == p <= |b| && Ready(b, c) && Holds(c, extra)
  {
    hide Value;
    if tab.kind == LoopLinbits && v == 15 && cur.pos + tab.linBits <= |b| {
      assert Window(b, cur.pos, tab.linBits) == b[cur.pos..cur.pos + tab.linBits];
    }
  }

  lemma ScheduledLeafAgrees(tab: Table, b: seq<bool>, cur: Cursor, e: int)
    requires tab.linBits <= 13 && Ready(b, cur) && cur.pos <= |b| && Holds(cur, 2)
    ensures match ReadLeaf(tab, b, cur.pos, e)
            case None => ScheduledLeaf(tab, b, cur, e).None?
            case Some((x, y, p)) =>
              match ScheduledLeaf(tab, b, cur, e)
              case None => false
              case Some((x1, y1, c)) => x1 == x && y1 == y && c.pos == p <= |b| && Ready(b, c)
  {
    var extra := if CWY(e) == 0 then 0 else 1;
    ScheduledValueAgrees(tab, b, cur, CWX(e), extra);
    match ScheduledValue(tab, b, cur, CWX(e), extra)
    case None =>
      match ReadValue(tab, b, cur.pos, CWX(e)) {
        case None =>
        case Some((x, p)) => assert ReadValue(tab, b, p, CWY(e)).None?;
      }
    case Some((x, c)) =>
      if c.pos <= |b| {
        ScheduledValueAgrees(tab, b, c, CWY(e), 0);
      } else {
        ScheduledValueMoves(tab, b, c, CWY(e), 0);
      }
  }

  // ----- the stream followed by zeros

  /** One magnitude read from the stream and the zeros behind it, and the position after it. */
  function PaddedValue(tab: Table, b: seq<bool>, p: nat, v: nat): (int, nat) {
    var (x, p1) :=
      if tab.kind == LoopLinbits && v == 15 then (v + Value(Window(b, p, tab.linBits)), p + tab.linBits) else (v, p);
    if x == 0 then (0, p1) else (SignWord(x, ZBit(b, p1)), p1 + 1)
  }

  function PaddedLeaf(tab: Table, b: seq<bool>, p: nat, e: int): (r: (int, int, nat))
    ensures r.2 >= p
  {
    var (x, p1) := PaddedValue(tab, b, p, CWX(e));
    var (y, p2) := PaddedValue(tab, b, p1, CWY(e));
    (x, y, p2)
  }

  /** count pairs, the first from node t, read from the stream and the zeros behind it. Codewords, escapes and
      signs must be complete at `end`; but a jump past the end moves it on by 11 bits. The result is the
      values, the position after them and the end by then. */
  function PaddedPairs(tab: Table, t: nat, b: seq<bool>, p: nat, end: nat, count: nat): Option<(seq<int>, nat, nat)>
    decreases count, |tab.words| - t
  {
    if count == 0 then Some(([], p, end))
    else if !NodeInRange(tab.words, t) then None
    else
      var m := MaxBits(tab.words[t]);
      var e := Entry(tab.words, t, Window(b, p, m));
      if HLen(e) == 0 then
        if e > 0 then PaddedPairs(tab, t + e, b, p + m, if p + m > end then end + 11 else end, count) else None
      else
        var (x, y, p1) := PaddedLeaf(tab, b, p + HLen(e), e);
        if p1 > end then None else
        match PaddedPairs(tab, tab.base, b, p1, end, count - 1)
        case None => None
        case Some((vals, p2, end2)) => Some(([x, y] + vals, p2, end2))
  }

  /** A leaf that the walk reads is read the same way with zeros behind the stream; one that it cannot read
      ends in them. */
  lemma PaddedLeafIsRead(tab: Table, b: seq<bool>, p: nat, e: int)
    requires p <= |b|
    ensures var (x, y, q) := PaddedLeaf(tab, b, p, e);
            ReadLeaf(tab, b, p, e) == if q <= |b| then Some((x, y, q)) else None
  {
    hide Value;
    PaddedValueIsRead(tab, b, p, CWX(e));
    var (x, p1) := PaddedValue(tab, b, p, CWX(e));
    if p1 <= |b| {
      PaddedValueIsRead(tab, b, p1, CWY(e));
    }
  }

  lemma PaddedValueIsRead(tab: Table, b: seq<bool>, p: nat, v: nat)
    requires p <= |b|
    ensures var (x, q) := PaddedValue(tab, b, p, v);
            q >= p && ReadValue(tab, b, p, v) == if q <= |b| then Some((x, q)) else None
  {
    hide Value;
    if tab.kind == LoopLinbits && v == 15 && p + tab.linBits <= |b| {
      assert Window(b, p, tab.linBits) == b[p..p + tab.linBits];
    }
  }

  lemma PaddedByLookup(tab: Table, t: nat, b: seq<bool>, p: nat, end: nat, count: nat)
    requires NodeInRange(tab.words, t) && count > 0
    ensures var m := MaxBits(tab.words[t]);
            var e := Entry(tab.words, t, Window(b, p, m));
            PaddedPairs(tab, t, b, p, end, count) ==
            if HLen(e) == 0 then
              if e > 0 then PaddedPairs(tab, t + e, b, p + m, if p + m > end then end + 11 else end, count) else None
            else
              var (x, y, p1) := PaddedLeaf(tab, b, p + HLen(e), e);
              if p1 > end then None else PaddedPrepend(x, y, PaddedPairs(tab, tab.base, b, p1, end, count - 1))
  {
    hide Value, Entry, PaddedLeaf;
  }

  function PaddedPrepend(x: int, y: int, r: Option<(seq<int>, nat, nat)>): Option<(seq<int>, nat, nat)> {
    match r
    case None => None
    case Some((vals, p, end)) => Some(([x, y] + vals, p, end))
  }

  lemma NoPairs(tab: Table, t: nat, b: seq<bool>, cur: Cursor, end: nat)
    ensures ReadPairs(tab, t, b, cur.pos, 0) == Some(([], cur.pos))
    ensures Schedule(tab, t, b, cur, 0) == Decoded([], cur)
    ensures PaddedPairs(tab, t, b, cur.pos, end, 0) == Some(([], cur.pos, end))
    ensures !RunsDry(tab, t, b, cur, 0)
  {
  }

  /** What the walk reads is read with zeros behind the stream as well. */
  lemma {:induction false} ReadIsPadded(tab: Table, t: nat, b: seq<bool>, p: nat, count: nat)
    requires WFNodes(tab) && t in tab.nodes && p <= |b|
    ensures var r := ReadPairs(tab, t, b, p, count);
            r.Some? ==> PaddedPairs(tab, t, b, p, |b|, count) == Some((r.value.0, r.value.1, |b|))
    decreases count, |tab.words| - t
  {
    hide Value, ReadLeaf, PaddedLeaf, ReadPairs, PaddedPairs, Walk, Entry;
    if count == 0 {
      NoPairs(tab, t, b, Cursor(p, Live(0)), |b|);
      return;
    }
    assert NodeOk(tab, t);
    ReadPairsByLookup(tab, t, b, p, count);
    PaddedByLookup(tab, t, b, p, |b|, count);
    var w := Window(b, p, MaxBits(tab.words[t]));
    var e := Entry(tab.words, t, w);
    assert EntryOk(tab, t, w);
    if HLen(e) == 0 {
      if p + |w| <= |b| {
        ReadIsPadded(tab, t + e, b, p + |w|, count);
      }
    } else if p + HLen(e) <= |b| {
      PaddedLeafIsRead(tab, b, p + HLen(e), e);
      var (x, y, p1) := PaddedLeaf(tab, b, p + HLen(e), e);
      if p1 <= |b| {
        ReadIsPadded(tab, tab.base, b, p1, count - 1);
      }
    }
  }

  // ----- whole runs

  /** The decoder stops because a refill finds an empty cache at the last bit before anything was padded. */
  predicate RunsDry(tab: Table, t: nat, b: seq<bool>, cur: Cursor, count: nat)
    decreases count, |tab.words| - t
  {
    && count > 0
    && match Refill(b, cur, 11)
       case None => cur.mode.Live?
       case Some(c) =>
         match Lookup(tab, t, b, c)
         case Fails => false
         case Jumps(node, c1) => RunsDry(tab, node, b, c1, count)
         case Yields(_, _, c1) => RunsDry(tab, tab.base, b, c1, count - 1)
  }

  /** A state of the cache: at most seven bits beyond the stream, and those only before the first refill; or
      padded, within a jump of the end. */
  predicate Sane(b: seq<bool>, cur: Cursor) {
    match cur.mode
    case Live(c) => cur.pos <= |b| && 0 <= c && (c <= |b| - cur.pos || c < 8)
    case Padded(end) => end >= |b| && cur.pos < end + 11
  }

  /** Where the padded stream ends once the cache is refilled. */
  function EndOf(b: seq<bool>, cur: Cursor): int {
    match cur.mode
    case Live(_) => |b|
    case Padded(end) => if cur.pos > end then end + 11 else end
  }

  /** The pairs that follow leaf e, whose codeword ends at p. */
  function AfterLeaf(tab: Table, b: seq<bool>, p: nat, e: int, count: nat): Option<(seq<int>, nat)>
    requires count > 0
  {
    match ReadLeaf(tab, b, p, e)
    case None => None
    case Some((x, y, p2)) =>
      match ReadPairs(tab, tab.base, b, p2, count - 1)
      case None => None
      case Some((vals, p3)) => Some(([x, y] + vals, p3))
  }

  lemma ReadPairsByLookup(tab: Table, t: nat, b: seq<bool>, p: nat, count: nat)
    requires NodeOk(tab, t) && p <= |b| && count > 0
    ensures var m := MaxBits(tab.words[t]);
            var e := Entry(tab.words, t, Window(b, p, m));
            ReadPairs(tab, t, b, p, count) ==
            if HLen(e) == 0 then
              if p + m <= |b| && e > 0 then ReadPairs(tab, t + e, b, p + m, count) else None
            else
              if p + HLen(e) <= |b| then AfterLeaf(tab, b, p + HLen(e), e, count) else None
  {
    hide Value, ReadLeaf, Entry;
    WalkIsLookup(tab, t, b, p);
  }

  lemma ScheduleByLookup(tab: Table, t: nat, b: seq<bool>, cur: Cursor, count: nat)
    requires NodeInRange(tab.words, t) && count > 0
    ensures var m := MaxBits(tab.words[t]);
            var e := Entry(tab.words, t, Window(b, cur.pos, m));
            Schedule(tab, t, b, cur, count) ==
            match Refill(b, cur, 11)
            case None => OutOfBits
            case Some(c) =>
              if HLen(e) == 0 then
                if e > 0 then Schedule(tab, t + e, b, Skip(c, m), count) else OutOfBits
              else
                match ScheduledLeaf(tab, b, Skip(c, HLen(e)), e)
                case None => OutOfBits
                case Some((x, y, c1)) => Prepend([x, y], Schedule(tab, tab.base, b, c1, count - 1))
  {
    hide Value, Entry, ScheduledLeaf, Prepend;
  }

  lemma DryByLookup(tab: Table, t: nat, b: seq<bool>, cur: Cursor, count: nat)
    requires NodeInRange(tab.words, t) && count > 0
    ensures var m := MaxBits(tab.words[t]);
            var e := Entry(tab.words, t, Window(b, cur.pos, m));
            RunsDry(tab, t, b, cur, count) <==>
            match Refill(b, cur, 11)
            case None => cur.mode.Live?
            case Some(c) =>
              if HLen(e) == 0 then e > 0 && RunsDry(tab, t + e, b, Skip(c, m), count)
              else
                match ScheduledLeaf(tab, b, Skip(c, HLen(e)), e)
                case None => false
                case Some((_, _, c1)) => RunsDry(tab, tab.base, b, c1, count - 1)
  {
    hide Value, Entry, ScheduledLeaf;
  }

  /** Once the cache is padded, a leaf is taken exactly if it is complete at the end. */
  lemma PaddedLeafTaken(tab: Table, b: seq<bool>, cur: Cursor, e: int)
    requires cur.mode.Padded?
    ensures var (x, y, q) := PaddedLeaf(tab, b, cur.pos, e);
            ScheduledLeaf(tab, b, cur, e) == if q <= cur.mode.end then Some((x, y, Cursor(q, cur.mode))) else None
  {
    hide Value;
  }

  /** Before that, the cache holds enough for a codeword, and a leaf is taken exactly if the walk reads it. */
  lemma LiveLeafTaken(tab: Table, b: seq<bool>, cur: Cursor, e: int)
    requires tab.linBits <= 13 && cur.mode.Live? && Ready(b, cur) && Holds(cur, 2)
    ensures var (x, y, q) := PaddedLeaf(tab, b, cur.pos, e);
            var r := ScheduledLeaf(tab, b, cur, e);
            if q <= |b| then r.Some? && r.value.0 == x && r.value.1 == y && r.value.2.pos == q && Sane(b, r.value.2)
                             && r.value.2.mode.Live?
            else r.None?
  {
    hide Value, ScheduledLeaf, ReadLeaf, PaddedLeaf;
    ScheduledLeafAgrees(tab, b, cur, e);
    PaddedLeafIsRead(tab, b, cur.pos, e);
    LeafStaysLive(tab, b, cur, e);
  }

  lemma LeafStaysLive(tab: Table, b: seq<bool>, cur: Cursor, e: int)
    requires cur.mode.Live?
    ensures var r := ScheduledLeaf(tab, b, cur, e); r.Some? ==> r.value.2.mode.Live?
  {
    hide Value;
  }

  /** What the decoder does is what the stream with zeros behind it says, unless it runs dry. */
  predicate DecodesAs(b: seq<bool>, d: Decoded, r: Option<(seq<int>, nat, nat)>, dry: bool) {
    if dry then d.OutOfBits?
    else
      match r
      case None => d.OutOfBits?
      case Some((vals, p, end)) => d.Decoded? && d.vals == vals && UsedBits(b, d.cur) == p - (end - |b|)
  }

  lemma RefillKeepsEnd(b: seq<bool>, cur: Cursor)
    requires Sane(b, cur)
    ensures EndOf(b, cur) >= |b|
    ensures match Refill(b, cur, 11)
            case None => cur.mode.Live?
            case Some(c) =>
              && c.pos == cur.pos && EndOf(b, c) == EndOf(b, cur) && Sane(b, c)
              && (c.mode.Live? ==> 11 <= c.mode.cached <= |b| - c.pos)
              && (c.mode.Padded? ==> c.pos <= c.mode.end == EndOf(b, c))
  {
  }

  lemma JumpKeepsSane(b: seq<bool>, c: Cursor, m: nat)
    requires Sane(b, c) && m <= 9
    requires (c.mode.Live? ==> 11 <= c.mode.cached <= |b| - c.pos) && (c.mode.Padded? ==> c.pos <= c.mode.end)
    ensures var d := Skip(c, m);
            && Sane(b, d) && d.pos == c.pos + m
            && EndOf(b, d) == if d.pos > EndOf(b, c) then EndOf(b, c) + 11 else EndOf(b, c)
  {
  }

  /** A leaf is taken exactly if it is complete at the end. */
  lemma LeafTaken(tab: Table, b: seq<bool>, c: Cursor, e: int)
    requires Sane(b, c) && tab.linBits <= 13 && 0 < HLen(e) <= 9
    requires (c.mode.Live? ==> 11 <= c.mode.cached <= |b| - c.pos) && (c.mode.Padded? ==> c.pos <= c.mode.end)
    ensures var (x, y, q) := PaddedLeaf(tab, b, c.pos + HLen(e), e);
            var r := ScheduledLeaf(tab, b, Skip(c, HLen(e)), e);
            if q <= EndOf(b, c) then
              r.Some? && r.value.0 == x && r.value.1 == y && r.value.2.pos == q && Sane(b, r.value.2)
              && EndOf(b, r.value.2) == EndOf(b, c) && (r.value.2.mode.Padded? ==> q <= r.value.2.mode.end)
            else r.None?
  {
    hide ScheduledLeaf, PaddedLeaf;
    if c.mode.Padded? {
      PaddedLeafTaken(tab, b, Skip(c, HLen(e)), e);
    } else {
      LiveLeafTaken(tab, b, Skip(c, HLen(e)), e);
    }
  }

  lemma {:induction false} ScheduleIsPadded(tab: Table, t: nat, b: seq<bool>, cur: Cursor, count: nat)
    requires WFNodes(tab) && t in tab.nodes && tab.linBits <= 13
    requires Sane(b, cur) && (count == 0 && cur.mode.Padded? ==> cur.pos <= cur.mode.end)
    ensures EndOf(b, cur) >= 0
    ensures DecodesAs(b, Schedule(tab, t, b, cur, count), PaddedPairs(tab, t, b, cur.pos, EndOf(b, cur), count),
                      RunsDry(tab, t, b, cur, count))
    decreases count, |tab.words| - t
  {
    hide Value, ScheduledLeaf, PaddedLeaf, PaddedPairs, Entry, Schedule, RunsDry, Refill, Sane, EndOf, Skip;
    RefillKeepsEnd(b, cur);
    var end := EndOf(b, cur);
    if count == 0 {
      StopsAt(b, cur);
      NoPairs(tab, t, b, cur, end);
      return;
    }
    assert NodeOk(tab, t);
    PaddedByLookup(tab, t, b, cur.pos, end, count);
    ScheduleByLookup(tab, t, b, cur, count);
    DryByLookup(tab, t, b, cur, count);
    var w := Window(b, cur.pos, MaxBits(tab.words[t]));
    var e := Entry(tab.words, t, w);
    assert EntryOk(tab, t, w);
    match Refill(b, cur, 11)
    case None =>
    case Some(c) =>
      if HLen(e) == 0 {
        JumpKeepsSane(b, c, |w|);
        ScheduleIsPadded(tab, t + e, b, Skip(c, |w|), count);
      } else {
        LeafTaken(tab, b, c, e);
        match ScheduledLeaf(tab, b, Skip(c, HLen(e)), e)
        case None =>
        case Some((x, y, c1)) => ScheduleIsPadded(tab, tab.base, b, c1, count - 1);
      }
  }

  lemma StopsAt(b: seq<bool>, cur: Cursor)
    requires Sane(b, cur) && (cur.mode.Padded? ==> cur.pos <= cur.mode.end)
    ensures UsedBits(b, cur) == cur.pos - (EndOf(b, cur) - |b|)
  {
  }

  /** After padding there is no running dry. */
  lemma {:induction false} PaddedNeverDry(tab: Table, t: nat, b: seq<bool>, cur: Cursor, count: nat)
    requires WFNodes(tab) && t in tab.nodes && cur.mode.Padded?
    ensures !RunsDry(tab, t, b, cur, count)
    decreases count, |tab.words| - t
  {
    hide Value, ScheduledLeaf, Entry, RunsDry;
    if count == 0 {
      NoPairs(tab, t, b, cur, 0);
      return;
    }
    assert NodeOk(tab, t);
    DryByLookup(tab, t, b, cur, count);
    var w := Window(b, cur.pos, MaxBits(tab.words[t]));
    var e := Entry(tab.words, t, w);
    assert EntryOk(tab, t, w);
    match Refill(b, cur, 11)
    case None =>
    case Some(c) =>
      if HLen(e) == 0 {
        PaddedNeverDry(tab, t + e, b, Skip(c, |w|), count);
      } else {
        PaddedLeafTaken(tab, b, Skip(c, HLen(e)), e);
        match ScheduledLeaf(tab, b, Skip(c, HLen(e)), e)
        case None =>
        case Some((_, _, c1)) => PaddedNeverDry(tab, tab.base, b, c1, count - 1);
      }
  }

  /** A decoder that runs dry is short of bits. */
  lemma {:induction false} DryIsShort(tab: Table, t: nat, b: seq<bool>, cur: Cursor, count: nat)
    requires WFNodes(tab) && t in tab.nodes && tab.linBits <= 13
    requires Sane(b, cur) && RunsDry(tab, t, b, cur, count)
    ensures cur.pos <= |b| && ReadPairs(tab, t, b, cur.pos, count).None?
    decreases count, |tab.words| - t
  {
    hide Value, ScheduledLeaf, ReadLeaf, PaddedLeaf, ReadPairs, Walk, Entry, RunsDry;
    if count == 0 {
      NoPairs(tab, t, b, cur, 0);
      return;
    }
    if cur.mode.Padded? {
      PaddedNeverDry(tab, t, b, cur, count);
      return;
    }
    assert NodeOk(tab, t);
    ReadPairsByLookup(tab, t, b, cur.pos, count);
    DryByLookup(tab, t, b, cur, count);
    var w := Window(b, cur.pos, MaxBits(tab.words[t]));
    var e := Entry(tab.words, t, w);
    assert EntryOk(tab, t, w);
    match Refill(b, cur, 11)
    case None =>
    case Some(c) =>
      if HLen(e) == 0 {
        DryIsShort(tab, t + e, b, Skip(c, |w|), count);
      } else if c.mode.Padded? {
        PaddedLeafTaken(tab, b, Skip(c, HLen(e)), e);
        match ScheduledLeaf(tab, b, Skip(c, HLen(e)), e)
        case None =>
        case Some((_, _, c1)) => PaddedNeverDry(tab, tab.base, b, c1, count - 1);
      } else {
        LiveLeafTaken(tab, b, Skip(c, HLen(e)), e);
        PaddedLeafIsRead(tab, b, c.pos + HLen(e), e);
        match ScheduledLeaf(tab, b, Skip(c, HLen(e)), e)
        case None =>
        case Some((_, _, c1)) => DryIsShort(tab, tab.base, b, c1, count - 1);
      }
  }

  /** Without escapes only refills of two bytes move the end of the cached bits. */
  predicate OnGrid(b: seq<bool>, cur: Cursor, first: nat) {
    cur.mode.Live? ==> cur.mode.cached <= |b| - cur.pos && (cur.pos + cur.mode.cached - first) % 16 == 0
  }

  lemma GridRefilled(b: seq<bool>, cur: Cursor, first: nat)
    requires OnGrid(b, cur, first) && cur.pos <= |b| && cur.mode.Live? && cur.mode.cached >= 0
    ensures match Refill(b, cur, 11)
            case None => (|b| - first) % 16 == 0
            case Some(c) => c.pos == cur.pos && OnGrid(b, c, first)
  {
  }

  lemma GridKept(tab: Table, b: seq<bool>, c: Cursor, n: nat, e: int, first: nat)
    requires tab.kind != LoopLinbits && OnGrid(b, c, first)
    ensures OnGrid(b, Skip(c, n), first)
    ensures var r := ScheduledLeaf(tab, b, Skip(c, n), e);
            r.Some? ==> OnGrid(b, r.value.2, first)
  {
  }

  /** With a table without escapes the decoder runs dry only if the bits behind the first partial byte are whole
      pairs of bytes. */
  lemma {:induction false} DryFromGrid(tab: Table, t: nat, b: seq<bool>, cur: Cursor, count: nat, first: nat)
    requires WFNodes(tab) && t in tab.nodes && tab.linBits <= 13 && tab.kind != LoopLinbits
    requires Sane(b, cur) && RunsDry(tab, t, b, cur, count) && OnGrid(b, cur, first)
    ensures (|b| - first) % 16 == 0
    decreases count, |tab.words| - t
  {
    hide Value, ScheduledLeaf, PaddedLeaf, Entry, RunsDry, OnGrid, Refill, Skip, Sane;
    if count == 0 {
      NoPairs(tab, t, b, cur, 0);
      return;
    }
    if cur.mode.Padded? {
      PaddedNeverDry(tab, t, b, cur, count);
      return;
    }
    assert NodeOk(tab, t);
    DryByLookup(tab, t, b, cur, count);
    RefillKeepsEnd(b, cur);
    LiveInside(b, cur);
    GridRefilled(b, cur, first);
    var w := Window(b, cur.pos, MaxBits(tab.words[t]));
    var e := Entry(tab.words, t, w);
    assert EntryOk(tab, t, w);
    match Refill(b, cur, 11)
    case None =>
    case Some(c) =>
      if HLen(e) == 0 {
        JumpKeepsSane(b, c, |w|);
        GridKept(tab, b, c, |w|, e, first);
        DryFromGrid(tab, t + e, b, Skip(c, |w|), count, first);
      } else {
        LeafTaken(tab, b, c, e);
        GridKept(tab, b, c, HLen(e), e, first);
        match ScheduledLeaf(tab, b, Skip(c, HLen(e)), e)
        case None =>
        case Some((_, _, c1)) => DryFromGrid(tab, tab.base, b, c1, count - 1, first);
      }
  }

  lemma LiveInside(b: seq<bool>, cur: Cursor)
    requires Sane(b, cur) && cur.mode.Live?
    ensures cur.pos <= |b| && cur.mode.cached >= 0
  {
  }

  /** So a caller can tell from the number of bits alone that the decoder will not run dry. */
  lemma DryNeedsWholeWords(tab: Table, b: seq<bool>, off: nat, count: nat)
    requires WFTable(tab) && (tab.kind == OneShot || tab.kind == LoopNoLinbits) && off < 8 && (8 - off) % 8 <= |b|
    requires RunsDry(tab, tab.base, b, StartCursor(off), count)
    ensures (|b| - (8 - off) % 8) % 16 == 0
  {
    hide RunsDry;
    DryFromGrid(tab, tab.base, b, StartCursor(off), count, (8 - off) % 8);
  }

  /** Without jumps the end never moves, and what is read up to there is what the walk reads. */
  lemma {:induction false} OneShotNeverPads(tab: Table, b: seq<bool>, p: nat, count: nat)
    requires tab.kind == OneShot && WFTable(tab) && p <= |b|
    ensures var r, z := ReadPairs(tab, tab.base, b, p, count), PaddedPairs(tab, tab.base, b, p, |b|, count);
            z == if r.Some? then Some((r.value.0, r.value.1, |b|)) else None
    decreases count
  {
    hide Value, ReadLeaf, PaddedLeaf, ReadPairs, PaddedPairs, Walk, Entry;
    if count == 0 {
      NoPairs(tab, tab.base, b, Cursor(p, Live(0)), |b|);
      return;
    }
    assert NodeOk(tab, tab.base);
    ReadPairsByLookup(tab, tab.base, b, p, count);
    PaddedByLookup(tab, tab.base, b, p, |b|, count);
    var w := Window(b, p, MaxBits(tab.words[tab.base]));
    var e := Entry(tab.words, tab.base, w);
    assert EntryOk(tab, tab.base, w);
    var (x, y, p1) := PaddedLeaf(tab, b, p + HLen(e), e);
    if p + HLen(e) <= |b| {
      PaddedLeafIsRead(tab, b, p + HLen(e), e);
      if p1 <= |b| {
        OneShotNeverPads(tab, b, p1, count - 1);
      }
    }
  }

  /** Whole calls, for every coded table. The decoder gives values exactly if the stream with zeros behind it
      holds the pairs and it does not run dry; they are those pairs, and if the stream itself holds them,
      those of the walk. With a one-shot table it gives up exactly on the inputs that are too short. */
  lemma DecodesExactly(tab: Table, b: seq<bool>, off: nat, count: nat)
    requires WFTable(tab) && Coded(tab) && off < 8
    ensures var d := Schedule(tab, tab.base, b, StartCursor(off), count);
            var r, z := ReadPairs(tab, tab.base, b, 0, count), PaddedPairs(tab, tab.base, b, 0, |b|, count);
            && DecodesAs(b, d, z, RunsDry(tab, tab.base, b, StartCursor(off), count))
            && (r.Some? ==> d.Decoded? && d.vals == r.value.0 && UsedBits(b, d.cur) == r.value.1
                            && z == Some((r.value.0, r.value.1, |b|)))
            && (tab.kind == OneShot ==> (d.OutOfBits? <==> r.None?))
  {
    hide Schedule, ReadPairs, PaddedPairs, RunsDry;
    ScheduleIsPadded(tab, tab.base, b, StartCursor(off), count);
    ReadIsPadded(tab, tab.base, b, 0, count);
    if RunsDry(tab, tab.base, b, StartCursor(off), count) {
      DryIsShort(tab, tab.base, b, StartCursor(off), count);
    }
    if tab.kind == OneShot {
      OneShotNeverPads(tab, b, 0, count);
    }
  }

  // ----- a region of the big values

  /** A region decoded, up to bit p; or the bits do not suffice or the table is unusable. */
  datatype BigValues = Regions(vals: seq<int>, p: nat) | Short

  /** One region of n values from the bits b. */
  function ReadRegion(tab: Table, b: seq<bool>, n: nat): BigValues {
    if n == 0 then Regions([], 0)
    else if tab.kind == NoBits then Regions(seq(n, _ => 0), 0)
    else if tab.kind == InvalidTab then Short
    else
      match ReadPairs(tab, tab.base, b, 0, n / 2)
      case Some((vals, p)) => Regions(vals, p)
      case None => Short
  }

  /** The same region with zeros behind the bits, as the decoder takes it: it must not run dry, nor end up
      before the first bit after the moved end is taken off. off is the position of the first bit in its byte. */
  function DecodedRegion(tab: Table, b: seq<bool>, off: nat, n: nat): BigValues {
    if n == 0 then Regions([], 0)
    else if tab.kind == NoBits then Regions(seq(n, _ => 0), 0)
    else if tab.kind == InvalidTab || RunsDry(tab, tab.base, b, StartCursor(off), n / 2) then Short
    else
      match PaddedPairs(tab, tab.base, b, 0, |b|, n / 2)
      case Some((vals, p, end)) => if p >= end - |b| then Regions(vals, p - (end - |b|)) else Short
      case None => Short
  }

  /** A region that the walk can read is decoded as it is; without jumps no other is. */
  lemma RegionByWalk(tab: Table, b: seq<bool>, off: nat, n: nat)
    requires WFTable(tab) && off < 8 && n % 2 == 0
    ensures ReadRegion(tab, b, n).Regions? ==> DecodedRegion(tab, b, off, n) == ReadRegion(tab, b, n)
    ensures n == 0 || !Loops(tab) ==> DecodedRegion(tab, b, off, n) == ReadRegion(tab, b, n)
  {
    hide Schedule, ReadPairs, PaddedPairs, RunsDry, UsedBits;
    if n > 0 && Coded(tab) {
      DecodesExactly(tab, b, off, n / 2);
    }
  }

  predicate Loops(tab: Table) {
    tab.kind == LoopNoLinbits || tab.kind == LoopLinbits
  }

  lemma {:induction false} PaddedWithin(tab: Table, t: nat, b: seq<bool>, p: nat, end: nat, count: nat)
    requires WFNodes(tab) && t in tab.nodes && (count == 0 ==> p <= end)
    ensures var r := PaddedPairs(tab, t, b, p, end, count); r.Some? ==> r.value.1 <= r.value.2
    decreases count, |tab.words| - t
  {
    hide Value, PaddedLeaf, PaddedPairs, Entry;
    if count == 0 {
      NoPairs(tab, t, b, Cursor(p, Live(0)), end);
      return;
    }
    assert NodeOk(tab, t);
    PaddedByLookup(tab, t, b, p, end, count);
    var w := Window(b, p, MaxBits(tab.words[t]));
    var e := Entry(tab.words, t, w);
    assert EntryOk(tab, t, w);
    if HLen(e) == 0 {
      PaddedWithin(tab, t + e, b, p + |w|, if p + |w| > end then end + 11 else end, count);
    } else {
      var (x, y, p1) := PaddedLeaf(tab, b, p + HLen(e), e);
      if p1 <= end {
        PaddedWithin(tab, tab.base, b, p1, end, count - 1);
      }
    }
  }

  /** A decoded region ends in the bits. */
  lemma RegionFits(tab: Table, b: seq<bool>, off: nat, n: nat)
    requires WFTable(tab)
    ensures var r := DecodedRegion(tab, b, off, n); r.Regions? ==> r.p <= |b|
  {
    hide PaddedPairs, RunsDry;
    if Coded(tab) {
      PaddedWithin(tab, tab.base, b, 0, |b|, n / 2);
    }
  }
}
