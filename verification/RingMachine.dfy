/** One reader and one writer in the ring buffer at the same time, while any number of control calls
    set flags and post semaphores. A step is a locked section that moves bytes, the reading of one
    flag, or one operation on a semaphore. */
module RingMachine {
  import opened RingBuffer

  /** Where the reader is. n bytes are still wanted, got are the bytes of this call, early says that the
      end of the stream had been announced when the call started. */
  datatype Reader =
    | RIdle
    | RLoop(n: nat, got: seq<Byte>, early: bool)     // about to lock
    | RDone(n: nat, got: seq<Byte>, early: bool)     // locked, nothing to read: about to look at is_done_write
    | RAbort(n: nat, got: seq<Byte>, early: bool)    // ... at abort_read
    | RUnblock(n: nat, got: seq<Byte>, early: bool)  // ... at unblock_reader_flag
    | RStall(n: nat, got: seq<Byte>, early: bool)    // unlocked, about to post can_write
    | RWait(n: nat, got: seq<Byte>, early: bool)     // waiting for can_read
    | RExit(n: nat, got: seq<Byte>, early: bool, ret: int)
    | RClear(n: nat, got: seq<Byte>, early: bool, ret: int)

  /** Where the writer is; k bytes of data have been written. */
  datatype Writer =
    | WIdle
    | WLoop(data: seq<Byte>, k: nat)
    | WDone(data: seq<Byte>, k: nat)
    | WAbort(data: seq<Byte>, k: nat)
    | WStall(data: seq<Byte>, k: nat)
    | WWait(data: seq<Byte>, k: nat)
    | WExit(data: seq<Byte>, k: nat, ret: int)

  /** A finished call: what was asked for, what it returned, and what it really moved. */
  datatype Call = Call(asked: nat, ret: int, bytes: seq<Byte>)

  datatype Flags = Flags(done: bool, abortRead: bool, abortWrite: bool, unblock: bool)

  /** How many control calls still have to post can_read (dones, unblocks), and how many calls of rb_abort
      are before their first post, their second flag, and their second post. */
  datatype Control = Control(dones: nat, unblocks: nat, abortsA: nat, abortsB: nat, abortsC: nat)

  datatype State = State(
    size: nat, held: seq<Byte>, flags: Flags, canRead: nat, canWrite: nat,
    r: Reader, w: Writer, ctl: Control, readLog: seq<Call>, writeLog: seq<Call>)

  datatype Action =
    | ReadCall(n: nat) | RLock | RLockFails | RSeeDone | RSeeAbort | RSeeUnblock | RPost | RWake | RTimeout | RFinish | RReturn
    | WriteCall(data: seq<Byte>) | WLock | WLockFails | WSeeDone | WSeeAbort | WPost | WWake | WTimeout | WReturn
    | SetDone | PostDone | SetUnblock | PostUnblock | SetAbortRead | PostAbortRead | SetAbortWrite | PostAbortWrite

  function Init(size: nat): State {
    State(size, [], Flags(false, false, false, false), 0, 0, RIdle, WIdle, Control(0, 0, 0, 0, 0), [], [])
  }

  predicate ReaderLocks(r: Reader) {
    r.RDone? || r.RAbort? || r.RUnblock?
  }

  predicate WriterLocks(w: Writer) {
    w.WDone? || w.WAbort?
  }

  /** The value that a call with this outcome returns. */
  function Result(moved: nat, ret: int): int {
    if ret == RB_ABORT then ret else if moved > 0 then moved else ret
  }

  predicate Enabled(s: State, a: Action) {
    match a
    case ReadCall(n) => s.r.RIdle?
    case RLock => s.r.RLoop? && !WriterLocks(s.w)
    case RLockFails => s.r.RLoop?
    case RSeeDone => s.r.RDone?
    case RSeeAbort => s.r.RAbort?
    case RSeeUnblock => s.r.RUnblock?
    case RPost => s.r.RStall?
    case RWake => s.r.RWait? && s.canRead > 0
    case RTimeout => s.r.RWait?
    case RFinish => s.r.RExit?
    case RReturn => s.r.RClear?
    case WriteCall(data) => s.w.WIdle?
    case WLock => s.w.WLoop? && !ReaderLocks(s.r)
    case WLockFails => s.w.WLoop?
    case WSeeDone => s.w.WDone?
    case WSeeAbort => s.w.WAbort?
    case WPost => s.w.WStall?
    case WWake => s.w.WWait? && s.canWrite > 0
    case WTimeout => s.w.WWait?
    case WReturn => s.w.WExit?
    case SetDone => true
    case PostDone => s.ctl.dones > 0
    case SetUnblock => true
    case PostUnblock => s.ctl.unblocks > 0
    case SetAbortRead => true
    case PostAbortRead => s.ctl.abortsA > 0
    case SetAbortWrite => s.ctl.abortsB > 0
    case PostAbortWrite => s.ctl.abortsC > 0
  }

  /** The locked section of the reader. */
  function ReadLocked(s: State): State
    requires s.r.RLoop?
  {
    var m, r := ReadSize(|s.held|, s.r.n, s.flags.done), s.r;
    if m == 0 then s.(r := RDone(r.n, r.got, r.early))
    else
      var got := r.got + s.held[..m];
      s.(held := s.held[m..], r := if r.n == m then RExit(0, got, r.early, 0) else RLoop(r.n - m, got, r.early))
  }

  function WriteLocked(s: State): State
    requires s.w.WLoop? && s.w.k <= |s.w.data| && |s.held| <= s.size
  {
    var w := s.w;
    var m := WriteSize(s.size, |s.held|, |w.data| - w.k);
    if m == 0 then s.(w := WDone(w.data, w.k))
    else
      s.(held := s.held + w.data[w.k..w.k + m],
         w := if w.k + m == |w.data| then WExit(w.data, w.k + m, 0) else WLoop(w.data, w.k + m))
  }

  function ReaderStep(s: State, a: Action): (t: State)
    requires Enabled(s, a)
  {
    var r := s.r;
    match a
    case ReadCall(n) => s.(r := if n == 0 then RExit(0, [], s.flags.done, 0) else RLoop(n, [], s.flags.done))
    case RLock => ReadLocked(s)
    case RLockFails => s.(r := RExit(r.n, r.got, r.early, RB_TIMEOUT))
    case RSeeDone => s.(r := if s.flags.done then RExit(r.n, r.got, r.early, RB_DONE) else RAbort(r.n, r.got, r.early))
    case RSeeAbort => s.(r := if s.flags.abortRead then RExit(r.n, r.got, r.early, RB_ABORT) else RUnblock(r.n,
        r.got, r.early))
    case RSeeUnblock => s.(r := if s.flags.unblock then RExit(r.n, r.got, r.early, RB_TIMEOUT) else RStall(r.n,
        r.got, r.early))
    case RPost => s.(r := RWait(r.n, r.got, r.early), canWrite := s.canWrite + 1)
    case RWake => s.(r := RLoop(r.n, r.got, r.early), canRead := s.canRead - 1)
    case RTimeout => s.(r := RExit(r.n, r.got, r.early, RB_TIMEOUT))
    case RFinish => s.(r := RClear(r.n, r.got, r.early, r.ret), canWrite := s.canWrite + Posts(|r.got|))
    case RReturn =>
      s.(r := RIdle, flags := s.flags.(unblock := false), readLog := s.readLog + [Call(r.n + |r.got|, Result(|r.got|,
          r.ret), r.got)])
    case _ => s
  }

  function WriterStep(s: State, a: Action): (t: State)
    requires Enabled(s, a) && |s.held| <= s.size && (s.w.WIdle? || s.w.k <= |s.w.data|)
  {
    var w := s.w;
    match a
    case WriteCall(data) => s.(w := if data == [] then WExit(data, 0, 0) else WLoop(data, 0))
    case WLock => WriteLocked(s)
    case WLockFails => s.(w := WExit(w.data, w.k, RB_TIMEOUT))
    case WSeeDone => s.(w := if s.flags.done then WExit(w.data, w.k, RB_DONE) else WAbort(w.data, w.k))
    case WSeeAbort => s.(w := if s.flags.abortWrite then WExit(w.data, w.k, RB_ABORT) else WStall(w.data, w.k))
    case WPost => s.(w := WWait(w.data, w.k), canRead := s.canRead + 1)
    case WWake => s.(w := WLoop(w.data, w.k), canWrite := s.canWrite - 1)
    case WTimeout => s.(w := WExit(w.data, w.k, RB_TIMEOUT))
    case WReturn =>
      s.(w := WIdle, canRead := s.canRead + Posts(w.k), writeLog := s.writeLog + [Call(|w.data|, Result(w.k, w.ret),
          w.data[..w.k])])
    case _ => s
  }

  function ControlStep(s: State, a: Action): (t: State)
    requires Enabled(s, a)
  {
    match a
    case SetDone => s.(flags := s.flags.(done := true), ctl := s.ctl.(dones := s.ctl.dones + 1))
    case PostDone => s.(ctl := s.ctl.(dones := s.ctl.dones - 1), canRead := s.canRead + 1)
    case SetUnblock => s.(flags := s.flags.(unblock := true), ctl := s.ctl.(unblocks := s.ctl.unblocks + 1))
    case PostUnblock => s.(ctl := s.ctl.(unblocks := s.ctl.unblocks - 1), canRead := s.canRead + 1)
    case SetAbortRead => s.(flags := s.flags.(abortRead := true), ctl := s.ctl.(abortsA := s.ctl.abortsA + 1))
    case PostAbortRead => s.(ctl := s.ctl.(abortsA := s.ctl.abortsA - 1, abortsB := s.ctl.abortsB + 1),
        canRead := s.canRead + 1)
    case SetAbortWrite =>
      s.(flags := s.flags.(abortWrite := true), ctl := s.ctl.(abortsB := s.ctl.abortsB - 1, abortsC := s.ctl.abortsC + 1))
    case PostAbortWrite => s.(ctl := s.ctl.(abortsC := s.ctl.abortsC - 1), canWrite := s.canWrite + 1)
    case _ => s
  }

  predicate OfReader(a: Action) {
    a.ReadCall? || a.RLock? || a.RLockFails? || a.RSeeDone? || a.RSeeAbort? || a.RSeeUnblock? || a.RPost? || a.RWake?
    || a.RTimeout? || a.RFinish? || a.RReturn?
  }

  predicate OfWriter(a: Action) {
    a.WriteCall? || a.WLock? || a.WLockFails? || a.WSeeDone? || a.WSeeAbort? || a.WPost? || a.WWake?
        || a.WTimeout? || a.WReturn?
  }

  /** The writer has not written more than it was given, and the buffer not been overfilled. */
  predicate Sound(s: State) {
    |s.held| <= s.size && (s.w.WIdle? || s.w.k <= |s.w.data|)
  }

  function Next(s: State, a: Action): State
    requires Enabled(s, a) && Sound(s)
  {
    if OfReader(a) then ReaderStep(s, a) else if OfWriter(a) then WriterStep(s, a) else ControlStep(s, a)
  }

  ghost predicate Reaches(s: State, run: seq<Action>, t: State)
    decreases |run|
  {
    if run == [] then s == t
    else Enabled(s, run[0]) && Sound(s) && Reaches(Next(s, run[0]), run[1..], t)
  }

  // ----- bytes are neither lost nor doubled nor reordered

  function Flow(calls: seq<Call>): seq<Byte> {
    if calls == [] then [] else Flow(calls[..|calls| - 1]) + calls[|calls| - 1].bytes
  }

  lemma FlowGrows(calls: seq<Call>, c: Call)
    ensures Flow(calls + [c]) == Flow(calls) + c.bytes
  {
    assert (calls + [c])[..|calls|] == calls;
  }

  function Delivered(s: State): seq<Byte> {
    Flow(s.readLog) + if s.r.RIdle? then [] else s.r.got
  }

  function Accepted(s: State): seq<Byte>
    requires Sound(s)
  {
    Flow(s.writeLog) + if s.w.WIdle? then [] else s.w.data[..s.w.k]
  }

  /** What the return value of a finished call says about the bytes it moved. */
  predicate Honest(c: Call) {
    && |c.bytes| <= c.asked
    && (c.ret > 0 ==> c.ret == |c.bytes|)
    && (c.ret <= 0 && c.ret != RB_ABORT ==> c.bytes == [])
    && (c.ret == 0 ==> c.asked == 0)
  }

  predicate Codes(ret: int, n: nat) {
    RB_TIMEOUT <= ret <= 0 && (ret == 0 ==> n == 0)
  }

  predicate LogHonest(log: seq<Call>) {
    forall i | 0 <= i < |log| :: Honest(log[i])
  }

  predicate ReaderHonest(r: Reader) {
    if r.RIdle? then true else if r.RExit? || r.RClear? then Codes(r.ret, r.n) else r.n > 0
  }

  predicate WriterHonest(w: Writer) {
    if w.WIdle? then true else if w.WExit? then w.k <= |w.data| && Codes(w.ret, |w.data| - w.k) else w.k < |w.data|
  }

  predicate CallsHonest(s: State) {
    LogHonest(s.readLog) && LogHonest(s.writeLog) && ReaderHonest(s.r) && WriterHonest(s.w)
  }

  // ----- nobody waits for a post that will not come

  /** The writer is in the middle of a call and will post can_read before it waits or returns. */
  predicate WriterOwes(s: State) {
    s.w.WStall? || (!s.w.WIdle? && !s.w.WWait? && s.w.k > 0)
  }

  predicate ReaderOwes(s: State) {
    s.r.RStall? || (!s.r.RIdle? && !s.r.RWait? && !s.r.RClear? && s.r.got != [])
  }

  /** A control call has set its flag but not posted can_read yet. */
  predicate ControlOwesRead(s: State) {
    s.ctl.dones + s.ctl.unblocks + s.ctl.abortsA > 0
  }

  predicate ReaderWillWake(s: State) {
    s.canRead > 0 || ControlOwesRead(s)
  }

  predicate WriterWillWake(s: State) {
    s.canWrite > 0 || s.ctl.abortsC > 0
  }

  /** Enough bytes for a locked section to deliver some even before the end of the stream. */
  predicate BytesReady(s: State, n: nat) {
    ReadSize(|s.held|, n, false) > 0
  }

  /** What became true after the reader looked will wake it up. */
  predicate ReaderWatched(s: State) {
    && (ReaderLocks(s.r) ==> !WriterLocks(s.w) && !BytesReady(s, s.r.n))
    && (s.r.RAbort? || s.r.RUnblock? || s.r.RStall? || s.r.RWait? ==> s.flags.done ==> ReaderWillWake(s))
    && (s.r.RUnblock? || s.r.RStall? || s.r.RWait? ==> s.flags.abortRead ==> ReaderWillWake(s))
    && (s.r.RStall? || s.r.RWait? ==> s.flags.unblock ==> ReaderWillWake(s))
    && (s.r.RStall? || s.r.RWait? ==> BytesReady(s, s.r.n) ==> ReaderWillWake(s) || WriterOwes(s))
  }

  /** The same for the writer, but for the end of the stream. */
  predicate WriterWatched(s: State) {
    && (WriterLocks(s.w) ==> |s.held| == s.size)
    && (s.w.WStall? || s.w.WWait? ==> s.flags.abortWrite ==> WriterWillWake(s))
    && (s.w.WStall? || s.w.WWait? ==> |s.held| < s.size ==> WriterWillWake(s) || ReaderOwes(s))
  }

  predicate NotBothAsleep(s: State) {
    s.r.RWait? && s.w.WWait? ==> s.canRead > 0 || s.canWrite > 0
  }

  // ----- the end of the stream

  predicate Early(s: State) {
    !s.r.RIdle? && s.r.early ==>
      s.flags.done && !s.r.RAbort? && !s.r.RUnblock? && !s.r.RStall? && !s.r.RWait? && (s.r.RDone? ==> s.held == [])
  }

  predicate Inv(s: State) {
    && Sound(s) && Accepted(s) == Delivered(s) + s.held
    && CallsHonest(s) && ReaderWatched(s) && WriterWatched(s) && NotBothAsleep(s) && Early(s)
  }

  lemma InitHolds(size: nat)
    ensures Inv(Init(size))
  {
  }

  lemma LogGrows(log: seq<Call>, c: Call)
    requires LogHonest(log) && Honest(c)
    ensures LogHonest(log + [c])
  {
  }

  lemma FlowReads(s: State)
    requires Enabled(s, RLock) && Sound(s) && Accepted(s) == Delivered(s) + s.held
    ensures var t := ReadLocked(s); Sound(t) && Accepted(t) == Delivered(t) + t.held
  {
    hide Flow, ReadSize;
    TakeAssoc(Flow(s.readLog), s.r.got, s.held, ReadSize(|s.held|, s.r.n, s.flags.done));
  }

  lemma TakeAssoc(f: seq<Byte>, g: seq<Byte>, h: seq<Byte>, m: nat)
    requires m <= |h|
    ensures f + (g + h[..m]) + h[m..] == f + g + h
  {
  }

  lemma PutAssoc(f: seq<Byte>, d: seq<Byte>, k: nat, m: nat, all: seq<Byte>, h: seq<Byte>)
    requires k + m <= |d| && f + d[..k] == all + h
    ensures f + d[..k + m] == all + (h + d[k..k + m])
  {
    assert d[..k + m] == d[..k] + d[k..k + m];
    assert f + (d[..k] + d[k..k + m]) == f + d[..k] + d[k..k + m];
  }

  lemma FlowWrites(s: State)
    requires Enabled(s, WLock) && Sound(s) && Accepted(s) == Delivered(s) + s.held
    ensures var t := WriteLocked(s); Sound(t) && Accepted(t) == Delivered(t) + t.held
  {
    hide Flow, WriteSize;
    PutAssoc(Flow(s.writeLog), s.w.data, s.w.k, WriteSize(s.size, |s.held|, |s.w.data| - s.w.k), Delivered(s), s.held);
  }

  lemma FlowReturns(s: State, a: Action)
    requires Enabled(s, a) && Sound(s) && Accepted(s) == Delivered(s) + s.held && (a.RReturn? || a.WReturn?)
    ensures var t := if a.RReturn? then ReaderStep(s, a) else WriterStep(s, a);
            Sound(t) && Accepted(t) == Delivered(t) + t.held
  {
    hide Flow, Result, Posts;
    if a.RReturn? {
      FlowGrows(s.readLog, Call(s.r.n + |s.r.got|, Result(|s.r.got|, s.r.ret), s.r.got));
    } else {
      FlowGrows(s.writeLog, Call(|s.w.data|, Result(s.w.k, s.w.ret), s.w.data[..s.w.k]));
    }
  }

  lemma FlowKept(s: State, a: Action)
    requires Enabled(s, a) && Sound(s) && Accepted(s) == Delivered(s) + s.held
    ensures var t := Next(s, a); Sound(t) && Accepted(t) == Delivered(t) + t.held
  {
    hide Flow, ReadLocked, WriteLocked, Result, Posts;
    if a.RReturn? || a.WReturn? {
      FlowReturns(s, a);
    } else if a.WLock? {
      FlowWrites(s);
    } else if a.RLock? {
      FlowReads(s);
    }
  }

  lemma HonestReader(s: State, a: Action)
    requires Enabled(s, a) && Sound(s) && CallsHonest(s) && OfReader(a)
    ensures Sound(ReaderStep(s, a)) && CallsHonest(ReaderStep(s, a))
  {
    hide LogHonest, Honest, Result;
    if a.RReturn? {
      ResultHonest(s.r.n, s.r.got, s.r.ret);
      LogGrows(s.readLog, Call(s.r.n + |s.r.got|, Result(|s.r.got|, s.r.ret), s.r.got));
    }
  }

  lemma ResultHonest(n: nat, bytes: seq<Byte>, ret: int)
    requires Codes(ret, n)
    ensures Honest(Call(n + |bytes|, Result(|bytes|, ret), bytes))
  {
  }

  lemma HonestWriter(s: State, a: Action)
    requires Enabled(s, a) && Sound(s) && CallsHonest(s) && OfWriter(a)
    ensures Sound(WriterStep(s, a)) && CallsHonest(WriterStep(s, a))
  {
    hide LogHonest, Honest, Result;
    if a.WReturn? {
      ResultHonest(|s.w.data| - s.w.k, s.w.data[..s.w.k], s.w.ret);
      LogGrows(s.writeLog, Call(|s.w.data|, Result(s.w.k, s.w.ret), s.w.data[..s.w.k]));
    }
  }

  lemma HonestKept(s: State, a: Action)
    requires Enabled(s, a) && Sound(s) && CallsHonest(s)
    ensures Sound(Next(s, a)) && CallsHonest(Next(s, a))
  {
    hide LogHonest, ReaderHonest, WriterHonest, ReaderStep, WriterStep, Result, Posts;
    if OfReader(a) {
      HonestReader(s, a);
    } else if OfWriter(a) {
      HonestWriter(s, a);
    }
  }

  lemma WatchedByReader(s: State, a: Action)
    requires Enabled(s, a) && Sound(s) && CallsHonest(s) && ReaderWatched(s) && WriterWatched(s) && OfReader(a)
    ensures ReaderWatched(ReaderStep(s, a)) && WriterWatched(ReaderStep(s, a))
  {
    hide ReaderWatched, WriterWatched, ReaderStep, LogHonest, ReaderHonest, WriterHonest, OfReader;
    ReaderByReader(s, a);
    WriterByReader(s, a);
  }

  lemma ReaderByReader(s: State, a: Action)
    requires Enabled(s, a) && Sound(s) && ReaderHonest(s.r) && ReaderWatched(s) && OfReader(a)
    ensures ReaderWatched(ReaderStep(s, a))
  {
    hide Result, Codes;
  }

  lemma WriterByReader(s: State, a: Action)
    requires Enabled(s, a) && Sound(s) && ReaderHonest(s.r) && WriterWatched(s) && OfReader(a)
    ensures WriterWatched(ReaderStep(s, a))
  {
    hide Result, Codes;
  }

  lemma WatchedByWriter(s: State, a: Action)
    requires Enabled(s, a) && Sound(s) && CallsHonest(s) && ReaderWatched(s) && WriterWatched(s) && OfWriter(a)
    ensures ReaderWatched(WriterStep(s, a)) && WriterWatched(WriterStep(s, a))
  {
    hide LogHonest, Result, Codes;
  }

  lemma WatchedKept(s: State, a: Action)
    requires Enabled(s, a) && Sound(s) && CallsHonest(s) && ReaderWatched(s) && WriterWatched(s)
    ensures ReaderWatched(Next(s, a)) && WriterWatched(Next(s, a))
  {
    hide CallsHonest, ReaderStep, WriterStep, ReadSize;
    if OfReader(a) {
      WatchedByReader(s, a);
    } else if OfWriter(a) {
      WatchedByWriter(s, a);
    }
  }

  lemma AwakeKept(s: State, a: Action)
    requires Enabled(s, a) && Sound(s) && NotBothAsleep(s)
    ensures NotBothAsleep(Next(s, a))
  {
    hide Flow, LogHonest, Codes;
  }

  lemma EarlyKept(s: State, a: Action)
    requires Enabled(s, a) && Sound(s) && CallsHonest(s) && Early(s) && ReaderWatched(s)
    ensures Early(Next(s, a))
  {
    hide Flow, LogHonest, Codes;
  }

  lemma InvKept(s: State, a: Action)
    requires Enabled(s, a) && Inv(s)
    ensures Inv(Next(s, a))
  {
    hide Flow, Honest, Next, ReaderWatched, WriterWatched, NotBothAsleep, Early, CallsHonest;
    FlowKept(s, a);
    HonestKept(s, a);
    WatchedKept(s, a);
    AwakeKept(s, a);
    EarlyKept(s, a);
  }

  /** Inv holds after every run. */
  lemma {:induction false} InvAlways(s: State, run: seq<Action>, t: State)
    requires Inv(s) && Reaches(s, run, t)
    ensures Inv(t)
    decreases |run|
  {
    hide Inv, Next;
    if run != [] {
      InvKept(s, run[0]);
      InvAlways(Next(s, run[0]), run[1..], t);
    }
  }

  // ----- the bytes lie in a ring

  /** The array and the two pointers, which RingBuf.TakeOut and RingBuf.PutIn move. */
  datatype Ring = Ring(buf: seq<Byte>, p_r: nat, p_w: nat)

  /** The bytes held are those from p_r on; p_w is their number ahead, and both are in [0, size]. */
  ghost predicate OnRing(s: State, g: Ring) {
    && |g.buf| == s.size && |s.held| <= s.size && g.p_r <= s.size
    && g.p_w == Advance(s.size, g.p_r, |s.held|) && s.held == Held(g.buf, g.p_r, |s.held|)
  }

  /** What the step does to the ring. */
  function RingNext(g: Ring, s: State, a: Action): Ring
    requires Enabled(s, a) && Sound(s) && OnRing(s, g)
  {
    if a.RLock? then g.(p_r := Advance(s.size, g.p_r, ReadSize(|s.held|, s.r.n, s.flags.done)))
    else if a.WLock? then
      var m := WriteSize(s.size, |s.held|, |s.w.data| - s.w.k);
      g.(buf := Written(g.buf, g.p_w, s.w.data[s.w.k..s.w.k + m]), p_w := Advance(s.size, g.p_w, m))
    else g
  }

  lemma OnRingKept(s: State, a: Action, g: Ring)
    requires Enabled(s, a) && Sound(s) && OnRing(s, g)
    ensures OnRing(Next(s, a), RingNext(g, s, a))
  {
    hide Held, Written, ReadSize, WriteSize;
    if a.RLock? {
      OnRingRead(s, g);
    } else if a.WLock? {
      OnRingWritten(s, g);
    }
  }

  lemma OnRingRead(s: State, g: Ring)
    requires Enabled(s, RLock) && Sound(s) && OnRing(s, g)
    ensures OnRing(Next(s, RLock), RingNext(g, s, RLock))
  {
    hide Held, Written, ReadSize, WriteSize;
    HeldDrops(g.buf, g.p_r, |s.held|, ReadSize(|s.held|, s.r.n, s.flags.done));
  }

  lemma OnRingWritten(s: State, g: Ring)
    requires Enabled(s, WLock) && Sound(s) && OnRing(s, g)
    ensures OnRing(Next(s, WLock), RingNext(g, s, WLock))
  {
    hide Held, Written, ReadSize, WriteSize;
    var m := WriteSize(s.size, |s.held|, |s.w.data| - s.w.k);
    HeldGrows(g.buf, g.p_r, |s.held|, s.w.data[s.w.k..s.w.k + m]);
  }

  /** The ring after a run. */
  ghost predicate RingReaches(s: State, g: Ring, run: seq<Action>, t: State, h: Ring)
    decreases |run|
  {
    if run == [] then s == t && g == h
    else Enabled(s, run[0]) && Sound(s) && OnRing(s, g) && RingReaches(Next(s, run[0]), RingNext(g, s, run[0]), run[1..], t, h)
  }

  /** After every run the bytes held are in the ring, in order, p_w is congruent to p_r plus their number,
      and both pointers are in [0, size]. */
  lemma {:induction false} RingAlways(s: State, g: Ring, run: seq<Action>, t: State) returns (h: Ring)
    requires Reaches(s, run, t) && OnRing(s, g)
    ensures RingReaches(s, g, run, t, h) && OnRing(t, h)
    decreases |run|
  {
    hide Next, RingNext, OnRing;
    if run == [] {
      h := g;
    } else {
      OnRingKept(s, run[0], g);
      h := RingAlways(Next(s, run[0]), RingNext(g, s, run[0]), run[1..], t);
    }
  }

  /** The same from the start, whatever the array holds then. */
  lemma RingFromStart(buf: seq<Byte>, run: seq<Action>, t: State) returns (h: Ring)
    requires Reaches(Init(|buf|), run, t)
    ensures RingReaches(Init(|buf|), Ring(buf, 0, 0), run, t, h) && OnRing(t, h)
  {
    h := RingAlways(Init(|buf|), Ring(buf, 0, 0), run, t);
  }

  // ----- what holds after every run

  /** The bytes that finished and running calls accepted are those delivered, in order, followed by those
      in the buffer; and every return value but RB_ABORT tells how many bytes the call moved. */
  lemma BytesConserved(size: nat, run: seq<Action>, t: State)
    requires Reaches(Init(size), run, t)
    ensures Sound(t) && Accepted(t) == Delivered(t) + t.held
    ensures LogHonest(t.readLog) && LogHonest(t.writeLog)
  {
    hide Reaches, ReaderWatched, WriterWatched, Early, Flow, LogHonest;
    InitHolds(size);
    InvAlways(Init(size), run, t);
  }

  /** Whenever both sides wait, one of them can go on. */
  lemma NoDeadlock(size: nat, run: seq<Action>, t: State)
    requires Reaches(Init(size), run, t) && t.r.RWait? && t.w.WWait?
    ensures Enabled(t, RWake) || Enabled(t, WWake)
  {
    hide Reaches, ReaderWatched, WriterWatched, Early, Flow, LogHonest;
    InitHolds(size);
    InvAlways(Init(size), run, t);
  }

  /** A reader that waits on zero while nobody owes it a post has nothing to wake up for. */
  lemma ReaderNotForgotten(size: nat, run: seq<Action>, t: State)
    requires Reaches(Init(size), run, t) && t.r.RWait? && t.canRead == 0
    requires t.ctl.dones == t.ctl.unblocks == t.ctl.abortsA == 0
    requires t.w.WIdle? || t.w.WWait? || (!t.w.WStall? && t.w.k == 0)
    ensures !t.flags.done && !t.flags.abortRead && !t.flags.unblock && !BytesReady(t, t.r.n)
  {
    hide Reaches, WriterWatched, Early, Flow, LogHonest, BytesReady;
    InitHolds(size);
    InvAlways(Init(size), run, t);
  }

  /** What would end the writer's wait if it looked. */
  predicate WriterCouldGoOn(s: State) {
    |s.held| < s.size || s.flags.done || s.flags.abortWrite
  }

  /** A writer that waits on zero while nobody owes it a post could go on exactly when the end of the
      stream has been announced, because rb_done_write posts can_read only. */
  lemma WriterForgotten(size: nat, run: seq<Action>, t: State)
    requires Reaches(Init(size), run, t) && t.w.WWait? && t.canWrite == 0 && t.ctl.abortsC == 0
    requires t.r.RIdle? || t.r.RWait? || t.r.RClear? || (!t.r.RStall? && t.r.got == [])
    ensures |t.held| == t.size && !t.flags.abortWrite
    ensures WriterCouldGoOn(t) <==> t.flags.done
  {
    hide Reaches, ReaderWatched, Early, Flow, LogHonest;
    InitHolds(size);
    InvAlways(Init(size), run, t);
  }

  /** A call that starts after the end of the stream was announced never waits, and says RB_DONE only
      when it has looked into an empty buffer. */
  lemma EarlyReadsDrain(size: nat, run: seq<Action>, t: State)
    requires Reaches(Init(size), run, t) && !t.r.RIdle? && t.r.early
    ensures t.flags.done && !t.r.RStall? && !t.r.RWait?
    ensures t.r.RDone? ==> t.held == []
  {
    hide Reaches, ReaderWatched, WriterWatched, Flow, LogHonest;
    InitHolds(size);
    InvAlways(Init(size), run, t);
  }

  /** A call that is about to say RB_DONE over bytes started before the end was announced, and they are
      fewer than a word and than it asks for. */
  lemma LateDoneLeavesFew(size: nat, run: seq<Action>, t: State)
    requires Reaches(Init(size), run, t) && t.r.RDone? && t.flags.done && t.held != []
    ensures !t.r.early && |t.held| < 4 && |t.held| < t.r.n
  {
    hide Reaches, WriterWatched, Flow, LogHonest;
    InitHolds(size);
    InvAlways(Init(size), run, t);
  }

  // ----- no livelock

  /** A step of a thread inside a call, moving no byte. */
  predicate Spins(s: State, a: Action)
    requires Enabled(s, a) && Sound(s)
  {
    (OfReader(a) || OfWriter(a)) && !a.ReadCall? && !a.WriteCall? && Next(s, a).held == s.held
  }

  /** While there is space, the reader may go round once for each post, but the writer cannot. */
  function ReaderRank(r: Reader): nat {
    match r
    case RIdle => 0 case RClear(_, _, _, _) => 1 case RExit(_, _, _, _) => 2 case RWait(_, _, _) => 3 case RStall(_,
        _, _) => 4
    case RUnblock(_, _, _) => 5 case RAbort(_, _, _) => 6 case RDone(_, _, _) => 7 case RLoop(_, _, _) => 8
  }

  function WriterOnce(w: Writer): nat {
    match w
    case WIdle => 0 case WExit(_, _, _) => 1 case WLoop(_, _) => 2 case WWait(_, _) => 3 case WStall(_, _) => 4
    case WAbort(_, _) => 0 case WDone(_, _) => 0
  }

  /** When the buffer is full, it is the other way round. */
  function ReaderOnce(r: Reader): nat {
    match r
    case RIdle => 0 case RClear(_, _, _, _) => 1 case RExit(_, _, _, _) => 2 case RLoop(_, _, _) => 3 case RWait(_,
        _, _) => 4
    case RStall(_, _, _) => 5 case _ => 0
  }

  function WriterRank(w: Writer): nat {
    match w
    case WIdle => 0 case WExit(_, _, _) => 1 case WWait(_, _) => 2 case WStall(_, _) => 3 case WAbort(_, _) => 4
    case WDone(_, _) => 5 case WLoop(_, _) => 6
  }

  function Measure(s: State): nat {
    if |s.held| < s.size then ReaderRank(s.r) + 6 * s.canRead + 7 * WriterOnce(s.w)
    else WriterRank(s.w) + 5 * s.canWrite + 6 * ReaderOnce(s.r)
  }

  lemma ReaderSpinsDown(s: State, a: Action)
    requires Enabled(s, a) && Sound(s) && ReaderWatched(s) && ReaderHonest(s.r) && s.size >= 4
    requires OfReader(a) && !a.ReadCall? && ReaderStep(s, a).held == s.held
    ensures Measure(ReaderStep(s, a)) < Measure(s)
  {
    hide Result, Codes, WriterRank, WriterOnce;
  }

  lemma WriterSpinsDown(s: State, a: Action)
    requires Enabled(s, a) && Sound(s) && WriterWatched(s) && WriterHonest(s.w) && s.size >= 4
    requires OfWriter(a) && !a.WriteCall? && WriterStep(s, a).held == s.held
    ensures Measure(WriterStep(s, a)) < Measure(s)
  {
    hide Result, Codes, ReaderRank, ReaderOnce;
  }

  lemma SpinsDown(s: State, a: Action)
    requires Inv(s) && Enabled(s, a) && s.size >= 4 && Spins(s, a)
    ensures Measure(Next(s, a)) < Measure(s)
  {
    hide Accepted, Delivered, ReaderWatched, WriterWatched, NotBothAsleep, Early, ReaderHonest, WriterHonest,
        ReaderStep, WriterStep, Measure;
    if OfReader(a) {
      ReaderSpinsDown(s, a);
    } else {
      WriterSpinsDown(s, a);
    }
  }

  ghost predicate AllSpin(s: State, run: seq<Action>)
    decreases |run|
  {
    run == [] || (Enabled(s, run[0]) && Sound(s) && Spins(s, run[0]) && AllSpin(Next(s, run[0]), run[1..]))
  }

  /** With a buffer of four bytes or more, the two threads move a byte or are both back from their calls
      after a bounded number of steps, unless control calls go on. */
  lemma {:induction false} NoLivelock(s: State, run: seq<Action>)
    requires Inv(s) && s.size >= 4 && AllSpin(s, run)
    ensures |run| <= Measure(s)
    decreases |run|
  {
    hide Inv, Next, Spins, Measure;
    if run != [] {
      SpinsDown(s, run[0]);
      InvKept(s, run[0]);
      SizeKept(s, run[0]);
      NoLivelock(Next(s, run[0]), run[1..]);
    }
  }

  lemma SizeKept(s: State, a: Action)
    requires Enabled(s, a) && Sound(s)
    ensures Next(s, a).size == s.size
  {
  }

  // ----- runs that show the limits

  ghost predicate Path(s: State, run: seq<Action>, t: State, spinning: bool) {
    Reaches(s, run, t) && (spinning ==> AllSpin(s, run))
  }

  lemma Nowhere(s: State)
    ensures Path(s, [], s, true)
  {
  }

  lemma {:induction false} Then(s0: State, run: seq<Action>, s: State, a: Action, t: State,
                                spinning: bool) returns (longer: seq<Action>)
    requires Path(s0, run, s, spinning)
    requires Enabled(s, a) && Sound(s) && Next(s, a) == t && (spinning ==> Spins(s, a))
    ensures longer == run + [a] && Path(s0, longer, t, spinning)
    decreases |run|
  {
    hide Next, Spins;
    longer := run + [a];
    if run == [] {
      assert longer[1..] == [];
      Nowhere(t);
    } else {
      var rest := Then(Next(s0, run[0]), run[1..], s, a, t, spinning);
      assert longer[1..] == rest;
    }
  }

  /** A control call without steps of others in between does what the function does for one caller, from every
      state, and nothing else. */
  lemma DoneAlone(s: State)
    requires Sound(s)
    ensures Path(s, [SetDone, PostDone], s.(flags := s.flags.(done := true), canRead := s.canRead + 1), false)
  {
    hide Path, LogHonest, Flow;
    Nowhere(s);
    NoSpin(s, [], s);
    var u := s.(flags := s.flags.(done := true), ctl := s.ctl.(dones := s.ctl.dones + 1));
    var run := Then(s, [], s, SetDone, u, false);
    run := Then(s, run, u, PostDone, s.(flags := s.flags.(done := true), canRead := s.canRead + 1), false);
    assert run == [SetDone, PostDone];
  }

  lemma UnblockAlone(s: State)
    requires Sound(s)
    ensures Path(s, [SetUnblock, PostUnblock], s.(flags := s.flags.(unblock := true), canRead := s.canRead + 1), false)
  {
    hide Path, LogHonest, Flow;
    Nowhere(s);
    NoSpin(s, [], s);
    var u := s.(flags := s.flags.(unblock := true), ctl := s.ctl.(unblocks := s.ctl.unblocks + 1));
    var run := Then(s, [], s, SetUnblock, u, false);
    run := Then(s, run, u, PostUnblock, s.(flags := s.flags.(unblock := true), canRead := s.canRead + 1), false);
    assert run == [SetUnblock, PostUnblock];
  }

  lemma AbortAlone(s: State)
    requires Sound(s)
    ensures Path(s, [SetAbortRead, PostAbortRead, SetAbortWrite, PostAbortWrite],
                 s.(flags := s.flags.(abortRead := true, abortWrite := true), canRead := s.canRead + 1,
                    canWrite := s.canWrite + 1), false)
  {
    hide Path, LogHonest, Flow, Next;
    Nowhere(s);
    NoSpin(s, [], s);
    var u := s.(flags := s.flags.(abortRead := true), ctl := s.ctl.(abortsA := s.ctl.abortsA + 1));
    AbortSteps(s);
    var run := Then(s, [], s, SetAbortRead, u, false);
    run := Then(s, run, u, PostAbortRead, HalfAborted(s), false);
    run := AbortsWriter(s, run, s);
    assert run == [SetAbortRead, PostAbortRead, SetAbortWrite, PostAbortWrite];
  }

  function HalfAborted(s: State): State {
    s.(flags := s.flags.(abortRead := true), canRead := s.canRead + 1, ctl := s.ctl.(abortsB := s.ctl.abortsB + 1))
  }

  lemma AbortSteps(s: State)
    requires Sound(s)
    ensures var u := s.(flags := s.flags.(abortRead := true), ctl := s.ctl.(abortsA := s.ctl.abortsA + 1));
            Next(s, SetAbortRead) == u && Next(u, PostAbortRead) == HalfAborted(s)
  {
  }

  lemma AbortsWriter(s0: State, run: seq<Action>, s: State) returns (longer: seq<Action>)
    requires Path(s0, run, HalfAborted(s), false) && Sound(s)
    ensures longer == run + [SetAbortWrite] + [PostAbortWrite]
    ensures Path(s0, longer, s.(flags := s.flags.(abortRead := true, abortWrite := true), canRead := s.canRead + 1,
                                canWrite := s.canWrite + 1), false)
  {
    hide Path, LogHonest, Flow;
    var v := s.(flags := s.flags.(abortRead := true, abortWrite := true), canRead := s.canRead + 1);
    var u := v.(ctl := s.ctl.(abortsC := s.ctl.abortsC + 1));
    longer := Then(s0, run, HalfAborted(s), SetAbortWrite, u, false);
    longer := Then(s0, longer, u, PostAbortWrite, v.(canWrite := s.canWrite + 1), false);
  }

  lemma NoSpin(s: State, run: seq<Action>, t: State)
    requires Path(s, run, t, true)
    ensures Path(s, run, t, false)
  {
  }

  lemma WriterSees(s0: State, run: seq<Action>, s: State, spinning: bool) returns (longer: seq<Action>)
    requires Path(s0, run, s, spinning) && Sound(s)
    requires s.w.WLoop? && |s.held| == s.size && !ReaderLocks(s.r) && !s.flags.done && s.w.k < |s.w.data|
    ensures |longer| == |run| + 2 && Path(s0, longer, s.(w := WAbort(s.w.data, s.w.k)), spinning)
  {
    hide Path, LogHonest, Flow;
    var (d, k) := (s.w.data, s.w.k);
    longer := Then(s0, run, s, WLock, s.(w := WDone(d, k)), spinning);
    longer := Then(s0, longer, s.(w := WDone(d, k)), WSeeDone, s.(w := WAbort(d, k)), spinning);
  }

  lemma WriterWaits(s0: State, run: seq<Action>, s: State, spinning: bool) returns (longer: seq<Action>)
    requires Path(s0, run, s, spinning) && Sound(s)
    requires s.w.WAbort? && !s.flags.abortWrite
    ensures |longer| == |run| + 2 && Path(s0, longer, s.(w := WWait(s.w.data, s.w.k), canRead := s.canRead + 1), spinning)
  {
    hide Path, LogHonest, Flow;
    var (d, k) := (s.w.data, s.w.k);
    longer := Then(s0, run, s, WSeeAbort, s.(w := WStall(d, k)), spinning);
    longer := Then(s0, longer, s.(w := WStall(d, k)), WPost, s.(w := WWait(d, k), canRead := s.canRead + 1), spinning);
  }

  lemma ReaderSees(s0: State, run: seq<Action>, s: State, spinning: bool) returns (longer: seq<Action>)
    requires Path(s0, run, s, spinning) && Sound(s)
    requires s.r.RLoop? && |s.held| < 4 && |s.held| < s.r.n && !WriterLocks(s.w) && !s.flags.done
    ensures |longer| == |run| + 2 && Path(s0, longer, s.(r := RAbort(s.r.n, s.r.got, s.r.early)), spinning)
  {
    hide Path, LogHonest, Flow;
    var (n, got, early) := (s.r.n, s.r.got, s.r.early);
    longer := Then(s0, run, s, RLock, s.(r := RDone(n, got, early)), spinning);
    longer := Then(s0, longer, s.(r := RDone(n, got, early)), RSeeDone, s.(r := RAbort(n, got, early)), spinning);
  }

  lemma ReaderWaits(s0: State, run: seq<Action>, s: State, spinning: bool) returns (longer: seq<Action>)
    requires Path(s0, run, s, spinning) && Sound(s) && s.r.RAbort? && !s.flags.abortRead && !s.flags.unblock
    ensures |longer| == |run| + 3
    ensures Path(s0, longer, s.(r := RWait(s.r.n, s.r.got, s.r.early), canWrite := s.canWrite + 1), spinning)
  {
    hide Path, LogHonest, Flow;
    var (n, got, early) := (s.r.n, s.r.got, s.r.early);
    longer := Then(s0, run, s, RSeeAbort, s.(r := RUnblock(n, got, early)), spinning);
    longer := Then(s0, longer, s.(r := RUnblock(n, got, early)), RSeeUnblock, s.(r := RStall(n, got, early)), spinning);
    longer := Then(s0, longer, s.(r := RStall(n, got, early)), RPost,
                   s.(r := RWait(n, got, early), canWrite := s.canWrite + 1), spinning);
  }

  /** With a buffer smaller than a word, full, and a reader who asks for more than it holds, the two wake
      each other up for ever: the run ends where it began. */
  lemma SmallBufferSpins(s: State) returns (run: seq<Action>)
    requires Sound(s) && s.size < 4 && |s.held| == s.size
    requires s.r.RLoop? && s.w.WLoop? && s.r.n > s.size && s.w.k < |s.w.data|
    requires !s.flags.done && !s.flags.abortRead && !s.flags.abortWrite && !s.flags.unblock
    ensures |run| == 11 && AllSpin(s, run) && Reaches(s, run, s)
  {
    hide Reaches, AllSpin, LogHonest, Flow;
    var (n, got, early, d, k) := (s.r.n, s.r.got, s.r.early, s.w.data, s.w.k);
    Nowhere(s);
    run := ReaderSees(s, [], s, true);
    run := ReaderWaits(s, run, s.(r := RAbort(n, got, early)), true);
    var s1 := s.(r := RWait(n, got, early), canWrite := s.canWrite + 1);
    run := WriterSees(s, run, s1, true);
    run := WriterWaits(s, run, s1.(w := WAbort(d, k)), true);
    var s2 := s1.(w := WWait(d, k), canRead := s.canRead + 1);
    var s3 := s2.(r := RLoop(n, got, early), canRead := s.canRead);
    run := Then(s, run, s2, RWake, s3, true);
    run := Then(s, run, s3, WWake, s, true);
  }

  /** A call writes d into the empty buffer and is at its next locked section or its end. */
  lemma Fills(size: nat, d: seq<Byte>) returns (run: seq<Action>)
    requires d != [] && size > 0
    ensures Path(Init(size), run, Filled(size, d), false)
  {
    hide Path, LogHonest, Flow;
    var s0, m := Init(size), WriteSize(size, 0, |d|);
    assert s0.held + d[0..m] == d[..m];
    assert Path(s0, [], s0, false) by { Nowhere(s0); FewerDemands(s0, [], s0); }
    run := Then(s0, [], s0, WriteCall(d), s0.(w := WLoop(d, 0)), false);
    run := Then(s0, run, s0.(w := WLoop(d, 0)), WLock, Filled(size, d), false);
  }

  function Filled(size: nat, d: seq<Byte>): State {
    var m := WriteSize(size, 0, |d|);
    Init(size).(held := d[..m], w := if m == |d| then WExit(d, m, 0) else WLoop(d, m))
  }

  /** Such a state is reached from the start with every buffer of one to three bytes. */
  lemma SmallBufferReached(size: nat) returns (before: seq<Action>, s: State, cycle: seq<Action>)
    requires 0 < size < 4
    ensures Reaches(Init(size), before, s) && |cycle| == 11 && AllSpin(s, cycle) && Reaches(s, cycle, s)
  {
    hide Reaches, AllSpin, LogHonest, Flow;
    var d: seq<Byte> := seq(size + 1, _ => 0);
    before := Fills(size, d);
    var t := Filled(size, d);
    s := t.(r := RLoop(size + 1, [], false));
    before := Then(Init(size), before, t, ReadCall(size + 1), s, false);
    cycle := SmallBufferSpins(s);
  }

  lemma FewerDemands(s: State, run: seq<Action>, t: State)
    requires Path(s, run, t, true)
    ensures Path(s, run, t, false)
  {
  }

  /** The writer waits behind a full buffer and is not told that the stream was ended. */
  lemma DoneForgetsWriter() returns (run: seq<Action>, t: State)
    ensures Reaches(Init(4), run, t) && t.w.WWait? && t.r.RIdle?
    ensures WriterCouldGoOn(t) && !WriterWillWake(t) && !ReaderOwes(t) && !ControlOwesRead(t)
  {
    hide Reaches, AllSpin, LogHonest, Flow;
    var d: seq<Byte> := [1, 2, 3, 4, 5];
    var s0 := Init(4);
    var full := s0.(held := d[..4], w := WLoop(d, 4));
    run := Fills(4, d);
    run := WriterSees(s0, run, full, false);
    run := WriterWaits(s0, run, full.(w := WAbort(d, 4)), false);
    var ended := Flags(true, false, false, false);
    var waits := full.(w := WWait(d, 4), canRead := 1);
    run := Then(s0, run, waits, SetDone, waits.(flags := ended, ctl := Control(1, 0, 0, 0, 0)), false);
    t := waits.(flags := ended, canRead := 2);
    run := Then(s0, run, waits.(flags := ended, ctl := Control(1, 0, 0, 0, 0)), PostDone, t, false);
  }

  /** And the other way round: whenever one to three bytes are held and the reader and the lock are free, a
      call that asks for more returns RB_DONE over them if the end is announced between its two looks. The
      next call takes them (EarlyReadsDrain). */
  lemma DoneLeavesBytes(s0: State, before: seq<Action>, s: State, n: nat) returns (run: seq<Action>, t: State)
    requires Path(s0, before, s, false) && Sound(s)
    requires s.r == RIdle && !WriterLocks(s.w) && !s.flags.done && 0 < |s.held| < 4 && |s.held| < n
    ensures Reaches(s0, run, t) && t.held == s.held && t.readLog == s.readLog + [Call(n, RB_DONE, [])]
  {
    hide Path, LogHonest, Flow;
    run := ReadsTooEarly(s0, before, s, n);
    var u := s.(flags := s.flags.(done := true), ctl := s.ctl.(dones := s.ctl.dones + 1));
    run := ReadsTheEnd(s0, run, u, n);
    t := u.(flags := u.flags.(unblock := false), readLog := u.readLog + [Call(n, RB_DONE, [])]);
    PathReaches(s0, run, t);
  }

  lemma PathReaches(s: State, run: seq<Action>, t: State)
    requires Path(s, run, t, false)
    ensures Reaches(s, run, t)
  {
  }

  /** Two bytes written and a read of four. */
  lemma DoneLeavesTwoBytes() returns (run: seq<Action>, t: State)
    ensures Reaches(Init(4), run, t) && t.held == [1, 2] && t.readLog == [Call(4, RB_DONE, [])]
  {
    hide Path, LogHonest, Flow;
    var d: seq<Byte> := [1, 2];
    run := Fills(4, d);
    var s := Init(4).(held := d, canRead := 1, writeLog := [Call(2, 2, d)]);
    assert d[..2] == d;
    run := Then(Init(4), run, Filled(4, d), WReturn, s, false);
    run, t := DoneLeavesBytes(Init(4), run, s, 4);
  }

  lemma ReadsTooEarly(s0: State, run: seq<Action>, s: State, n: nat) returns (longer: seq<Action>)
    requires Sound(s) && s.r == RIdle && !WriterLocks(s.w) && !s.flags.done && 0 < |s.held| < 4 && |s.held| < n
    requires Path(s0, run, s, false)
    ensures var ended := s.(flags := s.flags.(done := true), ctl := s.ctl.(dones := s.ctl.dones + 1));
            Path(s0, longer, ended.(r := RDone(n, [], false)), false)
  {
    hide Path, LogHonest, Flow;
    var ended := s.(flags := s.flags.(done := true), ctl := s.ctl.(dones := s.ctl.dones + 1));
    longer := Then(s0, run, s, ReadCall(n), s.(r := RLoop(n, [], false)), false);
    longer := Then(s0, longer, s.(r := RLoop(n, [], false)), RLock, s.(r := RDone(n, [], false)), false);
    longer := Then(s0, longer, s.(r := RDone(n, [], false)), SetDone, ended.(r := RDone(n, [], false)), false);
  }

  lemma ReadsTheEnd(s0: State, run: seq<Action>, u: State, n: nat) returns (longer: seq<Action>)
    requires Sound(u) && u.flags.done && u.r == RIdle
    requires Path(s0, run, u.(r := RDone(n, [], false)), false)
    ensures Path(s0, longer, u.(flags := u.flags.(unblock := false), readLog := u.readLog + [Call(n, RB_DONE, [])]), false)
  {
    hide Path, LogHonest, Flow;
    var t := u.(flags := u.flags.(unblock := false), readLog := u.readLog + [Call(n, RB_DONE, [])]);
    var exits, clears := RExit(n, [], false, RB_DONE), RClear(n, [], false, RB_DONE);
    longer := Then(s0, run, u.(r := RDone(n, [], false)), RSeeDone, u.(r := exits), false);
    longer := Then(s0, longer, u.(r := exits), RFinish, u.(r := clears), false);
    longer := Then(s0, longer, u.(r := clears), RReturn, t, false);
  }
}
