/** The life cycle of an element with a task: commands, results of open and process, and API calls as
    atomic steps. */
module Element {

  datatype State = NONE | INIT | INITIALIZING | RUNNING | PAUSED | STOPPED | FINISHED | ERROR

  datatype Cmd = FINISH | STOP | PAUSE | RESUME | DESTROY

  datatype Bit = STOPPED_BIT | STARTED_BIT | TASK_CREATED_BIT | TASK_DESTROYED_BIT | PAUSED_BIT | RESUMED_BIT

  /** How long the element's task waits for a command: not at all, or for ever. */
  datatype Wait = NoWait | MaxDelay

  const ESP_OK := 0
  const ESP_FAIL := -1
  const ESP_ERR_INVALID_STATE := 0x103
  const ESP_ERR_TIMEOUT := 0x107
  const AEL_IO_OK := 0
  const AEL_IO_FAIL := -1
  const AEL_IO_DONE := -2
  const AEL_IO_ABORT := -3
  const AEL_PROCESS_FAIL := -5

  function Rank(s: State): nat {
    match s
    case NONE => 0 case INIT => 1 case INITIALIZING => 2 case RUNNING => 3
    case PAUSED => 4 case STOPPED => 5 case FINISHED => 6 case ERROR => 7
  }

  // ----- the calls of an element's functions

  datatype Event = Open | Process | Close

  /** Whether the element is open after the calls, or None when they break the rules: open only what is
      closed, process and close only what is open. */
  datatype Openness = Broken | Is(open: bool)

  function After(trace: seq<Event>): Openness {
    if trace == [] then Is(false)
    else
      match After(trace[..|trace| - 1])
      case Broken => Broken
      case Is(open) =>
        match trace[|trace| - 1]
        case Open => if open then Broken else Is(true)
        case Process => if open then Is(true) else Broken
        case Close => if open then Is(false) else Broken
  }

  function Count(trace: seq<Event>, e: Event): nat {
    if trace == [] then 0 else Count(trace[..|trace| - 1], e) + if trace[|trace| - 1] == e then 1 else 0
  }

  /** Calls that keep the rules alternate between open and close. */
  lemma {:induction false} OpensAndCloses(trace: seq<Event>)
    requires After(trace).Is?
    ensures Count(trace, Open) == Count(trace, Close) + if After(trace).open then 1 else 0
  {
    if trace != [] {
      OpensAndCloses(trace[..|trace| - 1]);
    }
  }

  /** Every process call has an open call before it, and no close call between the two. */
  lemma {:induction false} ProcessedWhileOpen(trace: seq<Event>, k: nat) returns (i: nat)
    requires After(trace).Is? && k < |trace| && trace[k] == Process
    ensures i < k && trace[i] == Open && forall j | i < j <= k :: trace[j] == Process
    decreases |trace|
  {
    var rest := trace[..|trace| - 1];
    if k < |trace| - 1 {
      i := ProcessedWhileOpen(rest, k);
    } else {
      i := LastOpen(rest);
    }
  }

  lemma {:induction false} LastOpen(trace: seq<Event>) returns (i: nat)
    requires After(trace) == Is(true)
    ensures i < |trace| && trace[i] == Open && forall j | i < j < |trace| :: trace[j] == Process
  {
    if trace[|trace| - 1] == Open {
      i := |trace| - 1;
    } else {
      i := LastOpen(trace[..|trace| - 1]);
    }
  }

  lemma AfterNext(trace: seq<Event>, e: Event)
    ensures After(trace + [e]) ==
            match After(trace)
            case Broken => Broken
            case Is(open) =>
              match e
              case Open => if open then Broken else Is(true)
              case Process => if open then Is(true) else Broken
              case Close => if open then Is(false) else Broken
  {
    assert (trace + [e])[..|trace|] == trace;
  }

  /** The task comes to such a command before it is told to end. */
  predicate Reaches(queue: seq<Cmd>, cmd: Cmd) {
    exists k {:trigger queue[k]} | 0 <= k < |queue| :: queue[k] == cmd && DESTROY !in queue[..k]
  }

  /** The commands that the task comes to in n rounds. */
  function Within(queue: seq<Cmd>, n: nat): seq<Cmd> {
    if n < |queue| then queue[..n] else queue
  }

  /** One of them is this command, or the one that ends the task. */
  predicate Ends(queue: seq<Cmd>, cmd: Cmd) {
    cmd in queue || DESTROY in queue
  }

  lemma ReachesTail(queue: seq<Cmd>, cmd: Cmd)
    requires queue != [] && cmd != DESTROY
    ensures Reaches(queue, cmd) <==> queue[0] == cmd || (queue[0] != DESTROY && Reaches(queue[1..], cmd))
  {
    var rest := queue[1..];
    forall k | 1 <= k < |queue|
      ensures queue[k] == rest[k - 1] && (DESTROY in queue[..k] <==> queue[0] == DESTROY || DESTROY in rest[..k - 1])
    {
      assert queue[..k] == [queue[0]] + rest[..k - 1];
    }
    if Reaches(rest, cmd) && queue[0] != DESTROY {
      var k :| 0 <= k < |rest| && rest[k] == cmd && DESTROY !in rest[..k];
      assert queue[k + 1] == cmd;
    }
  }

  lemma WithinNone(queue: seq<Cmd>, n: nat)
    ensures n == 0 || queue == [] ==> Within(queue, n) == []
    ensures !Reaches([], PAUSE)
  {
  }

  /** One round more: the first command and what the rest of the rounds come to. */
  lemma WithinTail(queue: seq<Cmd>, n: nat)
    requires n > 0
    ensures queue == [] ==> Within(queue, n) == Within(queue, n - 1) == [] && !Reaches([], PAUSE)
    ensures queue != [] ==>
              var now, rest := Within(queue, n), Within(queue[1..], n - 1);
              && (Reaches(now, PAUSE) <==> queue[0] == PAUSE || (queue[0] != DESTROY && Reaches(rest, PAUSE)))
              && forall c :: c in now <==> c == queue[0] || c in rest
  {
    if queue != [] {
      var now, rest := Within(queue, n), Within(queue[1..], n - 1);
      assert now == [queue[0]] + rest && now[1..] == rest;
      ReachesTail(now, PAUSE);
    }
  }

  /** The results of the open function after which an element runs. */
  predicate Opens(openRet: int) {
    openRet == ESP_OK || openRet == AEL_IO_DONE
  }

  // ----- what a command does to an element that is open exactly while it is running

  function StateOf(cmd: Cmd, state: State, openRet: int): State {
    match cmd
    case FINISH => if state == ERROR || state == STOPPED then state else FINISHED
    case STOP => STOPPED
    case PAUSE => PAUSED
    case RESUME =>
      if state == RUNNING || Opens(openRet) then RUNNING else if openRet == AEL_IO_ABORT then STOPPED else ERROR
    case DESTROY => state
  }

  function EventsOf(cmd: Cmd, state: State, openRet: int): seq<Event> {
    match cmd
    case FINISH => if state == RUNNING then [Close] else []
    case STOP => if state == RUNNING then [Close] else []
    case PAUSE => if state == RUNNING then [Close] else []
    case RESUME => if state == RUNNING then [] else if Opens(openRet) then [Open] else [Open, Close]
    case DESTROY => []
  }

  function BitsOf(cmd: Cmd, state: State, openRet: int, bits: set<Bit>): set<Bit> {
    match cmd
    case FINISH => if state == ERROR || state == STOPPED then bits else bits + {STOPPED_BIT}
    case STOP => bits + {STOPPED_BIT}
    case PAUSE => bits + {PAUSED_BIT}
    case RESUME =>
      if state == RUNNING then bits + {RESUMED_BIT}
      else if openRet == ESP_OK then bits + {RESUMED_BIT, STARTED_BIT} - {STOPPED_BIT}
      else if Opens(openRet) then bits + {RESUMED_BIT} - {STOPPED_BIT}
      else bits + {RESUMED_BIT, STOPPED_BIT}
    case DESTROY => bits
  }

  /** What a round adds to the calls: those of the command and, if the element then runs, one process call, which
      is followed by a close call unless it goes on running. The end of the task closes what is open. */
  function RoundEvents(queue: seq<Cmd>, state: State, open1: int, procRet: int): seq<Event> {
    if queue != [] && queue[0] == DESTROY then (if state == RUNNING then [Close] else [])
    else (if queue == [] then [] else EventsOf(queue[0], state, open1)) +
         if RoundStart(queue, state, open1) != RUNNING then []
         else if StateAfter(procRet) == RUNNING then [Process] else [Process, Close]
  }

  /** The state in which the element comes to process. */
  function RoundStart(queue: seq<Cmd>, state: State, open1: int): State {
    if queue == [] then state else StateOf(queue[0], state, open1)
  }

  function RoundState(queue: seq<Cmd>, state: State, open1: int, procRet: int): State {
    var started := RoundStart(queue, state, open1);
    if started != RUNNING then started
    else if queue != [] && queue[0] == DESTROY then STOPPED else StateAfter(procRet)
  }

  /** Where resume sends a command. */
  predicate Resumable(s: State) {
    s != RUNNING && s != ERROR && s != FINISHED
  }

  class Element {
    var state: State
    var is_open: bool
    var is_running: bool
    var stopping: bool
    var task_run: bool
    var bits: set<Bit>
    var wait_time: Wait
    var queue: seq<Cmd>
    const capacity: nat
    ghost var trace: seq<Event>

    /** The element's functions have been called by the rules. */
    ghost predicate Ruled()
      reads this
    {
      After(trace) == Is(is_open)
    }

    /** What holds between two steps. */
    ghost predicate Valid()
      reads this
    {
      && Ruled() && |queue| <= capacity
      && (task_run ==>
            && state != NONE && state != INITIALIZING
            && (state == RUNNING <==> is_open) && (is_open <==> is_running) && (is_running <==> wait_time == NoWait)
            && (STOPPED_BIT in bits ==> !is_running)
            && (state == STOPPED || state == FINISHED || state == ERROR ==> STOPPED_BIT in bits)
            && (stopping ==> STOP in queue))
      && (!task_run ==> !is_open && !is_running && !stopping)
    }

    constructor (capacity: nat)
      ensures Valid() && !task_run && state == INIT && trace == [] && this.capacity == capacity
    {
      state, is_open, is_running, stopping, task_run := INIT, false, false, false, false;
      bits, wait_time, queue, trace := {}, MaxDelay, [], [];
      this.capacity := capacity;
    }

    // ----- handlers, run by the element's task

    method process_deinit()
      modifies this`is_open, this`trace
      ensures !is_open && (old(Ruled()) ==> Ruled())
      ensures trace == if old(is_open) then old(trace) + [Close] else old(trace)
    {
      if is_open {
        AfterNext(trace, Close);
        trace := trace + [Close];
      }
      is_open := false;
    }

    method on_cmd_error()
      modifies this`is_open, this`trace, this`state, this`wait_time, this`is_running, this`bits
      ensures old(Ruled()) ==> Ruled()
      ensures old(state) != STOPPED ==>
                && state == ERROR && !is_open && !is_running && wait_time == MaxDelay && bits == old(bits) + {STOPPED_BIT}
                && trace == (if old(is_open) then old(trace) + [Close] else old(trace))
      ensures old(state) == STOPPED ==> unchanged(this)
    {
      if state != STOPPED {
        process_deinit();
        state := ERROR;
        wait_time := MaxDelay;
        is_running := false;
        bits := bits + {STOPPED_BIT};
      }
    }

    method on_cmd_stop()
      modifies this`is_open, this`trace, this`state, this`wait_time, this`is_running, this`stopping, this`bits
      ensures (old(Ruled()) ==> Ruled()) && state == STOPPED && !is_running && !stopping
      ensures old(state) != FINISHED && old(state) != STOPPED ==>
                && !is_open && wait_time == MaxDelay && bits == old(bits) + {STOPPED_BIT}
                && trace == (if old(is_open) then old(trace) + [Close] else old(trace))
      ensures old(state) == FINISHED || old(state) == STOPPED ==>
                && is_open == old(is_open) && wait_time == old(wait_time) && trace == old(trace)
                && bits == if old(state) == STOPPED && !old(is_running) then old(bits) else old(bits) + {STOPPED_BIT}
    {
      if state != FINISHED && state != STOPPED {
        process_deinit();
        state := STOPPED;
        wait_time := MaxDelay;
        is_running := false;
        stopping := false;
        bits := bits + {STOPPED_BIT};
      } else {
        // nothing runs any more
        if !is_running && state == STOPPED {
          stopping := false;
          return;
        }
        state := STOPPED;
        is_running := false;
        stopping := false;
        bits := bits + {STOPPED_BIT};
      }
    }

    method on_cmd_finish()
      modifies this`is_open, this`trace, this`state, this`wait_time, this`is_running, this`bits
      ensures old(Ruled()) ==> Ruled()
      ensures old(state) == ERROR || old(state) == STOPPED ==> unchanged(this)
      ensures old(state) != ERROR && old(state) != STOPPED ==>
                && state == FINISHED && !is_open && !is_running && wait_time == MaxDelay
                    && bits == old(bits) + {STOPPED_BIT}
                && trace == (if old(is_open) then old(trace) + [Close] else old(trace))
    {
      if state == ERROR || state == STOPPED {
        return;
      }
      process_deinit();
      state := FINISHED;
      wait_time := MaxDelay;
      is_running := false;
      bits := bits + {STOPPED_BIT};
    }

    /** Open the element; openRet is what its open function returns. A failed open is closed again. */
    method process_init(openRet: int) returns (ret: int)
      modifies this`is_open, this`trace, this`state, this`wait_time, this`is_running, this`stopping, this`bits
      ensures old(Ruled()) && !old(is_open) ==> Ruled()
      ensures ret == if Opens(openRet) then ESP_OK else ESP_FAIL
      ensures ret == ESP_OK ==>
                && state == RUNNING && is_open && trace == old(trace) + [Open]
                && is_running == old(is_running) && wait_time == old(wait_time) && stopping == old(stopping)
                && bits == (if openRet == ESP_OK then old(bits) + {STARTED_BIT} else old(bits))
      ensures ret == ESP_FAIL ==>
                && state == (if openRet == AEL_IO_ABORT then STOPPED else ERROR) && !is_open && !is_running
                && trace == old(trace) + [Open, Close] && wait_time == MaxDelay && bits == old(bits) + {STOPPED_BIT}
                && stopping == (openRet != AEL_IO_ABORT && old(stopping))
    {
      is_open := true;
      state := INITIALIZING;
      AfterNext(trace, Open);
      trace := trace + [Open];
      assert trace + [Close] == old(trace) + [Open, Close];
      if openRet == ESP_OK {
        state := RUNNING;
        bits := bits + {STARTED_BIT};
        return ESP_OK;
      } else if openRet == AEL_IO_DONE {
        state := RUNNING;
        return ESP_OK;
      } else if openRet == AEL_IO_ABORT {
        on_cmd_stop();
      } else {
        state := ERROR;
        on_cmd_error();
      }
      ret := ESP_FAIL;
    }

    method on_cmd_resume(openRet: int) returns (ret: int)
      modifies this`is_open, this`trace, this`state, this`wait_time, this`is_running, this`stopping, this`bits
      ensures old(Ruled()) && (old(state) == RUNNING || !old(is_open)) ==> Ruled()
      ensures RESUMED_BIT in bits && (ret == ESP_OK || ret == ESP_FAIL)
      ensures old(state) != RUNNING ==> (ret == ESP_OK <==> Opens(openRet))
      ensures bits == BitsOf(RESUME, old(state), openRet, old(bits))
      ensures old(state) == RUNNING ==>
                && ret == ESP_OK && is_running && state == RUNNING && bits == old(bits) + {RESUMED_BIT}
                && is_open == old(is_open) && wait_time == old(wait_time) && stopping == old(stopping)
                    && trace == old(trace)
      ensures old(state) != RUNNING && ret == ESP_OK ==>
                && state == RUNNING && is_open && is_running && wait_time == NoWait && STOPPED_BIT !in bits
                && stopping == old(stopping) && trace == old(trace) + [Open]
      ensures old(state) != RUNNING && ret == ESP_FAIL ==>
                && state == (if openRet == AEL_IO_ABORT then STOPPED else ERROR) && !is_open && !is_running && wait_time == MaxDelay
                    && STOPPED_BIT in bits
                && stopping == (state == ERROR && old(stopping)) && trace == old(trace) + [Open, Close]
    {
      is_running := true;
      bits := bits + {RESUMED_BIT};
      if state == RUNNING {
        return ESP_OK;
      }
      ret := process_init(openRet);
      if ret != ESP_OK {
        is_running := false;
        return ESP_FAIL;
      }
      wait_time := NoWait;
      bits := bits - {STOPPED_BIT};
    }

    method on_cmd_pause()
      modifies this`is_open, this`trace, this`state, this`wait_time, this`is_running, this`bits
      ensures old(Ruled()) ==> Ruled()
      ensures state == PAUSED && !is_open && !is_running && wait_time == MaxDelay && bits == old(bits) + {PAUSED_BIT}
      ensures trace == if old(is_open) then old(trace) + [Close] else old(trace)
    {
      state := PAUSED;
      process_deinit();
      wait_time := MaxDelay;
      is_running := false;
      bits := bits + {PAUSED_BIT};
    }

    /** Take the first command from the queue and handle it. AEL_IO_ABORT asks for the end of the element's task. */
    method on_cmd(openRet: int) returns (ret: int)
      requires Valid() && task_run && queue != []
      modifies this`is_open, this`trace, this`state, this`wait_time, this`is_running, this`stopping, this`bits, this`queue
      ensures queue == old(queue)[1..] && Ruled()
      ensures (ret == AEL_IO_ABORT) == (old(queue)[0] == DESTROY)
      ensures state == StateOf(old(queue)[0], old(state), openRet)
      ensures trace == old(trace) + EventsOf(old(queue)[0], old(state), openRet)
      ensures bits == BitsOf(old(queue)[0], old(state), openRet, old(bits))
      ensures is_running == (state == RUNNING && old(queue)[0] != DESTROY)
      ensures ret != AEL_IO_ABORT ==> Valid() && (ret != ESP_OK ==> STOPPED_BIT in bits)
      ensures old(stopping) && !stopping ==> state == STOPPED
      ensures old(queue)[0] == STOP ==> state == STOPPED && STOPPED_BIT in bits && !stopping && !is_open
      ensures old(queue)[0] == PAUSE ==> state == PAUSED && PAUSED_BIT in bits && !is_open
      ensures old(queue)[0] == RESUME ==> RESUMED_BIT in bits && (ret == ESP_OK) == (state == RUNNING)
      ensures old(queue)[0] == RESUME ==> (state == RUNNING <==> old(state) == RUNNING || Opens(openRet))
      ensures PAUSED_BIT in bits <==> PAUSED_BIT in old(bits) || old(queue)[0] == PAUSE
      ensures RESUMED_BIT in bits <==> RESUMED_BIT in old(bits) || old(queue)[0] == RESUME
      ensures TASK_DESTROYED_BIT in bits <==> TASK_DESTROYED_BIT in old(bits)
      ensures ret == AEL_IO_ABORT ==> is_open == old(is_open) && !is_running && trace == old(trace)
    {
      var cmd := queue[0];
      queue := queue[1..];
      ret := ESP_OK;
      match cmd {
        case FINISH => on_cmd_finish();
        case STOP => on_cmd_stop();
        case PAUSE => on_cmd_pause();
        case RESUME => ret := on_cmd_resume(openRet);
        case DESTROY =>
          is_running := false;
          ret := AEL_IO_ABORT;
      }
    }

    /** Let the element process once and act on the result procRet. Unless reset_state is called meanwhile
        (resets), all stays in order. If it is, the rules are broken exactly when the result is 0 or
        AEL_IO_DONE: the element is opened again without having been closed. */
    method process_running(procRet: int, resets: bool, openRet: int) returns (ret: int)
      requires Valid() && task_run
      modifies this`is_open, this`trace, this`state, this`wait_time, this`is_running, this`stopping, this`bits
      ensures !old(is_running) ==> ret == ESP_ERR_INVALID_STATE && unchanged(this)
      ensures !resets ==> Valid() && old(bits) <= bits <= old(bits) + {STOPPED_BIT}
      ensures old(is_running) && !resets ==>
                bits == old(bits) + if StateAfter(procRet) == RUNNING then {} else {STOPPED_BIT}
      ensures old(is_running) ==>
                (After(trace) == Broken <==> resets && (procRet == AEL_IO_OK || procRet == AEL_IO_DONE))
      ensures old(is_running) && !resets ==>
                state == StateAfter(procRet) && (old(stopping) && !stopping ==> state == STOPPED)
      ensures old(is_running) ==>
                trace == old(trace) + if resets && (procRet == AEL_IO_OK || procRet == AEL_IO_DONE) then
                                        if Opens(openRet) then [Process, Open] else [Process, Open, Close]
                                      else if StateAfter(procRet) == RUNNING then [Process] else [Process, Close]
    {
      if Rank(state) < Rank(RUNNING) || !is_running {
        return ESP_ERR_INVALID_STATE;
      }
      AfterNext(trace, Process);
      trace := trace + [Process];
      assert trace + [Close] == old(trace) + [Process, Close];
      if resets {
        audio_element_reset_state();
      }
      if procRet == AEL_IO_ABORT {
        on_cmd_stop();
      } else if procRet == AEL_IO_DONE || procRet == AEL_IO_OK {
        // a reset element opens once more
        if state == INIT {
          BrokenStays(trace, Open);
          BrokenStays(trace + [Open], Close);
          assert trace + [Open] + [Close] == trace + [Open, Close];
          ret := on_cmd_resume(openRet);
          return;
        }
        on_cmd_finish();
      } else if procRet == AEL_IO_FAIL || procRet == AEL_PROCESS_FAIL {
        on_cmd_error();
      }
      ret := ESP_OK;
    }

    /** One round of the loop of the element's task: handle a command if there is one, else go on if the element does not
        wait for one; then process. open1 and open2 are what open returns if it is called for the command
        and after processing. */
    method task_round(open1: int, procRet: int, open2: int)
      requires Valid() && task_run && (queue != [] || wait_time == NoWait)
      modifies this
      ensures Valid()
      ensures queue == if old(queue) == [] then [] else old(queue)[1..]
      ensures state == RoundState(old(queue), old(state), open1, procRet)
      ensures trace == old(trace) + RoundEvents(old(queue), old(state), open1, procRet)
      ensures old(queue) != [] && old(queue)[0] == STOP ==>
                state == STOPPED && STOPPED_BIT in bits && !is_open && !stopping
      ensures old(stopping) && !stopping ==> STOPPED_BIT in bits && !is_running
      ensures !task_run <==> old(queue) != [] && old(queue)[0] == DESTROY
      ensures PAUSED_BIT in bits <==> PAUSED_BIT in old(bits) || (old(queue) != [] && old(queue)[0] == PAUSE)
      ensures RESUMED_BIT in bits <==>
                RESUMED_BIT in old(bits) || (old(queue) != [] && (old(queue)[0] == RESUME || old(queue)[0] == DESTROY))
      ensures TASK_DESTROYED_BIT in bits <==> TASK_DESTROYED_BIT in old(bits) || !task_run
      ensures !task_run ==> !is_open && {STOPPED_BIT, RESUMED_BIT, TASK_DESTROYED_BIT} <= bits
    {
      hide After, StateAfter, Opens;
      var ret := ESP_OK;
      if queue != [] {
        ret := on_cmd(open1);
      }
      if ret != ESP_OK {
        bits := bits + {STOPPED_BIT};
        // a failed open leaves the task alive
        if ret == AEL_IO_ABORT {
          task_exit();
          return;
        }
      }
      var r := process_running(procRet, false, open2);
    }

    method task_exit()
      requires Ruled() && |queue| <= capacity && !is_running
      modifies this`is_open, this`trace, this`state, this`stopping, this`task_run, this`bits
      ensures Valid() && !task_run && !is_open && !stopping
      ensures trace == if old(is_open) then old(trace) + [Close] else old(trace)
      ensures state == if old(is_open) then STOPPED else old(state)
      ensures bits == old(bits) + {STOPPED_BIT, RESUMED_BIT, TASK_DESTROYED_BIT}
    {
      if is_open {
        AfterNext(trace, Close);
        trace := trace + [Close];
        state := STOPPED;
      }
      is_open := false;
      stopping := false;
      task_run := false;
      bits := bits + {STOPPED_BIT, RESUMED_BIT, TASK_DESTROYED_BIT};
    }

    method task_start()
      requires Valid() && !task_run
      modifies this`task_run, this`bits, this`state, this`wait_time
      ensures Valid() && task_run && state == INIT && wait_time == MaxDelay
      ensures bits == old(bits) + {TASK_CREATED_BIT} - {STOPPED_BIT}
    {
      task_run := true;
      bits := bits + {TASK_CREATED_BIT};
      state := INIT;
      wait_time := MaxDelay;
      bits := bits - {STOPPED_BIT};
    }

    // ----- the interface; other threads call it

    method cmd_send(cmd: Cmd) returns (ret: int)
      requires |queue| <= capacity
      modifies this`queue
      ensures |queue| <= capacity
      ensures ret == if |old(queue)| < capacity then ESP_OK else ESP_FAIL
      ensures queue == if ret == ESP_OK then old(queue) + [cmd] else old(queue)
    {
      if |queue| == capacity {
        return ESP_FAIL;
      }
      queue := queue + [cmd];
      ret := ESP_OK;
    }

    /** threadOk: whether the thread can be created. */
    method audio_element_run(threadOk: bool) returns (ret: int)
      requires Valid()
      modifies this`queue, this`bits, this`state, this`task_run, this`wait_time
      ensures Valid() && is_open == old(is_open)
      ensures old(task_run) ==> ret == ESP_OK && unchanged(this)
      ensures !old(task_run) ==> task_run == threadOk && queue == [] && ret == (if threadOk then ESP_OK else ESP_FAIL)
                                 && state == (if threadOk then INIT else ERROR)
                                 && bits == if threadOk then old(bits) + {TASK_CREATED_BIT} - {STOPPED_BIT}
                                            else old(bits) - {TASK_CREATED_BIT}
    {
      if task_run {
        return ESP_OK;
      }
      queue := [];
      bits := bits - {TASK_CREATED_BIT};
      if !threadOk {
        state := ERROR;
        return ESP_FAIL;
      }
      task_start();
      ret := ESP_OK;
    }

    /** Ask for a stop. It is done at once when the element is not running, and queued once otherwise. */
    method audio_element_stop() returns (ret: int)
      requires Valid()
      modifies this`bits, this`queue, this`stopping
      ensures Valid()
      ensures !task_run ==> ret == ESP_FAIL && unchanged(this)
      ensures task_run && !is_running ==> ret == ESP_OK && bits == old(bits) + {STOPPED_BIT} && queue == old(queue)
      ensures task_run && is_running ==>
                && STOPPED_BIT !in bits && stopping == (ret == ESP_OK)
                && ret == (if old(stopping) || |old(queue)| < capacity then ESP_OK else ESP_FAIL)
                && queue == if old(stopping) || ret != ESP_OK then old(queue) else old(queue) + [STOP]
    {
      if !task_run {
        return ESP_FAIL;
      }
      if !is_running {
        bits := bits + {STOPPED_BIT};
        return ESP_OK;
      }
      if state == RUNNING {
        bits := bits - {STOPPED_BIT};
      }
      // a running element is not PAUSED, so the waiting time is not changed here
      if stopping {
        return ESP_OK;
      }
      stopping := true;
      ret := cmd_send(STOP);
      if ret != ESP_OK {
        stopping := false;
      }
    }

    /** Wait for a bit while the element's task goes through rounds with these results, and no other call is
        made. Rounds end when the task ends or blocks. The task that gets as many rounds as there are commands
        answers a stop; it sets a bit of a command exactly when the rounds come to such a command, or, for
        RESUMED_BIT and TASK_DESTROYED_BIT, to its end. */
    method WaitBit(bit: Bit, results: seq<(int, int, int)>) returns (found: bool)
      requires Valid()
      modifies this
      ensures Valid() && (found <==> bit in bits)
      ensures bit == STOPPED_BIT && old(stopping) && |results| >= |old(queue)| ==> found && !is_running
      ensures bit == TASK_DESTROYED_BIT && found && bit !in old(bits) ==> !task_run
      ensures var come := Within(old(queue), |results|);
              match bit
              case PAUSED_BIT => found == (bit in old(bits) || (old(task_run) && Reaches(come, PAUSE)))
              case RESUMED_BIT => found == (bit in old(bits) || (old(task_run) && Ends(come, RESUME)))
              case TASK_DESTROYED_BIT => found == (bit in old(bits) || (old(task_run) && DESTROY in come))
              case _ => true
    {
      hide Within, Reaches;
      var i := 0;
      while i < |results| && bit !in bits && task_run && (queue != [] || wait_time == NoWait)
        invariant i <= |results| && Valid() && (queue == [] || i + |queue| == |old(queue)|)
        invariant bit == STOPPED_BIT && old(stopping) && !stopping ==> STOPPED_BIT in bits
        invariant bit == TASK_DESTROYED_BIT && bit in bits && bit !in old(bits) ==> !task_run
        invariant (bit in old(bits) && bit != STOPPED_BIT ==> bit in bits) && (task_run ==> old(task_run))
        invariant bit == PAUSED_BIT ==>
                    (PAUSED_BIT in bits || (task_run && Reaches(Within(queue, |results| - i), PAUSE)) <==>
                     PAUSED_BIT in old(bits) || (old(task_run) && Reaches(Within(old(queue), |results|), PAUSE)))
        invariant bit == RESUMED_BIT ==>
                    (RESUMED_BIT in bits || (task_run && Ends(Within(queue, |results| - i), RESUME)) <==>
                     RESUMED_BIT in old(bits) || (old(task_run) && Ends(Within(old(queue), |results|), RESUME)))
        invariant bit == TASK_DESTROYED_BIT ==>
                    (TASK_DESTROYED_BIT in bits || (task_run && DESTROY in Within(queue, |results| - i)) <==>
                     TASK_DESTROYED_BIT in old(bits) || (old(task_run) && DESTROY in Within(old(queue), |results|)))
      {
        WithinTail(queue, |results| - i);
        task_round(results[i].0, results[i].1, results[i].2);
        i := i + 1;
      }
      WithinNone(queue, |results| - i);
      found := bit in bits;
    }

    /** Wait until the element is stopped. A stop that was asked for is in time if the task gets as many rounds
        as there are commands queued. */
    method audio_element_wait_for_stop_ms(results: seq<(int, int, int)>) returns (ret: int)
      requires Valid()
      modifies this
      ensures Valid() && ret == if STOPPED_BIT in bits || !old(is_running) then ESP_OK else ESP_ERR_TIMEOUT
      ensures ret == ESP_OK ==> !is_running
      ensures old(stopping) && |results| >= |old(queue)| ==> ret == ESP_OK
      ensures !old(is_running) ==> unchanged(this)
    {
      if !is_running {
        return ESP_OK;
      }
      var found := WaitBit(STOPPED_BIT, results);
      ret := if found then ESP_OK else ESP_ERR_TIMEOUT;
    }

    /** Pause a running or fresh element, and wait for it. That succeeds exactly when the rounds come to a PAUSE
        and the task is not told to end before. */
    method audio_element_pause(results: seq<(int, int, int)>) returns (ret: int)
      requires Valid()
      modifies this
      ensures Valid()
      ensures !old(task_run) ==> ret == ESP_FAIL && unchanged(this)
      ensures old(task_run) && Rank(old(state)) >= Rank(PAUSED) ==>
                ret == ESP_OK && state == PAUSED && unchanged(this`queue, this`is_open, this`is_running, this`trace)
      ensures old(task_run) && Rank(old(state)) < Rank(PAUSED) && |old(queue)| == capacity ==>
                ret == ESP_FAIL && queue == old(queue) && state == old(state)
      ensures old(task_run) && Rank(old(state)) < Rank(PAUSED) && |old(queue)| < capacity ==>
                ret == if Reaches(Within(old(queue) + [PAUSE], |results|), PAUSE) then ESP_OK else ESP_FAIL
    {
      if !task_run {
        return ESP_FAIL;
      }
      if Rank(state) >= Rank(PAUSED) {
        state := PAUSED;
        return ESP_OK;
      }
      bits := bits - {PAUSED_BIT};
      ret := cmd_send(PAUSE);
      if ret != ESP_OK {
        return ESP_FAIL;
      }
      var found := WaitBit(PAUSED_BIT, results);
      ret := if found then ESP_OK else ESP_FAIL;
    }

    /** Resume, and wait for it; then wait for the output buffer if a threshold is given and input comes from a
        buffer. bufferRet is what that wait returns. RESUMED_BIT comes exactly when the rounds come to a RESUME
        or to the end, whatever open returns. */
    method audio_element_resume(threshold: real, fromBuffer: bool, bufferRet: int, results: seq<(int, int, int)>)
      returns (ret: int)
      requires Valid()
      modifies this
      ensures Valid()
      ensures !old(task_run) || old(state) == ERROR ==> ret == ESP_FAIL && unchanged(this)
      ensures old(task_run) && (old(state) == RUNNING || old(state) == FINISHED) ==> ret == ESP_OK && unchanged(this)
      ensures old(task_run) && Resumable(old(state)) && (threshold > 1.0 || threshold < 0.0) ==>
                ret == ESP_FAIL && unchanged(this)
      ensures old(task_run) && Resumable(old(state)) && 0.0 <= threshold <= 1.0 && |old(queue)| == capacity ==>
                ret == ESP_FAIL && queue == old(queue) && state == old(state)
      ensures old(task_run) && Resumable(old(state)) && 0.0 <= threshold <= 1.0 && |old(queue)| < capacity ==>
                ret == if !Ends(Within(old(queue) + [RESUME], |results|), RESUME) then ESP_FAIL
                       else if threshold != 0.0 && fromBuffer then bufferRet else ESP_OK
    {
      if !task_run {
        return ESP_FAIL;
      }
      if state == RUNNING {
        return ESP_OK;
      }
      if state == ERROR {
        return ESP_FAIL;
      }
      if state == FINISHED {
        return ESP_OK;
      }
      if threshold > 1.0 || threshold < 0.0 {
        return ESP_FAIL;
      }
      bits := bits - {RESUMED_BIT};
      ret := cmd_send(RESUME);
      if ret == ESP_FAIL {
        return ESP_FAIL;
      }
      var found := WaitBit(RESUMED_BIT, results);
      if !found {
        return ESP_FAIL;
      }
      ret := if threshold != 0.0 && fromBuffer then bufferRet else ESP_OK;
    }

    /** End the element's task, and wait for it. */
    method audio_element_terminate(results: seq<(int, int, int)>) returns (ret: int)
      requires Valid()
      modifies this
      ensures Valid()
      ensures !old(task_run) ==> ret == ESP_OK && unchanged(this)
      ensures old(task_run) && |old(queue)| == capacity ==> ret == ESP_FAIL && queue == old(queue) && task_run
      ensures old(task_run) && |old(queue)| < capacity ==>
                ret == if DESTROY in Within(old(queue) + [DESTROY], |results|) then ESP_OK else ESP_FAIL
      ensures ret == ESP_OK ==> !task_run && !is_open
    {
      if !task_run {
        return ESP_OK;
      }
      bits := bits - {TASK_DESTROYED_BIT};
      ret := cmd_send(DESTROY);
      if ret != ESP_OK {
        return ESP_FAIL;
      }
      var found := WaitBit(TASK_DESTROYED_BIT, results);
      ret := if found then ESP_OK else ESP_FAIL;
    }

    /** Keeps everything in order exactly when the element is closed. */
    method audio_element_reset_state()
      modifies this`state
      ensures state == INIT
      ensures old(Valid()) ==> (Valid() <==> !is_open)
    {
      state := INIT;
    }
  }

  // ----- any run

  datatype Step =
    | Round(open1: int, procRet: int,
        open2: int)
    | Run(threadOk: bool) | Stop | WaitForStop(results: seq<(int, int, int)>)
    | Pause(results: seq<(int, int, int)>)
    | Resume(threshold: real, fromBuffer: bool, bufferRet: int, results: seq<(int, int, int)>)
    | Terminate(results: seq<(int, int, int)>) | Reset | Send(cmd: Cmd)

  /** Whatever the commands, the results and their order: what Valid says holds after every step, and the
      element's functions are called by the rules. Reset is only done to a closed element. */
  method AnyRun(el: Element, steps: seq<Step>)
    requires el.Valid()
    modifies el
    ensures el.Valid() && After(el.trace) == Is(el.is_open)
  {
    var i := 0;
    while i < |steps|
      invariant i <= |steps| && el.Valid()
    {
      match steps[i] {
        case Round(open1, procRet, open2) =>
          if el.task_run && (el.queue != [] || el.wait_time == NoWait) {
            el.task_round(open1, procRet, open2);
          }
        case Run(threadOk) => var _ := el.audio_element_run(threadOk);
        case Stop => var _ := el.audio_element_stop();
        case WaitForStop(results) => var _ := el.audio_element_wait_for_stop_ms(results);
        case Pause(results) => var _ := el.audio_element_pause(results);
        case Resume(threshold, fromBuffer, bufferRet, results) =>
          var _ := el.audio_element_resume(threshold, fromBuffer, bufferRet, results);
        case Terminate(results) => var _ := el.audio_element_terminate(results);
        case Reset =>
          if !el.is_open {
            el.audio_element_reset_state();
          }
        case Send(cmd) => audio_element_change_cmd(el, cmd);
      }
      i := i + 1;
    }
  }

  /** A new element is started and resumed; its process function calls reset_state and returns 0. It is opened
      a second time without having been closed. */
  method SecondOpen() returns (el: Element)
    ensures fresh(el) && el.trace == [Open, Process, Open] && After(el.trace) == Broken
  {
    hide After;
    el := new Element(1);
    var ret := el.audio_element_run(true);
    ret := el.cmd_send(RESUME);
    ret := el.on_cmd(ESP_OK);
    assert el.trace == [Open];
    ret := el.process_running(AEL_IO_OK, true, ESP_OK);
  }

  /** Any command may be sent past the functions above. */
  method audio_element_change_cmd(el: Element, cmd: Cmd)
    requires el.Valid()
    modifies el`queue
    ensures el.Valid()
  {
    var _ := el.cmd_send(cmd);
  }

  /** A stop that was accepted is answered: if the task gets as many rounds as there are commands queued, the
      wait for it succeeds and the element does not run, whatever open and process return. */
  method StopIsAnswered(el: Element, results: seq<(int, int, int)>) returns (ret: int)
    requires el.Valid() && el.task_run && el.is_running && |results| > |el.queue|
    modifies el
    ensures el.Valid()
    ensures ret == ESP_OK ==> !el.is_running && !el.is_open
    ensures ret == if |old(el.queue)| == el.capacity && !old(el.stopping) then ESP_FAIL else ESP_OK
  {
    ret := el.audio_element_stop();
    if ret == ESP_OK {
      ret := el.audio_element_wait_for_stop_ms(results);
    }
  }

  lemma BrokenStays(trace: seq<Event>, e: Event)
    ensures After(trace) == Broken || (e == Open && After(trace) == Is(true)) ==> After(trace + [e]) == Broken
  {
    AfterNext(trace, e);
  }

  /** Where the result of process leads. */
  function StateAfter(procRet: int): State {
    if procRet == AEL_IO_ABORT then STOPPED
    else if procRet == AEL_IO_DONE || procRet == AEL_IO_OK then FINISHED
    else if procRet == AEL_IO_FAIL || procRet == AEL_PROCESS_FAIL then ERROR
    else RUNNING
  }
}
