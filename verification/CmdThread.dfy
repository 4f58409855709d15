/** The command thread and the waiters of core/rtw_cmd.c, as a state machine over atomic steps.

    Any number of submitters each make a command object, put it on the queue, and, with
    RTW_CMDF_WAIT_ACK, wait for it with a submit context on their own stack. One thread takes commands
    off the queue, completes the submit context under the mutex of the command's adapter, and frees
    the command. A submitter whose wait has ended, completed or timed out, takes that mutex and unhooks
    its context if the command is still SUBMITTED. A step is one critical section, one access to shared
    memory, or one system call. */
module CmdThread {

  /** Where a submitter is in rtw_createbss_cmd and rtw_enqueue_cmd. */
  datatype SubmitterPc =
    | Made          // command object prepared, submit context hooked to it if it will wait
    | PastFilter    // rtw_cmd_filter let it pass
    | Inserted      // on the queue, semaphore not yet raised
    | Waiting       // in rtw_sctx_wait
    | Woken         // rtw_sctx_wait has returned
    | Locked        // inside the mutex, status not yet read
    | Tested        // inside the mutex, context unhooked if the status was SUBMITTED
    | Returned      // returned to its caller: the stack frame with the submit context is dead

  datatype Status = Submitted | Done

  /** Which owner has the command object: its submitter, the queue, the thread, or nobody any more. */
  datatype Place = WithSubmitter | OnQueue | InHand | Past

  datatype Cmd = Cmd(
    adapter: nat,
    wait: bool,
    pc: SubmitterPc,
    place: Place,
    hooked: bool,      // cmd_obj.sctx is not NULL
    status: Status,    // of the submit context
    freed: bool,
    putBack: bool)     // has been put back with H2C_ENQ_HEAD

  /** Stages of the completion of a command by the thread. */
  datatype Stage = Handle | Lock | Test | Write | Signal | Unhook | Unlock | Free

  datatype ThreadPc =
    | NotRunning                                  // before the start, or after the exit drain
    | Down | CheckRun | CheckEmpty | Next | Take
    | At(c: nat, stage: Stage, draining: bool)
    | MarkExit | DrainTake

  datatype Holder = Thread | Waiter(c: nat)

  datatype State = State(
    cmds: seq<Cmd>,
    queue: seq<nat>,
    accepted: seq<nat>,           // history: commands in the order they were put on the queue
    taken: seq<nat>,              // history: commands the thread has taken for good
    sema: nat,
    running: bool,                // cmdthd_running
    cannotRun: bool,              // RTW_CANNOT_RUN
    mutex: map<nat, Holder>,      // sctx_mutex of each adapter that holds one
    thread: ThreadPc,
    lps: bool)                    // CONFIG_LPS_LCLK

  datatype Step =
    | Submit(adapter: nat, wait: bool)
    | Filter(c: nat, pass: bool)
    | Insert(c: nat)
    | Raise(c: nat)
    | Wake(c: nat)
    | WaiterLock(c: nat)
    | WaiterTest(c: nat)
    | WaiterUnlock(c: nat)
    | Kick                        // the semaphore raised from elsewhere: power save, stopping the thread
    | SetCannotRun(b: bool)
    | Start
    | Interrupted
    | ThreadStep
    | PutBack
    | Release(really: bool)

  function Init(lps: bool): State {
    State([], [], [], [], 0, false, false, map[], NotRunning, lps)
  }

  predicate Enabled(s: State, step: Step) {
    match step
    case Submit(_, _) => true
    case Filter(c, pass) => c < |s.cmds| && s.cmds[c].pc == Made && (pass ==> s.running)
    case Insert(c) => c < |s.cmds| && s.cmds[c].pc == PastFilter
    case Raise(c) => c < |s.cmds| && s.cmds[c].pc == Inserted
    case Wake(c) => c < |s.cmds| && s.cmds[c].pc == Waiting
    case WaiterLock(c) => c < |s.cmds| && s.cmds[c].pc == Woken && s.cmds[c].adapter !in s.mutex
    case WaiterTest(c) => c < |s.cmds| && s.cmds[c].pc == Locked
    case WaiterUnlock(c) => c < |s.cmds| && s.cmds[c].pc == Tested
    case Kick => true
    case SetCannotRun(_) => true
    case Start => s.thread == NotRunning
    case Interrupted => s.thread == Down
    case ThreadStep => ThreadCanStep(s)
    case PutBack => s.lps && s.thread.At? && s.thread.stage == Handle && s.thread.c < |s.cmds| && s.taken != []
    case Release(_) => s.thread.At? && s.thread.stage == Free && s.thread.c < |s.cmds|
  }

  /** The thread waits for the semaphore and for the mutex; freeing is a step of its own. */
  predicate ThreadCanStep(s: State) {
    match s.thread
    case NotRunning => false
    case Down => s.sema > 0
    case At(c, stage, _) =>
      c < |s.cmds| && stage != Free && (stage == Lock ==> s.cmds[c].adapter !in s.mutex)
    case _ => true
  }

  function WithCmd(s: State, c: nat, d: Cmd): State
    requires c < |s.cmds|
  {
    s.(cmds := s.cmds[c := d])
  }

  /** The next state. */
  function Do(s: State, step: Step): State
    requires Enabled(s, step)
  {
    match step
    case Submit(adapter, wait) =>
      s.(cmds := s.cmds + [Cmd(adapter, wait, Made, WithSubmitter, wait, Submitted, false, false)])
    case Filter(c, pass) =>
      WithCmd(s, c, if pass then s.cmds[c].(pc := PastFilter) else s.cmds[c].(pc := Returned, freed := true))
    case Insert(c) =>
      WithCmd(s, c, s.cmds[c].(pc := Inserted, place := OnQueue)).(queue := s.queue + [c], accepted := s.accepted + [c])
    case Raise(c) =>
      WithCmd(s, c, s.cmds[c].(pc := if s.cmds[c].wait then Waiting else Returned)).(sema := s.sema + 1)
    case Wake(c) =>
      WithCmd(s, c, s.cmds[c].(pc := Woken))
    case WaiterLock(c) =>
      WithCmd(s, c, s.cmds[c].(pc := Locked)).(mutex := s.mutex[s.cmds[c].adapter := Waiter(c)])
    case WaiterTest(c) =>
      var d := s.cmds[c];
      WithCmd(s, c, d.(pc := Tested, hooked := d.hooked && d.status != Submitted))
    case WaiterUnlock(c) =>
      WithCmd(s, c, s.cmds[c].(pc := Returned)).(mutex := s.mutex - {s.cmds[c].adapter})
    case Kick => s.(sema := s.sema + 1)
    case SetCannotRun(b) => s.(cannotRun := b)
    case Start => s.(running := true, thread := Down)
    case Interrupted => s.(thread := MarkExit)
    case ThreadStep => ThreadDo(s)
    case PutBack =>
      var c := s.thread.c;
      WithCmd(s, c, s.cmds[c].(place := OnQueue, putBack := true))
        .(queue := [c] + s.queue, taken := s.taken[..|s.taken| - 1], thread := Down)
    case Release(really) =>
      var c := s.thread.c;
      WithCmd(s, c, s.cmds[c].(place := Past, freed := s.cmds[c].freed || really))
        .(thread := if s.thread.draining then DrainTake else Next)
  }

  function TakeHead(s: State, stage: Stage, draining: bool): State
    requires s.queue != [] && s.queue[0] < |s.cmds|
  {
    var c := s.queue[0];
    WithCmd(s, c, s.cmds[c].(place := InHand))
      .(queue := s.queue[1..], taken := s.taken + [c], thread := At(c, stage, draining))
  }

  /** One step of rtw_cmd_thread. */
  function ThreadDo(s: State): State
    requires ThreadCanStep(s)
  {
    match s.thread
    case Down => s.(sema := s.sema - 1, thread := CheckRun)
    case CheckRun => s.(thread := if s.cannotRun then MarkExit else CheckEmpty)
    case CheckEmpty => s.(thread := if s.queue == [] then Down else Next)
    case Next => s.(thread := if s.cannotRun then MarkExit else Take)
    case Take => if s.queue == [] || s.queue[0] >= |s.cmds| then s.(thread := Down) else TakeHead(s, Handle, false)
    case MarkExit => s.(running := false, thread := DrainTake)
    case DrainTake =>
      if s.queue == [] || s.queue[0] >= |s.cmds| then s.(thread := NotRunning) else TakeHead(s, Lock, true)
    case At(_, _, _) => ServeDo(s)
  }

  /** The stage after this one; a command without a submit context needs no completion. */
  function StageAfter(stage: Stage, hooked: bool): Stage {
    match stage
    case Handle => Lock
    case Lock => Test
    case Test => if hooked then Write else Unlock
    case Write => Signal
    case Signal => Unhook
    case Unhook => Unlock
    case Unlock => Free
    case Free => Free
  }

  /** What a stage makes of the command. */
  function Served(d: Cmd, stage: Stage): Cmd {
    match stage
    case Write => d.(status := Done)
    case Unhook => d.(hooked := false)
    case _ => d
  }

  /** What it makes of the mutexes. */
  function ServedMutex(mutex: map<nat, Holder>, a: nat, stage: Stage): map<nat, Holder> {
    match stage
    case Lock => mutex[a := Thread]
    case Unlock => mutex - {a}
    case _ => mutex
  }

  /** One stage of the completion of the command in hand. */
  function ServeDo(s: State): State
    requires ThreadCanStep(s) && s.thread.At?
  {
    var c, stage, d := s.thread.c, s.thread.stage, s.cmds[s.thread.c];
    WithCmd(s, c, Served(d, stage))
      .(thread := At(c, StageAfter(stage, d.hooked), s.thread.draining),
        mutex := ServedMutex(s.mutex, d.adapter, stage))
  }
}
