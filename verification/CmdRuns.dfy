/** What holds of the command thread and its submitters over every run. */
module CmdRuns {
  import opened CmdThread
  import opened CmdSafety

  ghost predicate CanRun(s: State, steps: seq<Step>)
    decreases |steps|
  {
    steps == [] || (Enabled(s, steps[0]) && CanRun(Do(s, steps[0]), steps[1..]))
  }

  ghost function After(s: State, steps: seq<Step>): State
    requires CanRun(s, steps)
    decreases |steps|
  {
    if steps == [] then s else After(Do(s, steps[0]), steps[1..])
  }

  lemma {:induction false} RunKeeps(s: State, steps: seq<Step>)
    requires Inv(s) && CanRun(s, steps)
    ensures Inv(After(s, steps))
    decreases |steps|
  {
    hide Inv, Do, Enabled;
    if steps == [] {
    } else {
      StepKeeps(s, steps[0]);
      RunKeeps(Do(s, steps[0]), steps[1..]);
    }
  }

  /** The step writes or signals the submit context on the stack of c's submitter. */
  predicate ThreadUsesFrame(s: State, step: Step, c: nat) {
    step == ThreadStep && s.thread.At? && s.thread.c == c && (s.thread.stage == Write || s.thread.stage == Signal)
  }

  /** The step reads or writes the command object c. */
  predicate UsesCmd(s: State, step: Step, c: nat) {
    match step
    case Filter(e, _) => e == c
    case Insert(e) => e == c
    case WaiterTest(e) => e == c && c < |s.cmds| && s.cmds[c].status == Submitted
    case ThreadStep =>
      || (s.thread.At? && s.thread.c == c)
      || ((s.thread == Take || s.thread == DrainTake) && s.queue != [] && s.queue[0] == c)
    case PutBack => s.thread.At? && s.thread.c == c
    case Release(_) => s.thread.At? && s.thread.c == c
    case _ => false
  }

  lemma StepIsSafe(s: State, step: Step, c: nat)
    requires Inv(s) && Enabled(s, step)
    ensures ThreadUsesFrame(s, step, c) ==> c < |s.cmds| && s.cmds[c].wait && s.cmds[c].pc != Returned
    ensures UsesCmd(s, step, c) ==> c < |s.cmds| && !s.cmds[c].freed
  {
    if c < |s.cmds| {
      assert CmdOk(c, s.cmds[c], s.thread, s.mutex);
      if s.queue != [] && s.queue[0] == c {
        assert s.cmds[c].place == OnQueue;
      }
    }
  }

  /** In every interleaving, with the exit drain and with time-outs at any moment, the thread completes
      only submit contexts whose submitter has not returned, and nobody, a waiter that timed out included,
      uses a command object that has been freed. */
  lemma NoDeadAccess(lps: bool, steps: seq<Step>, step: Step, c: nat)
    requires CanRun(Init(lps), steps) && Enabled(After(Init(lps), steps), step)
    ensures var s := After(Init(lps), steps);
            && (ThreadUsesFrame(s, step, c) ==> c < |s.cmds| && s.cmds[c].wait && s.cmds[c].pc != Returned)
            && (UsesCmd(s, step, c) ==> c < |s.cmds| && !s.cmds[c].freed)
  {
    InitInv(lps);
    RunKeeps(Init(lps), steps);
    StepIsSafe(After(Init(lps), steps), step, c);
  }

  /** Whoever holds a mutex can go on and release it: the protocol has no deadlock on it. */
  lemma HolderCanGoOn(lps: bool, steps: seq<Step>, a: nat)
    requires CanRun(Init(lps), steps) && a in After(Init(lps), steps).mutex
    ensures var s := After(Init(lps), steps);
            match s.mutex[a]
            case Thread => Enabled(s, ThreadStep)
            case Waiter(c) => Enabled(s, WaiterTest(c)) || Enabled(s, WaiterUnlock(c))
  {
    InitInv(lps);
    RunKeeps(Init(lps), steps);
    var s := After(Init(lps), steps);
    match s.mutex[a] {
      case Thread =>
      case Waiter(c) => assert CmdOk(c, s.cmds[c], s.thread, s.mutex);
    }
  }

  // The order of the commands.

  /** The commands put on the queue by the steps, in order. */
  function Submissions(steps: seq<Step>): seq<nat> {
    if steps == [] then []
    else (if steps[0].Insert? then [steps[0].c] else []) + Submissions(steps[1..])
  }

  /** The commands whose processing ends in the steps, in order. */
  ghost function Completions(s: State, steps: seq<Step>): seq<nat>
    requires CanRun(s, steps)
    decreases |steps|
  {
    if steps == [] then []
    else (if steps[0].Release? then [s.thread.c] else []) + Completions(Do(s, steps[0]), steps[1..])
  }

  function InHandOf(s: State): seq<nat> {
    if s.thread.At? then [s.thread.c] else []
  }

  /** The commands still to be completed, oldest first. */
  function Pending(s: State): seq<nat> {
    InHandOf(s) + s.queue
  }

  /** No step but a completion takes a command out of the pending ones, that one takes the oldest, and only
      a submission adds one, as the youngest. Putting a command back changes nothing. */
  lemma StepOrder(s: State, step: Step)
    requires Enabled(s, step)
    ensures Pending(s) + (if step.Insert? then [step.c] else [])
         == (if step.Release? then [s.thread.c] else []) + Pending(Do(s, step))
  {
    match step {
      case Insert(c) => assert InHandOf(s) + s.queue + [c] == InHandOf(s) + (s.queue + [c]);
      case Release(_) => assert Pending(Do(s, step)) == s.queue;
      case ThreadStep => ThreadOrder(s);
      case PutBack =>
      case Start =>
      case Interrupted =>
      case _ => assert Pending(Do(s, step)) == Pending(s);
    }
  }

  lemma ThreadOrder(s: State)
    requires ThreadCanStep(s)
    ensures Pending(ThreadDo(s)) == Pending(s)
  {
    if s.thread.At? {
      assert ThreadDo(s).queue == s.queue;
      assert InHandOf(ThreadDo(s)) == InHandOf(s);
    } else if s.queue != [] && s.queue[0] < |s.cmds| && (s.thread == Take || s.thread == DrainTake) {
      assert s.queue == [s.queue[0]] + s.queue[1..];
    }
  }

  /** Over any run, the commands completed, then the one in the thread's hands, then the queue, are the
      accepted submissions in the order in which they were put on the queue. */
  lemma {:induction false} FirstInFirstOut(s: State, steps: seq<Step>)
    requires CanRun(s, steps)
    ensures Pending(s) + Submissions(steps) == Completions(s, steps) + Pending(After(s, steps))
    decreases |steps|
  {
    hide Do, Pending, InHandOf;
    if steps == [] {
    } else {
      var s1 := Do(s, steps[0]);
      var ins := if steps[0].Insert? then [steps[0].c] else [];
      var out := if steps[0].Release? then [s.thread.c] else [];
      StepOrder(s, steps[0]);
      FirstInFirstOut(s1, steps[1..]);
      Regroup(Pending(s), ins, Submissions(steps[1..]), out, Pending(s1), Completions(s1, steps[1..]),
              Pending(After(s1, steps[1..])));
    }
  }

  /** Two queues that follow one another. */
  lemma Regroup(p: seq<nat>, ins: seq<nat>, more: seq<nat>, out: seq<nat>, q: seq<nat>, done: seq<nat>, r: seq<nat>)
    requires p + ins == out + q && q + more == done + r
    ensures p + (ins + more) == (out + done) + r
  {
    assert p + (ins + more) == (p + ins) + more == out + (q + more) == (out + done) + r;
  }

  // Wake-ups.

  ghost predicate RaisePending(s: State) {
    exists c :: 0 <= c < |s.cmds| && s.cmds[c].pc == Inserted
  }

  /** With commands queued and the thread blocked, the semaphore is positive, or a submitter has yet to
      raise it, or the head of the queue is a command that was put back. */
  ghost predicate NoLostWakeup(s: State) {
    (s.thread == NotRunning || s.thread == Down) && s.queue != [] ==>
      || s.sema > 0
      || RaisePending(s)
      || (s.queue[0] < |s.cmds| && s.cmds[s.queue[0]].putBack)
  }

  ghost predicate NothingPutBack(s: State) {
    !s.lps && forall c :: 0 <= c < |s.cmds| ==> !s.cmds[c].putBack
  }

  lemma StepWakeup(s: State, step: Step)
    requires QueueOk(s) && NoLostWakeup(s) && Enabled(s, step)
    ensures NoLostWakeup(Do(s, step))
  {
    if step.ThreadStep? {
      hide NoLostWakeup;
      ThreadWakeup(s);
    } else if step.Insert? {
      InsertWakeup(s, step.c);
    } else if step.Kick? || step.Raise? || step.Interrupted? || step.PutBack? || step.Release? {
      AwakeAfter(s, step);
    } else {
      SameStep(s, step);
    }
  }

  lemma InsertWakeup(s: State, c: nat)
    requires Enabled(s, Insert(c))
    ensures NoLostWakeup(Do(s, Insert(c)))
  {
    assert Do(s, Insert(c)).cmds[c].pc == Inserted;
  }

  /** The semaphore has been raised, or the thread is awake, or a command has been put back. */
  lemma AwakeAfter(s: State, step: Step)
    requires Enabled(s, step) && (step.Kick? || step.Raise? || step.Interrupted? || step.PutBack? || step.Release?)
    ensures NoLostWakeup(Do(s, step))
  {
  }

  lemma SameStep(s: State, step: Step)
    requires NoLostWakeup(s) && Enabled(s, step) && !step.ThreadStep? && !step.Insert? && !step.Kick? && !step.Raise?
    requires !step.Interrupted? && !step.PutBack? && !step.Release?
    ensures NoLostWakeup(Do(s, step))
  {
    hide NoLostWakeup;
    SameWakeup(s, Do(s, step));
  }

  lemma SameWakeup(s: State, s': State)
    requires NoLostWakeup(s) && s'.queue == s.queue && s'.sema == s.sema && |s'.cmds| >= |s.cmds|
    requires s.thread == s'.thread || s.thread == NotRunning
    requires forall c :: 0 <= c < |s.cmds| ==> s.cmds[c].pc == Inserted ==> s'.cmds[c].pc == Inserted
    requires forall c :: 0 <= c < |s.cmds| ==> s'.cmds[c].putBack == s.cmds[c].putBack
    ensures NoLostWakeup(s')
  {
  }

  /** The thread only goes to sleep when it has seen the queue empty. */
  lemma ThreadWakeup(s: State)
    requires QueueOk(s) && ThreadCanStep(s)
    ensures NoLostWakeup(ThreadDo(s))
  {
    if s.queue != [] {
      assert s.queue[0] < |s.cmds|;
    }
  }

  lemma StepPutsNothingBack(s: State, step: Step)
    requires NothingPutBack(s) && Enabled(s, step)
    ensures NothingPutBack(Do(s, step))
  {
    match step {
      case ThreadStep => ThreadPutsNothingBack(s);
      case _ =>
    }
  }

  lemma ThreadPutsNothingBack(s: State)
    requires NothingPutBack(s) && ThreadCanStep(s)
    ensures NothingPutBack(ThreadDo(s))
  {
  }

  lemma {:induction false} RunWakeup(s: State, steps: seq<Step>)
    requires Inv(s) && NoLostWakeup(s) && CanRun(s, steps)
    ensures NoLostWakeup(After(s, steps))
    ensures NothingPutBack(s) ==> NothingPutBack(After(s, steps))
    decreases |steps|
  {
    if steps != [] {
      var s1 := Do(s, steps[0]);
      StepWakeup(s, steps[0]);
      StepKeeps(s, steps[0]);
      if NothingPutBack(s) {
        StepPutsNothingBack(s, steps[0]);
      }
      hide Inv, Do, Enabled, NoLostWakeup, NothingPutBack;
      RunWakeup(s1, steps[1..]);
    }
  }

  /** Without LPS_LCLK no wake-up is lost: in every reachable state where the thread is blocked and the
      queue is not empty, the semaphore is positive or a submitter has yet to raise it; so the thread or
      that submitter can go on. */
  lemma NoWakeupLost(steps: seq<Step>)
    requires CanRun(Init(false), steps)
    ensures var s := After(Init(false), steps);
            s.thread == Down && s.queue != [] ==>
              (s.sema > 0 && Enabled(s, ThreadStep)) || exists c :: 0 <= c < |s.cmds| && Enabled(s, Raise(c))
  {
    var s := After(Init(false), steps);
    InitInv(false);
    RunKeeps(Init(false), steps);
    RunWakeup(Init(false), steps);
    if s.thread == Down && s.queue != [] && s.sema == 0 {
      var c :| 0 <= c < |s.cmds| && s.cmds[c].pc == Inserted;
      assert Enabled(s, Raise(c));
    }
  }

  lemma {:induction false} RunAppend(s: State, first: seq<Step>, second: seq<Step>)
    requires CanRun(s, first) && CanRun(After(s, first), second)
    ensures CanRun(s, first + second) && After(s, first + second) == After(After(s, first), second)
    decreases |first|
  {
    hide Do, Enabled;
    if first == [] {
      assert first + second == second;
    } else {
      assert (first + second)[0] == first[0] && (first + second)[1..] == first[1..] + second;
      RunAppend(Do(s, first[0]), first[1..], second);
    }
  }

  ghost predicate Reachable(lps: bool, t: State) {
    exists steps :: CanRun(Init(lps), steps) && After(Init(lps), steps) == t
  }

  lemma StepReaches(lps: bool, t: State, step: Step)
    requires Reachable(lps, t) && Enabled(t, step)
    ensures Reachable(lps, Do(t, step))
  {
    hide Do, Enabled;
    var first :| CanRun(Init(lps), first) && After(Init(lps), first) == t;
    assert CanRun(Do(t, step), []);
    assert CanRun(t, [step]);
    RunAppend(Init(lps), first, [step]);
    assert After(Init(lps), first + [step]) == Do(t, step);
  }

  function Queued(pc: SubmitterPc, place: Place, queue: seq<nat>, sema: nat): State {
    State([Cmd(0, false, pc, place, false, Submitted, false, false)], queue, queue, [], sema, true, false, map[], Down,
          true)
  }

  lemma OneChanged(x: Cmd, y: Cmd, none: seq<nat>, c: nat)
    ensures [x][0 := y] == [y] && [c][1..] == [] && (none == [] ==> none + [c] == [c])
  {
  }

  /** A submitter makes its only command, and the filter lets it pass. */
  lemma OneMade()
    ensures Reachable(true, Queued(PastFilter, WithSubmitter, [], 0))
  {
    var t := Init(true);
    assert CanRun(t, []);
    StepReaches(true, t, Start);
    t := Do(t, Start);
    StepReaches(true, t, Submit(0, false));
    t := Queued(Made, WithSubmitter, [], 0);
    StepReaches(true, t, Filter(0, true));
    OneChanged(t.cmds[0], t.cmds[0].(pc := PastFilter), [], 0);
  }

  /** It queues the command and raises the semaphore. */
  lemma OneQueued()
    ensures Reachable(true, Queued(Returned, OnQueue, [0], 1))
  {
    hide Reachable;
    OneMade();
    var t := Queued(PastFilter, WithSubmitter, [], 0);
    StepReaches(true, t, Insert(0));
    OneChanged(t.cmds[0], t.cmds[0].(pc := Inserted, place := OnQueue), [], 0);
    t := Queued(Inserted, OnQueue, [0], 0);
    StepReaches(true, t, Raise(0));
    OneChanged(t.cmds[0], t.cmds[0].(pc := Returned), [], 0);
  }

  /** The thread takes it. */
  lemma OneTaken()
    ensures Reachable(true, Queued(Returned, OnQueue, [0], 0).(thread := Take))
  {
    hide Reachable;
    OneQueued();
    var t := Queued(Returned, OnQueue, [0], 1);
    StepReaches(true, t, ThreadStep);
    t := t.(sema := 0, thread := CheckRun);
    StepReaches(true, t, ThreadStep);
    t := t.(thread := CheckEmpty);
    StepReaches(true, t, ThreadStep);
    t := t.(thread := Next);
    StepReaches(true, t, ThreadStep);
  }

  /** With LPS_LCLK a wake-up can be lost: the one command submitted is taken and put back at the head, and
      only a wake-up from outside the queue (a Kick, as the power-save code gives it) gets the thread back. */
  lemma WakeupLostWithLps()
    ensures exists t: State :: Reachable(true, t) && t.thread == Down && t.queue == [0] && t.sema == 0 &&
              !RaisePending(t)
  {
    hide Reachable;
    OneTaken();
    var t := Queued(Returned, OnQueue, [0], 0).(thread := Take);
    StepReaches(true, t, ThreadStep);
    OneChanged(t.cmds[0], t.cmds[0].(place := InHand), [], 0);
    t := t.(thread := At(0, Handle, false), queue := [], taken := [0], cmds := [t.cmds[0].(place := InHand)]);
    StepReaches(true, t, PutBack);
    t := Do(t, PutBack);
  }
}
