/** What every interleaving of the command thread with its submitters keeps. */
module CmdSafety {
  import opened Basics
  import opened CmdThread

  /** The thread is completing command c, at the given stage. */
  predicate Serving(t: ThreadPc, c: nat) {
    t.At? && t.c == c
  }

  /** The thread holds the mutex of the command's adapter. */
  predicate InMutex(t: ThreadPc) {
    t.At? && (t.stage == Test || t.stage == Write || t.stage == Signal || t.stage == Unhook || t.stage == Unlock)
  }

  predicate WillTest(pc: SubmitterPc) {
    pc == Inserted || pc == Waiting || pc == Woken || pc == Locked
  }

  predicate HoldsMutex(pc: SubmitterPc) {
    pc == Locked || pc == Tested
  }

  /** What holds of one command in every reachable state. */
  ghost predicate CmdOk(c: nat, d: Cmd, t: ThreadPc, mutex: map<nat, Holder>) {
    && (d.pc == Made || d.pc == PastFilter ==>
          d.place == WithSubmitter && !d.freed && d.status == Submitted && d.hooked == d.wait)
    && (d.place == WithSubmitter ==> d.pc == Made || d.pc == PastFilter || d.pc == Returned)
    && (d.place == OnQueue || d.place == InHand ==> !d.freed)
    && (d.place == OnQueue ==> d.status == Submitted)
    && (d.place == InHand <==> Serving(t, c))
    // the thread's own progress with the command
    && (Serving(t, c) && (t.stage == Handle || t.stage == Lock || t.stage == Test || t.stage == Write) ==>
          d.status == Submitted)
    && (Serving(t, c) && t.stage == Write ==> d.hooked)
    && (Serving(t, c) && (t.stage == Signal || t.stage == Unhook) ==> d.hooked && d.status == Done)
    && (Serving(t, c) && (t.stage == Unlock || t.stage == Free) ==> !d.hooked)
    // a hooked context belongs to a submitter that has yet to test its status
    && (d.hooked && d.place != WithSubmitter ==> d.wait && WillTest(d.pc))
    && (d.wait && WillTest(d.pc) && d.status == Submitted ==> d.hooked && (d.place == OnQueue || d.place == InHand))
    && (d.status == Done && d.hooked ==> Serving(t, c))
    && ((d.pc == Waiting || d.pc == Woken || HoldsMutex(d.pc)) ==> d.wait)
    // the mutex
    && (HoldsMutex(d.pc) <==> d.adapter in mutex && mutex[d.adapter] == Waiter(c))
    && (Serving(t, c) && InMutex(t) ==> d.adapter in mutex && mutex[d.adapter] == Thread)
  }

  ghost predicate AllOk(s: State) {
    forall c :: 0 <= c < |s.cmds| ==> CmdOk(c, s.cmds[c], s.thread, s.mutex)
  }

  /** The queue holds exactly the commands that are on it, once each; the thread's command was the last
      one taken; and what was accepted has been taken or is still queued, in that order. */
  ghost predicate QueueOk(s: State) {
    && Distinct(s.queue)
    && (forall i :: 0 <= i < |s.queue| ==> s.queue[i] < |s.cmds| && s.cmds[s.queue[i]].place == OnQueue)
    && (forall c :: 0 <= c < |s.cmds| && s.cmds[c].place == OnQueue ==> c in s.queue)
    && (s.thread.At? ==> s.thread.c < |s.cmds| && s.taken != [] && s.taken[|s.taken| - 1] == s.thread.c)
    && s.accepted == s.taken + s.queue
  }

  /** A mutex held by a waiter or the thread belongs to a command that exists. */
  ghost predicate MutexOk(s: State) {
    forall a :: a in s.mutex ==> match s.mutex[a]
      case Thread => InMutex(s.thread) && s.thread.c < |s.cmds| && s.cmds[s.thread.c].adapter == a
      case Waiter(c) => c < |s.cmds| && s.cmds[c].adapter == a
  }

  ghost predicate Inv(s: State) {
    AllOk(s) && QueueOk(s) && MutexOk(s)
  }

  lemma InitInv(lps: bool)
    ensures Inv(Init(lps))
  {
  }

  /** Commands other than c are not affected by a step that changes c, the thread's dealings with c, and
      c's hold on its mutex. */
  lemma OthersOk(s: State, s': State, c: nat)
    requires AllOk(s) && c < |s.cmds| && |s'.cmds| == |s.cmds|
    requires forall e :: 0 <= e < |s.cmds| && e != c ==> s'.cmds[e] == s.cmds[e]
    requires forall e :: 0 <= e < |s.cmds| && e != c ==>
               (Serving(s.thread, e) <==> Serving(s'.thread, e)) && (Serving(s.thread, e) ==> s'.thread == s.thread)
    requires forall a, e :: a in s.mutex && s.mutex[a] == Waiter(e) && e != c ==>
               a in s'.mutex && s'.mutex[a] == Waiter(e)
    requires forall a, e :: a in s'.mutex && s'.mutex[a] == Waiter(e) && e != c ==>
               a in s.mutex && s.mutex[a] == Waiter(e)
    requires s.thread.At? && s.thread.c != c ==>
               forall a :: a in s.mutex && s.mutex[a] == Thread ==> a in s'.mutex && s'.mutex[a] == Thread
    requires CmdOk(c, s'.cmds[c], s'.thread, s'.mutex)
    ensures AllOk(s')
  {
    forall e | 0 <= e < |s'.cmds|
      ensures CmdOk(e, s'.cmds[e], s'.thread, s'.mutex)
    {
      if e != c {
        assert CmdOk(e, s.cmds[e], s.thread, s.mutex);
      }
    }
  }

  lemma SubmitKeeps(s: State, adapter: nat, wait: bool)
    requires Inv(s)
    ensures Inv(Do(s, Submit(adapter, wait)))
  {
    var s' := Do(s, Submit(adapter, wait));
    var n := |s.cmds|;
    assert s.thread.At? ==> s.thread.c < n;
    assert forall a :: a in s.mutex && s.mutex[a].Waiter? ==> s.mutex[a].c < n;
    forall e | 0 <= e < |s'.cmds|
      ensures CmdOk(e, s'.cmds[e], s'.thread, s'.mutex)
    {
      if e < n {
        assert CmdOk(e, s.cmds[e], s.thread, s.mutex);
      }
    }
  }

  /** Steps that leave the queue alone and every command in its place. */
  lemma QueueStays(s: State, s': State)
    requires QueueOk(s) && |s'.cmds| == |s.cmds|
    requires s'.queue == s.queue && s'.accepted == s.accepted && s'.taken == s.taken
    requires forall e :: 0 <= e < |s.cmds| && s.cmds[e].place == OnQueue ==> s'.cmds[e].place == OnQueue
    requires forall e :: 0 <= e < |s.cmds| && s'.cmds[e].place == OnQueue ==> s.cmds[e].place == OnQueue
    requires s'.thread.At? ==> s.thread.At? && s'.thread.c == s.thread.c
    ensures QueueOk(s')
  {
  }

  /** The steps of a submitter that do not touch the queue. */
  predicate OfSubmitter(step: Step) {
    step.Filter? || step.Raise? || step.Wake? || step.WaiterLock? || step.WaiterTest? || step.WaiterUnlock?
  }

  lemma SubmitterKeeps(s: State, step: Step)
    requires Inv(s) && Enabled(s, step) && OfSubmitter(step)
    ensures Inv(Do(s, step))
  {
    SubmitterCmdOk(s, step);
    SubmitterQueue(s, step);
    SubmitterMutex(s, step);
    SubmitterOthers(s, step);
    hide CmdOk, QueueOk, MutexOk, AllOk, Do;
    OthersOk(s, Do(s, step), step.c);
  }

  lemma SubmitterOthers(s: State, step: Step)
    requires Enabled(s, step) && OfSubmitter(step)
    ensures var s' := Do(s, step);
            && step.c < |s.cmds| == |s'.cmds| && s'.thread == s.thread
            && (forall e :: 0 <= e < |s.cmds| && e != step.c ==> s'.cmds[e] == s.cmds[e])
  {
  }

  lemma SubmitterQueue(s: State, step: Step)
    requires QueueOk(s) && Enabled(s, step) && OfSubmitter(step)
    ensures QueueOk(Do(s, step))
  {
    hide QueueOk;
    var s' := Do(s, step);
    assert s'.thread == s.thread;
    assert forall e :: 0 <= e < |s.cmds| ==> s'.cmds[e].place == s.cmds[e].place;
    QueueStays(s, s');
  }

  lemma SubmitterMutex(s: State, step: Step)
    requires MutexOk(s) && Enabled(s, step) && OfSubmitter(step)
    requires step.WaiterUnlock? ==>
               var a := s.cmds[step.c].adapter; a in s.mutex && s.mutex[a] == Waiter(step.c)
    ensures var s' := Do(s, step);
            && MutexOk(s')
            && (forall a, e :: a in s.mutex && s.mutex[a] == Waiter(e) && e != step.c ==>
                  a in s'.mutex && s'.mutex[a] == Waiter(e))
            && (forall a, e :: a in s'.mutex && s'.mutex[a] == Waiter(e) && e != step.c ==>
                  a in s.mutex && s.mutex[a] == Waiter(e))
            && (forall a :: a in s.mutex && s.mutex[a] == Thread ==> a in s'.mutex && s'.mutex[a] == Thread)
  {
    hide MutexOk;
    var c, s', a := step.c, Do(s, step), s.cmds[step.c].adapter;
    assert |s'.cmds| == |s.cmds| && s'.thread == s.thread;
    assert forall e :: 0 <= e < |s.cmds| ==> s'.cmds[e].adapter == s.cmds[e].adapter;
    assert s'.mutex == if step.WaiterLock? then s.mutex[a := Waiter(c)]
                       else if step.WaiterUnlock? then s.mutex - {a} else s.mutex;
    MutexStays(s, s', c);
  }

  /** A submitter takes the mutex of its adapter, or gives it back, or leaves all of them alone. */
  lemma MutexStays(s: State, s': State, c: nat)
    requires MutexOk(s) && |s'.cmds| == |s.cmds| && s'.thread == s.thread && c < |s.cmds|
    requires forall e :: 0 <= e < |s.cmds| ==> s'.cmds[e].adapter == s.cmds[e].adapter
    requires var a := s.cmds[c].adapter;
             s'.mutex == s.mutex || s'.mutex == s.mutex - {a} || s'.mutex == s.mutex[a := Waiter(c)]
    ensures MutexOk(s')
  {
  }

  lemma SubmitterCmdOk(s: State, step: Step)
    requires AllOk(s) && MutexOk(s) && Enabled(s, step) && OfSubmitter(step)
    ensures var s' := Do(s, step); CmdOk(step.c, s'.cmds[step.c], s'.thread, s'.mutex)
    ensures step.WaiterUnlock? ==>
              var a := s.cmds[step.c].adapter; a in s.mutex && s.mutex[a] == Waiter(step.c)
  {
    assert CmdOk(step.c, s.cmds[step.c], s.thread, s.mutex);
    hide AllOk;
    if step.WaiterLock? || step.WaiterUnlock? {
      MutexCmdOk(s, step);
    } else {
      PlainCmdOk(s, step);
    }
  }

  lemma MutexCmdOk(s: State, step: Step)
    requires Enabled(s, step) && MutexOk(s) && (step.WaiterLock? || step.WaiterUnlock?)
    requires CmdOk(step.c, s.cmds[step.c], s.thread, s.mutex)
    ensures var s' := Do(s, step); CmdOk(step.c, s'.cmds[step.c], s'.thread, s'.mutex)
    ensures step.WaiterUnlock? ==>
              var a := s.cmds[step.c].adapter; a in s.mutex && s.mutex[a] == Waiter(step.c)
  {
    hide MutexOk;
  }

  lemma PlainCmdOk(s: State, step: Step)
    requires Enabled(s, step) && (step.Filter? || step.Raise? || step.Wake? || step.WaiterTest?)
    requires CmdOk(step.c, s.cmds[step.c], s.thread, s.mutex)
    ensures var s' := Do(s, step); CmdOk(step.c, s'.cmds[step.c], s'.thread, s'.mutex)
  {
  }

  lemma InsertKeeps(s: State, c: nat)
    requires Inv(s) && Enabled(s, Insert(c))
    ensures Inv(Do(s, Insert(c)))
  {
    var s' := Do(s, Insert(c));
    assert CmdOk(c, s.cmds[c], s.thread, s.mutex);
    assert CmdOk(c, s'.cmds[c], s'.thread, s'.mutex);
    OthersOk(s, s', c);
    assert s'.cmds[c].place == OnQueue && s'.queue[|s.queue|] == c;
  }

  /** The thread's steps that do not concern a particular command. */
  lemma IdleKeeps(s: State, s': State)
    requires Inv(s) && !s.thread.At? && !s'.thread.At?
    requires s' == s.(thread := s'.thread, sema := s'.sema, running := s'.running)
    ensures Inv(s')
  {
    forall e | 0 <= e < |s'.cmds|
      ensures CmdOk(e, s'.cmds[e], s'.thread, s'.mutex)
    {
      assert CmdOk(e, s.cmds[e], s.thread, s.mutex);
    }
  }

  /** Taking the first command off the queue. */
  lemma TakeKeeps(s: State, stage: Stage, draining: bool)
    requires Inv(s) && !s.thread.At? && s.queue != [] && s.queue[0] < |s.cmds|
    requires stage == Handle || stage == Lock
    ensures Inv(TakeHead(s, stage, draining))
  {
    var c, s' := s.queue[0], TakeHead(s, stage, draining);
    assert CmdOk(c, s.cmds[c], s.thread, s.mutex);
    assert CmdOk(c, s'.cmds[c], s'.thread, s'.mutex);
    OthersOk(s, s', c);
    TakeQueue(s, stage, draining);
  }

  lemma TakeQueue(s: State, stage: Stage, draining: bool)
    requires QueueOk(s) && s.queue != [] && s.queue[0] < |s.cmds|
    ensures QueueOk(TakeHead(s, stage, draining))
  {
    var s' := TakeHead(s, stage, draining);
    var c, rest := s.queue[0], s.queue[1..];
    assert s.queue == [c] + rest && s.taken + s.queue == s.taken + [c] + rest;
    FirstIsOnce(s.queue);
    forall i | 0 <= i < |s'.queue|
      ensures s'.queue[i] < |s'.cmds| && s'.cmds[s'.queue[i]].place == OnQueue
    {
      assert rest[i] == s.queue[i + 1];
    }
    forall e | 0 <= e < |s'.cmds| && s'.cmds[e].place == OnQueue
      ensures e in s'.queue
    {
      assert e in s.queue && e != c;
    }
  }

  lemma FirstIsOnce(q: seq<nat>)
    requires Distinct(q) && q != []
    ensures Distinct(q[1..]) && q[0] !in q[1..]
  {
  }

  /** The stages of a completion. */
  lemma ServeKeeps(s: State)
    requires Inv(s) && ThreadCanStep(s) && s.thread.At?
    ensures Inv(ServeDo(s))
  {
    var c, s' := s.thread.c, ServeDo(s);
    ServeCmdOk(s);
    ServeMutex(s);
    ServeQueue(s);
    ServeOthers(s);
    hide CmdOk, QueueOk, MutexOk, AllOk, ServeDo;
    OthersOk(s, s', c);
  }

  lemma ServeOthers(s: State)
    requires ThreadCanStep(s) && s.thread.At?
    ensures var c, s' := s.thread.c, ServeDo(s);
            && |s'.cmds| == |s.cmds| && s'.thread.At? && s'.thread.c == c
            && (forall e :: 0 <= e < |s.cmds| && e != c ==> s'.cmds[e] == s.cmds[e])
  {
    hide ServedMutex, StageAfter, Served;
  }

  lemma ServePlaces(s: State)
    requires ThreadCanStep(s) && s.thread.At?
    ensures var s' := ServeDo(s);
            && s'.queue == s.queue && s'.accepted == s.accepted && s'.taken == s.taken
            && (forall e :: 0 <= e < |s.cmds| ==> s'.cmds[e].place == s.cmds[e].place)
  {
    hide ServedMutex, StageAfter;
  }

  lemma ServeQueue(s: State)
    requires QueueOk(s) && ThreadCanStep(s) && s.thread.At?
    ensures QueueOk(ServeDo(s))
  {
    hide ServeDo, QueueOk;
    ServePlaces(s);
    ServeOthers(s);
    QueueStays(s, ServeDo(s));
  }

  lemma ServeMutex(s: State)
    requires MutexOk(s) && ThreadCanStep(s) && s.thread.At?
    requires s.thread.stage == Unlock ==>
               var a := s.cmds[s.thread.c].adapter; a in s.mutex && s.mutex[a] == Thread
    ensures MutexOk(ServeDo(s))
    ensures forall a, e :: a in s.mutex && s.mutex[a] == Waiter(e) ==>
              a in ServeDo(s).mutex && ServeDo(s).mutex[a] == Waiter(e)
    ensures forall a, e :: a in ServeDo(s).mutex && ServeDo(s).mutex[a] == Waiter(e) ==>
              a in s.mutex && s.mutex[a] == Waiter(e)
  {
  }

  lemma ServeCmdOk(s: State)
    requires AllOk(s) && ThreadCanStep(s) && s.thread.At?
    ensures var c, s' := s.thread.c, ServeDo(s); CmdOk(c, s'.cmds[c], s'.thread, s'.mutex)
    ensures var a := s.cmds[s.thread.c].adapter;
            s.thread.stage == Unlock ==> a in s.mutex && s.mutex[a] == Thread
  {
    assert CmdOk(s.thread.c, s.cmds[s.thread.c], s.thread, s.mutex);
    hide AllOk;
  }

  lemma ReleaseKeeps(s: State, really: bool)
    requires Inv(s) && Enabled(s, Release(really))
    ensures Inv(Do(s, Release(really)))
  {
    var c, s' := s.thread.c, Do(s, Release(really));
    ReleaseCmdOk(s, really);
    ReleaseQueue(s, really);
    ReleaseMutex(s, really);
    hide CmdOk, QueueOk, AllOk, MutexOk;
    OthersOk(s, s', c);
  }

  lemma ReleaseQueue(s: State, really: bool)
    requires QueueOk(s) && Enabled(s, Release(really)) && s.cmds[s.thread.c].place == InHand
    ensures QueueOk(Do(s, Release(really)))
  {
    hide QueueOk;
    QueueStays(s, Do(s, Release(really)));
  }

  lemma ReleaseMutex(s: State, really: bool)
    requires MutexOk(s) && Enabled(s, Release(really))
    ensures MutexOk(Do(s, Release(really)))
  {
  }

  lemma ReleaseCmdOk(s: State, really: bool)
    requires AllOk(s) && Enabled(s, Release(really))
    ensures var c, s' := s.thread.c, Do(s, Release(really)); CmdOk(c, s'.cmds[c], s'.thread, s'.mutex)
    ensures s.cmds[s.thread.c].place == InHand
  {
    assert CmdOk(s.thread.c, s.cmds[s.thread.c], s.thread, s.mutex);
    hide AllOk;
  }

  lemma PutBackKeeps(s: State)
    requires Inv(s) && Enabled(s, PutBack)
    ensures Inv(Do(s, PutBack))
  {
    var c, s' := s.thread.c, Do(s, PutBack);
    PutBackCmdOk(s);
    PutBackQueue(s);
    PutBackMutex(s);
    hide CmdOk, QueueOk, AllOk, MutexOk;
    OthersOk(s, s', c);
  }

  lemma PutBackMutex(s: State)
    requires MutexOk(s) && Enabled(s, PutBack)
    ensures MutexOk(Do(s, PutBack))
  {
  }

  lemma PutBackCmdOk(s: State)
    requires AllOk(s) && Enabled(s, PutBack)
    ensures var c, s' := s.thread.c, Do(s, PutBack); CmdOk(c, s'.cmds[c], s'.thread, s'.mutex)
    ensures s.cmds[s.thread.c].place == InHand
  {
    assert CmdOk(s.thread.c, s.cmds[s.thread.c], s.thread, s.mutex);
    hide AllOk;
  }

  lemma PutBackQueue(s: State)
    requires QueueOk(s) && Enabled(s, PutBack) && s.cmds[s.thread.c].place == InHand
    ensures QueueOk(Do(s, PutBack))
  {
    hide Do;
    PutBackIs(s);
    var c, s' := s.thread.c, Do(s, PutBack);
    assert s.taken == s.taken[..|s.taken| - 1] + [c];
    assert forall i :: 0 <= i < |s.queue| ==> s.queue[i] != c;
    Prepended(s.queue, c);
    forall i | 0 <= i < |s'.queue|
      ensures s'.queue[i] < |s'.cmds| && s'.cmds[s'.queue[i]].place == OnQueue
    {
      assert i > 0 ==> s'.queue[i] == s.queue[i - 1];
    }
    forall e | 0 <= e < |s'.cmds| && s'.cmds[e].place == OnQueue
      ensures e in s'.queue
    {
      assert e == c || e in s.queue;
    }
  }

  lemma PutBackIs(s: State)
    requires Enabled(s, PutBack)
    ensures var c, s' := s.thread.c, Do(s, PutBack);
            && s'.cmds == s.cmds[c := s.cmds[c].(place := OnQueue, putBack := true)] && !s'.thread.At?
            && s'.queue == [c] + s.queue && s'.taken == s.taken[..|s.taken| - 1] && s'.accepted == s.accepted
  {
  }

  lemma Prepended(q: seq<nat>, c: nat)
    requires Distinct(q) && forall i :: 0 <= i < |q| ==> q[i] != c
    ensures Distinct([c] + q)
  {
  }

  lemma ThreadKeeps(s: State)
    requires Inv(s) && ThreadCanStep(s)
    ensures Inv(ThreadDo(s))
  {
    if s.thread.At? {
      ServeKeeps(s);
      assert ThreadDo(s) == ServeDo(s);
    } else if s.thread == Take && s.queue != [] {
      TakeKeeps(s, Handle, false);
    } else if s.thread == DrainTake && s.queue != [] {
      TakeKeeps(s, Lock, true);
    } else {
      IdleKeeps(s, ThreadDo(s));
    }
  }

  /** Every step keeps the invariant. */
  lemma StepKeeps(s: State, step: Step)
    requires Inv(s) && Enabled(s, step)
    ensures Inv(Do(s, step))
  {
    match step
    case Submit(adapter, wait) => SubmitKeeps(s, adapter, wait);
    case Insert(c) => InsertKeeps(s, c);
    case Kick =>
    case SetCannotRun(_) =>
    case Start => IdleKeeps(s, Do(s, step));
    case Interrupted => IdleKeeps(s, Do(s, step));
    case ThreadStep => ThreadKeeps(s);
    case PutBack => PutBackKeeps(s);
    case Release(really) => ReleaseKeeps(s, really);
    case _ => SubmitterKeeps(s, step);
  }
}
