/** How the command thread ends: when it leaves its loop, what its exit drain does, and what becomes of the
    commands that come too late. */
module CmdExit {
  import opened CmdThread
  import opened CmdSafety
  import opened CmdRuns

  // The flag and the filter.

  /** The thread has not started, drains the queue, or is gone. */
  predicate OutOfLoop(t: ThreadPc) {
    t == NotRunning || t == DrainTake || (t.At? && t.draining)
  }

  /** cmdthd_running is set exactly in the loop, and the drain executes nothing. */
  predicate FlagOk(s: State) {
    && (s.running <==> !OutOfLoop(s.thread))
    && (s.thread.At? && s.thread.draining ==> s.thread.stage != Handle)
  }

  lemma StepFlag(s: State, step: Step)
    requires Enabled(s, step) && FlagOk(s)
    ensures FlagOk(Do(s, step))
  {
    match step {
      case ThreadStep => ThreadFlag(s);
      case _ =>
    }
  }

  lemma ThreadFlag(s: State)
    requires ThreadCanStep(s) && FlagOk(s)
    ensures FlagOk(ThreadDo(s))
  {
    hide Served, ServedMutex;
  }

  lemma {:induction false} RunFlag(s: State, steps: seq<Step>)
    requires CanRun(s, steps) && FlagOk(s)
    ensures FlagOk(After(s, steps))
    decreases |steps|
  {
    hide Do, Enabled, FlagOk;
    if steps != [] {
      StepFlag(s, steps[0]);
      RunFlag(Do(s, steps[0]), steps[1..]);
    }
  }

  /** Over every run cmdthd_running says whether the thread is in its loop, so that outside it the filter lets no
      command pass. */
  lemma RunningIff(lps: bool, steps: seq<Step>)
    requires CanRun(Init(lps), steps)
    ensures var s := After(Init(lps), steps);
            && (s.running <==> !OutOfLoop(s.thread))
            && (OutOfLoop(s.thread) ==> forall c :: !Enabled(s, Filter(c, true)))
  {
    RunFlag(Init(lps), steps);
  }

  // Commands that come too late.

  ghost predicate NoStart(steps: seq<Step>) {
    forall k :: 0 <= k < |steps| ==> !steps[k].Start?
  }

  /** The step takes command c through the filter. */
  predicate Filters(step: Step, c: nat) {
    step.Filter? && step.c == c
  }

  predicate Filtered(steps: seq<Step>, c: nat) {
    exists k :: 0 <= k < |steps| && Filters(steps[k], c)
  }

  ghost predicate AcceptedLeft(s: State) {
    forall k :: 0 <= k < |s.accepted| ==>
      s.accepted[k] < |s.cmds| && s.cmds[s.accepted[k]].place != WithSubmitter
  }

  lemma ServedFrame(d: Cmd, stage: Stage)
    ensures var e := Served(d, stage); e.freed == d.freed && e.pc == d.pc && e.place == d.place
  {
  }

  lemma ServeFrame(s: State, c: nat)
    requires ThreadCanStep(s) && s.thread.At? && c < |s.cmds|
    ensures var t := ServeDo(s);
            && |t.cmds| == |s.cmds| && t.accepted == s.accepted && t.queue == s.queue && t.sema == s.sema
            && t.running == s.running && t.cannotRun == s.cannotRun
            && t.cmds[c].freed == s.cmds[c].freed && t.cmds[c].pc == s.cmds[c].pc
            && (c != s.thread.c ==> t.cmds[c] == s.cmds[c])
  {
    hide Served, ServedMutex, StageAfter;
    ServedFrame(s.cmds[s.thread.c], s.thread.stage);
  }

  /** The thread neither accepts nor frees a command, and touches only the one in its hands and the head of the
      queue. */
  lemma ThreadFrame(s: State, c: nat)
    requires ThreadCanStep(s)
    ensures var t := ThreadDo(s);
            && |t.cmds| == |s.cmds| && t.accepted == s.accepted
            && (c < |s.cmds| ==> t.cmds[c].freed == s.cmds[c].freed && t.cmds[c].pc == s.cmds[c].pc)
            && (c < |s.cmds| && !Serving(s.thread, c) && (s.queue != [] ==> s.queue[0] != c) ==>
                  t.cmds[c] == s.cmds[c])
  {
    if s.thread.At? {
      ServeFrame(s, if c < |s.cmds| then c else s.thread.c);
    }
    hide ServeDo;
  }

  /** A command with its submitter is only touched by the submitter's own steps. */
  lemma Untouched(s: State, step: Step, c: nat)
    requires Inv(s) && Enabled(s, step) && c < |s.cmds| && s.cmds[c].place == WithSubmitter
    requires !Filters(step, c) && (s.cmds[c].pc == Made || s.cmds[c].pc == Returned)
    ensures c < |Do(s, step).cmds| && Do(s, step).cmds[c] == s.cmds[c]
  {
    hide Do, Enabled;
    assert CmdOk(c, s.cmds[c], s.thread, s.mutex);
    if s.queue != [] {
      HeadIsQueued(s);
    }
    assert !Serving(s.thread, c) && (s.queue != [] ==> s.queue[0] != c);
    UntouchedFrame(s, step, c);
  }

  lemma UntouchedFrame(s: State, step: Step, c: nat)
    requires Enabled(s, step) && c < |s.cmds| && !Serving(s.thread, c) && (s.queue != [] ==> s.queue[0] != c)
    requires !Filters(step, c) && (s.cmds[c].pc == Made || s.cmds[c].pc == Returned)
    ensures c < |Do(s, step).cmds| && Do(s, step).cmds[c] == s.cmds[c]
  {
    hide ThreadDo, ThreadCanStep;
    match step {
      case ThreadStep => ThreadFrame(s, c);
      case _ =>
    }
  }

  lemma HeadIsQueued(s: State)
    requires QueueOk(s) && s.queue != []
    ensures s.queue[0] < |s.cmds| && s.cmds[s.queue[0]].place == OnQueue
  {
  }

  /** Command c has not been accepted: it has yet to be filtered, or it has been sent back and freed. */
  ghost predicate Outside(s: State, c: nat, filtered: bool) {
    && c !in s.accepted
    && (c < |s.cmds| ==>
          && s.cmds[c].place == WithSubmitter
          && s.cmds[c].pc == (if filtered then Returned else Made)
          && s.cmds[c].freed == filtered)
    && (c >= |s.cmds| ==> !filtered)
  }

  lemma OutsideStep(s: State, step: Step, c: nat, filtered: bool)
    requires Inv(s) && Enabled(s, step) && Outside(s, c, filtered) && !s.running
    ensures Outside(Do(s, step), c, filtered || Filters(step, c))
  {
    AcceptedStep(s, step);
    if c < |s.cmds| && !Filters(step, c) {
      Untouched(s, step, c);
    }
    hide Inv;
    NewOnly(s, step, c);
  }

  lemma AcceptedStep(s: State, step: Step)
    requires Enabled(s, step)
    ensures Do(s, step).accepted == s.accepted + (if step.Insert? then [step.c] else [])
  {
    hide ThreadDo, ThreadCanStep;
    match step {
      case ThreadStep => ThreadFrame(s, 0);
      case _ =>
    }
  }

  lemma NewOnly(s: State, step: Step, c: nat)
    requires Enabled(s, step)
    ensures |s.cmds| <= |Do(s, step).cmds|
    ensures |s.cmds| <= c < |Do(s, step).cmds| ==>
              (var d := Do(s, step).cmds[c]; d.place == WithSubmitter && d.pc == Made && !d.freed)
    ensures Filters(step, c) && !s.running ==>
              && c < |s.cmds| && s.cmds[c].pc == Made
              && (var d := Do(s, step).cmds[c]; d.place == s.cmds[c].place && d.pc == Returned && d.freed)
  {
    hide ThreadDo, ThreadCanStep;
    match step {
      case ThreadStep => ThreadFrame(s, 0);
      case _ =>
    }
  }

  lemma StaysOut(s: State, step: Step)
    requires FlagOk(s) && Enabled(s, step) && OutOfLoop(s.thread) && !step.Start?
    ensures OutOfLoop(Do(s, step).thread)
  {
    hide Served, ServedMutex;
  }

  lemma {:induction false} OutsideRun(s: State, steps: seq<Step>, c: nat, filtered: bool)
    requires CanRun(s, steps) && NoStart(steps)
    requires Inv(s) && FlagOk(s) && Outside(s, c, filtered) && OutOfLoop(s.thread)
    ensures Outside(After(s, steps), c, filtered || Filtered(steps, c))
    decreases |steps|
  {
    assert !s.running;
    hide Inv, FlagOk, Do, Enabled, OutOfLoop, Outside, Filters;
    if steps != [] {
      StepKeeps(s, steps[0]);
      StepFlag(s, steps[0]);
      StaysOut(s, steps[0]);
      OutsideStep(s, steps[0], c, filtered);
      OutsideRun(Do(s, steps[0]), steps[1..], c, filtered || Filters(steps[0], c));
      FilteredSplit(steps, c);
    }
  }

  lemma FilteredSplit(steps: seq<Step>, c: nat)
    requires steps != []
    ensures Filtered(steps, c) <==> Filters(steps[0], c) || Filtered(steps[1..], c)
  {
    if Filtered(steps, c) {
      var k :| 0 <= k < |steps| && Filters(steps[k], c);
      assert k > 0 ==> steps[1..][k - 1] == steps[k];
    }
    if Filtered(steps[1..], c) {
      var k :| 0 <= k < |steps[1..]| && Filters(steps[1..][k], c);
      assert steps[k + 1] == steps[1..][k];
    }
  }

  lemma StepAccepted(s: State, step: Step)
    requires Enabled(s, step) && AcceptedLeft(s)
    ensures AcceptedLeft(Do(s, step))
  {
    hide AcceptedLeft;
    AcceptedStep(s, step);
    PlacesLeft(s, step);
    AcceptedGrows(s, Do(s, step), if step.Insert? then [step.c] else []);
  }

  lemma AcceptedGrows(s: State, t: State, more: seq<nat>)
    requires AcceptedLeft(s) && t.accepted == s.accepted + more && |s.cmds| <= |t.cmds|
    requires forall e :: 0 <= e < |s.cmds| && s.cmds[e].place != WithSubmitter ==> t.cmds[e].place != WithSubmitter
    requires forall k :: 0 <= k < |more| ==> more[k] < |t.cmds| && t.cmds[more[k]].place != WithSubmitter
    ensures AcceptedLeft(t)
  {
  }

  /** No step gives a command back to its submitter. */
  lemma PlacesLeft(s: State, step: Step)
    requires Enabled(s, step)
    ensures var t := Do(s, step);
            && |s.cmds| <= |t.cmds|
            && (forall e :: 0 <= e < |s.cmds| && s.cmds[e].place != WithSubmitter ==> t.cmds[e].place != WithSubmitter)
            && (step.Insert? ==> step.c < |t.cmds| && t.cmds[step.c].place != WithSubmitter)
  {
    match step {
      case ThreadStep => ThreadPlaces(s);
      case _ =>
    }
  }

  lemma ThreadPlaces(s: State)
    requires ThreadCanStep(s)
    ensures |ThreadDo(s).cmds| == |s.cmds|
    ensures forall e :: 0 <= e < |s.cmds| && s.cmds[e].place != WithSubmitter ==>
              ThreadDo(s).cmds[e].place != WithSubmitter
  {
    if s.thread.At? {
      ServePlaces(s);
      hide ServeDo;
    } else {
      hide ServeDo;
    }
  }

  lemma {:induction false} RunAccepted(s: State, steps: seq<Step>)
    requires CanRun(s, steps) && AcceptedLeft(s)
    ensures AcceptedLeft(After(s, steps))
    decreases |steps|
  {
    hide Do, Enabled, AcceptedLeft;
    if steps != [] {
      StepAccepted(s, steps[0]);
      RunAccepted(Do(s, steps[0]), steps[1..]);
    }
  }

  /** Over every run: a command that comes to the filter after the thread has left its loop is never accepted, as
      long as the thread is not started again; its submitter returns, and the command is freed. */
  lemma LateIsRefused(lps: bool, before: seq<Step>, late: seq<Step>, c: nat)
    requires CanRun(Init(lps), before) && OutOfLoop(After(Init(lps), before).thread)
    requires c < |After(Init(lps), before).cmds| ==> After(Init(lps), before).cmds[c].pc == Made
    requires CanRun(After(Init(lps), before), late) && NoStart(late)
    ensures var t := After(After(Init(lps), before), late);
            && c !in t.accepted
            && (Filtered(late, c) ==> c < |t.cmds| && t.cmds[c].pc == Returned && t.cmds[c].freed)
            && (!Filtered(late, c) && c < |t.cmds| ==> t.cmds[c].pc == Made)
  {
    var s := After(Init(lps), before);
    InitInv(lps);
    RunKeeps(Init(lps), before);
    RunFlag(Init(lps), before);
    RunAccepted(Init(lps), before);
    if c < |s.cmds| {
      assert CmdOk(c, s.cmds[c], s.thread, s.mutex);
    }
    hide Inv, FlagOk, OutOfLoop, Filtered;
    OutsideRun(s, late, c, false);
  }

  /** As long as nobody stops it the thread stays in its loop. */
  lemma {:induction false} StaysInLoop(s: State, steps: seq<Step>)
    requires CanRun(s, steps) && s.running && FlagOk(s) && !s.cannotRun && s.thread != MarkExit
    requires forall k :: 0 <= k < |steps| ==> !steps[k].Interrupted? && steps[k] != SetCannotRun(true)
    ensures var t := After(s, steps); t.running && !OutOfLoop(t.thread)
    decreases |steps|
  {
    hide Do, Enabled, OutOfLoop;
    if steps != [] {
      StepFlag(s, steps[0]);
      StepInLoop(s, steps[0]);
      StaysInLoop(Do(s, steps[0]), steps[1..]);
    }
  }

  lemma StepInLoop(s: State, step: Step)
    requires Enabled(s, step) && s.running && !s.cannotRun && s.thread != MarkExit
    requires !step.Interrupted? && step != SetCannotRun(true)
    ensures var t := Do(s, step); t.running && !t.cannotRun && t.thread != MarkExit
  {
    hide Served, ServedMutex, StageAfter;
  }

  /** The commands whose handler the steps run, in order. */
  ghost function Executed(s: State, steps: seq<Step>): seq<nat>
    requires CanRun(s, steps)
    decreases |steps|
  {
    if steps == [] then []
    else
      (if steps[0].ThreadStep? && s.thread.At? && s.thread.stage == Handle then [s.thread.c] else [])
      + Executed(Do(s, steps[0]), steps[1..])
  }

  /** The commands completed in the loop, in order. */
  ghost function CompletedInLoop(s: State, steps: seq<Step>): seq<nat>
    requires CanRun(s, steps)
    decreases |steps|
  {
    if steps == [] then []
    else
      (if steps[0].Release? && s.running then [s.thread.c] else [])
      + CompletedInLoop(Do(s, steps[0]), steps[1..])
  }

  /** The command in hand when its handler has been run. */
  function HandledInHand(t: ThreadPc): seq<nat> {
    if t.At? && !t.draining && t.stage != Handle then [t.c] else []
  }

  lemma ExecutedStep(s: State, step: Step)
    requires Enabled(s, step) && FlagOk(s)
    ensures step.Release? ==> s.thread.At?
    ensures HandledInHand(s.thread)
              + (if step.ThreadStep? && s.thread.At? && s.thread.stage == Handle then [s.thread.c] else [])
         == (if step.Release? && s.running then [s.thread.c] else []) + HandledInHand(Do(s, step).thread)
  {
    hide ThreadDo;
    match step {
      case ThreadStep => ThreadExecutes(s);
      case _ =>
    }
  }

  lemma ThreadExecutes(s: State)
    requires ThreadCanStep(s) && FlagOk(s)
    ensures HandledInHand(s.thread) + (if s.thread.At? && s.thread.stage == Handle then [s.thread.c] else [])
         == HandledInHand(ThreadDo(s).thread)
  {
    hide Served, ServedMutex;
  }

  lemma {:induction false} ExecutedRun(s: State, steps: seq<Step>)
    requires CanRun(s, steps) && FlagOk(s)
    ensures HandledInHand(s.thread) + Executed(s, steps)
         == CompletedInLoop(s, steps) + HandledInHand(After(s, steps).thread)
    decreases |steps|
  {
    hide Do, Enabled, FlagOk, HandledInHand;
    if steps != [] {
      var s1 := Do(s, steps[0]);
      StepFlag(s, steps[0]);
      ExecutedStep(s, steps[0]);
      ExecutedRun(s1, steps[1..]);
      var run := if steps[0].ThreadStep? && s.thread.At? && s.thread.stage == Handle then [s.thread.c] else [];
      var done := if steps[0].Release? && s.running then [s.thread.c] else [];
      Regroup(HandledInHand(s.thread), run, Executed(s1, steps[1..]), done, HandledInHand(s1.thread),
              CompletedInLoop(s1, steps[1..]), HandledInHand(After(s1, steps[1..]).thread));
    }
  }

  /** Over every run the handlers that have been run are those of the commands completed in the loop, in order, and of
      the one in hand when it is past its handler: each once, and none for a command the exit drain completes. */
  lemma ExecutedAre(lps: bool, steps: seq<Step>)
    requires CanRun(Init(lps), steps)
    ensures Executed(Init(lps), steps)
         == CompletedInLoop(Init(lps), steps) + HandledInHand(After(Init(lps), steps).thread)
  {
    ExecutedRun(Init(lps), steps);
    assert [] + Executed(Init(lps), steps) == Executed(Init(lps), steps);
  }

  // The drain.

  /** When the thread ends, every command accepted so far has been completed: none is queued, none is in its hands,
      and no submit context is hooked to any. */
  lemma DrainCompletes(lps: bool, steps: seq<Step>, step: Step)
    requires CanRun(Init(lps), steps) && Enabled(After(Init(lps), steps), step)
    requires After(Init(lps), steps).thread != NotRunning && Do(After(Init(lps), steps), step).thread == NotRunning
    ensures var t := Do(After(Init(lps), steps), step);
            && t.queue == [] && t.taken == t.accepted
            && forall c :: c in t.accepted ==> c < |t.cmds| && t.cmds[c].place == Past && !t.cmds[c].hooked
  {
    var s := After(Init(lps), steps);
    InitInv(lps);
    RunKeeps(Init(lps), steps);
    RunAccepted(Init(lps), steps);
    StepKeeps(s, step);
    StepAccepted(s, step);
    EndsEmpty(s, step);
    AllPast(Do(s, step));
  }

  lemma EndsEmpty(s: State, step: Step)
    requires Enabled(s, step) && QueueOk(s) && s.thread != NotRunning && Do(s, step).thread == NotRunning
    ensures Do(s, step).queue == []
  {
    if s.queue != [] {
      HeadIsQueued(s);
    }
    hide QueueOk;
  }

  lemma AllPast(t: State)
    requires Inv(t) && AcceptedLeft(t) && t.thread == NotRunning && t.queue == []
    ensures t.taken == t.accepted
    ensures forall c :: c in t.accepted ==> c < |t.cmds| && t.cmds[c].place == Past && !t.cmds[c].hooked
  {
    assert t.taken + [] == t.taken;
    forall c | c in t.accepted
      ensures c < |t.cmds| && t.cmds[c].place == Past && !t.cmds[c].hooked
    {
      var k :| 0 <= k < |t.accepted| && t.accepted[k] == c;
      assert CmdOk(c, t.cmds[c], t.thread, t.mutex);
    }
  }

  /** What is queued after that is exactly what was put on the queue after that. */
  lemma {:induction false} StrandedIs(s: State, late: seq<Step>)
    requires CanRun(s, late) && NoStart(late) && s.thread == NotRunning
    ensures After(s, late).thread == NotRunning
    ensures After(s, late).queue == s.queue + Submissions(late)
    decreases |late|
  {
    if late == [] {
    } else {
      assert !late[0].Start?;
      var s1 := Do(s, late[0]);
      GoneStep(s, late[0]);
      hide Do, Enabled;
      StrandedIs(s1, late[1..]);
      var ins := if late[0].Insert? then [late[0].c] else [];
      assert s.queue + ins + Submissions(late[1..]) == s.queue + (ins + Submissions(late[1..]));
    }
  }

  lemma GoneStep(s: State, step: Step)
    requires Enabled(s, step) && s.thread == NotRunning && !step.Start?
    ensures Do(s, step).thread == NotRunning
    ensures Do(s, step).queue == s.queue + (if step.Insert? then [step.c] else [])
  {
  }

  /** Over every run: a command is left on the queue of a thread that has gone exactly when it is put there after the
      thread has gone, and then it had passed the filter while the flag was still set. */
  lemma StrandedIff(lps: bool, before: seq<Step>, late: seq<Step>, c: nat)
    requires CanRun(Init(lps), before)
    requires After(Init(lps), before).thread == NotRunning && After(Init(lps), before).queue == []
    requires CanRun(After(Init(lps), before), late) && NoStart(late)
    ensures var s := After(Init(lps), before);
            && (c in After(s, late).queue <==> c in Submissions(late))
            && (c in After(s, late).queue ==> c < |s.cmds| && s.cmds[c].pc != Made)
  {
    var s := After(Init(lps), before);
    StrandedIs(s, late);
    assert [] + Submissions(late) == Submissions(late);
    if c >= |s.cmds| || s.cmds[c].pc == Made {
      hide Do, Enabled, Inv, CanRun, After, Submissions, NoStart;
      LateNotQueued(lps, before, late, c);
    }
  }

  lemma LateNotQueued(lps: bool, before: seq<Step>, late: seq<Step>, c: nat)
    requires CanRun(Init(lps), before) && OutOfLoop(After(Init(lps), before).thread)
    requires c < |After(Init(lps), before).cmds| ==> After(Init(lps), before).cmds[c].pc == Made
    requires CanRun(After(Init(lps), before), late) && NoStart(late)
    ensures c !in After(After(Init(lps), before), late).queue
  {
    hide Do, Enabled, Filtered, AllOk, MutexOk;
    LateIsRefused(lps, before, late, c);
    RunAppend(Init(lps), before, late);
    InitInv(lps);
    RunKeeps(Init(lps), before + late);
    var t := After(After(Init(lps), before), late);
    if c in t.queue {
      QueuedAccepted(t, c);
    }
  }

  lemma QueuedAccepted(t: State, c: nat)
    requires QueueOk(t) && c in t.queue
    ensures c in t.accepted
  {
  }

  /** The filter and the queue are two critical sections: a submitter that passes the filter, and puts its command on
      the queue after the drain, leaves it there for good. */
  lemma LateInsertStranded()
    ensures exists t: State :: Reachable(true, t) && t.thread == NotRunning && !t.running && t.queue == [0] &&
              |t.cmds| == 1 && t.cmds[0].pc == Returned && !t.cmds[0].freed
  {
    hide Reachable;
    OneMade();
    var t := Queued(PastFilter, WithSubmitter, [], 0);
    StepReaches(true, t, Interrupted);
    t := t.(thread := MarkExit);
    StepReaches(true, t, ThreadStep);
    t := t.(running := false, thread := DrainTake);
    StepReaches(true, t, ThreadStep);
    t := t.(thread := NotRunning);
    StepReaches(true, t, Insert(0));
    OneChanged(t.cmds[0], t.cmds[0].(pc := Inserted, place := OnQueue), [], 0);
    t := t.(cmds := [t.cmds[0].(pc := Inserted, place := OnQueue)], queue := [0], accepted := [0]);
    StepReaches(true, t, Raise(0));
    t := Do(t, Raise(0));
  }

  // How long it takes.

  /** The stages left for the command in hand. */
  function StagesLeft(stage: Stage): nat {
    match stage
    case Handle => 10
    case Lock => 7
    case Test => 6
    case Write => 5
    case Signal => 4
    case Unhook => 3
    case Unlock => 2
    case Free => 1
  }

  /** A bound on the steps of the thread to its end once it cannot run: at most eight for each command queued. */
  function Rest(s: State): nat {
    match s.thread
    case NotRunning => 0
    case DrainTake => 1 + 8 * |s.queue|
    case MarkExit => 2 + 8 * |s.queue|
    case CheckRun => 3 + 8 * |s.queue|
    case Next => 3 + 8 * |s.queue|
    case Down => 4 + 8 * |s.queue|
    case CheckEmpty => 5 + 8 * |s.queue|
    case Take => 6 + 8 * |s.queue|
    case At(_, stage, draining) => StagesLeft(stage) + (if draining then 1 else 3) + 8 * |s.queue|
  }

  predicate OfThread(step: Step) {
    step.ThreadStep? || step.Release? || step.PutBack? || step.Interrupted?
  }

  function OwnSteps(steps: seq<Step>): nat {
    if steps == [] then 0 else (if OfThread(steps[0]) then 1 else 0) + OwnSteps(steps[1..])
  }

  lemma RestStep(s: State, step: Step)
    requires Enabled(s, step) && s.cannotRun && FlagOk(s) && !step.Start? && step != SetCannotRun(false)
    ensures Do(s, step).cannotRun
    ensures (if OfThread(step) then 1 else 0) + Rest(Do(s, step)) <= Rest(s) + (if step.Insert? then 8 else 0)
  {
    hide ThreadDo, ThreadCanStep;
    match step {
      case ThreadStep => RestThread(s);
      case _ =>
    }
  }

  lemma RestThread(s: State)
    requires ThreadCanStep(s) && s.cannotRun
    ensures ThreadDo(s).cannotRun && Rest(ThreadDo(s)) < Rest(s)
  {
    if s.thread.At? {
      RestServe(s);
    } else {
      hide ServeDo, StagesLeft;
      assert StagesLeft(Handle) == 10 && StagesLeft(Lock) == 7;
    }
  }

  lemma RestServe(s: State)
    requires ThreadCanStep(s) && s.thread.At?
    ensures ServeDo(s).cannotRun == s.cannotRun && Rest(ServeDo(s)) < Rest(s)
  {
    hide Served, ServedMutex;
  }

  lemma {:induction false} RestRun(s: State, steps: seq<Step>)
    requires CanRun(s, steps) && s.cannotRun && FlagOk(s)
    requires NoStart(steps) && forall k :: 0 <= k < |steps| ==> steps[k] != SetCannotRun(false)
    ensures OwnSteps(steps) + Rest(After(s, steps)) <= Rest(s) + 8 * |Submissions(steps)|
    decreases |steps|
  {
    hide Do, Enabled, Rest, OfThread, FlagOk;
    if steps != [] {
      RestStep(s, steps[0]);
      StepFlag(s, steps[0]);
      RestRun(Do(s, steps[0]), steps[1..]);
    }
  }

  /** Once the driver cannot run, the thread comes to its end in any interleaving: in every run from there it takes at
      most eight steps for each command queued and thirteen more, and short of its end it has an enabled step unless it
      waits for the semaphore, or for a mutex whose holder can go on. */
  lemma ExitEnds(lps: bool, before: seq<Step>, steps: seq<Step>)
    requires CanRun(Init(lps), before) && After(Init(lps), before).cannotRun
    requires CanRun(After(Init(lps), before), steps)
    requires NoStart(steps) && forall k :: 0 <= k < |steps| ==> steps[k] != SetCannotRun(false)
    ensures var s, t := After(Init(lps), before), After(After(Init(lps), before), steps);
            && OwnSteps(steps) <= 13 + 8 * (|s.queue| + |Submissions(steps)|)
            && (t.thread == NotRunning
                || Enabled(t, ThreadStep)
                || Enabled(t, Release(true))
                || (t.thread == Down && t.sema == 0)
                || (exists c :: Enabled(t, WaiterTest(c)) || Enabled(t, WaiterUnlock(c))))
  {
    var s := After(Init(lps), before);
    RunFlag(Init(lps), before);
    RestRun(s, steps);
    RestBound(s);
    RunAppend(Init(lps), before, steps);
    hide Do, Enabled, Inv, Rest, OfThread, FlagOk;
    GoesOn(lps, before + steps);
  }

  /** The thread can take a step in every reachable state, or it has ended, or it waits. */
  lemma GoesOn(lps: bool, steps: seq<Step>)
    requires CanRun(Init(lps), steps)
    ensures var t := After(Init(lps), steps);
            || t.thread == NotRunning
            || Enabled(t, ThreadStep)
            || Enabled(t, Release(true))
            || (t.thread == Down && t.sema == 0)
            || (exists c :: Enabled(t, WaiterTest(c)) || Enabled(t, WaiterUnlock(c)))
  {
    hide Do, AllOk, MutexOk;
    var t := After(Init(lps), steps);
    InitInv(lps);
    RunKeeps(Init(lps), steps);
    if t.thread.At? && t.thread.stage == Lock && t.cmds[t.thread.c].adapter in t.mutex {
      var a := t.cmds[t.thread.c].adapter;
      HolderCanGoOn(lps, steps, a);
      WaiterHolds(t, a);
    }
  }

  lemma WaiterHolds(t: State, a: nat)
    requires MutexOk(t) && t.thread.At? && t.thread.stage == Lock && a in t.mutex
    ensures t.mutex[a].Waiter?
  {
  }

  lemma RestBound(s: State)
    ensures Rest(s) <= 13 + 8 * |s.queue|
  {
  }

  // Conservation.

  predicate Frees(s: State, step: Step, c: nat) {
    step == Filter(c, false) || (step == Release(true) && s.thread.At? && s.thread.c == c)
  }

  ghost function FreeSteps(s: State, steps: seq<Step>, c: nat): nat
    requires CanRun(s, steps)
    decreases |steps|
  {
    if steps == [] then 0 else (if Frees(s, steps[0], c) then 1 else 0) + FreeSteps(Do(s, steps[0]), steps[1..], c)
  }

  predicate IsFreed(s: State, c: nat) {
    c < |s.cmds| && s.cmds[c].freed
  }

  lemma FreesOnce(s: State, step: Step, c: nat)
    requires Inv(s) && Enabled(s, step)
    ensures Frees(s, step, c) ==> !IsFreed(s, c)
    ensures IsFreed(Do(s, step), c) <==> IsFreed(s, c) || Frees(s, step, c)
  {
    hide Inv, Do, Enabled;
    StepIsSafe(s, step, c);
    FreesStep(s, step, c);
  }

  lemma FreesStep(s: State, step: Step, c: nat)
    requires Enabled(s, step)
    ensures IsFreed(Do(s, step), c) <==> IsFreed(s, c) || Frees(s, step, c)
  {
    hide ThreadDo, ThreadCanStep;
    match step {
      case ThreadStep => ThreadFreesNone(s, c);
      case _ =>
    }
  }

  lemma ThreadFreesNone(s: State, c: nat)
    requires ThreadCanStep(s)
    ensures IsFreed(ThreadDo(s), c) == IsFreed(s, c)
  {
    hide ThreadDo, ThreadCanStep;
    ThreadFrame(s, c);
  }

  lemma {:induction false} FreedRun(s: State, steps: seq<Step>, c: nat)
    requires Inv(s) && CanRun(s, steps)
    ensures (if IsFreed(s, c) then 1 else 0) + FreeSteps(s, steps, c) == (if IsFreed(After(s, steps), c) then 1 else 0)
    decreases |steps|
  {
    hide Inv, Do, Enabled, IsFreed, Frees;
    if steps != [] {
      FreesOnce(s, steps[0], c);
      StepKeeps(s, steps[0]);
      FreedRun(Do(s, steps[0]), steps[1..], c);
    }
  }

  /** Over every run no command object is freed twice, and one is freed exactly when the filter sent it back or the
      thread was done with it and no callback kept it. */
  lemma FreedExactlyOnce(lps: bool, steps: seq<Step>, c: nat)
    requires CanRun(Init(lps), steps)
    ensures FreeSteps(Init(lps), steps, c) == if IsFreed(After(Init(lps), steps), c) then 1 else 0
  {
    InitInv(lps);
    FreedRun(Init(lps), steps, c);
  }

  /** How often the semaphore is raised, and how often the thread passes it. */
  function Raises(steps: seq<Step>): nat {
    if steps == [] then 0 else (if steps[0].Raise? || steps[0].Kick? then 1 else 0) + Raises(steps[1..])
  }

  ghost function Downs(s: State, steps: seq<Step>): nat
    requires CanRun(s, steps)
    decreases |steps|
  {
    if steps == [] then 0
    else (if steps[0].ThreadStep? && s.thread == Down then 1 else 0) + Downs(Do(s, steps[0]), steps[1..])
  }

  lemma SemaStep(s: State, step: Step)
    requires Enabled(s, step)
    ensures s.sema + (if step.Raise? || step.Kick? then 1 else 0)
         == Do(s, step).sema + (if step.ThreadStep? && s.thread == Down then 1 else 0)
  {
    if step.ThreadStep? && s.thread.At? {
      ServeFrame(s, s.thread.c);
    }
    hide ServeDo;
  }

  /** No wake-up is made up and none is used twice. */
  lemma {:induction false} SemaphoreCounts(s: State, steps: seq<Step>)
    requires CanRun(s, steps)
    ensures s.sema + Raises(steps) == After(s, steps).sema + Downs(s, steps)
    decreases |steps|
  {
    hide Do, Enabled;
    if steps != [] {
      SemaStep(s, steps[0]);
      SemaphoreCounts(Do(s, steps[0]), steps[1..]);
    }
  }
}
