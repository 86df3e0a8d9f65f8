/**
 What each operation does to its job: which outcomes of a handler are retried, what an
 abort and a timer do, which definitions are enqueued, and in which order jobs start.
 */
module JobOutcomes {
  import opened JobProtocol
  import opened JobInvariant
  import opened JobTheorems

  // ----- what dispatch leaves alone -----

  lemma {:induction false} StartSomeLeaves(s: State, n: nat, id: Id)
    requires QueuedOnly(s) && id in s.jobs && id !in s.queue
    ensures StartSome(s, n).jobs[id] == s.jobs[id]
    decreases n
  {
    hide Satisfied, FirstRunnable;
    if n > 0 && s.running < s.config.maxConcurrent && |s.queue| > 0 && !s.shutdown {
      var i := FirstRunnable(s, 0);
      if i < |s.queue| {
        PopStart(s, i);
        RemoveKeeps(s.queue, i);
        StartSomeLeaves(Start(Pop(s, i), s.queue[i]), n - 1, id);
      }
    }
  }

  /** After a step, a job that was not queued when its dispatch began is as it was then. */
  lemma BodyDecides(s: State, step: Step, id: Id)
    requires Inv(s, {}) && Enabled(s, step) && (EndsInDispatch(s, step) || step.StepSignalled?)
    requires var body := if step.StepSignalled? then step.body else step;
             var s1 := BeforeDispatch(s, body);
             id in s1.jobs && s1.jobs[id].status != Queued
    ensures id in Apply(s, step).jobs
    ensures Apply(s, step).jobs[id] == BeforeDispatch(s, if step.StepSignalled? then step.body else step).jobs[id]
  {
    var body := if step.StepSignalled? then step.body else step;
    var s1 := BeforeDispatch(s, body);
    BeforeDispatchKeeps(s, body);
    DispatchIsSome(s1);
    StartSomeLeaves(s1, if step.StepSignalled? then step.starts else |s1.queue|, id);
  }

  // ----- the outcome of a handler -----

  /** The handler of the job returns with this outcome, whether or not the shutdown signal arrives meanwhile. */
  predicate Returns(step: Step, id: Id, o: Outcome) {
    match step
    case StepComplete(done, outcome) => done == id && outcome == o
    case StepSignalled(body, _) => body.StepComplete? && body.id == id && body.outcome == o
    case _ => false
  }

  /** No job that is not finished is marked as failed. */
  ghost predicate NoneFailedYet(s: State) {
    forall id | Unfinished(s, id) :: !s.jobs[id].hasFailed
  }

  /** The job is retried only after an error that may be retried, unless it was aborted or all retries are used up. */
  predicate Retries(s: State, job: Job, o: Outcome) {
    o == Failed(true) && !job.hasAborted && job.retryCount < |job.def.retryDelays| && !s.shutdown
  }

  lemma SettleDecides(s: State, id: Id, o: Outcome)
    requires id in s.jobs && s.jobs[id].status == Running
    ensures Settle(s, id, o).jobs[id] ==
              var job := s.jobs[id];
              if Retries(s, job, o) then job.(status := Standby, retryCount := job.retryCount + 1)
              else job.(status := Finished, hasFailed := job.hasFailed || (o.Failed? && !job.hasAborted), closes := job.closes + 1)
  {
  }

  /**
   A handler's return takes its job to standby exactly if it failed with an error that may
   be retried, was not aborted, has a retry left and there is no shutdown; otherwise the
   job is finished, as failed exactly if there was an error and no abort.
   */
  lemma ReturnDecides(s: State, step: Step, id: Id, o: Outcome)
    requires Inv(s, {}) && NoneFailedYet(s) && Enabled(s, step) && Returns(step, id, o)
    ensures id in s.jobs && s.jobs[id].status == Running && id in Apply(s, step).jobs
    ensures var before, after := s.jobs[id], Apply(s, step).jobs[id];
            var retried := o == Failed(true) && !before.hasAborted && before.retryCount < |before.def.retryDelays| && !s.shutdown;
            && after.status == (if retried then Standby else Finished)
            && after.retryCount == (if retried then before.retryCount + 1 else before.retryCount)
            && after.hasAborted == before.hasAborted
            && (after.hasFailed <==> !retried && o.Failed? && !before.hasAborted)
            && after.closes == (if retried then 0 else 1)
  {
    assert id in s.active;
    assert Unfinished(s, id);
    assert JobOk(s.jobs[id]);
    SettleDecides(s, id, o);
    BodyDecides(s, step, id);
  }

  // ----- the record of a finished job is final -----

  lemma AbortPendingLeaves(s: State, target: Id, id: Id)
    requires target in s.jobs && id in s.jobs && id != target
    ensures AbortPending(s, target).jobs[id] == s.jobs[id]
  {
  }

  lemma {:induction false} AbortAllLeaves(s: State, ids: seq<Id>, id: Id)
    requires (forall j | j in ids :: j in s.jobs) && id in s.jobs && id !in ids
    ensures AbortAll(s, ids).jobs[id] == s.jobs[id]
    decreases |ids|
  {
    if ids != [] {
      AbortPendingLeaves(s, ids[0], id);
      AbortAllLeaves(AbortPending(s, ids[0]), ids[1..], id);
    }
  }

  lemma {:induction false} SweepStandbyLeaves(s: State, i: nat, n: nat, id: Id)
    requires i <= n <= |s.history| + |s.spare| && id in s.jobs && s.jobs[id].status != Standby
    ensures SweepStandby(s, i, n).jobs[id] == s.jobs[id]
    decreases n - i
  {
    hide AbortPending;
    if i < n {
      var at := Seen(s, i);
      if at in s.jobs && s.jobs[at].status == Standby { AbortPendingLeaves(s, at, id); }
      SweepStandbyLeaves(SweepOne(s, at), i + 1, n, id);
    }
  }

  lemma SweepLeaves(s: State, id: Id)
    requires QueueKnown(s) && id in s.jobs && id !in s.queue && s.jobs[id].status != Standby
    ensures Sweep(s).jobs[id] == s.jobs[id]
  {
    var s0 := s.(queue := []);
    AbortAllLeaves(s0, s.queue, id);
    SweepStandbyLeaves(AbortAll(s0, s.queue), 0, |AbortAll(s0, s.queue).history|, id);
  }

  lemma BodyLeaves(s: State, step: Step, id: Id)
    requires Inv(s, {}) && Enabled(s, step) && EndsInDispatch(s, step) && id in s.jobs && s.jobs[id].status == Finished
    ensures id in BeforeDispatch(s, step).jobs && BeforeDispatch(s, step).jobs[id] == s.jobs[id]
  {
    if step.StepComplete? { assert s.jobs[step.id].status == Running; }
  }

  lemma AbortLeaves(s: State, target: Id, id: Id)
    requires Inv(s, {}) && id in s.jobs && s.jobs[id].status == Finished
    ensures Abort(s, target).jobs[id] == s.jobs[id]
  {
    if target in s.active { assert s.jobs[target].status == Running; }
    else if target in s.queue { AbortPendingLeaves(Pop(s, IndexOf(s.queue, target)), target, id); }
    else if AbortFinds(s, target) { AbortPendingLeaves(s, target, id); }
  }

  /** No step changes anything about a job that is finished. */
  lemma FinishedStays(s: State, step: Step, id: Id)
    requires Inv(s, {}) && Enabled(s, step) && id in s.jobs && s.jobs[id].status == Finished
    ensures id in Apply(s, step).jobs && Apply(s, step).jobs[id] == s.jobs[id]
  {
    if EndsInDispatch(s, step) {
      BodyLeaves(s, step, id);
      BodyDecides(s, step, id);
    } else {
      match step
      case StepEnqueue(_, _) =>
      case StepTimer(_) =>
      case StepAbort(target) => AbortLeaves(s, target, id);
      case StepShutdownSignal =>
      case StepShutdownSweep => SweepLeaves(s, id);
      case StepSignalled(body, _) =>
        BodyLeaves(s, body, id);
        BodyDecides(s, step, id);
    }
  }

  lemma {:induction false} FinishedIsFinal(config: Config, states: seq<State>, steps: seq<Step>, a: nat, b: nat, id: Id)
    requires IsRun(config, states, steps) && a <= b < |states|
    requires id in states[a].jobs && states[a].jobs[id].status == Finished
    ensures id in states[b].jobs && states[b].jobs[id] == states[a].jobs[id]
    decreases b
  {
    hide Inv, Apply, Enabled, QueueKnown;
    if a < b {
      FinishedIsFinal(config, states, steps, a, b - 1, id);
      RunsKeepInvariant(config, states, steps, b - 1);
      assert Follows(states[b - 1], steps[b - 1], states[b]);
      FinishedStays(states[b - 1], steps[b - 1], id);
    }
  }

  lemma ReturnBody(s: State, step: Step, id: Id)
    requires Inv(s, {}) && NoneFailedYet(s) && Enabled(s, step) && EndsInDispatch(s, step)
    requires id in BeforeDispatch(s, step).jobs && BeforeDispatch(s, step).jobs[id].status != Finished
    ensures !BeforeDispatch(s, step).jobs[id].hasFailed
  {
    if step.StepComplete? {
      assert s.jobs[step.id].status == Running;
      SettleDecides(s, step.id, step.outcome);
      SettleEvolves(s, step.id, step.outcome, id);
    }
    assert id in s.jobs ==> s.jobs[id].status != Finished ==> Unfinished(s, id);
  }

  lemma {:induction false} StartSomeFlags(s: State, n: nat, id: Id)
    requires QueuedOnly(s) && id in s.jobs
    ensures StartSome(s, n).jobs[id].hasFailed == s.jobs[id].hasFailed
    ensures StartSome(s, n).jobs[id].status == Finished <==> s.jobs[id].status == Finished
    decreases n
  {
    hide Satisfied, FirstRunnable;
    if n > 0 && s.running < s.config.maxConcurrent && |s.queue| > 0 && !s.shutdown {
      var i := FirstRunnable(s, 0);
      if i < |s.queue| {
        PopStart(s, i);
        StartSomeFlags(Start(Pop(s, i), s.queue[i]), n - 1, id);
      }
    }
  }

  lemma BodyFlags(s: State, step: Step, n: nat, id: Id)
    requires Inv(s, {}) && NoneFailedYet(s) && Enabled(s, step) && EndsInDispatch(s, step)
    requires Unfinished(StartSome(BeforeDispatch(s, step), n), id)
    ensures !StartSome(BeforeDispatch(s, step), n).jobs[id].hasFailed
  {
    BeforeDispatchKeeps(s, step);
    StartSomeFlags(BeforeDispatch(s, step), n, id);
    ReturnBody(s, step, id);
  }

  lemma AbortPendingFlags(s: State, target: Id, id: Id)
    requires target in s.jobs && s.jobs[target].status != Finished && id in s.jobs
    ensures var after := AbortPending(s, target).jobs[id];
            if id == target then after.status == Finished && after.hasAborted && after.hasFailed == s.jobs[id].hasFailed
            else after == s.jobs[id]
  {
  }

  lemma AbortFlags(s: State, target: Id)
    requires Inv(s, {}) && NoneFailedYet(s)
    ensures NoneFailedYet(Abort(s, target))
  {
    forall id | Unfinished(Abort(s, target), id)
      ensures !Abort(s, target).jobs[id].hasFailed
    {
      AbortEvolves(s, target, id);
      assert Unfinished(s, id);
      if target !in s.active {
        if target in s.queue { AbortPendingFlags(Pop(s, IndexOf(s.queue, target)), target, id); }
        else if AbortFinds(s, target) { AbortPendingFlags(s, target, id); }
      }
    }
  }

  lemma {:induction false} AbortAllFlags(s: State, ids: seq<Id>)
    requires (forall j | j in ids :: j in s.jobs) && NoneFailedYet(s)
    ensures NoneFailedYet(AbortAll(s, ids))
    decreases |ids|
  {
    if ids != [] {
      PendingFlags(s, ids[0]);
      AbortAllFlags(AbortPending(s, ids[0]), ids[1..]);
    }
  }

  lemma PendingFlags(s: State, target: Id)
    requires target in s.jobs && NoneFailedYet(s)
    ensures NoneFailedYet(AbortPending(s, target))
  {
    var t := AbortPending(s, target);
    forall id | Unfinished(t, id)
      ensures !t.jobs[id].hasFailed
    {
      if id != target { AbortPendingLeaves(s, target, id); assert Unfinished(s, id); }
    }
  }

  lemma {:induction false} SweepStandbyFlags(s: State, i: nat, n: nat)
    requires i <= n <= |s.history| + |s.spare| && NoneFailedYet(s)
    ensures NoneFailedYet(SweepStandby(s, i, n))
    decreases n - i
  {
    hide AbortPending;
    if i < n {
      var at := Seen(s, i);
      if at in s.jobs && s.jobs[at].status == Standby { PendingFlags(s, at); }
      SweepStandbyFlags(SweepOne(s, at), i + 1, n);
    }
  }

  lemma SweepFlags(s: State)
    requires QueueKnown(s) && NoneFailedYet(s)
    ensures NoneFailedYet(Sweep(s))
  {
    var s0 := s.(queue := []);
    assert NoneFailedYet(s0) by { forall id | Unfinished(s0, id) ensures !s0.jobs[id].hasFailed { assert Unfinished(s, id); } }
    AbortAllFlags(s0, s.queue);
    SweepStandbyFlags(AbortAll(s0, s.queue), 0, |AbortAll(s0, s.queue).history|);
  }

  lemma StepFlags(s: State, step: Step)
    requires Inv(s, {}) && NoneFailedYet(s) && Enabled(s, step)
    ensures NoneFailedYet(Apply(s, step))
  {
    if EndsInDispatch(s, step) || step.StepSignalled? {
      DispatchFlags(s, step);
    } else {
      match step
      case StepEnqueue(_, _) =>
      case StepTimer(_) =>
      case StepAbort(target) => AbortFlags(s, target);
      case StepShutdownSignal => SameFlags(s, s.(shutdown := true));
      case StepShutdownSweep => SweepFlags(s);
    }
  }

  lemma SameFlags(s: State, t: State)
    requires NoneFailedYet(s) && t.jobs == s.jobs
    ensures NoneFailedYet(t)
  {
    forall id | Unfinished(t, id)
      ensures !t.jobs[id].hasFailed
    {
      assert Unfinished(s, id);
    }
  }

  lemma DispatchFlags(s: State, step: Step)
    requires Inv(s, {}) && NoneFailedYet(s) && Enabled(s, step) && (EndsInDispatch(s, step) || step.StepSignalled?)
    ensures NoneFailedYet(Apply(s, step))
  {
    var body := if step.StepSignalled? then step.body else step;
    var s1 := BeforeDispatch(s, body);
    BeforeDispatchKeeps(s, body);
    DispatchIsSome(s1);
    var n := if step.StepSignalled? then step.starts else |s1.queue|;
    var t := StartSome(s1, n);
    assert Apply(s, step).jobs == t.jobs;
    forall id | Unfinished(t, id)
      ensures !t.jobs[id].hasFailed
    {
      BodyFlags(s, body, n, id);
    }
    SameFlags(t, Apply(s, step));
  }

  lemma {:induction false} RunsFlags(config: Config, states: seq<State>, steps: seq<Step>, n: nat)
    requires IsRun(config, states, steps) && n < |states|
    ensures NoneFailedYet(states[n])
    decreases n
  {
    hide Inv, Apply, Enabled, QueueKnown;
    if n > 0 {
      RunsFlags(config, states, steps, n - 1);
      RunsKeepInvariant(config, states, steps, n - 1);
      assert Follows(states[n - 1], steps[n - 1], states[n]);
      StepFlags(states[n - 1], steps[n - 1]);
    }
  }

  /** The decision about a returned handler, in every run. */
  lemma RunsDecide(config: Config, states: seq<State>, steps: seq<Step>, n: nat, id: Id, o: Outcome)
    requires IsRun(config, states, steps) && n < |steps| && Returns(steps[n], id, o)
    ensures id in states[n].jobs && id in states[n + 1].jobs
    ensures var before, after := states[n].jobs[id], states[n + 1].jobs[id];
            var retried := o == Failed(true) && !before.hasAborted && before.retryCount < |before.def.retryDelays| && !states[n].shutdown;
            && after.status == (if retried then Standby else Finished)
            && (after.hasFailed <==> !retried && o.Failed? && !before.hasAborted)
  {
    hide Inv, Apply, Enabled, QueueKnown, NoneFailedYet;
    RunsKeepInvariant(config, states, steps, n);
    RunsFlags(config, states, steps, n);
    assert Follows(states[n], steps[n], states[n + 1]);
    ReturnDecides(states[n], steps[n], id, o);
  }

  /**
   In every run, a job whose handler has succeeded or was cancelled, or has failed with an
   error that may not be retried, is never started again: its record stays as it is.
   */
  lemma NeverStartedAgain(config: Config, states: seq<State>, steps: seq<Step>, n: nat, later: nat, id: Id, o: Outcome)
    requires IsRun(config, states, steps) && n < |steps| && Returns(steps[n], id, o) && o != Failed(true)
    requires n < later < |states|
    ensures id in states[n].jobs && id in states[later].jobs
    ensures states[later].jobs[id].status == Finished && states[later].jobs[id].starts == states[n].jobs[id].starts
    ensures states[later].jobs[id].hasFailed <==> o.Failed? && !states[n].jobs[id].hasAborted
  {
    hide Inv, Apply, Enabled, QueueKnown;
    RunsDecide(config, states, steps, n, id, o);
    FinishedIsFinal(config, states, steps, n + 1, later, id);
    RunsKeepInvariant(config, states, steps, n);
    assert Follows(states[n], steps[n], states[n + 1]);
    ReturnStarts(states[n], steps[n], id, o);
  }

  lemma ReturnStarts(s: State, step: Step, id: Id, o: Outcome)
    requires Inv(s, {}) && Enabled(s, step) && Returns(step, id, o)
    ensures id in s.jobs && id in Apply(s, step).jobs && Apply(s, step).jobs[id].starts == s.jobs[id].starts
  {
    assert id in s.active;
    SettleDecides(s, id, o);
    BodyDecides(s, step, id);
  }

  // ----- aborts, timers, enqueues -----

  lemma FindsUnfinished(s: State, id: Id)
    requires Inv(s, {})
    ensures AbortFinds(s, id) <==> Unfinished(s, id)
    ensures Unfinished(s, id) ==>
              && (id in s.active <==> s.jobs[id].status == Running)
              && (id in s.queue <==> s.jobs[id].status == Queued)
              && id in s.history
  {
  }

  /**
   An abort finds a job exactly if it is unfinished.  A running one goes on, marked as
   aborted; a queued one or one in standby is finished as aborted; all others stay.
   */
  lemma AbortDecides(s: State, target: Id, id: Id)
    requires Inv(s, {}) && NoneFailedYet(s) && id in s.jobs
    ensures AbortFinds(s, target) <==> Unfinished(s, target)
    ensures id in Abort(s, target).jobs
    ensures var before, after := s.jobs[id], Abort(s, target).jobs[id];
            if id != target || before.status == Finished then after == before
            else if before.status == Running then after == before.(isAborting := true, hasAborted := true)
            else after == before.(status := Finished, isAborting := true, hasAborted := true, closes := 1)
  {
    FindsUnfinished(s, target);
    if id != target || s.jobs[id].status == Finished {
      if target in s.active {
      } else if target in s.queue {
        AbortPendingLeaves(Pop(s, IndexOf(s.queue, target)), target, id);
      } else if AbortFinds(s, target) {
        AbortPendingLeaves(s, target, id);
      }
    } else {
      assert Unfinished(s, id) && JobOk(s.jobs[id]);
    }
  }

  /** A retry timer takes its job back into the queue exactly if that is in standby and there is no shutdown. */
  lemma TimerDecides(s: State, id: Id)
    requires Inv(s, {}) && id in s.jobs
    ensures id in Timer(s, id).jobs
    ensures var before, after := s.jobs[id], Timer(s, id).jobs[id];
            if before.status == Standby && !s.shutdown
            then after.status in {Queued, Running} && after.retryCount == before.retryCount
            else Timer(s, id) == s
  {
    assert JobOk(s.jobs[id]);
    if s.jobs[id].status == Standby && !s.shutdown {
      RequeueKeeps(s, id);
      StartsOnly(Requeue(s, id), id);
    }
  }

  lemma {:induction false} StartSomeStatus(s: State, n: nat, id: Id)
    requires QueuedOnly(s) && id in s.jobs
    ensures var after := StartSome(s, n).jobs[id];
            after == s.jobs[id] || (s.jobs[id].status == Queued && after == s.jobs[id].(status := Running, starts := s.jobs[id].starts + 1))
    decreases n
  {
    hide Satisfied, FirstRunnable;
    if n > 0 && s.running < s.config.maxConcurrent && |s.queue| > 0 && !s.shutdown {
      var i := FirstRunnable(s, 0);
      if i < |s.queue| {
        PopStart(s, i);
        StartSomeStatus(Start(Pop(s, i), s.queue[i]), n - 1, id);
      }
    }
  }

  lemma StartsOnly(s: State, id: Id)
    requires Inv(s, {}) && id in s.jobs
    ensures id in Dispatch(s).jobs
    ensures var after := Dispatch(s).jobs[id];
            after == s.jobs[id] || (s.jobs[id].status == Queued && after == s.jobs[id].(status := Running, starts := s.jobs[id].starts + 1))
  {
    DispatchIsSome(s);
    StartSomeStatus(s, |s.queue|, id);
  }

  /**
   A definition is enqueued exactly if there is no shutdown, it has a key and a handler,
   and no unfinished job has its key; the error says which of these fails first.
   */
  lemma EnqueueDecides(s: State, id: Id, def: Definition)
    requires Inv(s, {}) && id !in s.jobs
    ensures var taken := exists j :: Unfinished(s, j) && s.jobs[j].def.key == def.key;
            RejectEnqueue(s, def) ==
              if s.shutdown then [ManagerShutdown]
              else if def.key == "" || !def.hasHandler then [InvalidDefinition]
              else if taken then [JobAlreadyRunning]
              else []
    ensures RejectEnqueue(s, def) != [] ==> Enqueue(s, id, def) == s
    ensures RejectEnqueue(s, def) == [] ==>
              && id in Enqueue(s, id, def).jobs
              && var job := Enqueue(s, id, def).jobs[id];
                 job.def == def && job.status in {Queued, Running} && job.retryCount == 0 && !job.hasAborted && !job.hasFailed
  {
    if RejectEnqueue(s, def) == [] {
      AdmitKeeps(s, id, def);
      StartsOnly(Admit(s, id, def), id);
    }
  }

  // ----- shutdown -----

  /** Once the manager is shut down, no step starts a job. */
  lemma NothingStartsInShutdown(s: State, step: Step, id: Id)
    requires Inv(s, {}) && Enabled(s, step) && s.shutdown && !IsRunning(s, id)
    ensures !IsRunning(Apply(s, step), id)
    ensures Apply(s, step).shutdown
  {
    if EndsInDispatch(s, step) || step.StepSignalled? {
      var body := if step.StepSignalled? then step.body else step;
      var s1 := BeforeDispatch(s, body);
      BeforeDispatchKeeps(s, body);
      DispatchIsSome(s1);
      BodyInShutdown(s, body);
      if id in s1.jobs { BeforeDispatchStartsNothing(s, body, id); }
    } else {
      OthersStartNothing(s, step, id);
      OthersInShutdown(s, step);
    }
  }

  lemma BodyInShutdown(s: State, step: Step)
    requires Inv(s, {}) && Enabled(s, step) && EndsInDispatch(s, step) && s.shutdown
    ensures BeforeDispatch(s, step).shutdown
    ensures forall n :: StartSome(BeforeDispatch(s, step), n) == BeforeDispatch(s, step)
  {
  }

  lemma OthersInShutdown(s: State, step: Step)
    requires Inv(s, {}) && Enabled(s, step) && s.shutdown && !EndsInDispatch(s, step) && !step.StepSignalled?
    ensures Apply(s, step).shutdown
  {
    if step.StepShutdownSweep? { SweepQuiet(s); }
  }

  lemma {:induction false} NothingStartsAfterSignal(config: Config, states: seq<State>, steps: seq<Step>, a: nat, b: nat, id: Id)
    requires IsRun(config, states, steps) && a <= b < |states| && states[a].shutdown && IsRunning(states[b], id)
    ensures states[b].shutdown && IsRunning(states[a], id)
    decreases b
  {
    hide Inv, Apply, Enabled, QueueKnown, IsRunning;
    if a < b {
      StaysShutDown(config, states, steps, a, b - 1);
      RunsKeepInvariant(config, states, steps, b - 1);
      assert Follows(states[b - 1], steps[b - 1], states[b]);
      if !IsRunning(states[b - 1], id) { NothingStartsInShutdown(states[b - 1], steps[b - 1], id); }
      ShutdownStays(states[b - 1], steps[b - 1]);
      NothingStartsAfterSignal(config, states, steps, a, b - 1, id);
    }
  }

  lemma ShutdownStays(s: State, step: Step)
    requires Inv(s, {}) && Enabled(s, step) && s.shutdown
    ensures Apply(s, step).shutdown
  {
    if EndsInDispatch(s, step) || step.StepSignalled? {
      var body := if step.StepSignalled? then step.body else step;
      BeforeDispatchKeeps(s, body);
      DispatchIsSome(BeforeDispatch(s, body));
      BodyInShutdown(s, body);
    } else {
      OthersInShutdown(s, step);
    }
  }

  lemma {:induction false} StaysShutDown(config: Config, states: seq<State>, steps: seq<Step>, a: nat, b: nat)
    requires IsRun(config, states, steps) && a <= b < |states| && states[a].shutdown
    ensures states[b].shutdown
    decreases b
  {
    hide Inv, Apply, Enabled, QueueKnown;
    if a < b {
      StaysShutDown(config, states, steps, a, b - 1);
      RunsKeepInvariant(config, states, steps, b - 1);
      assert Follows(states[b - 1], steps[b - 1], states[b]);
      ShutdownStays(states[b - 1], steps[b - 1]);
    }
  }

  // ----- the history -----

  /** The history without its n oldest finished jobs. */
  function WithoutOldest(jobs: map<Id, Job>, h: seq<Id>, n: nat): seq<Id>
    decreases |h|
  {
    if h == [] || n == 0 then h
    else if IsFinished(jobs, h[0]) then WithoutOldest(jobs, h[1..], n - 1)
    else [h[0]] + WithoutOldest(jobs, h[1..], n)
  }

  lemma {:induction false} DropsOldest(jobs: map<Id, Job>, h: seq<Id>, i: nat, n: nat)
    requires i < |h| && IsFinished(jobs, h[i]) && (forall j | 0 <= j < i :: !IsFinished(jobs, h[j])) && n > 0
    ensures WithoutOldest(jobs, RemoveAt(h, i), n - 1) == WithoutOldest(jobs, h, n)
    decreases |h|
  {
    if i == 0 {
      assert RemoveAt(h, 0) == h[1..];
    } else {
      assert RemoveAt(h, i)[1..] == RemoveAt(h[1..], i - 1) && RemoveAt(h, i)[0] == h[0];
      DropsOldest(jobs, h[1..], i - 1, n);
      if n == 1 { assert [h[0]] + RemoveAt(h[1..], i - 1) == RemoveAt(h, i); }
    }
  }

  lemma NothingDropped(jobs: map<Id, Job>, h: seq<Id>)
    ensures WithoutOldest(jobs, h, 0) == h
  {
  }

  lemma {:induction false} NoneToDrop(jobs: map<Id, Job>, h: seq<Id>, n: nat)
    requires forall j | 0 <= j < |h| :: !IsFinished(jobs, h[j])
    ensures WithoutOldest(jobs, h, n) == h
    decreases |h|
  {
    if h != [] && n > 0 {
      NoneToDrop(jobs, h[1..], n);
      assert [h[0]] + h[1..] == h;
    }
  }

  /** Trimming drops the oldest finished jobs, as many as there are too many, and keeps the order. */
  lemma {:induction false} TrimDropsOldest(s: State)
    ensures Trim(s).history ==
              WithoutOldest(s.jobs, s.history, if |s.history| > s.config.maxHistory then |s.history| - s.config.maxHistory else 0)
    decreases |s.history|
  {
    hide WithoutOldest, IsFinished;
    if |s.history| <= s.config.maxHistory {
      NothingDropped(s.jobs, s.history);
    } else {
      var i := FirstFinished(s.jobs, s.history, 0);
      if i == |s.history| {
        NoneToDrop(s.jobs, s.history, |s.history| - s.config.maxHistory);
      } else {
        TrimDropsOldest(DropHistory(s, i));
        DropsOldest(s.jobs, s.history, i, |s.history| - s.config.maxHistory);
      }
    }
  }

  // ----- the order of the queue -----

  predicate Ahead(queue: seq<Id>, a: Id, b: Id) {
    exists i, j | 0 <= i < j < |queue| :: queue[i] == a && queue[j] == b
  }

  lemma AheadWithout(queue: seq<Id>, k: nat, a: Id, b: Id)
    requires k < |queue| && Ahead(queue, a, b) && NoDuplicates(queue) && queue[k] != a && queue[k] != b
    ensures Ahead(RemoveAt(queue, k), a, b)
  {
    var i, j :| 0 <= i < j < |queue| && queue[i] == a && queue[j] == b;
    var rest := RemoveAt(queue, k);
    var x, y := if i < k then i else i - 1, if j < k then j else j - 1;
    assert rest[x] == a && rest[y] == b;
  }

  lemma AheadOfLast(queue: seq<Id>, a: Id, b: Id)
    requires a in queue
    ensures Ahead(queue + [b], a, b)
  {
    var i :| 0 <= i < |queue| && queue[i] == a;
    assert (queue + [b])[i] == a && (queue + [b])[|queue|] == b;
  }

  lemma AheadStill(queue: seq<Id>, a: Id, b: Id, c: Id)
    requires Ahead(queue, a, b)
    ensures Ahead(queue + [c], a, b)
  {
    var i, j :| 0 <= i < j < |queue| && queue[i] == a && queue[j] == b;
    assert (queue + [c])[i] == a && (queue + [c])[j] == b;
  }

  lemma {:induction false} StartSomeQueue(s: State, n: nat, a: Id, b: Id)
    requires QueuedOnly(s) && a in StartSome(s, n).queue
    ensures a in s.queue
    ensures Ahead(s.queue, a, b) && b in StartSome(s, n).queue ==> Ahead(StartSome(s, n).queue, a, b)
    decreases n
  {
    hide Satisfied, FirstRunnable, Ahead;
    if n > 0 && s.running < s.config.maxConcurrent && |s.queue| > 0 && !s.shutdown {
      var i := FirstRunnable(s, 0);
      if i < |s.queue| {
        PopStart(s, i);
        RemoveKeeps(s.queue, i);
        var next := Start(Pop(s, i), s.queue[i]);
        StartSomeQueue(next, n - 1, a, b);
        if Ahead(s.queue, a, b) && b in StartSome(s, n).queue {
          StartSomeQueue(next, n - 1, b, a);
          AheadWithout(s.queue, i, a, b);
        }
      }
    }
  }

  lemma BodyQueue(s: State, step: Step, a: Id, b: Id)
    requires Inv(s, {}) && Enabled(s, step) && EndsInDispatch(s, step)
    requires a in BeforeDispatch(s, step).queue && b in BeforeDispatch(s, step).queue && a in s.queue
    ensures Ahead(s.queue, a, b) ==> Ahead(BeforeDispatch(s, step).queue, a, b)
    ensures b !in s.queue ==> Ahead(BeforeDispatch(s, step).queue, a, b)
  {
    hide Ahead;
    if step.StepEnqueue? {
      if Ahead(s.queue, a, b) { AheadStill(s.queue, a, b, step.id); }
      if b !in s.queue { AheadOfLast(s.queue, a, b); }
    } else if step.StepTimer? {
      if Ahead(s.queue, a, b) { AheadStill(s.queue, a, b, step.id); }
      if b !in s.queue { AheadOfLast(s.queue, a, b); }
    }
  }

  /** The queue is first in, first out: no step changes the order of two jobs in it, and who comes goes behind all others. */
  lemma QueueKeepsOrder(s: State, step: Step, a: Id, b: Id)
    requires Inv(s, {}) && Enabled(s, step) && a in s.queue && QueueKnown(Apply(s, step))
    requires a in Apply(s, step).queue && b in Apply(s, step).queue && a != b
    ensures Ahead(s.queue, a, b) ==> Ahead(Apply(s, step).queue, a, b)
    ensures b !in s.queue ==> Ahead(Apply(s, step).queue, a, b)
  {
    if EndsInDispatch(s, step) || step.StepSignalled? {
      var body, n := DispatchForm(s, step);
      var s1 := BeforeDispatch(s, body);
      StartSomeQueue(s1, n, a, b);
      StartSomeQueue(s1, n, b, a);
      hide Ahead, Apply, Enabled, EndsInDispatch, BeforeDispatch;
      BodyQueue(s, body, a, b);
    } else {
      hide Ahead;
      OthersKeepOrder(s, step, a, b);
    }
  }

  lemma OthersKeepOrder(s: State, step: Step, a: Id, b: Id)
    requires Inv(s, {}) && Enabled(s, step) && !EndsInDispatch(s, step) && !step.StepSignalled?
    requires a in Apply(s, step).queue && b in Apply(s, step).queue
    ensures b in s.queue && (Ahead(s.queue, a, b) ==> Ahead(Apply(s, step).queue, a, b))
  {
    hide Ahead;
    match step
    case StepEnqueue(_, _) =>
    case StepTimer(_) =>
    case StepAbort(target) => AbortKeepsOrder(s, target, a, b);
    case StepShutdownSignal =>
    case StepShutdownSweep => SweepQuiet(s);
  }

  lemma AbortKeepsOrder(s: State, target: Id, a: Id, b: Id)
    requires Inv(s, {}) && a in Abort(s, target).queue && b in Abort(s, target).queue
    ensures b in s.queue && (Ahead(s.queue, a, b) ==> Ahead(Abort(s, target).queue, a, b))
  {
    hide Ahead;
    if target !in s.active && target in s.queue {
      var i := IndexOf(s.queue, target);
      RemoveKeeps(s.queue, i);
      if Ahead(s.queue, a, b) { AheadWithout(s.queue, i, a, b); }
    }
  }

  lemma {:induction false} StartSomeBlocks(s: State, n: nat, def: Definition)
    requires QueueKnown(s) && !Satisfied(s, def)
    ensures !Satisfied(StartSome(s, n), def)
    decreases n
  {
    hide FirstRunnable;
    if n > 0 && s.running < s.config.maxConcurrent && |s.queue| > 0 && !s.shutdown {
      var i := FirstRunnable(s, 0);
      if i < |s.queue| { StartSomeBlocks(Start(Pop(s, i), s.queue[i]), n - 1, def); }
    }
  }

  lemma {:induction false} StartSomeInOrder(s: State, n: nat, a: Id, b: Id)
    requires QueuedOnly(s) && Ahead(s.queue, a, b)
    requires a in StartSome(s, n).queue && b !in StartSome(s, n).queue
    ensures a in s.jobs && !Satisfied(StartSome(s, n), s.jobs[a].def)
    decreases n
  {
    hide Satisfied;
    if n > 0 && s.running < s.config.maxConcurrent && |s.queue| > 0 && !s.shutdown {
      var i := FirstRunnable(s, 0);
      if i < |s.queue| {
        PopStart(s, i);
        RemoveKeeps(s.queue, i);
        var next := Start(Pop(s, i), s.queue[i]);
        if s.queue[i] == b {
          BeforeIsBlocked(s, i, a);
          SameBlocked(s, next, s.jobs[a].def);
          StartSomeBlocks(next, n - 1, s.jobs[a].def);
        } else {
          StartSomeQueue(next, n - 1, a, b);
          AheadWithout(s.queue, i, a, b);
          StartSomeInOrder(next, n - 1, a, b);
          assert next.jobs[a].def == s.jobs[a].def;
        }
      }
    }
  }

  lemma BeforeIsBlocked(s: State, i: nat, a: Id)
    requires QueuedOnly(s) && i < |s.queue| && i == FirstRunnable(s, 0) && Ahead(s.queue, a, s.queue[i])
    ensures a in s.jobs && !Satisfied(s, s.jobs[a].def)
  {
    hide Satisfied;
    var x, y :| 0 <= x < y < |s.queue| && s.queue[x] == a && s.queue[y] == s.queue[i];
    assert y == i;
  }

  lemma SameBlocked(s: State, t: State, def: Definition)
    requires !Satisfied(s, def) && s.activeKeys <= t.activeKeys && s.activeExclusiveKeys <= t.activeExclusiveKeys
    ensures !Satisfied(t, def)
  {
  }

  lemma BodyStartsInOrder(s: State, body: Step, n: nat, a: Id, b: Id)
    requires Inv(s, {}) && Enabled(s, body) && EndsInDispatch(s, body) && Ahead(s.queue, a, b)
    requires var t := StartSome(BeforeDispatch(s, body), n); a in t.queue && b !in t.queue
    ensures var t := StartSome(BeforeDispatch(s, body), n); a in t.jobs && !Satisfied(t, t.jobs[a].def)
  {
    hide Ahead, Satisfied;
    var s1 := BeforeDispatch(s, body);
    BeforeDispatchKeeps(s, body);
    StartSomeQueue(s1, n, a, b);
    AreQueued(s, a, b);
    BodyKeepsQueue(s, body, b);
    BodyQueue(s, body, a, b);
    StartSomeInOrder(s1, n, a, b);
    StartSomeStatus(s1, n, a);
  }

  /** A job that is ahead of one that a step starts, and is not started, is still held up after the step. */
  lemma StartsInOrder(s: State, step: Step, a: Id, b: Id)
    requires Inv(s, {}) && Enabled(s, step) && Ahead(s.queue, a, b)
    requires a in Apply(s, step).queue && IsRunning(Apply(s, step), b)
    ensures a in Apply(s, step).jobs
    ensures var t, def := Apply(s, step), Apply(s, step).jobs[a].def;
            (exists k :: k in def.dependsOn && k in t.activeKeys) || (exists k :: k in def.exclusiveKeys && k in t.activeExclusiveKeys)
  {
    StepKeeps(s, step);
    AreQueued(s, a, b);
    RunningIsNotQueued(Apply(s, step), b);
    if EndsInDispatch(s, step) || step.StepSignalled? {
      var body, n := DispatchForm(s, step);
      hide Ahead, Satisfied, Inv, Apply, Enabled, EndsInDispatch, BeforeDispatch;
      BodyStartsInOrder(s, body, n, a, b);
      WhyBlocked(Apply(s, step), StartSome(BeforeDispatch(s, body), n), StartSome(BeforeDispatch(s, body), n).jobs[a].def);
    } else {
      OthersStartNothing(s, step, b);
    }
  }

  lemma WhyBlocked(t: State, u: State, def: Definition)
    requires !Satisfied(u, def) && t.activeKeys == u.activeKeys && t.activeExclusiveKeys == u.activeExclusiveKeys
    ensures (exists k :: k in def.dependsOn && k in t.activeKeys) || (exists k :: k in def.exclusiveKeys && k in t.activeExclusiveKeys)
  {
  }

  lemma RunningIsNotQueued(s: State, id: Id)
    requires Inv(s, {}) && IsRunning(s, id)
    ensures id !in s.queue
  {
  }

  /** A step that dispatches is a body, some starts, and perhaps the signal. */
  lemma DispatchForm(s: State, step: Step) returns (body: Step, n: nat)
    requires Inv(s, {}) && Enabled(s, step) && (EndsInDispatch(s, step) || step.StepSignalled?)
    ensures Enabled(s, body) && EndsInDispatch(s, body) && Inv(BeforeDispatch(s, body), {})
    ensures var t := StartSome(BeforeDispatch(s, body), n);
            Apply(s, step) == t.(shutdown := Apply(s, step).shutdown)
  {
    body := if step.StepSignalled? then step.body else step;
    BeforeDispatchKeeps(s, body);
    DispatchIsSome(BeforeDispatch(s, body));
    n := if step.StepSignalled? then step.starts else |BeforeDispatch(s, body).queue|;
  }

  lemma AreQueued(s: State, a: Id, b: Id)
    requires Ahead(s.queue, a, b) && QueuedOnly(s)
    ensures a in s.queue && b in s.queue && !IsRunning(s, b)
  {
  }

  lemma BodyKeepsQueue(s: State, step: Step, id: Id)
    requires Inv(s, {}) && Enabled(s, step) && EndsInDispatch(s, step) && id in s.queue
    ensures id in BeforeDispatch(s, step).queue
  {
  }
}
