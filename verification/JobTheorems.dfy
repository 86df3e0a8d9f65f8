/**
 What the job manager promises over whole runs: dependencies hold when a job
 starts, queued work is not left behind, and every job's life is bounded.
 */
module JobTheorems {
  import opened JobProtocol
  import opened JobInvariant

  ghost predicate IsRunning(s: State, id: Id) {
    id in s.jobs && s.jobs[id].status == Running
  }

  // ----- the life of one job -----

  /** Retries left first, then standby > queued > running > finished. */
  function Measure(job: Job): (m: int) {
    4 * (|job.def.retryDelays| - job.retryCount)
    + match job.status { case Standby => 3 case Queued => 2 case Running => 1 case Finished => 0 }
  }

  /** How often the handler has returned. */
  function Returned(job: Job): int {
    job.starts - if job.status == Running then 1 else 0
  }

  /** How a job may differ after any number of moves that complete no handler. */
  predicate Evolves(a: Job, b: Job) {
    && b.def == a.def
    && Measure(b) <= Measure(a)
    && (Measure(b) == Measure(a) ==> b.status == a.status && b.retryCount == a.retryCount && b.starts == a.starts)
    && (a.status == Finished ==> b.status == Finished)
    && Returned(b) == Returned(a)
  }

  /** The part of the invariant that dispatch needs to move only queued jobs. */
  ghost predicate QueuedOnly(s: State) {
    NoDuplicates(s.queue) && forall id | id in s.queue :: id in s.jobs && s.jobs[id].status == Queued
  }

  lemma PopStart(s: State, i: nat)
    requires QueuedOnly(s) && i < |s.queue|
    ensures s.queue[i] in s.jobs && QueuedOnly(Start(Pop(s, i), s.queue[i]))
  {
    RemoveKeeps(s.queue, i);
  }

  lemma {:induction false} StartSomeEvolves(s: State, n: nat, id: Id)
    requires QueuedOnly(s) && id in s.jobs
    ensures Evolves(s.jobs[id], StartSome(s, n).jobs[id])
    decreases n
  {
    if n > 0 && s.running < s.config.maxConcurrent && |s.queue| > 0 && !s.shutdown {
      var i := FirstRunnable(s, 0);
      if i < |s.queue| {
        PopStart(s, i);
        StartSomeEvolves(Start(Pop(s, i), s.queue[i]), n - 1, id);
      }
    }
  }

  lemma DispatchEvolves(s: State, id: Id)
    requires QueuedOnly(s) && id in s.jobs
    ensures Evolves(s.jobs[id], Dispatch(s).jobs[id])
  {
    StartSomeEvolves(s, |s.queue|, id);
    DispatchIsSome(s);
  }

  lemma AbortPendingEvolves(s: State, target: Id, id: Id)
    requires target in s.jobs && s.jobs[target].status in {Queued, Standby} && id in s.jobs
    ensures Evolves(s.jobs[id], AbortPending(s, target).jobs[id])
    ensures AbortPending(s, target).jobs[target].status == Finished
    ensures id != target ==> AbortPending(s, target).jobs[id] == s.jobs[id]
  {
  }

  lemma {:induction false} AbortAllEvolves(s: State, ids: seq<Id>, id: Id)
    requires NoDuplicates(ids) && id in s.jobs
    requires forall j | j in ids :: j in s.jobs && s.jobs[j].status == Queued
    ensures Evolves(s.jobs[id], AbortAll(s, ids).jobs[id])
    ensures if id in ids then AbortAll(s, ids).jobs[id].status == Finished else AbortAll(s, ids).jobs[id] == s.jobs[id]
    decreases |ids|
  {
    if ids != [] {
      AbortPendingEvolves(s, ids[0], id);
      var s1 := AbortPending(s, ids[0]);
      forall j | j in ids[1..]
        ensures j in s1.jobs && s1.jobs[j].status == Queued
      {
        assert j != ids[0];
        AbortPendingEvolves(s, ids[0], j);
      }
      AbortAllEvolves(s1, ids[1..], id);
      assert id in ids <==> id == ids[0] || id in ids[1..];
    }
  }

  lemma {:induction false} SweepStandbyEvolves(s: State, i: nat, n: nat, id: Id)
    requires i <= n <= |s.history| + |s.spare| && id in s.jobs
    ensures id in SweepStandby(s, i, n).jobs && Evolves(s.jobs[id], SweepStandby(s, i, n).jobs[id])
    decreases n - i
  {
    hide SweepOne, Seen, Evolves;
    EvolvesSelf(s.jobs[id]);
    if i < n {
      var s1 := SweepOne(s, Seen(s, i));
      SweepOneEvolves(s, Seen(s, i), id);
      SweepStandbyEvolves(s1, i + 1, n, id);
      EvolvesOn(s.jobs[id], s1.jobs[id], SweepStandby(s1, i + 1, n).jobs[id]);
    }
  }

  lemma EvolvesSelf(a: Job)
    ensures Evolves(a, a)
  {
  }

  lemma EvolvesOn(a: Job, b: Job, c: Job)
    requires Evolves(a, b) && Evolves(b, c)
    ensures Evolves(a, c)
  {
  }

  lemma SweepOneEvolves(s: State, at: Id, id: Id)
    requires id in s.jobs
    ensures Evolves(s.jobs[id], SweepOne(s, at).jobs[id])
  {
    if at in s.jobs && s.jobs[at].status == Standby { AbortPendingEvolves(s, at, id); }
  }

  /** A completion takes the job to standby with one retry less, or finishes it. */
  lemma SettleEvolves(s: State, done: Id, outcome: Outcome, id: Id)
    requires IsRunning(s, done) && id in s.jobs
    ensures var after := Settle(s, done, outcome).jobs[id];
            if id == done then
              && after.def == s.jobs[id].def
              && (after.status == Finished || (after.status == Standby && after.retryCount == s.jobs[id].retryCount + 1))
              && Measure(after) < Measure(s.jobs[id])
              && Returned(after) == Returned(s.jobs[id]) + 1
            else after == s.jobs[id]
  {
  }

  /** The step is the return of the job's handler. */
  predicate Completes(step: Step, id: Id) {
    match step
    case StepComplete(done, _) => done == id
    case StepSignalled(body, _) => Completes(body, id)
    case _ => false
  }

  /**
   Every step moves every job forward: its measure falls, or the job stays where
   it is.  The handler's own completion lowers it, and counts one return.
   */
  lemma StepEvolves(s: State, step: Step, id: Id)
    requires Inv(s, {}) && Enabled(s, step) && id in s.jobs
    ensures id in Apply(s, step).jobs
    ensures var before, after := s.jobs[id], Apply(s, step).jobs[id];
            if Completes(step, id) then
              && after.def == before.def
              && Measure(after) < Measure(before)
              && Returned(after) == Returned(before) + 1
            else Evolves(before, after)
  {
    if EndsInDispatch(s, step) {
      BodyEvolves(s, step, id);
      BeforeDispatchKeeps(s, step);
      DispatchEvolves(BeforeDispatch(s, step), id);
    } else {
      match step
      case StepEnqueue(_, _) =>
      case StepTimer(_) =>
      case StepAbort(target) => AbortEvolves(s, target, id);
      case StepShutdownSignal =>
      case StepShutdownSweep => SweepEvolves(s, id);
      case StepSignalled(body, starts) =>
        BodyEvolves(s, body, id);
        BeforeDispatchKeeps(s, body);
        StartSomeEvolves(BeforeDispatch(s, body), starts, id);
    }
  }

  /** What a body does to a job before its dispatch loop. */
  lemma BodyEvolves(s: State, step: Step, id: Id)
    requires Inv(s, {}) && Enabled(s, step) && EndsInDispatch(s, step) && id in s.jobs
    ensures id in BeforeDispatch(s, step).jobs
    ensures var before, after := s.jobs[id], BeforeDispatch(s, step).jobs[id];
            if Completes(step, id) then
              after.def == before.def && Measure(after) < Measure(before) && Returned(after) == Returned(before) + 1
            else Evolves(before, after)
  {
    if step.StepComplete? { SettleEvolves(s, step.id, step.outcome, id); }
  }

  lemma AbortEvolves(s: State, target: Id, id: Id)
    requires Inv(s, {}) && id in s.jobs
    ensures Evolves(s.jobs[id], Abort(s, target).jobs[id])
  {
    if target !in s.active {
      if target in s.queue { AbortPendingEvolves(Pop(s, IndexOf(s.queue, target)), target, id); }
      else if AbortFinds(s, target) { AbortPendingEvolves(s, target, id); }
    }
  }

  lemma SweepEvolves(s: State, id: Id)
    requires QueuedOnly(s) && id in s.jobs
    ensures id in Sweep(s).jobs && Evolves(s.jobs[id], Sweep(s).jobs[id])
    ensures id in s.queue ==> Sweep(s).jobs[id].status == Finished
  {
    var s0 := s.(queue := []);
    AbortAllEvolves(s0, s.queue, id);
    var s1 := AbortAll(s0, s.queue);
    SweepStandbyEvolves(s1, 0, |s1.history|, id);
  }

  function CountReturns(steps: seq<Step>, id: Id): nat {
    if steps == [] then 0
    else CountReturns(steps[..|steps| - 1], id) + if Completes(steps[|steps| - 1], id) then 1 else 0
  }

  /**
   In every run, a handler has returned exactly as often as it was started,
   unless it is running now, and it is started at most once more than the
   definition has retry delays.
   */
  lemma {:induction false} HandlerStartsAreBounded(config: Config, states: seq<State>, steps: seq<Step>, n: nat, id: Id)
    requires IsRun(config, states, steps) && n < |states|
    ensures id !in states[n].jobs ==> CountReturns(steps[..n], id) == 0
    ensures id in states[n].jobs ==>
              && CountReturns(steps[..n], id) == Returned(states[n].jobs[id])
              && states[n].jobs[id].starts <= 1 + |states[n].jobs[id].def.retryDelays|
  {
    RunJobOk(config, states, steps, n, id);
    if n > 0 {
      HandlerStartsAreBounded(config, states, steps, n - 1, id);
      assert steps[..n][..n - 1] == steps[..n - 1];
      RunReturns(config, states, steps, n, id);
    }
  }

  lemma RunJobOk(config: Config, states: seq<State>, steps: seq<Step>, n: nat, id: Id)
    requires IsRun(config, states, steps) && n < |states|
    ensures id in states[n].jobs ==> JobOk(states[n].jobs[id])
  {
    RunsKeepInvariant(config, states, steps, n);
  }

  lemma RunReturns(config: Config, states: seq<State>, steps: seq<Step>, n: nat, id: Id)
    requires IsRun(config, states, steps) && 0 < n < |states|
    ensures var s, s', step := states[n - 1], states[n], steps[n - 1];
            var now := if Completes(step, id) then 1 else 0;
            && (id in s.jobs ==> id in s'.jobs && Returned(s'.jobs[id]) == Returned(s.jobs[id]) + now)
            && (id !in s.jobs ==> now == 0 && (id in s'.jobs ==> Returned(s'.jobs[id]) == 0))
  {
    RunsKeepInvariant(config, states, steps, n - 1);
    assert Follows(states[n - 1], steps[n - 1], states[n]);
    StepReturns(states[n - 1], steps[n - 1], id);
  }

  /** The number of returns of one job after a step: one more if the step completes it. */
  lemma StepReturns(s: State, step: Step, id: Id)
    requires Inv(s, {}) && Enabled(s, step)
    ensures var now := if Completes(step, id) then 1 else 0;
            && (id in s.jobs ==> id in Apply(s, step).jobs && Returned(Apply(s, step).jobs[id]) == Returned(s.jobs[id]) + now)
            && (id !in s.jobs ==> now == 0 && (id in Apply(s, step).jobs ==> Returned(Apply(s, step).jobs[id]) == 0))
  {
    if id in s.jobs { StepEvolves(s, step, id); }
    else if id in Apply(s, step).jobs { NewJobsNeverReturned(s, step, id); }
  }

  lemma NewJobsNeverReturned(s: State, step: Step, id: Id)
    requires Inv(s, {}) && Enabled(s, step) && id !in s.jobs && id in Apply(s, step).jobs
    ensures !Completes(step, id) && Returned(Apply(s, step).jobs[id]) == 0
  {
    if EndsInDispatch(s, step) {
      BeforeDispatchKeeps(s, step);
      DispatchEvolves(BeforeDispatch(s, step), id);
    } else if step.StepSignalled? {
      BeforeDispatchKeeps(s, step.body);
      StartSomeEvolves(BeforeDispatch(s, step.body), step.starts, id);
    }
  }

  // ----- dependencies at the start of a job -----

  lemma {:induction false} StartSomeStarts(s: State, n: nat, id: Id)
    requires QueuedOnly(s) && id in s.jobs
    requires s.jobs[id].status != Running && StartSome(s, n).jobs[id].status == Running
    ensures forall k | k in s.jobs[id].def.dependsOn :: k !in s.activeKeys
    decreases n
  {
    if n > 0 && s.running < s.config.maxConcurrent && |s.queue| > 0 && !s.shutdown {
      var i := FirstRunnable(s, 0);
      if i < |s.queue| {
        PopStart(s, i);
        if s.queue[i] != id { StartSomeStarts(Start(Pop(s, i), s.queue[i]), n - 1, id); }
      }
    }
  }

  lemma {:induction false} StartSomeKeys(s: State, n: nat)
    requires QueueKnown(s)
    ensures StartSome(s, n).activeKeys == s.activeKeys
    decreases n
  {
    if n > 0 && s.running < s.config.maxConcurrent && |s.queue| > 0 && !s.shutdown {
      var i := FirstRunnable(s, 0);
      if i < |s.queue| { StartSomeKeys(Start(Pop(s, i), s.queue[i]), n - 1); }
    }
  }

  lemma BeforeDispatchStartsNothing(s: State, step: Step, id: Id)
    requires Inv(s, {}) && Enabled(s, step) && EndsInDispatch(s, step)
    requires id in BeforeDispatch(s, step).jobs && !IsRunning(s, id)
    ensures !IsRunning(BeforeDispatch(s, step), id)
  {
    if step.StepComplete? && id in s.jobs { SettleEvolves(s, step.id, step.outcome, id); }
  }

  /**
   A job that a step starts depends on no key that an unfinished job holds
   after that step.
   */
  lemma StartsRespectDependencies(s: State, step: Step, id: Id, other: Id)
    requires Inv(s, {}) && Enabled(s, step)
    requires IsRunning(Apply(s, step), id) && !IsRunning(s, id)
    requires Unfinished(Apply(s, step), other)
    ensures Apply(s, step).jobs[other].def.key !in Apply(s, step).jobs[id].def.dependsOn
  {
    StepKeeps(s, step);
    assert Apply(s, step).jobs[other].def.key in Apply(s, step).activeKeys;
    if EndsInDispatch(s, step) {
      BeforeDispatchKeeps(s, step);
      DispatchIsSome(BeforeDispatch(s, step));
      BodyStarts(s, step, |BeforeDispatch(s, step).queue|, id);
    } else if step.StepSignalled? {
      BodyStarts(s, step.body, step.starts, id);
    } else {
      OthersStartNothing(s, step, id);
    }
  }

  /** Jobs are started by the dispatch loop only, and only if nothing they depend on is active. */
  lemma BodyStarts(s: State, step: Step, n: nat, id: Id)
    requires Inv(s, {}) && Enabled(s, step) && EndsInDispatch(s, step) && !IsRunning(s, id)
    requires IsRunning(StartSome(BeforeDispatch(s, step), n), id)
    ensures var t := StartSome(BeforeDispatch(s, step), n);
            forall k | k in t.jobs[id].def.dependsOn :: k !in t.activeKeys
  {
    var s1 := BeforeDispatch(s, step);
    BeforeDispatchKeeps(s, step);
    BeforeDispatchStartsNothing(s, step, id);
    StartSomeEvolves(s1, n, id);
    StartSomeStarts(s1, n, id);
    StartSomeKeys(s1, n);
  }

  lemma OthersStartNothing(s: State, step: Step, id: Id)
    requires QueuedOnly(s) && Enabled(s, step) && !EndsInDispatch(s, step) && !step.StepSignalled? && !IsRunning(s, id)
    ensures !IsRunning(Apply(s, step), id)
  {
    match step
    case StepEnqueue(_, _) =>
    case StepTimer(_) =>
    case StepAbort(target) => AbortStartsNothing(s, target, id);
    case StepShutdownSignal =>
    case StepShutdownSweep => SweepStartsNothing(s, id);
  }

  lemma AbortStartsNothing(s: State, target: Id, id: Id)
    requires QueueKnown(s) && !IsRunning(s, id)
    ensures !IsRunning(Abort(s, target), id)
  {
  }

  lemma SweepStartsNothing(s: State, id: Id)
    requires QueuedOnly(s) && !IsRunning(s, id)
    ensures !IsRunning(Sweep(s), id)
  {
    var s0 := s.(queue := []);
    var s1 := AbortAll(s0, s.queue);
    if id in s.jobs { AbortAllEvolves(s0, s.queue, id); }
    SweepStandbyStartsNothing(s1, 0, |s1.history|, id);
  }

  lemma {:induction false} SweepStandbyStartsNothing(s: State, i: nat, n: nat, id: Id)
    requires i <= n <= |s.history| + |s.spare| && !IsRunning(s, id)
    ensures !IsRunning(SweepStandby(s, i, n), id)
    decreases n - i
  {
    if i < n { SweepStandbyStartsNothing(SweepOne(s, Seen(s, i)), i + 1, n, id); }
  }

  // ----- progress -----

  /** Shut down, full, or every queued job is blocked by an active dependency or exclusive key. */
  predicate Settled(s: State)
    requires QueueKnown(s)
  {
    s.shutdown || s.running >= s.config.maxConcurrent || forall id | id in s.queue :: !Satisfied(s, s.jobs[id].def)
  }

  lemma {:induction false} DispatchSettles(s: State)
    requires QueueKnown(s)
    ensures Settled(Dispatch(s))
    decreases |s.queue|
  {
    if s.running < s.config.maxConcurrent && |s.queue| > 0 && !s.shutdown {
      var i := FirstRunnable(s, 0);
      if i < |s.queue| {
        DispatchSettles(Start(Pop(s, i), s.queue[i]));
      } else {
        assert forall j | 0 <= j < |s.queue| :: !Satisfied(s, s.jobs[s.queue[j]].def);
      }
    }
  }

  /**
   Aborting a pending job gives its key back without a dispatch.  This says that
   some other queued job was waiting for that key alone and could start now.
   */
  predicate AbortStrands(s: State, id: Id)
    requires QueueKnown(s)
  {
    && id in s.jobs && id !in s.active && AbortFinds(s, id)
    && !s.shutdown && s.running < s.config.maxConcurrent
    && exists q | q in s.queue :: q != id && WaitsAtMostFor(s, s.jobs[q].def, s.jobs[id].def.key)
  }

  /** No exclusive key of the definition is taken, and no key it depends on is active, except possibly this one. */
  predicate WaitsAtMostFor(s: State, def: Definition, key: Key) {
    && (forall k | k in def.exclusiveKeys :: k !in s.activeExclusiveKeys)
    && (forall k | k in def.dependsOn :: k in s.activeKeys ==> k == key)
  }

  /** Steps that end in dispatch settle; every other step keeps a settled state, except an abort that strands work. */
  lemma StepSettles(s: State, step: Step)
    requires Inv(s, {}) && Enabled(s, step)
    requires EndsInDispatch(s, step) || Settled(s)
    requires step.StepAbort? ==> !AbortStrands(s, step.id)
    ensures QueueKnown(Apply(s, step)) && Settled(Apply(s, step))
  {
    match step
    case StepEnqueue(id, def) =>
      if RejectEnqueue(s, def) == [] { DispatchSettles(Admit(s, id, def)); }
    case StepComplete(id, outcome) => DispatchSettles(Settle(s, id, outcome));
    case StepTimer(id) => if EndsInDispatch(s, step) { DispatchSettles(Requeue(s, id)); }
    case StepAbort(id) => AbortSettledExactly(s, id);
    case StepShutdownSignal =>
    case StepShutdownSweep => SweepQuiet(s);
    case StepSignalled(_, _) =>
  }

  lemma SweepQuiet(s: State)
    requires Inv(s, {}) && s.shutdown
    ensures Sweep(s).shutdown && Sweep(s).queue == []
  {
    var s0 := s.(queue := []);
    AbortAllQuiet(s0, s.queue);
    var s1 := AbortAll(s0, s.queue);
    SweepStandbyQuiet(s1, 0, |s1.history|);
  }

  lemma {:induction false} AbortAllQuiet(s: State, ids: seq<Id>)
    requires forall id | id in ids :: id in s.jobs
    ensures AbortAll(s, ids).shutdown == s.shutdown && AbortAll(s, ids).config == s.config
    decreases |ids|
  {
    if ids != [] { AbortAllQuiet(AbortPending(s, ids[0]), ids[1..]); }
  }

  lemma {:induction false} SweepStandbyQuiet(s: State, i: nat, n: nat)
    requires i <= n <= |s.history| + |s.spare|
    ensures SweepStandby(s, i, n).shutdown == s.shutdown && SweepStandby(s, i, n).queue == s.queue
    decreases n - i
  {
    if i < n { SweepStandbyQuiet(SweepOne(s, Seen(s, i)), i + 1, n); }
  }

  /** Exactly when an abort leaves runnable work in the queue with nothing to start it. */
  lemma AbortSettledExactly(s: State, id: Id)
    requires Inv(s, {}) && Settled(s)
    ensures Settled(Abort(s, id)) <==> !AbortStrands(s, id)
  {
    if id !in s.active && AbortFinds(s, id) {
      AbortKeeps(s, id);
      PendingAbortEffect(s, id);
      forall q | q in s.queue && q != id
        ensures Satisfied(Abort(s, id), Abort(s, id).jobs[q].def) <==> WaitsAtMostFor(s, s.jobs[q].def, s.jobs[id].def.key)
      {
        StrandedExactly(s, id, q);
      }
    }
  }

  lemma StrandedExactly(s: State, id: Id, q: Id)
    requires Inv(s, {}) && id !in s.active && AbortFinds(s, id) && q in s.queue && q != id
    ensures id in s.jobs && q in s.jobs
    ensures Satisfied(Abort(s, id), Abort(s, id).jobs[q].def) <==> WaitsAtMostFor(s, s.jobs[q].def, s.jobs[id].def.key)
  {
    PendingAbortEffect(s, id);
    AbortEvolves(s, id, q);
    SatisfiedWithout(s, Abort(s, id), s.jobs[id].def.key, s.jobs[q].def);
  }

  lemma SatisfiedWithout(s: State, s': State, key: Key, def: Definition)
    requires s'.activeKeys == s.activeKeys - {key} && s'.activeExclusiveKeys == s.activeExclusiveKeys
    ensures Satisfied(s', def) <==> WaitsAtMostFor(s, def, key)
  {
  }

  lemma PendingAbortEffect(s: State, id: Id)
    requires QueuedOnly(s) && id !in s.active && AbortFinds(s, id)
    ensures id in s.jobs && Abort(s, id).activeKeys == s.activeKeys - {s.jobs[id].def.key}
    ensures forall q :: q in Abort(s, id).queue <==> q in s.queue && q != id
    ensures Abort(s, id) == Abort(s, id).(shutdown := s.shutdown, running := s.running, config := s.config, activeExclusiveKeys := s.activeExclusiveKeys)
  {
    if id in s.queue { RemoveKeeps(s.queue, IndexOf(s.queue, id)); }
  }

  /** A dependency order on keys: every job ranks above all keys that it depends on. */
  ghost predicate Ranked(s: State, rank: Key -> nat) {
    forall id | id in s.queue && id in s.jobs ::
      forall k | k in s.jobs[id].def.dependsOn :: rank(k) < rank(s.jobs[id].def.key)
  }

  ghost predicate Idle(s: State) {
    s.active == {} && forall id | id in s.jobs :: s.jobs[id].status != Standby
  }

  lemma NothingHeld(s: State)
    requires ExclusiveOk(s) && s.active == {}
    ensures s.activeExclusiveKeys == {}
  {
    assert forall k | k in s.activeExclusiveKeys :: exists id :: Holds(s, id, k);
  }

  /** An idle, settled manager can only be held up by a key that it depends on. */
  lemma IdleBlocker(s: State, id: Id) returns (k: Key)
    requires s.activeExclusiveKeys == {} && s.running < s.config.maxConcurrent && QueueKnown(s)
    requires Settled(s) && !s.shutdown && id in s.queue
    ensures k in s.jobs[id].def.dependsOn && k in s.activeKeys
  {
    assert !Satisfied(s, s.jobs[id].def);
    k :| k in s.jobs[id].def.dependsOn && k in s.activeKeys;
  }

  lemma IdleUnfinished(s: State, id: Id)
    requires PlacesOk(s, {}) && Idle(s) && Unfinished(s, id)
    ensures id in s.queue
  {
  }

  lemma {:induction false} NothingQueued(s: State, rank: Key -> nat, id: Id)
    requires Inv(s, {}) && Settled(s) && !s.shutdown && Idle(s) && Ranked(s, rank) && id in s.queue
    ensures false
    decreases rank(s.jobs[id].def.key)
  {
    NothingHeld(s);
    var k := IdleBlocker(s, id);
    var j :| Unfinished(s, j) && s.jobs[j].def.key == k;
    IdleUnfinished(s, j);
    NothingQueued(s, rank, j);
  }

  /**
   No work is left behind: with acyclic dependencies, a settled manager with
   nothing running and nothing in standby has finished every job.
   */
  lemma IdleMeansDone(s: State, rank: Key -> nat)
    requires Inv(s, {}) && Settled(s) && !s.shutdown && Idle(s) && Ranked(s, rank)
    ensures s.queue == [] && forall id | id in s.jobs :: s.jobs[id].status == Finished
  {
    if s.queue != [] { NothingQueued(s, rank, s.queue[0]); }
    forall id | id in s.jobs
      ensures s.jobs[id].status == Finished
    {
      assert s.jobs[id].status == Running ==> id in s.active;
    }
  }

  /** In a run whose aborts strand nothing, every state is settled. */
  lemma {:induction false} RunsStaySettled(config: Config, states: seq<State>, steps: seq<Step>, n: nat)
    requires IsRun(config, states, steps) && n < |states|
    requires forall i | 0 <= i < n && steps[i].StepAbort? :: QueueKnown(states[i]) && !AbortStrands(states[i], steps[i].id)
    ensures QueueKnown(states[n]) && Settled(states[n])
  {
    if n > 0 {
      RunsStaySettled(config, states, steps, n - 1);
      RunsKeepInvariant(config, states, steps, n - 1);
      assert Follows(states[n - 1], steps[n - 1], states[n]);
      StepSettles(states[n - 1], steps[n - 1]);
    }
  }
}
