/**
 The job manager of internal/job/manager.go as a protocol of atomic steps.

 Every body that the source runs under the manager's mutex is one step of a
 pure transition function.  Handlers, timers and callers of the API are the
 nondeterministic choice of the next step.  The class JobManager (JobManager.dfy)
 is proved to take exactly these steps.
 */
module JobProtocol {

  type Id = nat
  type Key = string

  datatype Config = Config(maxConcurrent: int, maxHistory: int) {
    /** NewManager replaces limits that are not positive. */
    function WithDefaults(): (c: Config)
      ensures c.maxConcurrent > 0 && c.maxHistory > 0
      ensures maxConcurrent > 0 ==> c.maxConcurrent == maxConcurrent
      ensures maxHistory > 0 ==> c.maxHistory == maxHistory
    {
      Config(if maxConcurrent <= 0 then 1 else maxConcurrent, if maxHistory <= 0 then 100 else maxHistory)
    }
  }

  datatype Definition = Definition(
    key: Key,
    hasHandler: bool,
    dependsOn: seq<Key>,
    exclusiveKeys: seq<Key>,
    isRerunnable: bool,
    retryDelays: seq<int>)

  datatype Status = Queued | Standby | Running | Finished

  /** What a handler returned; `retryable` is the verdict of RetryIf on the error. */
  datatype Outcome = Succeeded | Canceled | Failed(retryable: bool)

  datatype EnqueueError = ManagerShutdown | InvalidDefinition | JobAlreadyRunning

  /** One job.  `starts` counts handler starts and `closes` counts close(done). */
  datatype Job = Job(
    def: Definition,
    status: Status,
    retryCount: nat,
    isAborting: bool,
    hasAborted: bool,
    hasFailed: bool,
    starts: nat,
    closes: nat)

  /**
   The fields of JobManager.  `spare` is the part of history's backing array
   beyond its length: removing a history element shifts the array in place and
   leaves the old last element behind, which a running range loop can still see.
   */
  datatype State = State(
    config: Config,
    jobs: map<Id, Job>,
    history: seq<Id>,
    spare: seq<Id>,
    queue: seq<Id>,
    active: set<Id>,
    activeKeys: set<Key>,
    activeExclusiveKeys: set<Key>,
    running: int,
    shutdown: bool)

  function Init(config: Config): State {
    State(config.WithDefaults(), map[], [], [], [], {}, {}, {}, 0, false)
  }

  // ----- dispatch -----

  function KeySet(keys: seq<Key>): set<Key> {
    set k | k in keys
  }

  /** dependenciesSatisfiedLocked */
  predicate Satisfied(s: State, def: Definition) {
    && (forall k | k in def.dependsOn :: k !in s.activeKeys)
    && (forall k | k in def.exclusiveKeys :: k !in s.activeExclusiveKeys)
  }

  predicate QueueKnown(s: State) {
    forall id | id in s.queue :: id in s.jobs
  }

  /** The position of the first runnable job at or after `from`, or |queue|. */
  function FirstRunnable(s: State, from: nat): (i: nat)
    requires QueueKnown(s) && from <= |s.queue|
    ensures from <= i <= |s.queue|
    ensures i < |s.queue| ==> Satisfied(s, s.jobs[s.queue[i]].def)
    ensures forall j | from <= j < i :: !Satisfied(s, s.jobs[s.queue[j]].def)
    decreases |s.queue| - from
  {
    if from == |s.queue| || Satisfied(s, s.jobs[s.queue[from]].def) then from
    else FirstRunnable(s, from + 1)
  }

  function RemoveAt<T>(xs: seq<T>, i: nat): (r: seq<T>)
    requires i < |xs|
    ensures |r| == |xs| - 1
    ensures forall j | 0 <= j < i :: r[j] == xs[j]
    ensures forall j | i <= j < |r| :: r[j] == xs[j + 1]
  {
    xs[..i] + xs[i + 1..]
  }

  /** popRunnableQueueLocked's removal. */
  function Pop(s: State, i: nat): State
    requires i < |s.queue|
  {
    s.(queue := RemoveAt(s.queue, i))
  }

  /** startJobLocked, and the goroutine that dispatchLocked spawns. */
  function Start(s: State, id: Id): State
    requires id in s.jobs
  {
    var job := s.jobs[id];
    s.(jobs := s.jobs[id := job.(status := Running, starts := job.starts + 1)],
       active := s.active + {id},
       activeExclusiveKeys := s.activeExclusiveKeys + KeySet(job.def.exclusiveKeys),
       running := s.running + 1)
  }

  function Dispatch(s: State): (s': State)
    requires QueueKnown(s)
    ensures QueueKnown(s') && s'.jobs.Keys == s.jobs.Keys
    decreases |s.queue|
  {
    if s.running < s.config.maxConcurrent && |s.queue| > 0 && !s.shutdown then
      var i := FirstRunnable(s, 0);
      if i == |s.queue| then s else Dispatch(Start(Pop(s, i), s.queue[i]))
    else s
  }

  /** The dispatch loop when it is stopped after n starts at most. */
  function StartSome(s: State, n: nat): (s': State)
    requires QueueKnown(s)
    ensures QueueKnown(s') && s'.jobs.Keys == s.jobs.Keys
    decreases n
  {
    if n > 0 && s.running < s.config.maxConcurrent && |s.queue| > 0 && !s.shutdown then
      var i := FirstRunnable(s, 0);
      if i == |s.queue| then s else StartSome(Start(Pop(s, i), s.queue[i]), n - 1)
    else s
  }

  // ----- history -----

  predicate IsFinished(jobs: map<Id, Job>, id: Id) {
    id in jobs && jobs[id].status == Finished
  }

  function FirstFinished(jobs: map<Id, Job>, h: seq<Id>, from: nat): (i: nat)
    requires from <= |h|
    ensures from <= i <= |h|
    ensures i < |h| ==> IsFinished(jobs, h[i])
    ensures forall j | from <= j < i :: !IsFinished(jobs, h[j])
    decreases |h| - from
  {
    if from == |h| || IsFinished(jobs, h[from]) then from else FirstFinished(jobs, h, from + 1)
  }

  /** One removal: the in-place shift keeps the old last element in `spare`. */
  function DropHistory(s: State, i: nat): State
    requires i < |s.history|
  {
    s.(history := RemoveAt(s.history, i), spare := [s.history[|s.history| - 1]] + s.spare)
  }

  /** trimHistory */
  function Trim(s: State): (s': State)
    ensures s' == s.(history := s'.history, spare := s'.spare)
    ensures |s'.history| + |s'.spare| == |s.history| + |s.spare|
    decreases |s.history|
  {
    if |s.history| <= s.config.maxHistory then s
    else
      var i := FirstFinished(s.jobs, s.history, 0);
      if i == |s.history| then s else Trim(DropHistory(s, i))
  }

  /** addHistoryLocked without the trim: append overwrites one spare slot. */
  function Append(s: State, id: Id): State {
    s.(history := s.history + [id], spare := if s.spare == [] then [] else s.spare[1..])
  }

  // ----- leaving the live states -----

  /** The record that finishLocked leaves.  `failed`: err is neither nil nor a cancellation. */
  function FinishedJob(job: Job, failed: bool, aborted: bool): Job {
    var nowAborted := job.hasAborted || aborted;
    job.(status := Finished,
         hasAborted := nowAborted,
         hasFailed := job.hasFailed || (failed && !nowAborted),
         closes := job.closes + 1)
  }

  /** finishLocked up to the trim: the record is final and its key is free again. */
  function Retire(s: State, id: Id, failed: bool, aborted: bool): State
    requires id in s.jobs
  {
    s.(jobs := s.jobs[id := FinishedJob(s.jobs[id], failed, aborted)],
       activeKeys := s.activeKeys - {s.jobs[id].def.key})
  }

  /** finishLocked */
  function Finish(s: State, id: Id, failed: bool, aborted: bool): (s': State)
    requires id in s.jobs
    ensures s'.jobs.Keys == s.jobs.Keys
  {
    if s.jobs[id].status == Finished then s else Trim(Retire(s, id, failed, aborted))
  }

  /** abortPendingLocked */
  function AbortPending(s: State, id: Id): (s': State)
    requires id in s.jobs
    ensures s'.jobs.Keys == s.jobs.Keys
  {
    Finish(s.(jobs := s.jobs[id := s.jobs[id].(isAborting := true)]), id, false, true)
  }

  /** completeActiveLocked */
  function CompleteActive(s: State, id: Id): State
    requires id in s.jobs
  {
    s.(active := s.active - {id},
       activeExclusiveKeys := s.activeExclusiveKeys - KeySet(s.jobs[id].def.exclusiveKeys),
       running := s.running - 1)
  }

  /** The decision of run: !HasAborted && shouldRetryLocked. */
  predicate ShouldRetry(s: State, id: Id, outcome: Outcome)
    requires id in s.jobs
  {
    var job := s.jobs[id];
    && !job.hasAborted
    && outcome.Failed?
    && job.retryCount < |job.def.retryDelays|
    && !s.shutdown
    && outcome.retryable
  }

  /** standbyLocked */
  function ToStandby(s: State, id: Id): State
    requires id in s.jobs
  {
    var job := s.jobs[id];
    s.(jobs := s.jobs[id := job.(status := Standby, retryCount := job.retryCount + 1)])
  }

  /** retryToQueueLocked */
  function Requeue(s: State, id: Id): State
    requires id in s.jobs
  {
    s.(jobs := s.jobs[id := s.jobs[id].(status := Queued)], queue := s.queue + [id])
  }

  // ----- the steps -----

  /** enqueueLocked; the fresh UUID is a parameter. */
  function RejectEnqueue(s: State, def: Definition): (e: seq<EnqueueError>) {
    if s.shutdown then [ManagerShutdown]
    else if def.key == "" || !def.hasHandler then [InvalidDefinition]
    else if def.key in s.activeKeys then [JobAlreadyRunning]
    else []
  }

  function NewJob(def: Definition): Job {
    Job(def, Queued, 0, false, false, false, 0, 0)
  }

  function Admit(s: State, id: Id, def: Definition): State {
    var s1 := Trim(Append(s.(jobs := s.jobs[id := NewJob(def)]), id));
    s1.(queue := s1.queue + [id], activeKeys := s1.activeKeys + {def.key})
  }

  function Enqueue(s: State, id: Id, def: Definition): (s': State)
    requires QueueKnown(s)
    ensures QueueKnown(s')
  {
    if RejectEnqueue(s, def) != [] then s else Dispatch(Admit(s, id, def))
  }

  /** The locked part of run. */
  function Settle(s: State, id: Id, outcome: Outcome): (s': State)
    requires id in s.jobs
    ensures s'.jobs.Keys == s.jobs.Keys
  {
    var s1 := CompleteActive(s, id);
    if ShouldRetry(s1, id, outcome) then ToStandby(s1, id)
    else Finish(s1, id, outcome.Failed?, s1.jobs[id].hasAborted)
  }

  function Complete(s: State, id: Id, outcome: Outcome): (s': State)
    requires QueueKnown(s) && id in s.jobs
    ensures QueueKnown(s') && s'.jobs.Keys == s.jobs.Keys
  {
    var s1 := Settle(s, id, outcome);
    assert s1.queue == s.queue;
    Dispatch(s1)
  }

  /** The retry timer's goroutine. */
  function Timer(s: State, id: Id): (s': State)
    requires QueueKnown(s) && id in s.jobs
    ensures QueueKnown(s') && s'.jobs.Keys == s.jobs.Keys
  {
    if s.jobs[id].status != Standby || s.jobs[id].hasAborted || s.shutdown then s
    else Dispatch(Requeue(s, id))
  }

  function IndexOf(ids: seq<Id>, id: Id): (i: nat)
    ensures i <= |ids|
    ensures i < |ids| ==> ids[i] == id
    ensures i == |ids| ==> id !in ids
    ensures forall j | 0 <= j < i :: ids[j] != id
  {
    if ids == [] || ids[0] == id then 0 else 1 + IndexOf(ids[1..], id)
  }

  /** Abort: the running, the queued and the standby case, in this order. */
  function Abort(s: State, id: Id): (s': State)
    requires QueueKnown(s)
    ensures QueueKnown(s') && s'.jobs.Keys == s.jobs.Keys
  {
    if id in s.active then
      if id in s.history && id in s.jobs then
        s.(jobs := s.jobs[id := s.jobs[id].(isAborting := true, hasAborted := true)])
      else s
    else if id in s.queue then
      AbortPending(Pop(s, IndexOf(s.queue, id)), id)
    else if id in s.history && id in s.jobs && s.jobs[id].status == Standby then
      AbortPending(s, id)
    else s
  }

  predicate AbortFinds(s: State, id: Id) {
    id in s.active || id in s.queue || (id in s.history && id in s.jobs && s.jobs[id].status == Standby)
  }

  /** The first loop of abortQueuedAndStandbyLocked, over a copy of the queue. */
  function AbortAll(s: State, ids: seq<Id>): (s': State)
    requires forall id | id in ids :: id in s.jobs
    ensures s'.jobs.Keys == s.jobs.Keys && s'.queue == s.queue
    decreases |ids|
  {
    if ids == [] then s else AbortAll(AbortPending(s, ids[0]), ids[1..])
  }

  /** What a range loop over history sees at index i while history is trimmed in place. */
  function Seen(s: State, i: nat): Id
    requires i < |s.history| + |s.spare|
  {
    (s.history + s.spare)[i]
  }

  function SweepOne(s: State, id: Id): (s': State)
    ensures s'.jobs.Keys == s.jobs.Keys
    ensures |s'.history| + |s'.spare| == |s.history| + |s.spare|
  {
    if id in s.jobs && s.jobs[id].status == Standby then AbortPending(s, id) else s
  }

  /** The second loop: it ranges over the n slots that history had when it began. */
  function SweepStandby(s: State, i: nat, n: nat): (s': State)
    requires i <= n <= |s.history| + |s.spare|
    ensures s'.jobs.Keys == s.jobs.Keys
    decreases n - i
  {
    if i == n then s else SweepStandby(SweepOne(s, Seen(s, i)), i + 1, n)
  }

  function Sweep(s: State): (s': State)
    requires QueueKnown(s)
    ensures s'.jobs.Keys == s.jobs.Keys
  {
    var s1 := AbortAll(s.(queue := []), s.queue);
    SweepStandby(s1, 0, |s1.history|)
  }

  datatype Step =
    | StepEnqueue(id: Id, def: Definition)
    | StepComplete(id: Id, outcome: Outcome)
    | StepTimer(id: Id)
    | StepAbort(id: Id)
    | StepShutdownSignal
    | StepShutdownSweep
    | StepSignalled(body: Step, starts: nat)

  /** The steps whose locked body ends in dispatchLocked. */
  predicate EndsInDispatch(s: State, step: Step) {
    match step
    case StepEnqueue(_, def) => RejectEnqueue(s, def) == []
    case StepComplete(_, _) => true
    case StepTimer(id) => id in s.jobs && s.jobs[id].status == Standby && !s.jobs[id].hasAborted && !s.shutdown
    case _ => false
  }

  /** The state in which the step's dispatch loop begins. */
  function BeforeDispatch(s: State, step: Step): (s': State)
    requires QueueKnown(s) && Enabled(s, step)
    ensures QueueKnown(s') && s.jobs.Keys <= s'.jobs.Keys
  {
    match step
    case StepEnqueue(id, def) => if RejectEnqueue(s, def) == [] then Admit(s, id, def) else s
    case StepComplete(id, outcome) => Settle(s, id, outcome)
    case StepTimer(id) => if EndsInDispatch(s, step) then Requeue(s, id) else s
    case _ => s
  }

  /**
   A new job has a fresh id; a handler returns only where one is running (active
   has an entry for every goroutine that dispatchLocked spawned); a timer may go
   off late, for any job; the shutdown sweep follows the shutdown signal.
   */
  predicate Enabled(s: State, step: Step) {
    match step
    case StepEnqueue(id, _) => id !in s.jobs
    case StepComplete(id, _) => id in s.active && id in s.jobs
    case StepTimer(id) => id in s.jobs
    case StepAbort(_) => true
    case StepShutdownSignal => true
    case StepShutdownSweep => s.shutdown
    case StepSignalled(body, _) => EndsInDispatch(s, body) && Enabled(s, body)
  }

  function Apply(s: State, step: Step): State
    requires QueueKnown(s) && Enabled(s, step)
  {
    match step
    case StepEnqueue(id, def) => Enqueue(s, id, def)
    case StepComplete(id, outcome) => Complete(s, id, outcome)
    case StepTimer(id) => Timer(s, id)
    case StepAbort(id) => Abort(s, id)
    case StepShutdownSignal => s.(shutdown := true)
    case StepShutdownSweep => Sweep(s)
    case StepSignalled(body, starts) => StartSome(BeforeDispatch(s, body), starts).(shutdown := true)
  }
}
