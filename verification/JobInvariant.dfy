/**
 The bookkeeping invariant of the job manager, over every run of the protocol.

 A locked body breaks the invariant while it moves one job between two places.
 `limbo` names the jobs in transit: they are unfinished, but neither queued,
 running nor waiting as far as queue and active are concerned.
 */
module JobInvariant {
  import opened JobProtocol

  predicate NoDuplicates<T(==)>(xs: seq<T>) {
    forall i, j | 0 <= i < j < |xs| :: xs[i] != xs[j]
  }

  ghost predicate Unfinished(s: State, id: Id) {
    id in s.jobs && s.jobs[id].status != Finished
  }

  /** Per job: retries stay within the definition and done is closed exactly when finished. */
  ghost predicate JobOk(job: Job) {
    && job.def.key != "" && job.def.hasHandler
    && job.retryCount <= |job.def.retryDelays|
    && job.closes == (if job.status == Finished then 1 else 0)
    && (job.status == Queued || job.status == Standby ==> job.starts == job.retryCount && !job.hasAborted)
    && (job.status == Running ==> job.starts == job.retryCount + 1)
    && job.starts <= job.retryCount + 1
  }

  ghost predicate JobsOk(s: State) {
    forall id | id in s.jobs :: JobOk(s.jobs[id])
  }

  ghost predicate QueueOk(s: State, limbo: set<Id>) {
    && NoDuplicates(s.queue)
    && (forall id | id in s.queue :: id in s.jobs && s.jobs[id].status == Queued && id !in limbo)
    && (forall id | id in s.jobs && id !in limbo && s.jobs[id].status == Queued :: id in s.queue)
  }

  ghost predicate ActiveOk(s: State, limbo: set<Id>) {
    && s.running == |s.active| <= s.config.maxConcurrent
    && (forall id | id in s.active :: id in s.jobs && s.jobs[id].status == Running && id !in limbo)
    && (forall id | id in s.jobs && id !in limbo && s.jobs[id].status == Running :: id in s.active)
  }

  /** activeKeys is exactly the keys of unfinished jobs, and no two of them share a key. */
  ghost predicate KeysOk(s: State) {
    && (forall id | Unfinished(s, id) :: s.jobs[id].def.key in s.activeKeys)
    && (forall k | k in s.activeKeys :: exists id :: Unfinished(s, id) && s.jobs[id].def.key == k)
    && (forall a, b | Unfinished(s, a) && Unfinished(s, b) && a != b :: s.jobs[a].def.key != s.jobs[b].def.key)
  }

  ghost predicate Holds(s: State, id: Id, k: Key) {
    id in s.active && id in s.jobs && k in s.jobs[id].def.exclusiveKeys
  }

  /** activeExclusiveKeys is the disjoint union of the running jobs' exclusive keys. */
  ghost predicate ExclusiveOk(s: State) {
    && (forall id, k | Holds(s, id, k) :: k in s.activeExclusiveKeys)
    && (forall k | k in s.activeExclusiveKeys :: exists id :: Holds(s, id, k))
    && (forall a, b, k | Holds(s, a, k) && Holds(s, b, k) :: a == b)
  }

  ghost predicate Trimmed(s: State) {
    |s.history| <= s.config.maxHistory || forall id | id in s.history :: !IsFinished(s.jobs, id)
  }

  /** Every unfinished job is in history, once; only finished jobs are ever dropped. */
  ghost predicate HistoryOk(s: State) {
    && NoDuplicates(s.history)
    && (forall id | id in s.history :: id in s.jobs)
    && (forall id | Unfinished(s, id) :: id in s.history)
  }

  ghost predicate PlacesOk(s: State, limbo: set<Id>) {
    && (forall id | id in limbo :: Unfinished(s, id))
    && JobsOk(s)
    && QueueOk(s, limbo)
    && ActiveOk(s, limbo)
  }

  ghost predicate Inv(s: State, limbo: set<Id>) {
    && s.config.maxConcurrent > 0 && s.config.maxHistory > 0
    && PlacesOk(s, limbo)
    && KeysOk(s)
    && ExclusiveOk(s)
    && HistoryOk(s)
    && Trimmed(s)
  }

  // ----- history -----

  lemma RemoveKeeps<T>(xs: seq<T>, i: nat)
    requires i < |xs| && NoDuplicates(xs)
    ensures NoDuplicates(RemoveAt(xs, i))
    ensures forall x :: x in RemoveAt(xs, i) <==> x in xs && x != xs[i]
  {
    var r := RemoveAt(xs, i);
    forall x | x in xs && x != xs[i]
      ensures x in r
    {
      var j :| 0 <= j < |xs| && xs[j] == x;
      if j < i { assert r[j] == x; } else { assert r[j - 1] == x; }
    }
    assert forall x | x in r :: x in xs && x != xs[i];
  }

  /**
   trimHistory only drops finished jobs, and stops with the history within its
   limit or without a finished job.
   */
  lemma {:induction false} TrimKeeps(s: State)
    requires HistoryOk(s)
    ensures HistoryOk(Trim(s)) && Trimmed(Trim(s))
    ensures forall id | id in Trim(s).history :: id in s.history
    decreases |s.history|
  {
    if |s.history| > s.config.maxHistory {
      var i := FirstFinished(s.jobs, s.history, 0);
      if i < |s.history| {
        RemoveKeeps(s.history, i);
        TrimKeeps(DropHistory(s, i));
      } else {
        assert forall j | 0 <= j < |s.history| :: !IsFinished(s.jobs, s.history[j]);
      }
    }
  }

  // ----- frames -----

  /** The same jobs with the same definitions, and the same ones of them finished. */
  ghost predicate SameLives(s: State, s': State) {
    && s'.jobs.Keys == s.jobs.Keys
    && s'.config == s.config
    && forall id | id in s.jobs :: s'.jobs[id].def == s.jobs[id].def && (s'.jobs[id].status == Finished <==> s.jobs[id].status == Finished)
  }

  lemma LivesFrame(s: State, s': State)
    requires KeysOk(s) && HistoryOk(s) && Trimmed(s)
    requires SameLives(s, s') && s'.activeKeys == s.activeKeys && s'.history == s.history
    ensures KeysOk(s') && HistoryOk(s') && Trimmed(s')
  {
    forall k | k in s'.activeKeys
      ensures exists j :: Unfinished(s', j) && s'.jobs[j].def.key == k
    {
      var j :| Unfinished(s, j) && s.jobs[j].def.key == k;
      assert Unfinished(s', j);
    }
  }

  lemma ExclusiveFrame(s: State, s': State)
    requires ExclusiveOk(s)
    requires s'.active == s.active && s'.activeExclusiveKeys == s.activeExclusiveKeys
    requires forall id | id in s.active :: id in s.jobs && id in s'.jobs && s'.jobs[id].def == s.jobs[id].def
    ensures ExclusiveOk(s')
  {
    forall k | k in s'.activeExclusiveKeys
      ensures exists j :: Holds(s', j, k)
    {
      var j :| Holds(s, j, k);
      assert Holds(s', j, k);
    }
    assert forall j, k | Holds(s', j, k) :: Holds(s, j, k);
  }

  // ----- small moves -----

  lemma PopKeeps(s: State, i: nat)
    requires Inv(s, {}) && i < |s.queue|
    ensures Inv(Pop(s, i), {s.queue[i]})
  {
    RemoveKeeps(s.queue, i);
    LivesFrame(s, Pop(s, i));
    ExclusiveFrame(s, Pop(s, i));
  }

  lemma StartExclusive(s: State, id: Id)
    requires ExclusiveOk(s) && id in s.jobs && id !in s.active
    requires forall j | j in s.active :: j in s.jobs
    requires Satisfied(s, s.jobs[id].def)
    ensures ExclusiveOk(Start(s, id))
  {
    var s' := Start(s, id);
    var keys := s.jobs[id].def.exclusiveKeys;
    assert forall j, k | Holds(s', j, k) :: if j == id then k in keys else Holds(s, j, k);
    forall k | k in s'.activeExclusiveKeys
      ensures exists j :: Holds(s', j, k)
    {
      if k in s.activeExclusiveKeys {
        var j :| Holds(s, j, k);
        assert Holds(s', j, k);
      } else {
        assert Holds(s', id, k);
      }
    }
  }

  lemma StartPlaces(s: State, id: Id)
    requires PlacesOk(s, {id}) && s.jobs[id].status == Queued && s.running < s.config.maxConcurrent
    ensures PlacesOk(Start(s, id), {}) && id !in s.active
  {
    assert id !in s.active;
  }

  lemma StartKeeps(s: State, id: Id)
    requires Inv(s, {id}) && s.jobs[id].status == Queued
    requires Satisfied(s, s.jobs[id].def) && s.running < s.config.maxConcurrent
    ensures Inv(Start(s, id), {})
  {
    StartPlaces(s, id);
    LivesFrame(s, Start(s, id));
    StartExclusive(s, id);
  }

  /** Whether the loop goes on, and where it stands after one turn. */
  predicate GoesOn(s: State)
    requires QueueKnown(s)
  {
    s.running < s.config.maxConcurrent && |s.queue| > 0 && !s.shutdown && FirstRunnable(s, 0) < |s.queue|
  }

  function OneStart(s: State): (s': State)
    requires QueueKnown(s) && GoesOn(s)
    ensures QueueKnown(s')
  {
    Start(Pop(s, FirstRunnable(s, 0)), s.queue[FirstRunnable(s, 0)])
  }

  lemma OneStartKeeps(s: State)
    requires Inv(s, {}) && GoesOn(s)
    ensures Inv(OneStart(s), {})
  {
    var i := FirstRunnable(s, 0);
    PopKeeps(s, i);
    StartKeeps(Pop(s, i), s.queue[i]);
  }

  lemma StartSomeMore(s: State, n: nat)
    requires QueueKnown(s)
    ensures StartSome(s, n) == if n > 0 && GoesOn(s) then StartSome(OneStart(s), n - 1) else s
  {
    hide Start, Pop, Satisfied, FirstRunnable;
  }

  lemma {:induction false} StartSomeKeeps(s: State, n: nat)
    requires Inv(s, {})
    ensures Inv(StartSome(s, n), {})
    decreases n
  {
    InvQueue(s);
    hide Inv, StartSome, OneStart;
    StartSomeMore(s, n);
    if n > 0 && GoesOn(s) {
      OneStartKeeps(s);
      StartSomeKeeps(OneStart(s), n - 1);
    }
  }

  lemma InvQueue(s: State)
    requires Inv(s, {})
    ensures QueueKnown(s)
  {
  }

  /** The loop cannot start more jobs than are queued. */
  lemma {:induction false} DispatchIsSome(s: State)
    requires QueueKnown(s)
    ensures Dispatch(s) == StartSome(s, |s.queue|)
    decreases |s.queue|
  {
    if s.running < s.config.maxConcurrent && |s.queue| > 0 && !s.shutdown {
      var i := FirstRunnable(s, 0);
      if i < |s.queue| { DispatchIsSome(Start(Pop(s, i), s.queue[i])); }
    }
  }

  lemma DispatchKeeps(s: State)
    requires Inv(s, {})
    ensures Inv(Dispatch(s), {})
  {
    StartSomeKeeps(s, |s.queue|);
    DispatchIsSome(s);
  }

  /** Finishing a job gives its key back: no other unfinished job has it. */
  lemma FinishKeys(s: State, id: Id, s1: State)
    requires KeysOk(s) && Unfinished(s, id)
    requires s1.jobs.Keys == s.jobs.Keys && s1.jobs[id].status == Finished
    requires forall j | j in s.jobs && j != id :: s1.jobs[j] == s.jobs[j]
    requires s1.activeKeys == s.activeKeys - {s.jobs[id].def.key}
    ensures KeysOk(s1)
  {
    assert forall j | Unfinished(s1, j) :: Unfinished(s, j) && j != id;
    forall k | k in s1.activeKeys
      ensures exists j :: Unfinished(s1, j) && s1.jobs[j].def.key == k
    {
      var j :| Unfinished(s, j) && s.jobs[j].def.key == k;
      assert Unfinished(s1, j);
    }
  }

  lemma FinishPlaces(s: State, id: Id, s1: State, limbo: set<Id>)
    requires PlacesOk(s, limbo) && id in limbo
    requires s1.jobs.Keys == s.jobs.Keys && s1.config == s.config
    requires forall j | j in s.jobs && j != id :: s1.jobs[j] == s.jobs[j]
    requires s1.jobs[id].status == Finished && JobOk(s1.jobs[id])
    requires s1.queue == s.queue && s1.active == s.active && s1.running == s.running
    ensures PlacesOk(s1, limbo - {id})
  {
  }

  lemma FinishHistory(s: State, id: Id, s1: State)
    requires HistoryOk(s) && s1.history == s.history && s1.jobs.Keys == s.jobs.Keys && id in s.jobs
    requires forall j | j in s.jobs && j != id :: s1.jobs[j] == s.jobs[j]
    requires s1.jobs[id].status == Finished
    ensures HistoryOk(s1)
  {
    assert forall j | Unfinished(s1, j) :: Unfinished(s, j);
  }

  lemma FinishLives(s: State, id: Id, s1: State)
    requires KeysOk(s) && HistoryOk(s) && Unfinished(s, id)
    requires s1.history == s.history && s1.jobs.Keys == s.jobs.Keys
    requires forall j | j in s.jobs && j != id :: s1.jobs[j] == s.jobs[j]
    requires s1.jobs[id].status == Finished
    requires s1.activeKeys == s.activeKeys - {s.jobs[id].def.key}
    ensures KeysOk(Trim(s1)) && HistoryOk(Trim(s1)) && Trimmed(Trim(s1))
  {
    FinishKeys(s, id, s1);
    FinishHistory(s, id, s1);
    TrimKeeps(s1);
    TrimmedKeys(s1, Trim(s1));
  }

  lemma TrimmedKeys(s: State, s': State)
    requires KeysOk(s) && s'.jobs == s.jobs && s'.activeKeys == s.activeKeys
    ensures KeysOk(s')
  {
    forall k | k in s'.activeKeys
      ensures exists j :: Unfinished(s', j) && s'.jobs[j].def.key == k
    {
      var j :| Unfinished(s, j) && s.jobs[j].def.key == k;
      assert Unfinished(s', j);
    }
  }

  lemma FinishKeeps(s: State, id: Id, failed: bool, aborted: bool, limbo: set<Id>)
    requires Inv(s, limbo) && id in limbo
    ensures Inv(Finish(s, id, failed, aborted), limbo - {id})
  {
    RetireKeeps(s, id, failed, aborted, limbo);
    var s1 := Retire(s, id, failed, aborted);
    FinishLives(s, id, s1);
    ExclusiveFrame(s, Trim(s1));
  }

  lemma RetireKeeps(s: State, id: Id, failed: bool, aborted: bool, limbo: set<Id>)
    requires PlacesOk(s, limbo) && id in limbo
    ensures Unfinished(s, id)
    ensures PlacesOk(Trim(Retire(s, id, failed, aborted)), limbo - {id})
  {
    assert JobOk(s.jobs[id]);
    FinishPlaces(s, id, Trim(Retire(s, id, failed, aborted)), limbo);
  }

  function WithFlags(s: State, id: Id, aborted: bool): State
    requires id in s.jobs
  {
    s.(jobs := s.jobs[id := s.jobs[id].(isAborting := true, hasAborted := s.jobs[id].hasAborted || aborted)])
  }

  lemma FlagPlaces(s: State, id: Id, aborted: bool, limbo: set<Id>)
    requires PlacesOk(s, limbo) && id in s.jobs && (aborted ==> s.jobs[id].status == Running)
    ensures PlacesOk(WithFlags(s, id, aborted), limbo)
  {
    assert forall j | j in limbo :: Unfinished(s, j);
  }

  /** A change of the abort flags of one job that keeps it where it is. */
  lemma FlagKeeps(s: State, id: Id, aborted: bool, limbo: set<Id>)
    requires Inv(s, limbo) && id in s.jobs
    requires aborted ==> s.jobs[id].status == Running
    ensures Inv(WithFlags(s, id, aborted), limbo)
  {
    FlagPlaces(s, id, aborted, limbo);
    LivesFrame(s, WithFlags(s, id, aborted));
    ExclusiveFrame(s, WithFlags(s, id, aborted));
  }

  lemma AbortPendingKeeps(s: State, id: Id, limbo: set<Id>)
    requires Inv(s, limbo) && id in limbo
    ensures Inv(AbortPending(s, id), limbo - {id})
  {
    FlagKeeps(s, id, false, limbo);
    assert WithFlags(s, id, false) == s.(jobs := s.jobs[id := s.jobs[id].(isAborting := true)]);
    FinishKeeps(WithFlags(s, id, false), id, false, true, limbo);
  }

  lemma CompleteExclusive(s: State, id: Id)
    requires ExclusiveOk(s) && id in s.jobs && id in s.active
    ensures ExclusiveOk(CompleteActive(s, id))
  {
    var s' := CompleteActive(s, id);
    assert forall j, k | Holds(s', j, k) :: Holds(s, j, k) && j != id;
    forall k | k in s'.activeExclusiveKeys
      ensures exists j :: Holds(s', j, k)
    {
      var j :| Holds(s, j, k);
      assert Holds(s', j, k);
    }
    forall j, k | Holds(s', j, k)
      ensures k in s'.activeExclusiveKeys
    {
      assert Holds(s, j, k);
      assert !Holds(s, id, k);
    }
  }

  lemma CompleteActiveKeeps(s: State, id: Id)
    requires Inv(s, {}) && id in s.active
    ensures Inv(CompleteActive(s, id), {id})
  {
    LivesFrame(s, CompleteActive(s, id));
    CompleteExclusive(s, id);
  }

  lemma StandbyPlaces(s: State, id: Id)
    requires PlacesOk(s, {id}) && s.jobs[id].status == Running && !s.jobs[id].hasAborted
    requires s.jobs[id].retryCount < |s.jobs[id].def.retryDelays|
    ensures PlacesOk(ToStandby(s, id), {})
  {
    assert id !in s.active && id !in s.queue;
  }

  lemma StandbyKeeps(s: State, id: Id, outcome: Outcome)
    requires Inv(s, {id}) && s.jobs[id].status == Running && ShouldRetry(s, id, outcome)
    ensures Inv(ToStandby(s, id), {})
  {
    StandbyPlaces(s, id);
    LivesFrame(s, ToStandby(s, id));
    ExclusiveFrame(s, ToStandby(s, id));
  }

  lemma SettleKeeps(s: State, id: Id, outcome: Outcome)
    requires Inv(s, {}) && id in s.active
    ensures Inv(Settle(s, id, outcome), {})
  {
    CompleteActiveKeeps(s, id);
    var s1 := CompleteActive(s, id);
    if ShouldRetry(s1, id, outcome) {
      StandbyKeeps(s1, id, outcome);
    } else {
      FinishKeeps(s1, id, outcome.Failed?, s1.jobs[id].hasAborted, {id});
      assert {id} - {id} == {};
    }
  }

  lemma RequeuePlaces(s: State, id: Id)
    requires PlacesOk(s, {}) && id in s.jobs && s.jobs[id].status == Standby
    ensures PlacesOk(Requeue(s, id), {})
  {
    assert id !in s.queue;
  }

  lemma RequeueKeeps(s: State, id: Id)
    requires Inv(s, {}) && id in s.jobs && s.jobs[id].status == Standby
    ensures Inv(Requeue(s, id), {})
  {
    RequeuePlaces(s, id);
    LivesFrame(s, Requeue(s, id));
    ExclusiveFrame(s, Requeue(s, id));
  }

  lemma AdmitKeys(s: State, id: Id, def: Definition, s': State)
    requires KeysOk(s) && id !in s.jobs && def.key !in s.activeKeys
    requires s'.jobs == s.jobs[id := NewJob(def)] && s'.activeKeys == s.activeKeys + {def.key}
    ensures KeysOk(s')
  {
    assert forall j | Unfinished(s', j) :: j == id || Unfinished(s, j);
    forall k | k in s'.activeKeys
      ensures exists j :: Unfinished(s', j) && s'.jobs[j].def.key == k
    {
      if k == def.key {
        assert Unfinished(s', id);
      } else {
        var j :| Unfinished(s, j) && s.jobs[j].def.key == k;
        assert Unfinished(s', j);
      }
    }
  }

  lemma AdmitPlaces(s: State, id: Id, def: Definition, s': State)
    requires PlacesOk(s, {}) && id !in s.jobs && def.key != "" && def.hasHandler
    requires s'.jobs == s.jobs[id := NewJob(def)] && s'.queue == s.queue + [id]
    requires s'.config == s.config && s'.active == s.active && s'.running == s.running
    ensures PlacesOk(s', {})
  {
    assert id !in s.queue && id !in s.active;
  }

  lemma AdmitKeeps(s: State, id: Id, def: Definition)
    requires Inv(s, {}) && id !in s.jobs && RejectEnqueue(s, def) == []
    ensures Inv(Admit(s, id, def), {})
  {
    var s1 := Append(s.(jobs := s.jobs[id := NewJob(def)]), id);
    assert HistoryOk(s1);
    TrimKeeps(s1);
    var s' := Admit(s, id, def);
    AdmitPlaces(s, id, def, s');
    AdmitKeys(s, id, def, s');
    ExclusiveFrame(s, s');
  }

  lemma AbortKeeps(s: State, id: Id)
    requires Inv(s, {})
    ensures Inv(Abort(s, id), {})
  {
    if id in s.active {
      FlagKeeps(s, id, true, {});
      assert Abort(s, id) == WithFlags(s, id, true);
    } else if id in s.queue {
      var i := IndexOf(s.queue, id);
      PopKeeps(s, i);
      AbortPendingKeeps(Pop(s, i), id, {id});
      assert {id} - {id} == {};
    } else if id in s.history && id in s.jobs && s.jobs[id].status == Standby {
      AbortStandbyKeeps(s, id);
    }
  }

  lemma AbortStandbyKeeps(s: State, id: Id)
    requires Inv(s, {}) && id in s.jobs && s.jobs[id].status == Standby
    ensures Inv(AbortPending(s, id), {})
  {
    assert Inv(s, {id});
    AbortPendingKeeps(s, id, {id});
    assert {id} - {id} == {};
  }

  ghost predicate Lists(ids: seq<Id>, limbo: set<Id>) {
    NoDuplicates(ids) && forall id :: id in ids <==> id in limbo
  }

  lemma ListsTail(ids: seq<Id>, limbo: set<Id>)
    requires Lists(ids, limbo)
    ensures ids == [] ==> limbo == {}
    ensures ids != [] ==> ids[0] in limbo && Lists(ids[1..], limbo - {ids[0]})
  {
    if ids != [] {
      assert ids == [ids[0]] + ids[1..];
      assert ids[0] in ids;
    }
  }

  lemma {:induction false} AbortAllKeeps(s: State, ids: seq<Id>, limbo: set<Id>)
    requires Lists(ids, limbo) && Inv(s, limbo)
    ensures forall id | id in ids :: id in s.jobs
    ensures Inv(AbortAll(s, ids), {})
    decreases |ids|
  {
    assert forall id | id in limbo :: Unfinished(s, id);
    ListsTail(ids, limbo);
    if ids != [] {
      AbortPendingKeeps(s, ids[0], limbo);
      AbortAllKeeps(AbortPending(s, ids[0]), ids[1..], limbo - {ids[0]});
    }
  }

  function KeySetOf(ids: seq<Id>): set<Id> {
    set id | id in ids
  }

  lemma {:induction false} SweepStandbyKeeps(s: State, i: nat, n: nat)
    requires Inv(s, {}) && i <= n <= |s.history| + |s.spare|
    ensures Inv(SweepStandby(s, i, n), {})
    decreases n - i
  {
    if i < n {
      SweepOneKeeps(s, Seen(s, i));
      SweepStandbyKeeps(SweepOne(s, Seen(s, i)), i + 1, n);
    }
  }

  lemma SweepOneKeeps(s: State, id: Id)
    requires Inv(s, {})
    ensures Inv(SweepOne(s, id), {})
  {
    if id in s.jobs && s.jobs[id].status == Standby { AbortStandbyKeeps(s, id); }
  }

  lemma SweepKeeps(s: State)
    requires Inv(s, {})
    ensures Inv(Sweep(s), {})
  {
    var s0 := s.(queue := []);
    LivesFrame(s, s0);
    ExclusiveFrame(s, s0);
    assert Inv(s0, KeySetOf(s.queue));
    AbortAllKeeps(s0, s.queue, KeySetOf(s.queue));
    var s1 := AbortAll(s0, s.queue);
    SweepStandbyKeeps(s1, 0, |s1.history|);
  }

  // ----- steps and runs -----

  lemma InitInv(config: Config)
    ensures Inv(Init(config), {})
  {
  }

  lemma BeforeDispatchKeeps(s: State, step: Step)
    requires Inv(s, {}) && Enabled(s, step) && EndsInDispatch(s, step)
    ensures Inv(BeforeDispatch(s, step), {}) && Apply(s, step) == Dispatch(BeforeDispatch(s, step))
  {
    match step
    case StepEnqueue(id, def) => AdmitKeeps(s, id, def);
    case StepComplete(id, outcome) => SettleKeeps(s, id, outcome);
    case StepTimer(id) => RequeueKeeps(s, id);
  }

  /** Every enabled step keeps the invariant. */
  lemma StepKeeps(s: State, step: Step)
    requires Inv(s, {}) && Enabled(s, step)
    ensures Inv(Apply(s, step), {})
  {
    if EndsInDispatch(s, step) {
      BeforeDispatchKeeps(s, step);
      DispatchKeeps(BeforeDispatch(s, step));
    } else {
      match step
      case StepEnqueue(_, _) =>
      case StepTimer(_) =>
      case StepAbort(id) => AbortKeeps(s, id);
      case StepShutdownSignal => ShutdownKeeps(s);
      case StepShutdownSweep => SweepKeeps(s);
      case StepSignalled(body, starts) =>
        BeforeDispatchKeeps(s, body);
        StartSomeKeeps(BeforeDispatch(s, body), starts);
        ShutdownKeeps(StartSome(BeforeDispatch(s, body), starts));
    }
  }

  lemma ShutdownKeeps(s: State)
    requires Inv(s, {})
    ensures Inv(s.(shutdown := true), {})
  {
    LivesFrame(s, s.(shutdown := true));
    ExclusiveFrame(s, s.(shutdown := true));
  }

  /** `states` is a run of the protocol: it begins in Init and each state follows by one enabled step. */
  ghost predicate IsRun(config: Config, states: seq<State>, steps: seq<Step>) {
    && |states| == |steps| + 1
    && states[0] == Init(config)
    && forall i | 0 <= i < |steps| :: Follows(states[i], steps[i], states[i + 1])
  }

  ghost predicate Follows(s: State, step: Step, s': State) {
    QueueKnown(s) && Enabled(s, step) && s' == Apply(s, step)
  }

  /** The invariant holds in every state of every run, under every interleaving. */
  lemma {:induction false} RunsKeepInvariant(config: Config, states: seq<State>, steps: seq<Step>, n: nat)
    requires IsRun(config, states, steps) && n < |states|
    ensures Inv(states[n], {})
  {
    if n == 0 {
      InitInv(config);
    } else {
      RunsKeepInvariant(config, states, steps, n - 1);
      assert Follows(states[n - 1], steps[n - 1], states[n]);
      StepKeeps(states[n - 1], steps[n - 1]);
    }
  }

  ghost predicate Reachable(config: Config, s: State) {
    exists states: seq<State>, steps: seq<Step> :: IsRun(config, states, steps) && s == states[|steps|]
  }

  lemma ReachInit(config: Config)
    ensures Reachable(config, Init(config))
  {
    assert IsRun(config, [Init(config)], []);
  }

  lemma ReachStep(config: Config, s: State, step: Step)
    requires Reachable(config, s) && QueueKnown(s) && Enabled(s, step)
    ensures Reachable(config, Apply(s, step))
  {
    var states, steps :| IsRun(config, states, steps) && s == states[|steps|];
    var states', steps' := states + [Apply(s, step)], steps + [step];
    forall i | 0 <= i < |steps'|
      ensures Follows(states'[i], steps'[i], states'[i + 1])
    {
      if i < |steps| { assert Follows(states[i], steps[i], states[i + 1]); }
    }
    assert IsRun(config, states', steps');
  }

  lemma ReachableKeepsInvariant(config: Config, s: State)
    requires Reachable(config, s)
    ensures Inv(s, {})
  {
    var states, steps :| IsRun(config, states, steps) && s == states[|steps|];
    RunsKeepInvariant(config, states, steps, |steps|);
  }
}
