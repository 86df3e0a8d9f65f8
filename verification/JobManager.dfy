/**
 The imperative job manager of internal/job/manager.go.  Each method is one of
 its locked bodies, and is proved to make exactly the move that JobProtocol
 describes for it.
 */
module JobManager {
  import P = JobProtocol
  import opened JobInvariant

  /** Job: the fields that the manager updates in place. */
  class Item {
    const id: P.Id
    const def: P.Definition
    var status: P.Status
    var retryCount: nat
    var isAborting: bool
    var hasAborted: bool
    var hasFailed: bool
    ghost var starts: nat
    ghost var closes: nat

    constructor (id: P.Id, def: P.Definition)
      ensures this.id == id && this.def == def && View() == P.NewJob(def)
    {
      this.id, this.def := id, def;
      status, retryCount := P.Queued, 0;
      isAborting, hasAborted, hasFailed := false, false, false;
      starts, closes := 0, 0;
    }

    ghost function View(): P.Job
      reads this
    {
      P.Job(def, status, retryCount, isAborting, hasAborted, hasFailed, starts, closes)
    }
  }

  ghost function Ids(items: seq<Item>): (ids: seq<P.Id>)
    ensures |ids| == |items|
    ensures forall i | 0 <= i < |items| :: ids[i] == items[i].id
  {
    seq(|items|, i requires 0 <= i < |items| => items[i].id)
  }

  ghost predicate AllKnown(known: map<P.Id, Item>, items: seq<Item>) {
    forall item | item in items :: item.id in known && known[item.id] == item
  }

  lemma KnownIds(known: map<P.Id, Item>, items: seq<Item>)
    requires AllKnown(known, items)
    ensures forall id | id in Ids(items) :: id in known
  {
    forall id | id in Ids(items)
      ensures id in known
    {
      var i :| 0 <= i < |items| && Ids(items)[i] == id;
      assert items[i] in items;
    }
  }

  class Manager {
    const config: P.Config
    var history: seq<Item>
    var spare: seq<Item>
    var queue: seq<Item>
    var active: set<P.Id>
    var activeKeys: set<P.Key>
    var activeExclusiveKeys: set<P.Key>
    var running: int
    var shutdown: bool
    /** Every job ever admitted, also those that history has dropped. */
    ghost var known: map<P.Id, Item>

    ghost predicate Linked()
      reads this
    {
      && (forall id | id in known :: known[id].id == id)
      && AllKnown(known, history) && AllKnown(known, spare) && AllKnown(known, queue)
    }

    ghost function Records(): (records: map<P.Id, P.Job>)
      reads this`known, known.Values
      ensures records.Keys == known.Keys
    {
      map id | id in known :: known[id].View()
    }

    ghost function State(): P.State
      reads this, known.Values
    {
      P.State(config, Records(), Ids(history), Ids(spare), Ids(queue),
              active, activeKeys, activeExclusiveKeys, running, shutdown)
    }

    ghost predicate Valid()
      reads this, known.Values
    {
      Linked() && Inv(State(), {})
    }

    constructor (config: P.Config)
      ensures Valid() && State() == P.Init(config)
    {
      this.config := config.WithDefaults();
      history, spare, queue := [], [], [];
      active, activeKeys, activeExclusiveKeys := {}, {}, {};
      running, shutdown := 0, false;
      known := map[];
      new;
      assert State() == P.Init(config);
      InitInv(config);
    }

    lemma QueueIsKnown()
      requires Linked()
      ensures P.QueueKnown(State())
      ensures forall i | 0 <= i < |queue| :: queue[i].id in known && State().jobs[queue[i].id] == queue[i].View()
    {
      KnownIds(known, queue);
      assert forall i | 0 <= i < |queue| :: queue[i] in queue;
    }

    /** Only one job's record differs from what it was. */
    twostate lemma OneChanged(item: Item)
      requires old(Linked()) && known == old(known) && item.id in known && known[item.id] == item
      requires forall id | id in known && id != item.id :: known[id].View() == old(known[id].View())
      ensures Records() == old(Records())[item.id := item.View()]
    {
    }

    // ----- dispatch -----

    method DependenciesSatisfied(def: P.Definition) returns (ok: bool)
      ensures ok == P.Satisfied(State(), def)
    {
      for i := 0 to |def.dependsOn|
        invariant forall j | 0 <= j < i :: def.dependsOn[j] !in activeKeys
      {
        if def.dependsOn[i] in activeKeys { return false; }
      }
      for i := 0 to |def.exclusiveKeys|
        invariant forall j | 0 <= j < i :: def.exclusiveKeys[j] !in activeExclusiveKeys
      {
        if def.exclusiveKeys[i] in activeExclusiveKeys { return false; }
      }
      return true;
    }

    method FindRunnable() returns (i: nat)
      requires Linked() && P.QueueKnown(State())
      ensures i <= |queue| && i == P.FirstRunnable(State(), 0)
    {
      i := 0;
      while i < |queue|
        invariant 0 <= i <= |queue|
        invariant P.FirstRunnable(State(), i) == P.FirstRunnable(State(), 0)
      {
        QueueIsKnown();
        var ok := DependenciesSatisfied(queue[i].def);
        if ok { return; }
        i := i + 1;
      }
    }

    method RemoveQueued(i: nat) returns (item: Item)
      requires Linked() && i < |queue|
      modifies this`queue
      ensures Linked() && item.id == old(State()).queue[i] && item.id in known && known[item.id] == item
      ensures State() == P.Pop(old(State()), i)
    {
      ghost var before := State();
      item := queue[i];
      assert item in queue;
      queue := queue[..i] + queue[i + 1..];
      assert State().queue == P.RemoveAt(before.queue, i);
    }

    method PopRunnable() returns (item: Item?)
      requires Linked() && P.QueueKnown(State())
      modifies this`queue
      ensures Linked()
      ensures var s := old(State()); var i := P.FirstRunnable(s, 0);
              if i == |s.queue| then item == null && State() == s
              else item != null && item.id == s.queue[i] && item.id in known && known[item.id] == item && State() == P.Pop(s, i)
    {
      var i := FindRunnable();
      if i == |queue| { return null; }
      item := RemoveQueued(i);
    }

    method HoldExclusiveKeys(keys: seq<P.Key>)
      modifies this`activeExclusiveKeys
      ensures activeExclusiveKeys == old(activeExclusiveKeys) + P.KeySet(keys)
    {
      for i := 0 to |keys|
        invariant activeExclusiveKeys == old(activeExclusiveKeys) + P.KeySet(keys[..i])
      {
        activeExclusiveKeys := activeExclusiveKeys + {keys[i]};
        assert keys[..i + 1] == keys[..i] + [keys[i]];
      }
      assert keys[..|keys|] == keys;
    }

    method FreeExclusiveKeys(keys: seq<P.Key>)
      modifies this`activeExclusiveKeys
      ensures activeExclusiveKeys == old(activeExclusiveKeys) - P.KeySet(keys)
    {
      for i := 0 to |keys|
        invariant activeExclusiveKeys == old(activeExclusiveKeys) - P.KeySet(keys[..i])
      {
        activeExclusiveKeys := activeExclusiveKeys - {keys[i]};
        assert keys[..i + 1] == keys[..i] + [keys[i]];
      }
      assert keys[..|keys|] == keys;
    }

    method MarkRunning(item: Item)
      requires Linked() && item.id in known && known[item.id] == item
      modifies item
      ensures Records() == old(Records())[item.id := old(item.View()).(status := P.Running, starts := old(item.starts) + 1)]
    {
      item.status := P.Running;
      item.starts := item.starts + 1;
      OneChanged(item);
    }

    method Occupy(id: P.Id, keys: seq<P.Key>)
      modifies this`active, this`activeExclusiveKeys, this`running
      ensures Linked() == old(Linked())
      ensures var s := old(State());
              State() == s.(active := s.active + {id}, activeExclusiveKeys := s.activeExclusiveKeys + P.KeySet(keys), running := s.running + 1)
    {
      active := active + {id};
      HoldExclusiveKeys(keys);
      running := running + 1;
    }

    method StartJob(item: Item)
      requires Linked() && item.id in known && known[item.id] == item
      modifies this`active, this`activeExclusiveKeys, this`running, item
      ensures Linked()
      ensures State() == P.Start(old(State()), item.id)
    {
      assert State().jobs[item.id] == item.View();
      MarkRunning(item);
      Occupy(item.id, item.def.exclusiveKeys);
    }

    method DispatchOne() returns (started: bool)
      requires Linked() && P.QueueKnown(State())
      modifies this`queue, this`active, this`activeExclusiveKeys, this`running, known.Values
      ensures Linked() && P.QueueKnown(State())
      ensures var s := old(State()); var i := P.FirstRunnable(s, 0);
              if i == |s.queue| then !started && State() == s
              else started && State() == P.Start(P.Pop(s, i), s.queue[i])
    {
      var item := PopRunnable();
      if item == null { return false; }
      StartJob(item);
      QueueIsKnown();
      return true;
    }

    method Dispatch()
      requires Linked() && P.QueueKnown(State())
      modifies this`queue, this`active, this`activeExclusiveKeys, this`running, known.Values
      ensures Linked()
      ensures State() == P.Dispatch(old(State()))
    {
      while running < config.maxConcurrent && |queue| > 0 && !shutdown
        invariant Linked() && P.QueueKnown(State())
        invariant P.Dispatch(State()) == old(P.Dispatch(State()))
        decreases |queue|
      {
        var started := DispatchOne();
        if !started { return; }
      }
    }

    // ----- history -----

    method FirstFinished() returns (i: nat)
      requires Linked()
      ensures i <= |history|
      ensures i == P.FirstFinished(State().jobs, State().history, 0)
    {
      i := 0;
      while i < |history|
        invariant 0 <= i <= |history|
        invariant P.FirstFinished(State().jobs, State().history, i) == P.FirstFinished(State().jobs, State().history, 0)
      {
        assert history[i] in history;
        if history[i].status == P.Finished { return; }
        i := i + 1;
      }
    }

    /** append(history[:i], history[i+1:]...) shifts the backing array in place. */
    method RemoveFromHistory(i: nat)
      requires Linked() && i < |history|
      modifies this`history, this`spare
      ensures Linked() && |history| == |old(history)| - 1
      ensures State() == P.DropHistory(old(State()), i)
    {
      ghost var before := State();
      assert history[|history| - 1] in history;
      spare := [history[|history| - 1]] + spare;
      history := history[..i] + history[i + 1..];
      assert State().history == P.RemoveAt(before.history, i);
      assert State().spare == [before.history[|before.history| - 1]] + before.spare;
    }

    /** One turn of trimHistory's loop. */
    method TrimOne() returns (removed: bool)
      requires Linked() && |history| > config.maxHistory
      modifies this`history, this`spare
      ensures Linked() && (removed ==> |history| < |old(history)|)
      ensures var s := old(State()); var i := P.FirstFinished(s.jobs, s.history, 0);
              removed == (i < |s.history|) && State() == if removed then P.DropHistory(s, i) else s
    {
      hide P.DropHistory, P.FirstFinished;
      var i := FirstFinished();
      removed := i < |history|;
      if removed { RemoveFromHistory(i); }
    }

    method TrimHistory()
      requires Linked()
      modifies this`history, this`spare
      ensures Linked()
      ensures State() == P.Trim(old(State()))
    {
      while |history| > config.maxHistory
        invariant Linked()
        invariant P.Trim(State()) == P.Trim(old(State()))
        decreases |history|
      {
        var removed := TrimOne();
        if !removed { return; }
      }
    }

    // ----- the end of a job -----

    method MarkFinished(item: Item, failed: bool, aborted: bool)
      requires Linked() && item.id in known && known[item.id] == item
      modifies item
      ensures Records() == old(Records())[item.id := P.FinishedJob(old(item.View()), failed, aborted)]
    {
      item.status := P.Finished;
      item.hasAborted := item.hasAborted || aborted;
      if failed && !item.hasAborted { item.hasFailed := true; }
      item.closes := item.closes + 1;
      OneChanged(item);
    }

    method Retire(item: Item, failed: bool, aborted: bool)
      requires Linked() && item.id in known && known[item.id] == item
      modifies this`activeKeys, item
      ensures Linked()
      ensures State() == P.Retire(old(State()), item.id, failed, aborted)
    {
      MarkFinished(item, failed, aborted);
      activeKeys := activeKeys - {item.def.key};
    }

    method Finish(item: Item, failed: bool, aborted: bool)
      requires Linked() && item.id in known && known[item.id] == item
      modifies this`history, this`spare, this`activeKeys, item
      ensures Linked()
      ensures State() == P.Finish(old(State()), item.id, failed, aborted)
    {
      if item.status == P.Finished { return; }
      Retire(item, failed, aborted);
      TrimHistory();
    }

    method AbortPending(item: Item)
      requires Linked() && item.id in known && known[item.id] == item
      modifies this`history, this`spare, this`activeKeys, item
      ensures Linked()
      ensures State() == P.AbortPending(old(State()), item.id)
    {
      item.isAborting := true;
      OneChanged(item);
      Finish(item, false, true);
    }

    method CompleteActive(item: Item)
      requires Linked() && item.id in known && known[item.id] == item
      modifies this`active, this`activeExclusiveKeys, this`running
      ensures Linked()
      ensures State() == P.CompleteActive(old(State()), item.id)
    {
      active := active - {item.id};
      FreeExclusiveKeys(item.def.exclusiveKeys);
      running := running - 1;
    }

    // ----- the locked bodies -----

    method AddHistory(item: Item)
      requires Linked() && item.id in known && known[item.id] == item
      modifies this`history, this`spare
      ensures Linked()
      ensures State() == P.Trim(P.Append(old(State()), item.id))
    {
      ghost var before := State();
      history := history + [item];
      spare := if |spare| == 0 then [] else spare[1..];
      assert State().history == before.history + [item.id];
      assert State() == P.Append(before, item.id);
      TrimHistory();
    }

    method Track(id: P.Id, def: P.Definition) returns (item: Item)
      requires Linked() && id !in known
      modifies this`known
      ensures Linked() && item.id == id && item.def == def && fresh(item) && known == old(known)[id := item]
      ensures State() == old(State()).(jobs := old(State()).jobs[id := P.NewJob(def)])
    {
      ghost var before := State();
      item := new Item(id, def);
      known := known[id := item];
      assert State().jobs == before.jobs[id := P.NewJob(def)];
    }

    method EnqueueItem(item: Item)
      requires Linked() && item.id in known && known[item.id] == item
      modifies this`queue
      ensures Linked()
      ensures State() == old(State()).(queue := old(State()).queue + [item.id])
    {
      ghost var before := State();
      queue := queue + [item];
      assert State().queue == before.queue + [item.id];
    }

    method AdmitItem(item: Item)
      requires Linked() && item.id in known && known[item.id] == item
      modifies this`history, this`spare, this`queue, this`activeKeys
      ensures Linked()
      ensures var s := P.Trim(P.Append(old(State()), item.id));
              State() == s.(queue := s.queue + [item.id], activeKeys := s.activeKeys + {item.def.key})
    {
      AddHistory(item);
      EnqueueItem(item);
      TakeKey(item.def.key);
    }

    method TakeKey(key: P.Key)
      modifies this`activeKeys
      ensures Linked() == old(Linked()) && State() == old(State()).(activeKeys := old(State()).activeKeys + {key})
    {
      activeKeys := activeKeys + {key};
    }

    method Admit(id: P.Id, def: P.Definition)
      requires Linked() && id !in known
      modifies this`history, this`spare, this`queue, this`activeKeys, this`known
      ensures Linked() && id in known && fresh(known[id]) && known == old(known)[id := known[id]]
      ensures State() == P.Admit(old(State()), id, def)
    {
      var item := Track(id, def);
      AdmitItem(item);
    }

    method EnqueueLocked(id: P.Id, def: P.Definition) returns (errors: seq<P.EnqueueError>)
      requires Linked() && P.QueueKnown(State()) && id !in known
      modifies this, known.Values
      ensures Linked() && errors == P.RejectEnqueue(old(State()), def)
      ensures State() == P.Enqueue(old(State()), id, def)
    {
      if shutdown { return [P.ManagerShutdown]; }
      if def.key == "" || !def.hasHandler { return [P.InvalidDefinition]; }
      if def.key in activeKeys { return [P.JobAlreadyRunning]; }
      Admit(id, def);
      QueueIsKnown();
      Dispatch();
      return [];
    }

    method Standby(item: Item)
      requires Linked() && item.id in known && known[item.id] == item
      modifies item
      ensures Linked() && State() == P.ToStandby(old(State()), item.id)
    {
      item.retryCount := item.retryCount + 1;
      item.status := P.Standby;
      OneChanged(item);
    }

    method RetryToQueue(item: Item)
      requires Linked() && item.id in known && known[item.id] == item
      modifies this`queue, item
      ensures Linked() && State() == P.Requeue(old(State()), item.id)
    {
      item.status := P.Queued;
      OneChanged(item);
      EnqueueItem(item);
    }

    method Settle(item: Item, outcome: P.Outcome)
      requires Linked() && item.id in known && known[item.id] == item
      modifies this, item
      ensures Linked() && known == old(known)
      ensures State() == P.Settle(old(State()), item.id, outcome)
    {
      CompleteActive(item);
      if !item.hasAborted && outcome.Failed? && item.retryCount < |item.def.retryDelays| && !shutdown && outcome.retryable {
        Standby(item);
      } else {
        Finish(item, outcome.Failed?, item.hasAborted);
      }
    }

    method CompleteLocked(item: Item, outcome: P.Outcome)
      requires Linked() && P.QueueKnown(State()) && item.id in known && known[item.id] == item
      modifies this, known.Values
      ensures Linked() && known == old(known)
      ensures State() == P.Complete(old(State()), item.id, outcome)
    {
      Settle(item, outcome);
      QueueIsKnown();
      Dispatch();
    }

    method TimerLocked(item: Item)
      requires Linked() && P.QueueKnown(State()) && item.id in known && known[item.id] == item
      modifies this, known.Values
      ensures Linked() && known == old(known)
      ensures State() == P.Timer(old(State()), item.id)
    {
      if item.status != P.Standby || item.hasAborted || shutdown { return; }
      RetryToQueue(item);
      QueueIsKnown();
      Dispatch();
    }

    // ----- abort -----

    method FindJob(id: P.Id) returns (item: Item?)
      requires Linked()
      ensures item == null <==> id !in State().history
      ensures item != null ==> item.id == id && id in known && known[id] == item
    {
      for i := 0 to |history|
        invariant forall j | 0 <= j < i :: history[j].id != id
      {
        assert history[i] in history;
        if history[i].id == id {
          assert State().history[i] == id;
          return history[i];
        }
      }
      item := null;
    }

    method AbortActive(id: P.Id) returns (found: bool)
      requires Linked()
      modifies known.Values
      ensures Linked() && found == (id in active)
      ensures State() == if found then P.Abort(old(State()), id) else old(State())
    {
      if id !in active { return false; }
      var item := FindJob(id);
      if item != null {
        item.isAborting := true;
        item.hasAborted := true;
        OneChanged(item);
      }
      return true;
    }

    method FindQueued(id: P.Id) returns (i: nat)
      requires Linked()
      ensures i <= |queue| && i == P.IndexOf(State().queue, id)
    {
      i := 0;
      while i < |queue|
        invariant 0 <= i <= |queue|
        invariant forall j | 0 <= j < i :: queue[j].id != id
      {
        if queue[i].id == id {
          FirstIndex(State().queue, i, id);
          return;
        }
        i := i + 1;
      }
      assert id !in State().queue;
    }

    method AbortQueued(id: P.Id) returns (found: bool)
      requires Linked() && P.QueueKnown(State())
      modifies this`queue, this`history, this`spare, this`activeKeys, known.Values
      ensures Linked() && found == (id in old(State()).queue)
      ensures State() == if found then P.AbortPending(P.Pop(old(State()), P.IndexOf(old(State()).queue, id)), id) else old(State())
    {
      var i := FindQueued(id);
      if i == |queue| { return false; }
      var item := RemoveQueued(i);
      AbortPending(item);
      return true;
    }

    lemma FirstIndex(ids: seq<P.Id>, i: nat, id: P.Id)
      requires i < |ids| && ids[i] == id && forall j | 0 <= j < i :: ids[j] != id
      ensures P.IndexOf(ids, id) == i
    {
    }

    method AbortStandby(id: P.Id) returns (found: bool)
      requires Linked()
      modifies this`history, this`spare, this`activeKeys, known.Values
      ensures Linked()
      ensures found == (id in old(State()).history && id in old(State()).jobs && old(State()).jobs[id].status == P.Standby)
      ensures State() == if found then P.AbortPending(old(State()), id) else old(State())
    {
      var item := FindJob(id);
      if item == null || item.status != P.Standby { return false; }
      ghost var before := State();
      item.hasAborted := true;
      OneChanged(item);
      AbortPending(item);
      AbortedTwice(before, id);
      return true;
    }

    /** abortStandbyLocked sets HasAborted before finishLocked sets it again. */
    lemma AbortedTwice(s: P.State, id: P.Id)
      requires id in s.jobs && s.jobs[id].status == P.Standby
      ensures P.AbortPending(s.(jobs := s.jobs[id := s.jobs[id].(hasAborted := true)]), id) == P.AbortPending(s, id)
    {
      var job := s.jobs[id];
      var s' := s.(jobs := s.jobs[id := job.(hasAborted := true)]);
      assert s'.jobs[id := s'.jobs[id].(isAborting := true)][id := P.FinishedJob(s'.jobs[id].(isAborting := true), false, true)]
          == s.jobs[id := job.(isAborting := true)][id := P.FinishedJob(job.(isAborting := true), false, true)];
    }

    /** Abort; `found` is false where the source returns ErrJobNotRunning. */
    method AbortLocked(id: P.Id) returns (found: bool)
      requires Linked() && P.QueueKnown(State())
      modifies this, known.Values
      ensures Linked() && known == old(known) && found == P.AbortFinds(old(State()), id)
      ensures State() == P.Abort(old(State()), id)
    {
      found := AbortActive(id);
      if found { return; }
      found := AbortQueued(id);
      if found { return; }
      found := AbortStandby(id);
    }

    // ----- shutdown -----

    /** The first loop of abortQueuedAndStandbyLocked, over its own copy of the queue. */
    method AbortAll(items: seq<Item>)
      requires Linked() && AllKnown(known, items)
      modifies this`history, this`spare, this`activeKeys, known.Values
      ensures Linked()
      ensures forall id | id in Ids(items) :: id in known
      ensures State() == P.AbortAll(old(State()), Ids(items))
    {
      KnownIds(known, items);
      ghost var ids := Ids(items);
      assert ids[0..] == ids;
      for i := 0 to |items|
        invariant Linked() && forall id | id in ids[i..] :: id in known
        invariant P.AbortAll(State(), ids[i..]) == P.AbortAll(old(State()), ids)
      {
        assert items[i] in items;
        assert ids[i..][1..] == ids[i + 1..];
        AbortPending(items[i]);
      }
    }

    method SweepSlot(i: nat)
      requires Linked() && i < |history| + |spare|
      modifies this`history, this`spare, this`activeKeys, known.Values
      ensures Linked()
      ensures State() == P.SweepOne(old(State()), P.Seen(old(State()), i))
    {
      var item := (history + spare)[i];
      assert item in history + spare;
      assert item.id == P.Seen(State(), i);
      assert State().jobs[item.id] == item.View();
      if item.status == P.Standby {
        AbortPending(item);
      }
    }

    /** The second loop ranges over the slots of history while Finish may shift them. */
    method SweepStandby()
      requires Linked()
      modifies this`history, this`spare, this`activeKeys, known.Values
      ensures Linked()
      ensures State() == P.SweepStandby(old(State()), 0, |old(history)|)
    {
      var n := |history|;
      for i := 0 to n
        invariant Linked() && n <= |history| + |spare|
        invariant P.SweepStandby(State(), i, n) == P.SweepStandby(old(State()), 0, n)
      {
        SweepSlot(i);
      }
    }

    method CancelContext()
      modifies this`shutdown
      ensures Linked() == old(Linked()) && State() == old(State()).(shutdown := true)
    {
      shutdown := true;
    }

    method TakeQueue() returns (queued: seq<Item>)
      requires Linked()
      modifies this`queue
      ensures Linked() && AllKnown(known, queued)
      ensures Ids(queued) == old(State()).queue && State() == old(State()).(queue := [])
    {
      queued := queue;
      queue := [];
    }

    method ShutdownSweepLocked()
      requires Linked() && P.QueueKnown(State())
      modifies this, known.Values
      ensures Linked() && known == old(known)
      ensures State() == P.Sweep(old(State()))
    {
      hide P.AbortAll, P.SweepStandby;
      var queued := TakeQueue();
      AbortAll(queued);
      SweepStandby();
    }

    // ----- the steps, with the invariant -----

    /** Enqueue and EnqueueDefinition; the fresh UUID is a parameter. */
    method Enqueue(id: P.Id, def: P.Definition) returns (errors: seq<P.EnqueueError>)
      requires Valid() && id !in known
      modifies this, known.Values
      ensures Valid() && errors == P.RejectEnqueue(old(State()), def)
      ensures P.QueueKnown(old(State())) && State() == P.Apply(old(State()), P.StepEnqueue(id, def))
    {
      StepKeeps(State(), P.StepEnqueue(id, def));
      QueueIsKnown();
      errors := EnqueueLocked(id, def);
    }

    /** The locked part of run, once the handler of a running job has returned. */
    method HandlerReturned(item: Item, outcome: P.Outcome)
      requires Valid() && item.id in known && known[item.id] == item && item.id in active
      modifies this, known.Values
      ensures Valid()
      ensures P.QueueKnown(old(State())) && State() == P.Apply(old(State()), P.StepComplete(item.id, outcome))
    {
      StepKeeps(State(), P.StepComplete(item.id, outcome));
      QueueIsKnown();
      CompleteLocked(item, outcome);
    }

    /** The locked part of a retry timer. */
    method TimerFired(item: Item)
      requires Valid() && item.id in known && known[item.id] == item
      modifies this, known.Values
      ensures Valid()
      ensures P.QueueKnown(old(State())) && State() == P.Apply(old(State()), P.StepTimer(item.id))
    {
      StepKeeps(State(), P.StepTimer(item.id));
      QueueIsKnown();
      TimerLocked(item);
    }

    method Abort(id: P.Id) returns (found: bool)
      requires Valid()
      modifies this, known.Values
      ensures Valid() && found == P.AbortFinds(old(State()), id)
      ensures P.QueueKnown(old(State())) && State() == P.Apply(old(State()), P.StepAbort(id))
    {
      StepKeeps(State(), P.StepAbort(id));
      QueueIsKnown();
      found := AbortLocked(id);
    }

    /** Rerun: the lookup, and then EnqueueDefinition with the definition that was found. */
    method Rerun(id: P.Id, newId: P.Id) returns (found: bool, rerunnable: bool, errors: seq<P.EnqueueError>)
      requires Valid() && newId !in known
      modifies this, known.Values
      ensures Valid() && P.QueueKnown(old(State()))
      ensures found == (id in old(State()).history)
      ensures found ==> id in old(State()).jobs && rerunnable == old(State()).jobs[id].def.isRerunnable
      ensures State() == if found && rerunnable then P.Apply(old(State()), P.StepEnqueue(newId, old(State()).jobs[id].def)) else old(State())
      ensures errors == if found && rerunnable then P.RejectEnqueue(old(State()), old(State()).jobs[id].def) else []
    {
      QueueIsKnown();
      var item := FindJob(id);
      if item == null { return false, false, []; }
      assert State().jobs[id] == item.View();
      if !item.def.isRerunnable { return true, false, []; }
      errors := Enqueue(newId, item.def);
      return true, true, errors;
    }

    /** Shutdown cancels the context first, and takes the lock only then. */
    method CancelShutdownContext()
      requires Valid()
      modifies this`shutdown
      ensures Valid()
      ensures P.QueueKnown(old(State())) && State() == P.Apply(old(State()), P.StepShutdownSignal)
    {
      StepKeeps(State(), P.StepShutdownSignal);
      QueueIsKnown();
      CancelContext();
    }

    method ShutdownSweep()
      requires Valid() && shutdown
      modifies this, known.Values
      ensures Valid()
      ensures P.QueueKnown(old(State())) && State() == P.Apply(old(State()), P.StepShutdownSweep)
    {
      StepKeeps(State(), P.StepShutdownSweep);
      QueueIsKnown();
      ShutdownSweepLocked();
    }
  }
}
