/** Runs that show where the job manager's stronger promises fail. */
module JobExamples {
  import opened JobProtocol
  import opened JobInvariant
  import opened JobTheorems
  import opened JobShutdown

  function Def(key: Key, dependsOn: seq<Key>): Definition {
    Definition(key, true, dependsOn, [], false, [1])
  }

  function WaitingOnce(key: Key): Job {
    Job(Def(key, []), Standby, 1, false, false, false, 1, 0)
  }

  function RunningOnce(key: Key): Job {
    Job(Def(key, []), Running, 0, false, false, false, 1, 0)
  }

  /** Admission of a job with free dependencies, when there is room, starts it at once. */
  lemma EnqueueStarts(s: State, id: Id, key: Key)
    requires s.queue == [] && id !in s.jobs && !s.shutdown && key != "" && key !in s.activeKeys
    requires s.running < s.config.maxConcurrent && s.spare == []
    requires forall i | 0 <= i < |s.history| :: !IsFinished(s.jobs, s.history[i])
    requires id !in s.history
    ensures Apply(s, StepEnqueue(id, Def(key, [])))
         == s.(jobs := s.jobs[id := RunningOnce(key)], history := s.history + [id], active := s.active + {id},
               activeKeys := s.activeKeys + {key}, running := s.running + 1)
  {
    var def := Def(key, []);
    var s1 := Append(s.(jobs := s.jobs[id := NewJob(def)]), id);
    assert forall i | 0 <= i < |s1.history| :: !IsFinished(s1.jobs, s1.history[i]);
    assert Trim(s1) == s1;
    var s2 := Admit(s, id, def);
    assert s2.queue == [id] && Satisfied(s2, def);
    assert FirstRunnable(s2, 0) == 0;
    var s3 := Start(Pop(s2, 0), id);
    assert Pop(s2, 0).queue == [];
    assert s3.jobs == s.jobs[id := RunningOnce(key)];
    assert KeySet(def.exclusiveKeys) == {};
    assert s3.activeExclusiveKeys == s.activeExclusiveKeys;
    assert Dispatch(s3) == s3;
    assert Dispatch(s2) == Dispatch(s3);
  }

  /** A first failure with a retry left puts the job into standby; with an empty queue nothing else moves. */
  lemma FailureWaits(s: State, id: Id, key: Key)
    requires s.queue == [] && id in s.jobs && id in s.active && s.jobs[id] == RunningOnce(key) && !s.shutdown
    ensures Apply(s, StepComplete(id, Failed(true)))
         == s.(jobs := s.jobs[id := WaitingOnce(key)], active := s.active - {id}, running := s.running - 1)
  {
    assert KeySet(s.jobs[id].def.exclusiveKeys) == {};
    assert s.activeExclusiveKeys - {} == s.activeExclusiveKeys;
  }

  lemma ReachEnqueue(config: Config, s: State, id: Id, key: Key)
    requires Reachable(config, s)
    requires s.queue == [] && id !in s.jobs && !s.shutdown && key != "" && key !in s.activeKeys
    requires s.running < s.config.maxConcurrent && s.spare == []
    requires forall i | 0 <= i < |s.history| :: !IsFinished(s.jobs, s.history[i])
    requires id !in s.history
    ensures Reachable(config, s.(jobs := s.jobs[id := RunningOnce(key)], history := s.history + [id], active := s.active + {id},
                                 activeKeys := s.activeKeys + {key}, running := s.running + 1))
  {
    EnqueueStarts(s, id, key);
    ReachStep(config, s, StepEnqueue(id, Def(key, [])));
  }

  lemma ThreeRunning() returns (s: State)
    ensures Reachable(Config(3, 1), s)
    ensures s == State(Config(3, 1), map[0 := RunningOnce("a"), 1 := RunningOnce("b"), 2 := RunningOnce("c")],
                       [0, 1, 2], [], [], {0, 1, 2}, {"a", "b", "c"}, {}, 3, false)
  {
    hide Reachable;
    var config := Config(3, 1);
    var s0 := Init(config);
    ReachInit(config);
    ReachEnqueue(config, s0, 0, "a");
    var s1 := State(config, map[0 := RunningOnce("a")], [0], [], [], {0}, {"a"}, {}, 1, false);
    assert s1 == s0.(jobs := s0.jobs[0 := RunningOnce("a")], history := s0.history + [0], active := s0.active + {0},
                     activeKeys := s0.activeKeys + {"a"}, running := s0.running + 1);
    ReachEnqueue(config, s1, 1, "b");
    var s2 := State(config, map[0 := RunningOnce("a"), 1 := RunningOnce("b")], [0, 1], [], [], {0, 1}, {"a", "b"}, {}, 2, false);
    assert s2 == s1.(jobs := s1.jobs[1 := RunningOnce("b")], history := s1.history + [1], active := s1.active + {1},
                     activeKeys := s1.activeKeys + {"b"}, running := s1.running + 1);
    ReachEnqueue(config, s2, 2, "c");
    s := s2.(jobs := s2.jobs[2 := RunningOnce("c")], history := s2.history + [2], active := s2.active + {2},
             activeKeys := s2.activeKeys + {"c"}, running := s2.running + 1);
  }

  lemma ThreeWaiting() returns (s: State)
    ensures Reachable(Config(3, 1), s)
    ensures s == State(Config(3, 1), map[0 := WaitingOnce("a"), 1 := WaitingOnce("b"), 2 := WaitingOnce("c")],
                       [0, 1, 2], [], [], {}, {"a", "b", "c"}, {}, 0, true)
  {
    var config := Config(3, 1);
    s := ThreeRunning();
    FailureWaits(s, 0, "a");
    ReachStep(config, s, StepComplete(0, Failed(true)));
    s := Apply(s, StepComplete(0, Failed(true)));
    FailureWaits(s, 1, "b");
    ReachStep(config, s, StepComplete(1, Failed(true)));
    s := Apply(s, StepComplete(1, Failed(true)));
    FailureWaits(s, 2, "c");
    ReachStep(config, s, StepComplete(2, Failed(true)));
    s := Apply(s, StepComplete(2, Failed(true)));
    ReachStep(config, s, StepShutdownSignal);
    s := Apply(s, StepShutdownSignal);
  }

  /**
   Three failed jobs in standby, a history limit of one: shutdown finishes the
   first and the last, and leaves the one between them waiting for ever.
   */
  lemma SweepCanMissStandby() returns (s: State)
    ensures Reachable(Config(3, 1), s) && Enabled(s, StepShutdownSweep) && QueueKnown(s)
    ensures !NoStandby(Apply(s, StepShutdownSweep))
  {
    hide Inv, Reachable, AbortAll, SweepStandby, Dispatch;
    s := ThreeWaiting();
    ReachableKeepsInvariant(Config(3, 1), s);
    WithoutNone(s.history);
    assert InStandby(s, s.history[0]) && InStandby(s, s.history[0 + 1]);
    assert s.history[..0] == [];
    assert !PairsCovered(s, s.history);
    SweepExactly(s);
  }

  function WaitingPair(): State {
    State(Config(1, 100), map[0 := WaitingOnce("a"), 1 := NewJob(Def("b", ["a"]))],
          [0, 1], [], [1], {}, {"a", "b"}, {}, 0, false)
  }

  /** One job waits in standby, and a second one is queued because it depends on the first. */
  lemma OneWaitsForAnother() returns (s: State)
    ensures Reachable(Config(1, 100), s)
    ensures s == WaitingPair()
  {
    var config := Config(1, 100);
    s := Init(config);
    ReachInit(config);
    EnqueueStarts(s, 0, "a");
    ReachStep(config, s, StepEnqueue(0, Def("a", [])));
    s := Apply(s, StepEnqueue(0, Def("a", [])));
    ReachStep(config, s, StepEnqueue(1, Def("b", ["a"])));
    s := Apply(s, StepEnqueue(1, Def("b", ["a"])));
    BlockedWaits(s);
    ReachStep(config, s, StepComplete(0, Failed(true)));
    s := Apply(s, StepComplete(0, Failed(true)));
  }

  lemma BlockedWaits(s: State)
    requires s == State(Config(1, 100), map[0 := RunningOnce("a"), 1 := NewJob(Def("b", ["a"]))],
                        [0, 1], [], [1], {0}, {"a", "b"}, {}, 1, false)
    ensures Apply(s, StepComplete(0, Failed(true)))
         == WaitingPair()
  {
    var s1 := Settle(s, 0, Failed(true));
    assert KeySet(s.jobs[0].def.exclusiveKeys) == {};
    assert "a" in s1.jobs[1].def.dependsOn && "a" in s1.activeKeys;
    assert FirstRunnable(s1, 0) == 1;
    assert Dispatch(s1) == s1;
  }

  /**
   A job that waits for another one is stranded when that one is aborted in
   standby: it could start, but nothing runs and nothing will dispatch.
   */
  lemma AbortCanStrandWork() returns (s: State)
    ensures Reachable(Config(1, 100), s) && QueueKnown(s) && Settled(s)
    ensures !Settled(Abort(s, 0)) && Abort(s, 0).queue == [1] && Idle(Abort(s, 0)) && !Abort(s, 0).shutdown
  {
    s := OneWaitsForAnother();
    StrandedAfterAbort(s);
    StandbyAbortIdles(s);
  }

  lemma StrandedAfterAbort(s: State)
    requires s == WaitingPair() && Reachable(Config(1, 100), s)
    ensures Settled(s) && !Settled(Abort(s, 0))
  {
    ReachableKeepsInvariant(Config(1, 100), s);
    StrandedHere(s);
    AbortSettledExactly(s, 0);
  }

  lemma StrandedHere(s: State)
    requires s == WaitingPair()
    ensures AbortStrands(s, 0) && Settled(s)
  {
    assert "a" in s.jobs[1].def.dependsOn && "a" in s.activeKeys;
    assert WaitsAtMostFor(s, s.jobs[1].def, "a");
    assert 1 in s.queue;
  }

  lemma StandbyAbortIdles(s: State)
    requires s == WaitingPair()
    ensures Abort(s, 0).queue == [1] && Idle(Abort(s, 0)) && !Abort(s, 0).shutdown
  {
    assert Abort(s, 0) == AbortPending(s, 0);
    assert Abort(s, 0).jobs[0].status == Finished && Abort(s, 0).jobs[1] == s.jobs[1];
  }
}
