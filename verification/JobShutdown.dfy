/**
 The shutdown sweep.  It ranges over history while finishing a job may trim that
 same history in place, so it can step over a job that waits in standby.  This
 module says exactly when.
 */
module JobShutdown {
  import opened JobProtocol
  import opened JobInvariant
  import opened JobTheorems

  predicate InStandby(s: State, id: Id) {
    id in s.jobs && s.jobs[id].status == Standby
  }

  ghost predicate NoStandby(s: State) {
    forall id :: !InStandby(s, id)
  }

  /** How many of the given jobs wait in standby. */
  function CountStandby(s: State, ids: seq<Id>): nat {
    if ids == [] then 0 else (if InStandby(s, ids[0]) then 1 else 0) + CountStandby(s, ids[1..])
  }

  /**
   The sweep steps over the job after each one that it finishes while history is
   longer than its limit.  From position i on, two neighbours in standby are
   safe if enough standby jobs come before them to bring history down to its
   limit, or if the second is the last element: the shifts leave copies of that one behind.
   */
  ghost predicate NothingSteppedOver(s: State, i: nat)
    requires i <= |s.history|
  {
    forall p | i <= p < |s.history| - 2 && InStandby(s, s.history[p]) && InStandby(s, s.history[p + 1]) ::
      CountStandby(s, s.history[i..p]) >= |s.history| - s.config.maxHistory
  }

  // ----- one step of the sweep -----

  /** Nothing finished is left in an overlong history. */
  ghost predicate Tight(s: State) {
    |s.history| > s.config.maxHistory ==> forall id | id in s.history :: !IsFinished(s.jobs, id)
  }

  /** The effect of finishing one standby job on every other job. */
  ghost predicate OnlyFinished(s: State, s': State, id: Id) {
    && id in s.jobs && s'.jobs.Keys == s.jobs.Keys && s'.config == s.config
    && (forall j | j in s.jobs && j != id :: s'.jobs[j] == s.jobs[j])
    && s'.jobs[id].status == Finished
  }

  /** Within its limit, history is left alone by a finish. */
  lemma ShortSweep(s: State, id: Id)
    requires InStandby(s, id) && |s.history| <= s.config.maxHistory
    ensures SweepOne(s, id).history == s.history && SweepOne(s, id).spare == s.spare
    ensures OnlyFinished(s, SweepOne(s, id), id)
  {
  }

  /** Beyond its limit, the finished job itself is what the trim removes, and nothing else. */
  lemma LongAbort(s: State, r: nat)
    requires HistoryOk(s) && Tight(s) && |s.history| > s.config.maxHistory && r < |s.history|
    ensures var s' := AbortPending(s, s.history[r]);
            && s'.history == RemoveAt(s.history, r)
            && s'.spare == [s.history[|s.history| - 1]] + s.spare
            && OnlyFinished(s, s', s.history[r])
    ensures HistoryOk(AbortPending(s, s.history[r])) && Tight(AbortPending(s, s.history[r]))
  {
    var id := s.history[r];
    var s1 := Retire(s.(jobs := s.jobs[id := s.jobs[id].(isAborting := true)]), id, false, true);
    assert !IsFinished(s.jobs, id);
    forall j | 0 <= j < |s.history| && j != r
      ensures !IsFinished(s1.jobs, s.history[j])
    {
      assert s.history[j] in s.history && s.history[j] != id;
    }
    hide IsFinished;
    assert FirstFinished(s1.jobs, s1.history, 0) == r;
    var s2 := DropHistory(s1, r);
    assert Trim(s1) == Trim(s2);
    assert forall j | 0 <= j < |s2.history| :: !IsFinished(s1.jobs, s2.history[j]);
    assert Trim(s2) == s2;
    RemoveKeeps(s.history, r);
  }

  lemma LongSweep(s: State, r: nat)
    requires HistoryOk(s) && Tight(s) && |s.history| > s.config.maxHistory
    requires r < |s.history| && InStandby(s, s.history[r])
    ensures var s' := SweepOne(s, s.history[r]);
            && s'.history == RemoveAt(s.history, r)
            && s'.spare == [s.history[|s.history| - 1]] + s.spare
            && OnlyFinished(s, s', s.history[r])
    ensures HistoryOk(SweepOne(s, s.history[r])) && Tight(SweepOne(s, s.history[r]))
  {
    LongAbort(s, r);
  }

  lemma ShortKeeps(s: State, id: Id)
    requires HistoryOk(s) && InStandby(s, id) && |s.history| <= s.config.maxHistory
    ensures HistoryOk(SweepOne(s, id)) && Tight(SweepOne(s, id))
  {
    ShortSweep(s, id);
    assert forall j | Unfinished(SweepOne(s, id), j) :: Unfinished(s, j);
  }

  // ----- what the loop never reaches -----

  ghost predicate NotSeen(s: State, from: nat, n: nat, id: Id)
    requires n <= |s.history| + |s.spare|
  {
    forall k | from <= k < n :: Seen(s, k) != id
  }

  /** A job that no later slot shows is not touched by the rest of the loop. */
  lemma {:induction false} Untouched(s: State, i: nat, n: nat, id: Id)
    requires HistoryOk(s) && Tight(s) && i <= n && |s.history| <= n <= |s.history| + |s.spare|
    requires id in s.jobs && NotSeen(s, i, n, id)
    ensures SweepStandby(s, i, n).jobs[id] == s.jobs[id]
    decreases n - i
  {
    if i < n {
      assert Seen(s, i) != id;
      StaysUnseen(s, i, n, id);
      Untouched(SweepOne(s, Seen(s, i)), i + 1, n, id);
    }
  }

  lemma StaysUnseen(s: State, i: nat, n: nat, id: Id)
    requires HistoryOk(s) && Tight(s) && i < n && |s.history| <= n <= |s.history| + |s.spare|
    requires id in s.jobs && NotSeen(s, i, n, id)
    ensures var s' := SweepOne(s, Seen(s, i));
            && HistoryOk(s') && Tight(s') && |s'.history| <= n
            && NotSeen(s', i + 1, n, id)
            && s'.jobs[id] == s.jobs[id]
  {
    var at := Seen(s, i);
    assert at != id;
    if InStandby(s, at) {
      if |s.history| <= s.config.maxHistory {
        ShortSweep(s, at);
        ShortKeeps(s, at);
        assert forall k | i < k < n :: Seen(SweepOne(s, at), k) == Seen(s, k);
      } else {
        assert Unfinished(s, at);
        var r :| 0 <= r < |s.history| && s.history[r] == at;
        LongSweep(s, r);
        LaterSlots(s, SweepOne(s, at), r, i, n, id);
      }
    }
  }

  /** After the shift at r, a later slot shows what it or its right neighbour showed before. */
  lemma LaterSlots(s: State, s': State, r: nat, i: nat, n: nat, id: Id)
    requires NoDuplicates(s.history) && r < |s.history| <= n <= |s.history| + |s.spare|
    requires s'.history == RemoveAt(s.history, r) && s'.spare == [s.history[|s.history| - 1]] + s.spare
    requires i < n && Seen(s, i) == s.history[r] && NotSeen(s, i, n, id)
    ensures NotSeen(s', i + 1, n, id)
  {
    assert r <= i;
    forall k | i + 1 <= k < n
      ensures Seen(s', k) != id
    {
      if k < |s.history| - 1 { assert Seen(s', k) == Seen(s, k + 1); }
      else { assert Seen(s', k) == Seen(s, k); }
    }
  }

  /** Slots that show no standby job do nothing. */
  lemma {:induction false} RestIdle(s: State, i: nat, n: nat)
    requires i <= n <= |s.history| + |s.spare|
    requires forall k | i <= k < n :: !InStandby(s, Seen(s, k))
    ensures SweepStandby(s, i, n) == s
    decreases n - i
  {
    if i < n { RestIdle(s, i + 1, n); }
  }

  // ----- the condition -----

  lemma CountSplit(s: State, a: seq<Id>, b: seq<Id>)
    ensures CountStandby(s, a + b) == CountStandby(s, a) + CountStandby(s, b)
  {
    if a == [] {
      assert a + b == b;
    } else {
      assert (a + b)[1..] == a[1..] + b;
      CountSplit(s, a[1..], b);
    }
  }

  lemma {:induction false} CountFrame(s: State, s': State, ids: seq<Id>)
    requires forall id | id in ids :: InStandby(s', id) <==> InStandby(s, id)
    ensures CountStandby(s', ids) == CountStandby(s, ids)
  {
    if ids != [] { CountFrame(s, s', ids[1..]); }
  }

  lemma ConditionSkipsOne(s: State, i: nat)
    requires i < |s.history| && !InStandby(s, s.history[i])
    ensures NothingSteppedOver(s, i) <==> NothingSteppedOver(s, i + 1)
  {
    forall p | i < p <= |s.history|
      ensures CountStandby(s, s.history[i..p]) == CountStandby(s, s.history[i + 1..p])
    {
      assert s.history[i..p][1..] == s.history[i + 1..p];
    }
  }

  /** s' is s without the standby job at place i, whose right neighbour is not in standby. */
  ghost predicate Shifted(s: State, s': State, i: nat) {
    && NoDuplicates(s.history)
    && i + 1 < |s.history| && InStandby(s, s.history[i]) && !InStandby(s, s.history[i + 1])
    && s'.history == RemoveAt(s.history, i) && s'.config == s.config
    && forall id | id in s.history && id != s.history[i] :: InStandby(s', id) <==> InStandby(s, id)
  }

  lemma CountWindow(s: State, h: seq<Id>, i: nat, p: nat)
    requires i + 2 <= p <= |h| && InStandby(s, h[i]) && !InStandby(s, h[i + 1])
    ensures CountStandby(s, h[i..p]) == 1 + CountStandby(s, h[i + 2..p])
  {
    assert h[i..p][1..] == h[i + 1..p];
    assert h[i + 1..p][1..] == h[i + 2..p];
  }

  lemma PlaceAfterRemoval(s: State, s': State, i: nat, p: nat)
    requires Shifted(s, s', i) && i + 2 <= p < |s.history|
    ensures InStandby(s', s'.history[p - 1]) <==> InStandby(s, s.history[p])
  {
  }

  lemma CountAfterRemoval(s: State, s': State, i: nat, p: nat)
    requires Shifted(s, s', i) && i + 2 <= p < |s.history|
    ensures CountStandby(s', s'.history[i + 1..p - 1]) == CountStandby(s, s.history[i..p]) - 1
  {
    var h, h' := s.history, s'.history;
    assert h'[i + 1..p - 1] == h[i + 2..p];
    forall id | id in h[i + 2..p]
      ensures InStandby(s', id) <==> InStandby(s, id)
    {
      assert id in h && id != h[i];
    }
    CountFrame(s, s', h[i + 2..p]);
    CountWindow(s, h, i, p);
  }

  /** After the job at i is removed and its neighbour is stepped over, the same condition is left. */
  lemma ConditionAfterRemoval(s: State, s': State, i: nat)
    requires Shifted(s, s', i)
    ensures NothingSteppedOver(s', i + 1) <==> NothingSteppedOver(s, i)
  {
    if NothingSteppedOver(s, i) { ConditionForward(s, s', i); }
    if NothingSteppedOver(s', i + 1) { ConditionBackward(s, s', i); }
  }

  lemma ConditionForward(s: State, s': State, i: nat)
    requires Shifted(s, s', i) && NothingSteppedOver(s, i)
    ensures NothingSteppedOver(s', i + 1)
  {
    forall p | i + 1 <= p < |s'.history| - 2 && InStandby(s', s'.history[p]) && InStandby(s', s'.history[p + 1])
      ensures CountStandby(s', s'.history[i + 1..p]) >= |s'.history| - s'.config.maxHistory
    {
      ForwardPlace(s, s', i, p + 1);
    }
  }

  lemma ForwardPlace(s: State, s': State, i: nat, p: nat)
    requires Shifted(s, s', i) && NothingSteppedOver(s, i)
    requires i + 2 <= p < |s.history| - 2 && InStandby(s', s'.history[p - 1]) && InStandby(s', s'.history[p])
    ensures CountStandby(s', s'.history[i + 1..p - 1]) >= |s'.history| - s'.config.maxHistory
  {
    PlaceAfterRemoval(s, s', i, p);
    PlaceAfterRemoval(s, s', i, p + 1);
    CountAfterRemoval(s, s', i, p);
  }

  lemma ConditionBackward(s: State, s': State, i: nat)
    requires Shifted(s, s', i) && NothingSteppedOver(s', i + 1)
    ensures NothingSteppedOver(s, i)
  {
    forall p | i <= p < |s.history| - 2 && InStandby(s, s.history[p]) && InStandby(s, s.history[p + 1])
      ensures CountStandby(s, s.history[i..p]) >= |s.history| - s.config.maxHistory
    {
      assert p >= i + 2;
      PlaceAfterRemoval(s, s', i, p);
      PlaceAfterRemoval(s, s', i, p + 1);
      CountAfterRemoval(s, s', i, p);
    }
  }

  ghost predicate CleanBefore(s: State, i: nat) {
    forall k | 0 <= k < i && k < |s.history| :: !InStandby(s, s.history[k])
  }

  /** The spare slots that the loop will still visit all show the last element of history. */
  ghost predicate SpareShowsLast(s: State, n: nat) {
    && |s.history| <= n <= |s.history| + |s.spare|
    && (|s.history| < n ==> |s.history| > 0)
    && forall k | |s.history| <= k < n :: Seen(s, k) == s.history[|s.history| - 1]
  }

  lemma CleanMeansNone(s: State)
    requires HistoryOk(s) && CleanBefore(s, |s.history|)
    ensures NoStandby(s)
  {
    forall id
      ensures !InStandby(s, id)
    {
      if id in s.history {
        var k :| 0 <= k < |s.history| && s.history[k] == id;
        assert !InStandby(s, s.history[k]);
      } else {
        assert !Unfinished(s, id);
      }
    }
  }

  /** The standby pass leaves nobody in standby exactly when it steps over nobody. */
  lemma {:induction false} StandbyPassExactly(s: State, i: nat, n: nat)
    requires HistoryOk(s) && Tight(s) && SpareShowsLast(s, n) && CleanBefore(s, i) && i <= |s.history|
    ensures NoStandby(SweepStandby(s, i, n)) <==> NothingSteppedOver(s, i)
    decreases n - i
  {
    hide Tight, NothingSteppedOver, AbortPending, HistoryOk;
    if i == |s.history| {
      DonePass(s, n);
    } else if !InStandby(s, s.history[i]) {
      ConditionSkipsOne(s, i);
      StandbyPassExactly(s, i + 1, n);
    } else if |s.history| <= s.config.maxHistory {
      ShortPass(s, i, n);
    } else if i + 1 == |s.history| {
      LastOfLongPass(s, i, n);
    } else if !InStandby(s, s.history[i + 1]) {
      RemovalKeepsPass(s, i, n);
      ConditionAfterRemoval(s, SweepOne(s, s.history[i]), i);
      StandbyPassExactly(SweepOne(s, s.history[i]), i + 1, n);
    } else if i + 2 == |s.history| {
      LastTwoOfLongPass(s, i, n);
    } else {
      SteppedOver(s, i, n);
    }
  }

  lemma DonePass(s: State, n: nat)
    requires HistoryOk(s) && SpareShowsLast(s, n) && CleanBefore(s, |s.history|)
    ensures NoStandby(SweepStandby(s, |s.history|, n)) && NothingSteppedOver(s, |s.history|)
  {
    RestIdle(s, |s.history|, n);
    CleanMeansNone(s);
  }

  lemma RemovalKeepsPass(s: State, i: nat, n: nat)
    requires HistoryOk(s) && Tight(s) && SpareShowsLast(s, n) && CleanBefore(s, i)
    requires |s.history| > s.config.maxHistory && i + 1 < |s.history|
    requires InStandby(s, s.history[i]) && !InStandby(s, s.history[i + 1])
    ensures var s' := SweepOne(s, s.history[i]);
            HistoryOk(s') && Tight(s') && SpareShowsLast(s', n) && CleanBefore(s', i + 1) && Shifted(s, s', i)
  {
    LongSweep(s, i);
    var s' := SweepOne(s, s.history[i]);
    forall k | |s'.history| <= k < n
      ensures Seen(s', k) == s'.history[|s'.history| - 1]
    {
      if k > |s'.history| { assert Seen(s', k) == Seen(s, k); }
    }
  }

  lemma ShortPass(s: State, i: nat, n: nat)
    requires HistoryOk(s) && SpareShowsLast(s, n) && CleanBefore(s, i) && i < |s.history| <= s.config.maxHistory
    ensures NoStandby(SweepStandby(s, i, n)) && NothingSteppedOver(s, i)
    decreases n - i
  {
    assert NothingSteppedOver(s, i);
    var s' := SweepOne(s, s.history[i]);
    if InStandby(s, s.history[i]) { ShortSweep(s, s.history[i]); ShortKeeps(s, s.history[i]); }
    assert CleanBefore(s', i + 1);
    assert forall k | |s.history| <= k < n :: Seen(s', k) == Seen(s, k);
    if i + 1 < |s.history| {
      ShortPass(s', i + 1, n);
    } else {
      RestIdle(s', i + 1, n);
      CleanMeansNone(s');
    }
  }

  lemma LastOfLongPass(s: State, i: nat, n: nat)
    requires HistoryOk(s) && Tight(s) && SpareShowsLast(s, n) && CleanBefore(s, i)
    requires |s.history| > s.config.maxHistory && i + 1 == |s.history| && InStandby(s, s.history[i])
    ensures NoStandby(SweepStandby(s, i, n)) && NothingSteppedOver(s, i)
  {
    LongSweep(s, i);
    var s' := SweepOne(s, s.history[i]);
    assert forall k | i + 1 <= k < n :: Seen(s', k) == Seen(s, k);
    RestIdle(s', i + 1, n);
    assert CleanBefore(s', |s'.history|);
    CleanMeansNone(s');
  }

  lemma LastTwoOfLongPass(s: State, i: nat, n: nat)
    requires HistoryOk(s) && Tight(s) && SpareShowsLast(s, n) && CleanBefore(s, i)
    requires |s.history| > s.config.maxHistory && i + 2 == |s.history|
    requires InStandby(s, s.history[i]) && InStandby(s, s.history[i + 1])
    ensures NoStandby(SweepStandby(s, i, n)) && NothingSteppedOver(s, i)
  {
    LongSweep(s, i);
    var s1 := SweepOne(s, s.history[i]);
    var last := s.history[i + 1];
    assert Seen(s1, i + 1) == last && s1.history[i] == last && InStandby(s1, last);
    var s2 := SweepOne(s1, last);
    if |s1.history| <= s1.config.maxHistory {
      ShortSweep(s1, last);
      ShortKeeps(s1, last);
    } else {
      LongSweep(s1, i);
    }
    assert CleanBefore(s2, |s2.history|);
    CleanMeansNone(s2);
    RestIdle(s2, i + 2, n);
  }

  /** The job after a removed one is never seen again, unless it is the last. */
  lemma SteppedOver(s: State, i: nat, n: nat)
    requires HistoryOk(s) && Tight(s) && SpareShowsLast(s, n)
    requires |s.history| > s.config.maxHistory && i + 2 < |s.history|
    requires InStandby(s, s.history[i]) && InStandby(s, s.history[i + 1])
    ensures InStandby(SweepStandby(s, i, n), s.history[i + 1]) && !NothingSteppedOver(s, i)
  {
    LongSweep(s, i);
    var s', id := SweepOne(s, s.history[i]), s.history[i + 1];
    assert s.history[i..i] == [];
    forall k | i + 1 <= k < n
      ensures Seen(s', k) != id
    {
      if k < |s'.history| { assert Seen(s', k) == s.history[k + 1]; }
      else if k == |s'.history| { assert Seen(s', k) == s.history[|s.history| - 1]; }
      else { assert Seen(s', k) == Seen(s, k); }
    }
    Untouched(s', i + 1, n, id);
  }

  // ----- the whole sweep -----

  /** The history that the queue pass of an overlong manager leaves behind. */
  function Without(h: seq<Id>, ids: seq<Id>): seq<Id> {
    if h == [] then [] else (if h[0] in ids then [] else [h[0]]) + Without(h[1..], ids)
  }

  lemma {:induction false} WithoutNone(h: seq<Id>)
    ensures Without(h, []) == h
  {
    if h != [] { WithoutNone(h[1..]); }
  }

  lemma {:induction false} WithoutRemoved(h: seq<Id>, r: nat, ids: seq<Id>)
    requires NoDuplicates(h) && r < |h| && ids != [] && ids[0] == h[r]
    ensures Without(RemoveAt(h, r), ids[1..]) == Without(h, ids)
  {
    if r == 0 {
      assert RemoveAt(h, 0) == h[1..];
      WithoutTail(h[1..], ids);
    } else {
      assert RemoveAt(h, r)[1..] == RemoveAt(h[1..], r - 1);
      WithoutRemoved(h[1..], r - 1, ids);
      assert h[0] in ids <==> h[0] in ids[1..];
    }
  }

  lemma {:induction false} WithoutTail(h: seq<Id>, ids: seq<Id>)
    requires ids != [] && ids[0] !in h
    ensures Without(h, ids[1..]) == Without(h, ids)
  {
    if h != [] {
      assert h[0] in ids <==> h[0] in ids[1..];
      WithoutTail(h[1..], ids);
    }
  }

  /** The queue pass: each of its finishes removes just that job while history stays overlong. */
  lemma {:induction false} QueuePassHistory(s: State, ids: seq<Id>)
    requires HistoryOk(s) && Tight(s) && NoDuplicates(ids)
    requires forall id | id in ids :: Unfinished(s, id)
    requires |s.history| - |ids| >= s.config.maxHistory
    ensures AbortAll(s, ids).history == Without(s.history, ids)
    ensures AbortAll(s, ids).config == s.config
    decreases |ids|
  {
    if ids == [] {
      WithoutNone(s.history);
    } else {
      assert ids[0] in ids;
      var r :| 0 <= r < |s.history| && s.history[r] == ids[0];
      LongAbort(s, r);
      forall id | id in ids[1..]
        ensures Unfinished(AbortPending(s, ids[0]), id)
      {
        assert id in ids && id != ids[0];
      }
      QueuePassHistory(AbortPending(s, ids[0]), ids[1..]);
      WithoutRemoved(s.history, r, ids);
    }
  }

  /** Once within its limit, history stays within it. */
  lemma {:induction false} QueuePassFits(s: State, ids: seq<Id>)
    requires HistoryOk(s) && Tight(s) && NoDuplicates(ids)
    requires forall id | id in ids :: Unfinished(s, id)
    requires |s.history| - |ids| <= s.config.maxHistory
    ensures |AbortAll(s, ids).history| <= s.config.maxHistory && AbortAll(s, ids).config == s.config
    decreases |ids|
  {
    if |s.history| <= s.config.maxHistory {
      QueuePassShrinks(s, ids);
    } else {
      assert ids[0] in ids;
      var r :| 0 <= r < |s.history| && s.history[r] == ids[0];
      LongAbort(s, r);
      forall id | id in ids[1..]
        ensures Unfinished(AbortPending(s, ids[0]), id)
      {
        assert id in ids && id != ids[0];
      }
      QueuePassFits(AbortPending(s, ids[0]), ids[1..]);
    }
  }

  lemma {:induction false} QueuePassShrinks(s: State, ids: seq<Id>)
    requires forall id | id in ids :: id in s.jobs
    requires |s.history| <= s.config.maxHistory
    ensures |AbortAll(s, ids).history| <= s.config.maxHistory && AbortAll(s, ids).config == s.config
    decreases |ids|
  {
    if ids != [] { QueuePassShrinks(AbortPending(s, ids[0]), ids[1..]); }
  }

  /**
   What a caller can check before shutdown: the unfinished jobs that are not
   queued fit into history, or two neighbours among them that wait in standby
   always have enough standby jobs before them, or stand at the very end.
   */
  ghost predicate SweepReachesAll(s: State) {
    || |s.history| - |s.queue| <= s.config.maxHistory
    || PairsCovered(s, Without(s.history, s.queue))
  }

  ghost predicate PairsCovered(s: State, kept: seq<Id>) {
    forall p | 0 <= p < |kept| - 2 && InStandby(s, kept[p]) && InStandby(s, kept[p + 1]) ::
      CountStandby(s, kept[..p]) >= |kept| - s.config.maxHistory
  }

  /**
   Shutdown finishes every queued job.  It finishes every standby job as well
   exactly when its pass over history, shifted under its feet, reaches them all.
   */
  lemma SweepExactly(s: State)
    requires Inv(s, {})
    ensures forall id | id in s.queue :: Sweep(s).jobs[id].status == Finished
    ensures NoStandby(Sweep(s)) <==> SweepReachesAll(s)
  {
    forall id | id in s.queue
      ensures Sweep(s).jobs[id].status == Finished
    {
      SweepEvolves(s, id);
    }
    QueuePassKeeps(s);
    var s0 := s.(queue := []);
    var s1 := AbortAll(s0, s.queue);
    StandbyPassExactly(s1, 0, |s1.history|);
    ConditionAfterQueuePass(s);
  }

  lemma ConditionAfterQueuePass(s: State)
    requires Inv(s, {})
    ensures NothingSteppedOver(AbortAll(s.(queue := []), s.queue), 0) <==> SweepReachesAll(s)
  {
    var s0 := s.(queue := []);
    QueueFacts(s, s0);
    if |s.history| - |s.queue| <= s.config.maxHistory {
      FittingPass(s0, s.queue);
    } else {
      QueuePassHistory(s0, s.queue);
      SameStandby(s, s0);
      ConditionCarries(s, AbortAll(s0, s.queue));
    }
  }

  lemma FittingPass(s: State, ids: seq<Id>)
    requires HistoryOk(s) && Tight(s) && NoDuplicates(ids)
    requires forall id | id in ids :: Unfinished(s, id)
    requires |s.history| - |ids| <= s.config.maxHistory
    ensures NothingSteppedOver(AbortAll(s, ids), 0)
  {
    QueuePassFits(s, ids);
  }

  lemma ConditionCarries(s: State, s1: State)
    requires s1.config == s.config && forall id :: InStandby(s1, id) <==> InStandby(s, id)
    ensures NothingSteppedOver(s1, 0) <==> PairsCovered(s, s1.history)
  {
    forall p | 0 <= p <= |s1.history|
      ensures CountStandby(s1, s1.history[0..p]) == CountStandby(s, s1.history[..p])
    {
      assert s1.history[0..p] == s1.history[..p];
      CountFrame(s, s1, s1.history[..p]);
    }
  }

  lemma QueueFacts(s: State, s0: State)
    requires Inv(s, {}) && s0 == s.(queue := [])
    ensures HistoryOk(s0) && Tight(s0) && NoDuplicates(s.queue)
    ensures forall id | id in s.queue :: Unfinished(s0, id) && id in s0.jobs && s0.jobs[id].status == Queued
  {
    assert forall id | Unfinished(s0, id) :: Unfinished(s, id);
  }

  /** The queue pass neither adds nor takes a standby job. */
  lemma SameStandby(s: State, s0: State)
    requires QueuedOnly(s) && s0 == s.(queue := [])
    ensures forall id :: InStandby(AbortAll(s0, s.queue), id) <==> InStandby(s, id)
  {
    forall id
      ensures InStandby(AbortAll(s0, s.queue), id) <==> InStandby(s, id)
    {
      if id in s.jobs { AbortAllEvolves(s0, s.queue, id); }
    }
  }

  /** A history within its limit is always swept completely. */
  lemma ShortHistoryIsSwept(s: State)
    requires Inv(s, {}) && |s.history| <= s.config.maxHistory
    ensures NoStandby(Sweep(s))
    ensures forall id | id in s.jobs && s.jobs[id].status in {Queued, Standby} :: Sweep(s).jobs[id].status == Finished
  {
    SweepExactly(s);
    forall id | id in s.jobs && s.jobs[id].status in {Queued, Standby}
      ensures Sweep(s).jobs[id].status == Finished
    {
      SweepEvolves(s, id);
      SweepStartsNothing(s, id);
      SweepQueuesNothing(s, id);
      assert !InStandby(Sweep(s), id);
    }
  }

  lemma SweepQueuesNothing(s: State, id: Id)
    requires Inv(s, {}) && id in s.jobs
    ensures Sweep(s).jobs[id].status != Queued
  {
    SweepKeeps(s);
    AbortAllQueue(s.(queue := []), s.queue);
  }

  lemma AbortAllQueue(s: State, ids: seq<Id>)
    requires forall id | id in ids :: id in s.jobs
    ensures var s1 := AbortAll(s, ids); SweepStandby(s1, 0, |s1.history|).queue == s.queue
  {
    var s1 := AbortAll(s, ids);
    SweepStandbyQuiet(s1, 0, |s1.history|);
  }

  lemma QueuePassKeeps(s: State)
    requires Inv(s, {})
    ensures var s1 := AbortAll(s.(queue := []), s.queue); HistoryOk(s1) && Tight(s1)
  {
    var s0 := s.(queue := []);
    LivesFrame(s, s0);
    ExclusiveFrame(s, s0);
    assert Inv(s0, KeySetOf(s.queue));
    AbortAllKeeps(s0, s.queue, KeySetOf(s.queue));
  }
}
