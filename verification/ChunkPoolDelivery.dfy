/**
 What becomes of a message over a run: a Write hands it to every subscriber that was
 listed when it began, unless it finds the channel full twice, and a message that was
 handed over is only lost to a writer that found the channel full, or to the drain of a
 subscriber that is no longer listed.
 */
module ChunkPoolDelivery {
  import opened ChunkPool
  import opened ChunkPoolTheorems
  import opened ChunkPoolOrder

  // ----- runs with all their states -----

  ghost predicate Moves(s: State, step: Step, t: State) {
    Enabled(s, step) && t == Apply(s, step)
  }

  /** states are those of a run from the beginning, one more than there are steps. */
  ghost predicate IsTrace(states: seq<State>, steps: seq<Step>) {
    && |states| == |steps| + 1 && IsInit(states[0])
    && forall k | 0 <= k < |steps| :: Moves(states[k], steps[k], states[k + 1])
  }

  /** No channel holds more than it can. */
  predicate Bounded(s: State) {
    forall i | i in s.subs :: |s.subs[i].queue| <= CAPACITY
  }

  lemma StepBounded(s: State, step: Step)
    requires Bounded(s) && Enabled(s, step)
    ensures Bounded(Apply(s, step))
  {
    if IsWriters(step) { WriterBounded(s, step); } else { OthersBounded(s, step); }
  }

  lemma WriterBounded(s: State, step: Step)
    requires Bounded(s) && Enabled(s, step) && IsWriters(step)
    ensures Bounded(Apply(s, step))
  {
  }

  lemma OthersBounded(s: State, step: Step)
    requires Bounded(s) && Enabled(s, step) && !IsWriters(step)
    ensures Bounded(Apply(s, step))
  {
    hide Without;
  }

  lemma {:induction false} TraceInv(states: seq<State>, steps: seq<Step>, n: nat)
    requires IsTrace(states, steps) && n < |states|
    ensures Inv(states[n]) && Bounded(states[n])
    decreases n
  {
    hide Inv, Bounded, Enabled, Apply;
    if n == 0 {
      InitInv(states[0]);
      InitBounded(states[0]);
    } else {
      TraceInv(states, steps, n - 1);
      assert Moves(states[n - 1], steps[n - 1], states[n]);
      StepKeepsInv(states[n - 1], steps[n - 1]);
      StepBounded(states[n - 1], steps[n - 1]);
    }
  }

  lemma InitBounded(s: State)
    requires IsInit(s)
    ensures Bounded(s)
  {
  }

  // ----- what one step does to a line -----

  /** The subscriber that the writer turns to. */
  predicate Aims(s: State, v: nat, i: nat) {
    v in s.writers && Rest(s.writers[v]) != [] && Rest(s.writers[v])[0] == i
  }

  /** The step is one that the writer takes. */
  predicate IsBy(step: Step, v: nat) {
    match step
    case Get(w, _, _) => w == v
    case Fill(w) => w == v
    case StoreRefs(w) => w == v
    case TrySend(w) => w == v
    case TryDrop(w) => w == v
    case ReleaseDropped(w) => w == v
    case TryAgain(w) => w == v
    case ReleaseRefused(w) => w == v
    case Finish(w) => w == v
    case _ => false
  }

  predicate IsWriters(step: Step) {
    match step
    case Get(_, _, _) => true
    case Fill(_) => true
    case StoreRefs(_) => true
    case TrySend(_) => true
    case TryDrop(_) => true
    case ReleaseDropped(_) => true
    case TryAgain(_) => true
    case ReleaseRefused(_) => true
    case Finish(_) => true
    case _ => false
  }

  /** A try to send that meets room in the channel. */
  predicate Gives(s: State, step: Step, i: nat) {
    && (step.TrySend? || step.TryAgain?) && Aims(s, step.writer, i)
    && i in s.subs && |s.subs[i].queue| < CAPACITY
  }

  /** The step takes the oldest chunk out of the channel without giving it to the subscriber. */
  predicate Takes(s: State, step: Step, i: nat) {
    && i in s.subs && s.subs[i].queue != []
    && (step == DrainTake(i) || (step.TryDrop? && Aims(s, step.writer, i)))
  }

  ghost predicate Appended(s: State, t: State, i: nat, m: nat) {
    i in s.subs && i in t.subs && Line(t, t.subs[i]) == Line(s, s.subs[i]) + [m]
  }

  /** How much of a line the subscriber's writer has been given. */
  function Begun(s: State, i: nat): nat
    requires i in s.subs
  {
    |s.subs[i].got| + if s.subs[i].worker.Writing? then 1 else 0
  }

  lemma UntouchedLine(s: State, step: Step, i: nat)
    requires Inv(s) && Enabled(s, step) && i in s.subs && i in Apply(s, step).subs && Apply(s, step).subs[i] == s.subs[i]
    ensures Line(Apply(s, step), s.subs[i]) == Line(s, s.subs[i])
  {
    hide Inv, Line, Without;
    if step.Get? {
      Unqueued(s, step.chunk, i);
      SameLine(s, Apply(s, step), s.subs[i]);
    } else {
      KeepsMessages(s, step);
      LineKept(s, Apply(s, step), s.subs[i]);
    }
  }

  lemma KeepsMessages(s: State, step: Step)
    requires Enabled(s, step) && !step.Get?
    ensures SameMessages(s, Apply(s, step))
  {
    hide Without;
  }

  lemma ReceiveLine(s: State, i: nat)
    requires Enabled(s, Receive(i))
    ensures var t := Apply(s, Receive(i)); Line(t, t.subs[i]) == Line(s, s.subs[i])
  {
    var t := Apply(s, Receive(i));
    var sub := s.subs[i];
    assert Numbers(s, sub.queue) == [Message(s, sub.queue[0])] + Numbers(s, sub.queue[1..]);
    assert Numbers(t, sub.queue[1..]) == Numbers(s, sub.queue[1..]);
  }

  lemma DeliverLine(s: State, i: nat, ok: bool)
    requires Enabled(s, Deliver(i, ok))
    ensures var t := Apply(s, Deliver(i, ok)); Line(t, t.subs[i]) == Line(s, s.subs[i])
  {
    var t := Apply(s, Deliver(i, ok));
    var sub := s.subs[i];
    assert Numbers(t, sub.queue) == Numbers(s, sub.queue);
    assert GotNumbers(t.subs[i].got) == GotNumbers(sub.got) + [Message(s, sub.worker.chunk)];
  }

  /** The subscriber's channel and deliveries stay, and it is not writing. */
  lemma QuietLine(s: State, t: State, i: nat)
    requires i in s.subs && i in t.subs && SameMessages(s, t)
    requires t.subs[i].queue == s.subs[i].queue && t.subs[i].got == s.subs[i].got
    requires t.subs[i].worker == s.subs[i].worker || (!s.subs[i].worker.Writing? && !t.subs[i].worker.Writing?)
    ensures Line(t, t.subs[i]) == Line(s, s.subs[i])
  {
    assert Numbers(t, t.subs[i].queue) == Numbers(s, s.subs[i].queue);
  }

  lemma GivenLine(s: State, step: Step, i: nat)
    requires Enabled(s, step) && Gives(s, step, i)
    ensures Appended(s, Apply(s, step), i, Message(s, s.writers[step.writer].chunk))
  {
    hide Line;
    var c := s.writers[step.writer].chunk;
    PushedLine(s, s.subs[i], c);
    KeepsMessages(s, step);
    LineKept(s, Apply(s, step), s.subs[i].(queue := s.subs[i].queue + [c]));
  }

  lemma TakenLine(s: State, step: Step, i: nat)
    requires Enabled(s, step) && Takes(s, step, i)
    ensures i in Apply(s, step).subs
    ensures var b, line := Begun(s, i), Line(s, s.subs[i]);
            && b < |line| && line[b] == Message(s, s.subs[i].queue[0])
            && Line(Apply(s, step), Apply(s, step).subs[i]) == line[..b] + line[b + 1..]
  {
    KeepsMessages(s, step);
    TakesFirst(s, step, i);
    hide Apply, Takes;
    ShorterLine(s, Apply(s, step), i);
  }

  lemma TakesFirst(s: State, step: Step, i: nat)
    requires Enabled(s, step) && Takes(s, step, i)
    ensures var t := Apply(s, step);
            && i in t.subs && s.subs[i].queue != [] && t.subs[i].queue == s.subs[i].queue[1..] && t.subs[i].got == s.subs[i].got
            && (t.subs[i].worker == s.subs[i].worker || (!s.subs[i].worker.Writing? && !t.subs[i].worker.Writing?))
  {
  }

  lemma ShorterLine(s: State, t: State, i: nat)
    requires i in s.subs && i in t.subs && SameMessages(s, t) && s.subs[i].queue != []
    requires t.subs[i].queue == s.subs[i].queue[1..] && t.subs[i].got == s.subs[i].got
    requires t.subs[i].worker == s.subs[i].worker || (!s.subs[i].worker.Writing? && !t.subs[i].worker.Writing?)
    ensures var b, line := Begun(s, i), Line(s, s.subs[i]);
            && b < |line| && line[b] == Message(s, s.subs[i].queue[0])
            && Line(t, t.subs[i]) == line[..b] + line[b + 1..]
  {
    var sub := s.subs[i];
    assert Numbers(s, sub.queue) == [Message(s, sub.queue[0])] + Numbers(s, sub.queue[1..]);
    assert Numbers(t, sub.queue[1..]) == Numbers(s, sub.queue[1..]);
    hide SameMessages, Message, Numbers;
    var front, rest := GotNumbers(sub.got) + (if sub.worker.Writing? then [Message(s, sub.worker.chunk)] else []), Numbers(s, sub.queue[1..]);
    assert |front| == Begun(s, i);
    hide GotNumbers;
    WithoutMiddle(front, Message(s, sub.queue[0]), rest, Line(s, sub));
  }

  lemma WithoutMiddle(front: seq<nat>, x: nat, rest: seq<nat>, line: seq<nat>)
    requires line == front + ([x] + rest)
    ensures |front| < |line| && line[|front|] == x && line[..|front|] + line[|front| + 1..] == front + rest
  {
  }

  predicate IsWorkers(step: Step, i: nat) {
    match step
    case ReleaseWritten(j) => i == j
    case OnError(j) => i == j
    case EndOfChannel(j) => i == j
    case DrainRelease(j) => i == j
    case DrainEnd(j) => i == j
    case Detach(j) => i == j
    case CloseChannel(j) => i == j
    case _ => false
  }

  lemma QuietStep(s: State, step: Step, i: nat)
    requires Enabled(s, step) && i in s.subs && IsWorkers(step, i)
    ensures i in Apply(s, step).subs && Line(Apply(s, step), Apply(s, step).subs[i]) == Line(s, s.subs[i])
  {
    hide Line, Without;
    KeepsMessages(s, step);
    QuietLine(s, Apply(s, step), i);
  }

  lemma OtherSub(s: State, step: Step, i: nat)
    requires Enabled(s, step) && i in s.subs && !IsWorkers(step, i) && !Gives(s, step, i) && !Takes(s, step, i)
    requires step != Receive(i) && !(step.Deliver? && step.sub == i)
    ensures i in Apply(s, step).subs && Apply(s, step).subs[i] == s.subs[i]
  {
    if IsWriters(step) { WritersLeave(s, step, i); } else { OthersLeave(s, step, i); }
  }

  lemma WritersLeave(s: State, step: Step, i: nat)
    requires Enabled(s, step) && i in s.subs && IsWriters(step) && !Gives(s, step, i) && !Takes(s, step, i)
    ensures i in Apply(s, step).subs && Apply(s, step).subs[i] == s.subs[i]
  {
  }

  lemma OthersLeave(s: State, step: Step, i: nat)
    requires Enabled(s, step) && i in s.subs && !IsWriters(step) && !IsWorkers(step, i)
    requires step != DrainTake(i) && step != Receive(i) && !(step.Deliver? && step.sub == i)
    ensures i in Apply(s, step).subs && Apply(s, step).subs[i] == s.subs[i]
  {
    hide Without;
  }

  /** Steps that neither give nor take leave the line as it is. */
  lemma SameLineStep(s: State, step: Step, i: nat)
    requires Inv(s) && Enabled(s, step) && i in s.subs && !Gives(s, step, i) && !Takes(s, step, i)
    ensures i in Apply(s, step).subs && Line(Apply(s, step), Apply(s, step).subs[i]) == Line(s, s.subs[i])
  {
    hide Inv, Line, Without, Gives, Takes, Apply;
    if IsWorkers(step, i) {
      QuietStep(s, step, i);
    } else if step == Receive(i) {
      SubStays(s, step, i);
      ReceiveLine(s, i);
    } else if step.Deliver? && step.sub == i {
      SubStays(s, step, i);
      DeliverLine(s, i, step.ok);
    } else {
      OtherSub(s, step, i);
      UntouchedLine(s, step, i);
    }
  }

  lemma SubStays(s: State, step: Step, i: nat)
    requires Enabled(s, step) && i in s.subs
    ensures i in Apply(s, step).subs
  {
    if IsWriters(step) { WritersKeepSubs(s, step); } else { OthersKeepSubs(s, step); }
  }

  lemma WritersKeepSubs(s: State, step: Step)
    requires Enabled(s, step) && IsWriters(step)
    ensures Apply(s, step).subs.Keys == s.subs.Keys
  {
  }

  lemma OthersKeepSubs(s: State, step: Step)
    requires Enabled(s, step) && !IsWriters(step)
    ensures s.subs.Keys <= Apply(s, step).subs.Keys
  {
    hide Without;
  }

  // ----- every Write reaches every subscriber, or finds its channel full twice -----

  /** The try that the writer makes at this point meets a full channel. */
  ghost predicate FindsFull(states: seq<State>, steps: seq<Step>, k: nat, v: nat, i: nat)
    requires |states| == |steps| + 1 && k < |steps|
  {
    && (steps[k] == TrySend(v) || steps[k] == TryAgain(v))
    && Aims(states[k], v, i) && i in states[k].subs && |states[k].subs[i].queue| == CAPACITY
  }

  /** Both tries for the subscriber meet a full channel. */
  ghost predicate TriesInVain(states: seq<State>, steps: seq<Step>, j: nat, k: nat, v: nat, i: nat)
    requires |states| == |steps| + 1 && j < |steps| && k < |steps|
  {
    steps[j] == TrySend(v) && steps[k] == TryAgain(v) && FindsFull(states, steps, j, v, i) && FindsFull(states, steps, k, v, i)
  }

  ghost predicate HandedAt(states: seq<State>, k: nat, i: nat, m: nat)
    requires k + 1 < |states|
  {
    Appended(states[k], states[k + 1], i, m)
  }

  /** Between g and n the message has been put at the end of the subscriber's line, or was refused. */
  ghost predicate Served(states: seq<State>, steps: seq<Step>, g: nat, n: nat, v: nat, i: nat, m: nat)
    requires |states| == |steps| + 1 && n <= |steps|
  {
    || (exists k | g < k < n :: HandedAt(states, k, i, m))
    || (exists j, k | g < j < k < n :: TriesInVain(states, steps, j, k, v, i))
  }

  ghost predicate TriedOnce(states: seq<State>, steps: seq<Step>, g: nat, n: nat, v: nat, i: nat)
    requires |states| == |steps| + 1 && n <= |steps|
  {
    exists j | g < j < n :: steps[j] == TrySend(v) && FindsFull(states, steps, j, v, i)
  }

  /** The writer has its chunk, with the message, as long as it has something to do with it. */
  predicate HasChunk(s: State, v: nat, c: nat, m: nat) {
    && v in s.writers && !s.writers[v].Resting? && s.writers[v].chunk == c
    && (s.writers[v].Filling? || s.writers[v].Filled? || Rest(s.writers[v]) != [] ==> Message(s, c) == m)
  }

  /** What holds n - g steps after a Get, while the Write goes on. */
  ghost predicate WriteOk(states: seq<State>, steps: seq<Step>, g: nat, n: nat, v: nat, c: nat, m: nat)
    requires |states| == |steps| + 1 && g <= |steps| && n <= |steps|
  {
    var s := states[n];
    && HasChunk(s, v, c, m) && s.list == states[g].list
    && (forall i | i in s.list :: s.writers[v].Filling? || s.writers[v].Filled? || i in Rest(s.writers[v]) || Served(states, steps, g, n, v, i, m))
    && (forall i | Aims(s, v, i) && !s.writers[v].Sending? :: TriedOnce(states, steps, g, n, v, i))
    && (forall i | Aims(s, v, i) && s.writers[v].Refused? :: Served(states, steps, g, n, v, i, m))
  }

  lemma ServedStays(states: seq<State>, steps: seq<Step>, g: nat, n: nat, v: nat, i: nat, m: nat)
    requires |states| == |steps| + 1 && n < |steps| && Served(states, steps, g, n, v, i, m)
    ensures Served(states, steps, g, n + 1, v, i, m)
  {
    hide HandedAt, TriesInVain;
  }

  lemma TriedStays(states: seq<State>, steps: seq<Step>, g: nat, n: nat, v: nat, i: nat)
    requires |states| == |steps| + 1 && n < |steps| && TriedOnce(states, steps, g, n, v, i)
    ensures TriedOnce(states, steps, g, n + 1, v, i)
  {
    hide FindsFull;
  }

  /** A chunk that a writer owns or has still to hand on is not taken out of the pool by anyone. */
  lemma InUse(s: State, v: nat)
    requires Inv(s) && v in s.writers && (s.writers[v].Filling? || s.writers[v].Filled? || Rest(s.writers[v]) != [])
    ensures s.writers[v].chunk in s.chunks && s.writers[v].chunk !in s.pool
  {
    hide DataOk, ListOk, References;
    var c := s.writers[v].chunk;
    if Rest(s.writers[v]) != [] {
      assert Exact(s, c);
      WriterBound(s, v, c);
    } else {
      assert Owns(s.writers[v], c);
    }
  }

  /** While a writer is active, steps of others change neither it nor the list, nor the message of its chunk. */
  lemma OthersStep(s: State, step: Step, v: nat, c: nat, m: nat)
    requires Inv(s) && Enabled(s, step) && !IsBy(step, v) && HasChunk(s, v, c, m)
    ensures var t := Apply(s, step);
            HasChunk(t, v, c, m) && t.writers[v] == s.writers[v] && t.list == s.list
  {
    hide Inv, Without;
    if s.writers[v].Filling? || s.writers[v].Filled? || Rest(s.writers[v]) != [] { InUse(s, v); }
  }

  lemma OthersKeepWrite(states: seq<State>, steps: seq<Step>, g: nat, n: nat, v: nat, c: nat, m: nat)
    requires |states| == |steps| + 1 && g <= n < |steps| && Inv(states[n]) && Moves(states[n], steps[n], states[n + 1])
    requires WriteOk(states, steps, g, n, v, c, m) && !IsBy(steps[n], v)
    ensures WriteOk(states, steps, g, n + 1, v, c, m)
  {
    hide Inv, Served, TriedOnce, Apply, Enabled, HasChunk, IsBy;
    OthersStep(states[n], steps[n], v, c, m);
    var s, t := states[n], states[n + 1];
    HasWriter(s, v, c, m);
    HasWriter(t, v, c, m);
    forall i | i in t.list && !(t.writers[v].Filling? || t.writers[v].Filled? || i in Rest(t.writers[v]))
      ensures Served(states, steps, g, n + 1, v, i, m)
    {
      ServedStays(states, steps, g, n, v, i, m);
    }
    forall i | Aims(t, v, i) && !t.writers[v].Sending?
      ensures TriedOnce(states, steps, g, n + 1, v, i)
      ensures t.writers[v].Refused? ==> Served(states, steps, g, n + 1, v, i, m)
    {
      assert Aims(s, v, i);
      TriedStays(states, steps, g, n, v, i);
      if t.writers[v].Refused? { ServedStays(states, steps, g, n, v, i, m); }
    }
  }

  lemma HasWriter(s: State, v: nat, c: nat, m: nat)
    requires HasChunk(s, v, c, m)
    ensures v in s.writers && !s.writers[v].Resting?
  {
  }

  /** What one step of the writer itself does. */
  lemma OwnStep(s: State, step: Step, v: nat, c: nat, m: nat)
    requires Inv(s) && Enabled(s, step) && IsBy(step, v) && !step.Get? && !step.Finish? && HasChunk(s, v, c, m)
    ensures var t := Apply(s, step);
            && HasChunk(t, v, c, m) && t.list == s.list
            && (t.writers[v].Filling? || t.writers[v].Filled? ==> s.writers[v].Filling? || s.writers[v].Filled?)
            && (s.writers[v].Filling? || s.writers[v].Filled? ==>
                  t.writers[v].Filled? || (t.writers[v].Sending? && Rest(t.writers[v]) == s.list))
            && (!(s.writers[v].Filling? || s.writers[v].Filled?) ==>
                  Rest(s.writers[v]) == Rest(t.writers[v]) || (Rest(s.writers[v]) != [] && Rest(t.writers[v]) == Rest(s.writers[v])[1..]))
  {
    hide Inv;
    if step.StoreRefs? || step.Fill? { InUse(s, v); }
  }

  /** When the writer goes on to the next subscriber, it has handed over the message, or was refused. */
  lemma GoesOn(s: State, step: Step, v: nat, c: nat, m: nat, i: nat)
    requires Inv(s) && Bounded(s) && Enabled(s, step) && IsBy(step, v) && !step.Get? && HasChunk(s, v, c, m) && Aims(s, v, i)
    requires var t := Apply(s, step); v in t.writers && Rest(t.writers[v]) == Rest(s.writers[v])[1..]
    ensures Appended(s, Apply(s, step), i, m) || s.writers[v].Refused?
  {
    hide DataOk, RefsExact, PlacesOk, Line;
    RestOf(s, v);
    SendTarget(s, v);
    if Gives(s, step, i) { GivenLine(s, step, i); }
  }

  /** Where a writer stands after a step that does not go on to the next subscriber. */
  lemma StaysAt(s: State, step: Step, v: nat, i: nat)
    requires Inv(s) && Bounded(s) && Enabled(s, step) && IsBy(step, v) && !step.Get? && Aims(Apply(s, step), v, i)
    requires !Apply(s, step).writers[v].Sending?
    ensures Aims(s, v, i) && i in s.subs
    ensures s.writers[v].Sending? ==> step == TrySend(v) && |s.subs[i].queue| == CAPACITY
    ensures Apply(s, step).writers[v].Refused? ==> step == TryAgain(v) && |s.subs[i].queue| == CAPACITY && !s.writers[v].Sending?
  {
    hide DataOk, RefsExact, PlacesOk;
    RestOf(s, v);
    if Rest(s.writers[v]) != [] { SendTarget(s, v); }
  }

  lemma NowServed(states: seq<State>, steps: seq<Step>, g: nat, n: nat, v: nat, i: nat, m: nat)
    requires |states| == |steps| + 1 && g < n < |steps| && HandedAt(states, n, i, m)
    ensures Served(states, steps, g, n + 1, v, i, m)
  {
    hide HandedAt, TriesInVain;
  }

  lemma NowTried(states: seq<State>, steps: seq<Step>, g: nat, n: nat, v: nat, i: nat)
    requires |states| == |steps| + 1 && g < n < |steps| && steps[n] == TrySend(v) && FindsFull(states, steps, n, v, i)
    ensures TriedOnce(states, steps, g, n + 1, v, i)
  {
    hide FindsFull;
  }

  lemma NowRefused(states: seq<State>, steps: seq<Step>, g: nat, n: nat, v: nat, i: nat, m: nat)
    requires |states| == |steps| + 1 && g < n < |steps| && steps[n] == TryAgain(v) && FindsFull(states, steps, n, v, i)
    requires TriedOnce(states, steps, g, n, v, i)
    ensures Served(states, steps, g, n + 1, v, i, m)
  {
    hide FindsFull, HandedAt;
    var j :| g < j < n && steps[j] == TrySend(v) && FindsFull(states, steps, j, v, i);
    assert TriesInVain(states, steps, j, n, v, i);
  }

  /** The subscribers behind which the writer is have been served. */
  lemma OwnServes(states: seq<State>, steps: seq<Step>, g: nat, n: nat, v: nat, c: nat, m: nat, i: nat)
    requires |states| == |steps| + 1 && g < n < |steps| && Inv(states[n]) && Bounded(states[n]) && Moves(states[n], steps[n], states[n + 1])
    requires WriteOk(states, steps, g, n, v, c, m) && IsBy(steps[n], v) && !steps[n].Get? && !steps[n].Finish?
    requires HasChunk(states[n + 1], v, c, m) && i in states[n + 1].list
    ensures var t := states[n + 1];
            t.writers[v].Filling? || t.writers[v].Filled? || i in Rest(t.writers[v]) || Served(states, steps, g, n + 1, v, i, m)
  {
    hide Inv, Bounded, Served, TriedOnce, Apply, Enabled, HandedAt, IsBy, HasChunk;
    OwnStep(states[n], steps[n], v, c, m);
    var s, t := states[n], states[n + 1];
    HasWriter(s, v, c, m);
    HasWriter(t, v, c, m);
    if !(t.writers[v].Filling? || t.writers[v].Filled? || i in Rest(t.writers[v])) {
      if i in Rest(s.writers[v]) {
        assert Aims(s, v, i);
        GoesOn(s, steps[n], v, c, m, i);
        if Appended(s, t, i, m) {
          IsHanded(states, n, i, m);
          NowServed(states, steps, g, n, v, i, m);
        } else {
          ServedStays(states, steps, g, n, v, i, m);
        }
      } else {
        ServedStays(states, steps, g, n, v, i, m);
      }
    }
  }

  lemma IsHanded(states: seq<State>, n: nat, i: nat, m: nat)
    requires n + 1 < |states| && Appended(states[n], states[n + 1], i, m)
    ensures HandedAt(states, n, i, m)
  {
  }

  lemma OwnTries(states: seq<State>, steps: seq<Step>, g: nat, n: nat, v: nat, c: nat, m: nat, i: nat)
    requires |states| == |steps| + 1 && g < n < |steps| && Inv(states[n]) && Bounded(states[n]) && Moves(states[n], steps[n], states[n + 1])
    requires WriteOk(states, steps, g, n, v, c, m) && IsBy(steps[n], v) && !steps[n].Get? && !steps[n].Finish?
    requires Aims(states[n + 1], v, i) && !states[n + 1].writers[v].Sending?
    ensures TriedOnce(states, steps, g, n + 1, v, i)
    ensures states[n + 1].writers[v].Refused? ==> Served(states, steps, g, n + 1, v, i, m)
  {
    hide Inv, Bounded, Served, TriedOnce, Apply, Enabled, HandedAt, IsBy, HasChunk;
    StaysAt(states[n], steps[n], v, i);
    if states[n].writers[v].Sending? {
      assert FindsFull(states, steps, n, v, i);
      NowTried(states, steps, g, n, v, i);
    } else {
      TriedStays(states, steps, g, n, v, i);
      if states[n + 1].writers[v].Refused? {
        assert FindsFull(states, steps, n, v, i);
        NowRefused(states, steps, g, n, v, i, m);
      }
    }
  }

  lemma OwnKeepsWrite(states: seq<State>, steps: seq<Step>, g: nat, n: nat, v: nat, c: nat, m: nat)
    requires |states| == |steps| + 1 && g < n < |steps| && Inv(states[n]) && Bounded(states[n]) && Moves(states[n], steps[n], states[n + 1])
    requires WriteOk(states, steps, g, n, v, c, m) && IsBy(steps[n], v) && !steps[n].Get? && !steps[n].Finish?
    ensures WriteOk(states, steps, g, n + 1, v, c, m)
  {
    OwnStep(states[n], steps[n], v, c, m);
    hide Inv, Bounded, Served, TriedOnce, Apply, Enabled, HandedAt, IsBy, HasChunk;
    var t := states[n + 1];
    HasWriter(t, v, c, m);
    forall i | i in t.list
      ensures t.writers[v].Filling? || t.writers[v].Filled? || i in Rest(t.writers[v]) || Served(states, steps, g, n + 1, v, i, m)
    {
      OwnServes(states, steps, g, n, v, c, m, i);
    }
    forall i | Aims(t, v, i) && !t.writers[v].Sending?
      ensures TriedOnce(states, steps, g, n + 1, v, i)
      ensures t.writers[v].Refused? ==> Served(states, steps, g, n + 1, v, i, m)
    {
      OwnTries(states, steps, g, n, v, c, m, i);
    }
  }

  /** The Get at step g and no Finish before step n: the Write of that Get goes on. */
  predicate Writes(steps: seq<Step>, g: nat, n: nat, v: nat, p: Bytes, c: nat) {
    g < n <= |steps| && steps[g] == Get(v, p, c) && forall k | g < k < n :: steps[k] != Finish(v)
  }

  lemma WriteBegins(s: State, v: nat, p: Bytes, c: nat)
    requires Enabled(s, Get(v, p, c))
    ensures var t := Apply(s, Get(v, p, c));
            HasChunk(t, v, c, |s.sent|) && t.writers[v].Filling? && t.list == s.list && t.sent == s.sent + [p]
  {
  }

  lemma NotAgain(s: State, step: Step, v: nat, c: nat, m: nat)
    requires Enabled(s, step) && IsBy(step, v) && HasChunk(s, v, c, m)
    ensures !step.Get?
  {
  }

  lemma {:induction false} WriteGoesOn(states: seq<State>, steps: seq<Step>, g: nat, n: nat, v: nat, p: Bytes, c: nat)
    requires IsTrace(states, steps) && Writes(steps, g, n, v, p, c)
    ensures WriteOk(states, steps, g, n, v, c, |states[g].sent|)
    decreases n
  {
    hide Inv, Bounded, Served, TriedOnce, Apply, Enabled, HandedAt, IsBy, HasChunk;
    var m := |states[g].sent|;
    assert Moves(states[n - 1], steps[n - 1], states[n]);
    if n == g + 1 {
      WriteBegins(states[g], v, p, c);
    } else {
      WriteGoesOn(states, steps, g, n - 1, v, p, c);
      TraceInv(states, steps, n - 1);
      if IsBy(steps[n - 1], v) {
        NotAgain(states[n - 1], steps[n - 1], v, c, m);
        NotFinished(steps, g, n, v, p, c);
        OwnKeepsWrite(states, steps, g, n - 1, v, c, m);
      } else {
        OthersKeepWrite(states, steps, g, n - 1, v, c, m);
      }
    }
  }

  lemma NotFinished(steps: seq<Step>, g: nat, n: nat, v: nat, p: Bytes, c: nat)
    requires Writes(steps, g, n, v, p, c) && n > g + 1 && IsBy(steps[n - 1], v)
    ensures !steps[n - 1].Finish?
  {
    assert steps[n - 1] != Finish(v);
  }

  lemma {:induction false} SentStays(states: seq<State>, steps: seq<Step>, g: nat, n: nat)
    requires IsTrace(states, steps) && g <= n < |states|
    ensures states[g].sent <= states[n].sent
    decreases n
  {
    hide Apply, Enabled;
    if g < n {
      SentStays(states, steps, g, n - 1);
      assert Moves(states[n - 1], steps[n - 1], states[n]);
      SentGrows(states[n - 1], steps[n - 1]);
    }
  }

  lemma SentGrows(s: State, step: Step)
    requires Enabled(s, step)
    ensures s.sent <= Apply(s, step).sent
  {
    hide Without;
  }

  /**
   When a Write finishes, whatever other writers, workers and callers have done in between:
   its message has been put at the end of the line of every subscriber that was listed when
   it began, or both its tries for that subscriber have met a channel with CAPACITY chunks.
   */
  lemma WriteReachesAll(states: seq<State>, steps: seq<Step>, g: nat, n: nat, v: nat, p: Bytes, c: nat, i: nat)
    requires IsTrace(states, steps) && Writes(steps, g, n, v, p, c) && n < |steps| && steps[n] == Finish(v)
    requires i in states[g].list
    ensures |states[g].sent| < |states[n].sent| && states[n].sent[|states[g].sent|] == p
    ensures || (exists k | g < k < n :: HandedAt(states, k, i, |states[g].sent|))
            || (exists j, k | g < j < k < n :: TriesInVain(states, steps, j, k, v, i))
  {
    hide Served, TriedOnce, Apply, HandedAt, TriesInVain, IsBy;
    WriteGoesOn(states, steps, g, n, v, p, c);
    assert Moves(states[n], steps[n], states[n + 1]);
    FinishedAll(states[n], v);
    assert Moves(states[g], steps[g], states[g + 1]);
    WriteBegins(states[g], v, p, c);
    SentStays(states, steps, g + 1, n);
    assert Served(states, steps, g, n, v, i, |states[g].sent|);
    IsServed(states, steps, g, n, v, i, |states[g].sent|);
  }

  lemma FinishedAll(s: State, v: nat)
    requires Enabled(s, Finish(v))
    ensures v in s.writers && s.writers[v].Sending? && Rest(s.writers[v]) == []
  {
  }

  lemma IsServed(states: seq<State>, steps: seq<Step>, g: nat, n: nat, v: nat, i: nat, m: nat)
    requires |states| == |steps| + 1 && n <= |steps| && Served(states, steps, g, n, v, i, m)
    ensures || (exists k | g < k < n :: HandedAt(states, k, i, m))
            || (exists j, k | g < j < k < n :: TriesInVain(states, steps, j, k, v, i))
  {
  }

  // ----- how a message can be lost -----

  /** A writer that found the subscriber's channel full, and has done nothing since. */
  ghost predicate FoundFull(states: seq<State>, steps: seq<Step>, n: nat, v: nat, i: nat)
    requires |states| == |steps| + 1 && n <= |steps|
  {
    exists j | 0 <= j < n ::
      && steps[j] == TrySend(v) && FindsFull(states, steps, j, v, i)
      && forall l | j < l < n :: !IsBy(steps[l], v)
  }

  lemma OtherWriters(s: State, step: Step, v: nat)
    requires Enabled(s, step) && v in s.writers && !IsBy(step, v)
    ensures v in Apply(s, step).writers && Apply(s, step).writers[v] == s.writers[v]
  {
    if !IsWriters(step) { OthersKeepWriters(s, step); }
  }

  lemma OthersKeepWriters(s: State, step: Step)
    requires Enabled(s, step) && !IsWriters(step)
    ensures Apply(s, step).writers == s.writers
  {
    hide Without;
  }

  lemma BecomesFull(s: State, step: Step, v: nat, i: nat)
    requires Inv(s) && Bounded(s) && Enabled(s, step) && IsBy(step, v) && Aims(Apply(s, step), v, i) && Apply(s, step).writers[v].Full?
    ensures step == TrySend(v) && Aims(s, v, i) && i in s.subs && |s.subs[i].queue| == CAPACITY
  {
    hide DataOk, RefsExact, PlacesOk;
  }

  lemma SameWriters(s: State, step: Step)
    requires Enabled(s, step)
    ensures Apply(s, step).writers.Keys == s.writers.Keys
  {
    if !IsWriters(step) { OthersKeepWriters(s, step); }
  }

  lemma {:induction false} FullWriter(states: seq<State>, steps: seq<Step>, n: nat, v: nat, i: nat)
    requires IsTrace(states, steps) && n < |states| && Aims(states[n], v, i) && states[n].writers[v].Full?
    ensures FoundFull(states, steps, n, v, i)
    decreases n
  {
    hide Inv, Bounded, Apply, Enabled, IsBy;
    if n > 0 {
      var s, step := states[n - 1], steps[n - 1];
      assert Moves(s, step, states[n]);
      TraceInv(states, steps, n - 1);
      SameWriters(s, step);
      if IsBy(step, v) {
        BecomesFull(s, step, v, i);
      } else {
        OtherWriters(s, step, v);
        FullWriter(states, steps, n - 1, v, i);
        var j :| 0 <= j < n - 1 && steps[j] == TrySend(v) && FindsFull(states, steps, j, v, i) && forall l | j < l < n - 1 :: !IsBy(steps[l], v);
      }
    } else {
      NobodyFull(states[0], v);
    }
  }

  lemma NobodyFull(s: State, v: nat)
    requires IsInit(s) && v in s.writers
    ensures s.writers[v].Resting?
  {
  }

  /** The step loses the message, the oldest in the subscriber's channel. */
  ghost predicate LostAt(states: seq<State>, steps: seq<Step>, k: nat, i: nat, m: nat)
    requires |states| == |steps| + 1 && k < |steps|
  {
    var s := states[k];
    && i in s.subs && s.subs[i].queue != [] && Message(s, s.subs[i].queue[0]) == m
    && (|| (steps[k] == DrainTake(i) && i !in s.list)
        || (steps[k].TryDrop? && Aims(s, steps[k].writer, i) && FoundFull(states, steps, k, steps[k].writer, i)))
  }

  predicate InLine(s: State, i: nat, m: nat) {
    i in s.subs && m in Line(s, s.subs[i])
  }

  lemma RemovingOne(line: seq<nat>, b: nat, m: nat)
    requires b < |line| && m in line
    ensures line[b] == m || m in line[..b] + line[b + 1..]
  {
    var a :| 0 <= a < |line| && line[a] == m;
    if a != b { assert (line[..b] + line[b + 1..])[if a < b then a else a - 1] == m; }
  }

  lemma LosesOne(s: State, step: Step, i: nat, m: nat)
    requires Inv(s) && Enabled(s, step) && InLine(s, i, m) && !InLine(Apply(s, step), i, m)
    ensures Takes(s, step, i) && Message(s, s.subs[i].queue[0]) == m
  {
    hide Inv, Line, Apply, Gives, Takes, Enabled;
    if Gives(s, step, i) {
      GivenLine(s, step, i);
    } else if Takes(s, step, i) {
      TakenLine(s, step, i);
      HasQueue(s, step, i);
      RemovingOne(Line(s, s.subs[i]), Begun(s, i), m);
    } else {
      SameLineStep(s, step, i);
    }
  }

  lemma HasQueue(s: State, step: Step, i: nat)
    requires Takes(s, step, i)
    ensures i in s.subs && s.subs[i].queue != []
  {
  }

  lemma LosesAt(states: seq<State>, steps: seq<Step>, k: nat, i: nat, m: nat)
    requires IsTrace(states, steps) && k < |steps| && InLine(states[k], i, m) && !InLine(states[k + 1], i, m)
    ensures LostAt(states, steps, k, i, m)
  {
    hide Inv, Line, Bounded, FoundFull, Apply;
    var s := states[k];
    TraceInv(states, steps, k);
    assert Moves(s, steps[k], states[k + 1]);
    LosesOne(s, steps[k], i, m);
    if steps[k].TryDrop? {
      FullWriter(states, steps, k, steps[k].writer, i);
    } else {
      DrainedIsUnlisted(s, i);
    }
  }

  lemma DrainedIsUnlisted(s: State, i: nat)
    requires Inv(s) && i in s.subs && s.subs[i].worker.Draining?
    ensures i !in s.list
  {
    hide DataOk, RefsExact, PlacesOk;
  }

  /**
   A message that was in a subscriber's line and is not any more was the oldest in its
   channel, and taken out by the drain of an unlisted subscriber, or by a writer that had
   found CAPACITY chunks in the channel and has done nothing else since.
   */
  lemma {:induction false} LostOnlySo(states: seq<State>, steps: seq<Step>, a: nat, b: nat, i: nat, m: nat)
    requires IsTrace(states, steps) && a <= b < |states| && InLine(states[a], i, m) && !InLine(states[b], i, m)
    ensures exists k | a <= k < b :: LostAt(states, steps, k, i, m)
    decreases b
  {
    hide InLine, LostAt;
    if InLine(states[b - 1], i, m) {
      LosesAt(states, steps, b - 1, i, m);
    } else {
      LostOnlySo(states, steps, a, b - 1, i, m);
    }
  }

  // ----- with one writer -----

  /** The channel that the writer has made room in still has room. */
  predicate RoomOk(s: State, w: nat) {
    && s.writers.Keys == {w}
    && !s.writers[w].Refused?
    && (s.writers[w].Dropping? || s.writers[w].Retrying? ==>
          Rest(s.writers[w]) != [] && Rest(s.writers[w])[0] in s.subs && |s.subs[Rest(s.writers[w])[0]].queue| < CAPACITY)
  }

  lemma StepKeepsRoom(s: State, step: Step, w: nat)
    requires Inv(s) && Bounded(s) && RoomOk(s, w) && Enabled(s, step)
    ensures RoomOk(Apply(s, step), w)
  {
    if IsWriters(step) { WriterKeepsRoom(s, step, w); } else { OthersKeepRoom(s, step, w); }
  }

  lemma WriterKeepsRoom(s: State, step: Step, w: nat)
    requires Inv(s) && Bounded(s) && RoomOk(s, w) && Enabled(s, step) && IsWriters(step)
    ensures RoomOk(Apply(s, step), w)
  {
    hide RefsExact, PlacesOk, DataOk, Without;
    RestOf(s, w);
  }

  lemma OthersKeepRoom(s: State, step: Step, w: nat)
    requires Inv(s) && Bounded(s) && RoomOk(s, w) && Enabled(s, step) && !IsWriters(step)
    ensures RoomOk(Apply(s, step), w)
  {
    hide RefsExact, PlacesOk, DataOk, Without;
    RestOf(s, w);
  }

  /** With one writer no message is ever refused. */
  lemma {:induction false} NeverRefused(states: seq<State>, steps: seq<Step>, w: nat, n: nat)
    requires IsTrace(states, steps) && states[0].writers.Keys == {w} && n < |states|
    ensures w in states[n].writers && !states[n].writers[w].Refused? && RoomOk(states[n], w)
    decreases n
  {
    hide Inv, Bounded, Apply, Enabled;
    if n > 0 {
      NeverRefused(states, steps, w, n - 1);
      TraceInv(states, steps, n - 1);
      assert Moves(states[n - 1], steps[n - 1], states[n]);
      StepKeepsRoom(states[n - 1], steps[n - 1], w);
    } else {
      NobodyFull(states[0], w);
    }
  }

  /** Every listed subscriber that the writer has passed has the current message at the end of its line. */
  ghost predicate Passed(s: State, w: nat, i: nat)
    requires w in s.writers
  {
    i in s.list && !s.writers[w].Resting? && !Before(s.writers[w], i) ==> Ends(s, i, |s.sent| - 1)
  }

  predicate Ends(s: State, i: nat, m: int) {
    i in s.subs && Line(s, s.subs[i]) != [] && Line(s, s.subs[i])[|Line(s, s.subs[i])| - 1] == m
  }

  lemma Unpassed(s: State, step: Step, w: nat, i: nat)
    requires Inv(s) && OrderOk(s, w) && RoomOk(s, w) && Enabled(s, step) && i in s.list
    requires var t := Apply(s, step);
             w in t.writers && i in t.list && !t.writers[w].Resting? && !Before(t.writers[w], i)
    ensures !s.writers[w].Resting? && Apply(s, step).sent == s.sent
    ensures !Gives(s, step, i) ==> !Before(s.writers[w], i)
    ensures Gives(s, step, i) ==> IsBy(step, w) && Message(s, s.writers[w].chunk) == |s.sent| - 1
    ensures !Takes(s, step, i)
  {
    if IsWriters(step) { WriterPasses(s, step, w, i); } else { OthersDoNotPass(s, step, w, i); }
  }

  lemma WriterPasses(s: State, step: Step, w: nat, i: nat)
    requires ListOk(s) && OrderOk(s, w) && RoomOk(s, w) && Enabled(s, step) && IsWriters(step) && i in s.list
    requires var t := Apply(s, step);
             w in t.writers && !t.writers[w].Resting? && !Before(t.writers[w], i)
    ensures !s.writers[w].Resting? && Apply(s, step).sent == s.sent
    ensures !Gives(s, step, i) ==> !Before(s.writers[w], i)
    ensures Gives(s, step, i) ==> IsBy(step, w) && Message(s, s.writers[w].chunk) == |s.sent| - 1
    ensures !Takes(s, step, i)
  {
    hide LineOk, Listed;
    RestOf(s, w);
    hide ListOk;
  }

  lemma OthersDoNotPass(s: State, step: Step, w: nat, i: nat)
    requires Inv(s) && OrderOk(s, w) && Enabled(s, step) && !IsWriters(step) && i in s.list
    requires var t := Apply(s, step);
             w in t.writers && !t.writers[w].Resting? && !Before(t.writers[w], i)
    ensures !s.writers[w].Resting? && Apply(s, step).sent == s.sent && !Before(s.writers[w], i)
    ensures !Gives(s, step, i) && !Takes(s, step, i)
  {
    if step == DrainTake(i) { DrainedIsUnlisted(s, i); }
    OthersKeepWriters(s, step);
    OthersSendNothing(s, step);
    hide Inv, LineOk, CurrentOk, Apply;
  }

  lemma OthersSendNothing(s: State, step: Step)
    requires Enabled(s, step) && !IsWriters(step)
    ensures Apply(s, step).sent == s.sent
  {
    hide Without;
  }

  lemma StepKeepsPassed(s: State, step: Step, w: nat, i: nat)
    requires Inv(s) && OrderOk(s, w) && RoomOk(s, w) && Enabled(s, step) && Passed(s, w, i) && w in Apply(s, step).writers
    ensures Passed(Apply(s, step), w, i)
  {
    hide Inv, OrderOk, Line, Apply, Gives, Takes, Enabled, Before, IsBy, RoomOk;
    var t := Apply(s, step);
    if i in t.list && !t.writers[w].Resting? && !Before(t.writers[w], i) {
      ListedBefore(s, step, w, i);
      Unpassed(s, step, w, i);
      ListedIsSub(s, i);
      if Gives(s, step, i) { GivenByIt(s, step, w, i); GivenLine(s, step, i); } else { SameLineStep(s, step, i); }
    }
  }

  lemma GivenByIt(s: State, step: Step, w: nat, i: nat)
    requires Gives(s, step, i) && IsBy(step, w)
    ensures step.writer == w && w in s.writers && !s.writers[w].Resting?
  {
  }

  lemma ListedIsSub(s: State, i: nat)
    requires Inv(s) && i in s.list
    ensures i in s.subs
  {
    hide RefsExact, PlacesOk, DataOk;
    assert Listed(s, i);
  }

  /** While the writer is active nobody is added to the list. */
  lemma ListedBefore(s: State, step: Step, w: nat, i: nat)
    requires OrderOk(s, w) && Enabled(s, step) && w in Apply(s, step).writers && i in Apply(s, step).list
    requires !Apply(s, step).writers[w].Resting?
    ensures i in s.list
  {
    if IsWriters(step) { WritersKeepList(s, step); } else { OthersKeepList(s, step, w); }
  }

  lemma WritersKeepList(s: State, step: Step)
    requires Enabled(s, step) && IsWriters(step)
    ensures Apply(s, step).list == s.list
  {
  }

  lemma OthersKeepList(s: State, step: Step, w: nat)
    requires Enabled(s, step) && !IsWriters(step) && w in s.writers && w in Apply(s, step).writers && !Apply(s, step).writers[w].Resting?
    ensures Apply(s, step).list == s.list
  {
    hide Without;
  }

  lemma {:induction false} AllPassed(states: seq<State>, steps: seq<Step>, w: nat, n: nat, i: nat)
    requires IsTrace(states, steps) && states[0].writers.Keys == {w} && n < |states|
    ensures w in states[n].writers && OrderOk(states[n], w) && Passed(states[n], w, i)
    decreases n
  {
    hide Inv, Bounded, Apply, Enabled, OrderOk, Passed, RoomOk;
    NeverRefused(states, steps, w, n);
    if n > 0 {
      AllPassed(states, steps, w, n - 1, i);
      NeverRefused(states, steps, w, n - 1);
      TraceInv(states, steps, n - 1);
      assert Moves(states[n - 1], steps[n - 1], states[n]);
      StepKeepsOrder(states[n - 1], w, steps[n - 1]);
      StepKeepsPassed(states[n - 1], steps[n - 1], w, i);
    } else {
      NobodyPassed(states[0], w, i);
    }
  }

  lemma NobodyPassed(s: State, w: nat, i: nat)
    requires IsInit(s) && s.writers.Keys == {w}
    ensures OrderOk(s, w) && Passed(s, w, i)
  {
  }

  lemma {:induction false} SentDuring(states: seq<State>, steps: seq<Step>, g: nat, n: nat, w: nat, p: Bytes, c: nat)
    requires IsTrace(states, steps) && states[0].writers.Keys == {w} && Writes(steps, g, n, w, p, c)
    ensures states[n].sent == states[g].sent + [p]
    decreases n
  {
    hide Inv, Bounded, Apply, Enabled, OrderOk;
    assert Moves(states[n - 1], steps[n - 1], states[n]);
    if n == g + 1 {
      WriteBegins(states[g], w, p, c);
    } else {
      SentDuring(states, steps, g, n - 1, w, p, c);
      WriteGoesOn(states, steps, g, n - 1, w, p, c);
      NeverRefused(states, steps, w, n - 1);
      NothingSent(states[n - 1], steps[n - 1], w, c, |states[g].sent|);
    }
  }

  lemma NothingSent(s: State, step: Step, w: nat, c: nat, m: nat)
    requires Enabled(s, step) && s.writers.Keys == {w} && HasChunk(s, w, c, m)
    ensures Apply(s, step).sent == s.sent
  {
    hide Without;
  }

  /** With one writer: when a Write finishes, its message is the last in the line of every subscriber that was listed when it began. */
  lemma WriteIsLast(states: seq<State>, steps: seq<Step>, g: nat, n: nat, w: nat, p: Bytes, c: nat, i: nat)
    requires IsTrace(states, steps) && states[0].writers.Keys == {w}
    requires Writes(steps, g, n, w, p, c) && n < |steps| && steps[n] == Finish(w) && i in states[g].list
    ensures Ends(states[n], i, |states[g].sent|) && states[n].sent == states[g].sent + [p]
  {
    hide Inv, Apply, OrderOk, Served, TriedOnce, Ends;
    AllPassed(states, steps, w, n, i);
    SentDuring(states, steps, g, n, w, p, c);
    WriteGoesOn(states, steps, g, n, w, p, c);
    assert Moves(states[n], steps[n], states[n + 1]);
    FinishedAll(states[n], w);
  }

  // ----- a failed delivery is the last -----

  /** All deliveries but the last were taken, and after one that was not the worker has left its loop. */
  predicate StopsOk(sub: Subscriber) {
    && (forall k | 0 <= k < |sub.got| - 1 :: sub.got[k].ok)
    && (sub.got != [] && !sub.got[|sub.got| - 1].ok ==>
          (sub.worker.Wrote? && !sub.worker.ok) || sub.worker.Failed? || Leaving(sub.worker))
    && (sub.worker.Wrote? ==> sub.got != [] && sub.got[|sub.got| - 1].ok == sub.worker.ok)
  }

  lemma StepStops(s: State, step: Step, i: nat)
    requires Enabled(s, step) && (i in s.subs ==> StopsOk(s.subs[i])) && i in Apply(s, step).subs
    ensures StopsOk(Apply(s, step).subs[i])
  {
    hide StopsOk, Apply, Gives, Takes, Enabled;
    if i !in s.subs {
      NewStops(s, step, i);
    } else if Gives(s, step, i) || Takes(s, step, i) {
      ChannelStops(s, step, i);
    } else if IsWorkers(step, i) || step == Receive(i) || (step.Deliver? && step.sub == i) {
      WorkerStops(s, step, i);
    } else {
      OtherSub(s, step, i);
    }
  }

  lemma NewStops(s: State, step: Step, i: nat)
    requires Enabled(s, step) && i !in s.subs && i in Apply(s, step).subs
    ensures StopsOk(Apply(s, step).subs[i])
  {
    if IsWriters(step) { WritersKeepSubs(s, step); } else { OnlyAttachAdds(s, step, i); }
  }

  lemma OnlyAttachAdds(s: State, step: Step, i: nat)
    requires Enabled(s, step) && !IsWriters(step) && i !in s.subs && i in Apply(s, step).subs
    ensures StopsOk(Apply(s, step).subs[i])
  {
    hide Without;
  }

  lemma ChannelStops(s: State, step: Step, i: nat)
    requires Enabled(s, step) && (Gives(s, step, i) || Takes(s, step, i)) && StopsOk(s.subs[i]) && i in Apply(s, step).subs
    ensures StopsOk(Apply(s, step).subs[i])
  {
  }

  lemma WorkerStops(s: State, step: Step, i: nat)
    requires Enabled(s, step) && (IsWorkers(step, i) || step == Receive(i) || (step.Deliver? && step.sub == i))
    requires i in s.subs && StopsOk(s.subs[i]) && i in Apply(s, step).subs
    ensures StopsOk(Apply(s, step).subs[i])
  {
    hide Without;
  }

  /** A subscriber whose writer fails once is given nothing after that. */
  lemma {:induction false} NothingAfterFailure(states: seq<State>, steps: seq<Step>, n: nat, i: nat)
    requires IsTrace(states, steps) && n < |states| && i in states[n].subs
    ensures StopsOk(states[n].subs[i])
    ensures forall k | 0 <= k < |states[n].subs[i].got| - 1 :: states[n].subs[i].got[k].ok
    decreases n
  {
    hide Apply, Enabled;
    if n > 0 {
      assert Moves(states[n - 1], steps[n - 1], states[n]);
      if i in states[n - 1].subs { NothingAfterFailure(states, steps, n - 1, i); }
      StepStops(states[n - 1], steps[n - 1], i);
    }
  }

  // ----- a message that is lost though there is room -----

  /** After n Writes of nothing to one subscriber whose worker has not begun. */
  function Queued(n: nat): State {
    State(map c: nat | c < n :: Chunk(1, [], c), {}, {},
          map[0 := Subscriber(seq(n, k => k), false, Idle, [])], [0], {}, map[0 := Resting], seq(n, _ => []))
  }

  lemma Extend(states: seq<State>, steps: seq<Step>, step: Step)
    requires IsTrace(states, steps) && Enabled(states[|steps|], step)
    ensures IsTrace(states + [Apply(states[|steps|], step)], steps + [step])
  {
    hide IsInit, Enabled, Apply;
    var longer, more := states + [Apply(states[|steps|], step)], steps + [step];
    forall k | 0 <= k < |more|
      ensures Moves(longer[k], more[k], longer[k + 1])
    {
      if k < |steps| { assert Moves(states[k], steps[k], states[k + 1]); }
    }
  }

  /** A Write up to its first try. */
  function Loaded(n: nat): State {
    Queued(n).(chunks := Queued(n).chunks[n := Chunk(1, [], n)], sent := Queued(n).sent + [[]], writers := map[0 := Sending(n, [0])])
  }

  lemma LoadsNext(states: seq<State>, steps: seq<Step>, n: nat) returns (more: seq<State>, longer: seq<Step>)
    requires IsTrace(states, steps) && states[|steps|] == Queued(n)
    ensures IsTrace(more, longer) && more[|longer|] == Loaded(n) && more[0] == states[0]
  {
    hide IsTrace;
    IsTraceLength(states, steps);
    var s := Queued(n);
    Extend(states, steps, Get(0, [], n));
    var s1 := Apply(s, Get(0, [], n));
    IsTraceLength(states + [s1], steps + [Get(0, [], n)]);
    Extend(states + [s1], steps + [Get(0, [], n)], Fill(0));
    var s2 := Apply(s1, Fill(0));
    more, longer := states + [s1] + [s2], steps + [Get(0, [], n)] + [Fill(0)];
    IsTraceLength(more, longer);
    Extend(more, longer, StoreRefs(0));
    var s3 := Apply(s2, StoreRefs(0));
    assert s3 == Loaded(n);
    more, longer := more + [s3], longer + [StoreRefs(0)];
    IsTraceLength(more, longer);
  }

  lemma IsTraceLength(states: seq<State>, steps: seq<Step>)
    requires IsTrace(states, steps)
    ensures |states| == |steps| + 1
  {
  }

  lemma SendsNext(states: seq<State>, steps: seq<Step>, n: nat) returns (more: seq<State>, longer: seq<Step>)
    requires IsTrace(states, steps) && states[|steps|] == Loaded(n) && n < CAPACITY
    ensures IsTrace(more, longer) && more[|longer|] == Queued(n + 1) && more[0] == states[0]
  {
    hide IsTrace;
    IsTraceLength(states, steps);
    Extend(states, steps, TrySend(0));
    var s4 := Apply(Loaded(n), TrySend(0));
    more, longer := states + [s4], steps + [TrySend(0)];
    IsTraceLength(more, longer);
    assert [0][1..] == [];
    Extend(more, longer, Finish(0));
    var s5 := Apply(s4, Finish(0));
    SentNext(n);
    assert s5.chunks == Queued(n + 1).chunks && s5.sent == Queued(n + 1).sent;
    assert s5.subs[0].queue == Queued(n + 1).subs[0].queue;
    assert s5.subs == Queued(n + 1).subs && s5.writers == Queued(n + 1).writers;
    more, longer := more + [s5], longer + [Finish(0)];
    IsTraceLength(more, longer);
  }

  lemma SentNext(n: nat)
    ensures Queued(n).sent + [[]] == Queued(n + 1).sent
    ensures Queued(n).chunks[n := Chunk(1, [], n)] == Queued(n + 1).chunks
    ensures Queued(n).subs[0].queue + [n] == Queued(n + 1).subs[0].queue
  {
  }

  lemma {:induction false} Queues(n: nat) returns (states: seq<State>, steps: seq<Step>)
    requires n <= CAPACITY
    ensures IsTrace(states, steps) && states[|steps|] == Queued(n) && states[0].writers.Keys == {0}
    decreases n
  {
    if n == 0 {
      var first := State(map[], {}, {}, map[], [], {}, map[0 := Resting], []);
      assert IsTrace([first], []);
      Extend([first], [], Attach(0));
      var t := Apply(first, Attach(0));
      assert t.chunks == Queued(0).chunks && t.sent == Queued(0).sent && t.subs[0].queue == Queued(0).subs[0].queue;
      assert t.subs == Queued(0).subs && t.list == [0];
      states, steps := [first] + [Queued(0)], [] + [Attach(0)];
    } else {
      states, steps := Queues(n - 1);
      var more, longer := LoadsNext(states, steps, n - 1);
      states, steps := SendsNext(more, longer, n - 1);
    }
  }

  /**
   A message can be lost though its channel has room: the worker takes a chunk after the
   writer has found the channel full, and before it makes room.
   */
  lemma CanLoseWithRoom() returns (states: seq<State>, steps: seq<Step>, k: nat)
    ensures IsTrace(states, steps) && states[0].writers.Keys == {0} && k < |steps| && steps[k] == TryDrop(0)
    ensures 0 in states[k].subs && |states[k].subs[0].queue| == CAPACITY - 1
    ensures InLine(states[k], 0, 1) && !InLine(states[k + 1], 0, 1)
  {
    hide IsTrace, Queued;
    var n := CAPACITY;
    states, steps := Queues(n);
    states, steps := LoadsNext(states, steps, n);
    IsTraceLength(states, steps);
    states, steps := TriesNext(states, steps, n);
    IsTraceLength(states, steps);
    k := |steps|;
    DropsSecond(n);
    Extend(states, steps, TryDrop(0));
    states, steps := states + [Apply(Tried(n), TryDrop(0))], steps + [TryDrop(0)];
    IsTraceLength(states, steps);
  }

  /** The writer has found the channel full, and the worker has taken the first chunk. */
  function Tried(n: nat): State {
    var s := Loaded(n);
    s.(writers := map[0 := Full(n, [0])], subs := map[0 := Subscriber(seq(n, j => j)[if n > 0 then 1 else 0..], false, Writing(0), [])])
  }

  lemma TriesNext(states: seq<State>, steps: seq<Step>, n: nat) returns (more: seq<State>, longer: seq<Step>)
    requires IsTrace(states, steps) && states[|steps|] == Loaded(n) && n == CAPACITY
    ensures IsTrace(more, longer) && more[|longer|] == Tried(n) && more[0] == states[0]
  {
    hide IsTrace;
    IsTraceLength(states, steps);
    Extend(states, steps, TrySend(0));
    var s := Apply(Loaded(n), TrySend(0));
    more, longer := states + [s], steps + [TrySend(0)];
    IsTraceLength(more, longer);
    Extend(more, longer, Receive(0));
    assert Apply(s, Receive(0)) == Tried(n);
    more, longer := more + [Tried(n)], longer + [Receive(0)];
    IsTraceLength(more, longer);
  }

  lemma DropsSecond(n: nat)
    requires n == CAPACITY
    ensures Enabled(Tried(n), TryDrop(0)) && |Tried(n).subs[0].queue| == CAPACITY - 1
    ensures InLine(Tried(n), 0, 1) && !InLine(Apply(Tried(n), TryDrop(0)), 0, 1)
  {
    var s, t := Tried(n), Apply(Tried(n), TryDrop(0));
    var queue := s.subs[0].queue;
    assert Line(s, s.subs[0])[1] == Message(s, queue[0]) == 1;
    assert Line(t, t.subs[0])[0] == 0;
    forall a | 0 < a < |Line(t, t.subs[0])|
      ensures Line(t, t.subs[0])[a] == a + 1
    {
      assert queue[1..][a - 1] == a + 1;
    }
  }

  // ----- who is listed -----

  /** The step takes the subscriber off the list: it leaves, its worker meets an error, or all is closed. */
  predicate Unlists(step: Step, i: nat) {
    step == Detach(i) || step == OnError(i) || step == CloseTake
  }

  lemma ListIsDistinct(s: State)
    requires Inv(s)
    ensures Distinct(s.list)
  {
  }

  lemma StepLists(s: State, step: Step, i: nat)
    requires Distinct(s.list) && Enabled(s, step)
    ensures i in Apply(s, step).list <==> step == Attach(i) || (i in s.list && !Unlists(step, i))
  {
    hide Without;
    if step.Detach? || step.OnError? { WithoutIs(s.list, step.sub); }
  }

  /** Attached, and not taken off the list since. */
  ghost predicate AttachedSince(steps: seq<Step>, n: nat, i: nat)
    requires n <= |steps|
  {
    exists k | 0 <= k < n :: steps[k] == Attach(i) && forall l | k < l < n :: !Unlists(steps[l], i)
  }

  /** In every run, the messages of a Write are meant exactly for those who have attached and have not left, failed or been closed since. */
  lemma {:induction false} ListedExactly(states: seq<State>, steps: seq<Step>, n: nat, i: nat)
    requires IsTrace(states, steps) && n <= |steps|
    ensures i in states[n].list <==> AttachedSince(steps, n, i)
    decreases n
  {
    hide Inv, Apply, Enabled, Unlists;
    if n > 0 {
      ListedExactly(states, steps, n - 1, i);
      TraceInv(states, steps, n - 1);
      assert Moves(states[n - 1], steps[n - 1], states[n]);
      ListIsDistinct(states[n - 1]);
      StepLists(states[n - 1], steps[n - 1], i);
      if steps[n - 1] == Attach(i) {
        assert AttachedSince(steps, n, i);
      } else if AttachedSince(steps, n - 1, i) && !Unlists(steps[n - 1], i) {
        var k :| 0 <= k < n - 1 && steps[k] == Attach(i) && forall l | k < l < n - 1 :: !Unlists(steps[l], i);
        assert steps[k] == Attach(i) && forall l | k < l < n :: !Unlists(steps[l], i);
      }
    }
  }
}
