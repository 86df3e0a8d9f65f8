/**
 With one caller of Write, every subscriber gets its messages in the order in which
 they were written, each at most once.
 */
module ChunkPoolOrder {
  import opened ChunkPool
  import opened ChunkPoolTheorems

  function Message(s: State, c: nat): nat {
    if c in s.chunks then s.chunks[c].message else 0
  }

  function Numbers(s: State, queue: seq<nat>): seq<nat> {
    seq(|queue|, k requires 0 <= k < |queue| => Message(s, queue[k]))
  }

  function GotNumbers(got: seq<Delivery>): seq<nat> {
    seq(|got|, k requires 0 <= k < |got| => got[k].message)
  }

  /** The messages that a subscriber has got, is being given, and has in its channel. */
  function Line(s: State, sub: Subscriber): seq<nat> {
    GotNumbers(sub.got) + (if sub.worker.Writing? then [Message(s, sub.worker.chunk)] else []) + Numbers(s, sub.queue)
  }

  predicate Increasing(line: seq<nat>) {
    forall a, b | 0 <= a < b < |line| :: line[a] < line[b]
  }

  predicate Below(line: seq<nat>, limit: int) {
    forall a | 0 <= a < |line| :: line[a] < limit
  }

  /** The writer is not past the subscriber with its current message. */
  predicate Before(writer: Writer, i: nat) {
    writer.Filling? || writer.Filled? || i in Rest(writer)
  }

  /** The numbers that a subscriber can have: all, or all but the current one. */
  function Limit(s: State, w: nat, i: nat): int
    requires w in s.writers
  {
    if Before(s.writers[w], i) then |s.sent| - 1 else |s.sent|
  }

  predicate LineOk(s: State, w: nat, i: nat)
    requires w in s.writers && i in s.subs
  {
    Increasing(Line(s, s.subs[i])) && Below(Line(s, s.subs[i]), Limit(s, w, i))
  }

  predicate CurrentOk(s: State, w: nat)
    requires w in s.writers
  {
    var writer := s.writers[w];
    && Distinct(Rest(writer))
    && (writer.Filling? || writer.Filled? || Rest(writer) != [] ==> |s.sent| > 0 && Message(s, writer.chunk) == |s.sent| - 1)
  }

  ghost predicate OrderOk(s: State, w: nat) {
    && s.writers.Keys == {w}
    && CurrentOk(s, w)
    && forall i | i in s.subs :: LineOk(s, w, i)
  }

  // ----- lines under single changes -----

  lemma Removing(a: seq<nat>, x: nat, b: seq<nat>, limit: int)
    requires Increasing(a + [x] + b) && Below(a + [x] + b, limit)
    ensures Increasing(a + b) && Below(a + b, limit)
  {
    var whole := a + [x] + b;
    forall k | 0 <= k < |a + b|
      ensures (a + b)[k] == whole[if k < |a| then k else k + 1]
    {
    }
  }

  lemma Pushing(line: seq<nat>, x: nat)
    requires Increasing(line) && Below(line, x)
    ensures Increasing(line + [x]) && Below(line + [x], x + 1)
  {
  }

  /** Numbers are the same when the chunks in question keep their messages. */
  lemma SameLine(s: State, t: State, sub: Subscriber)
    requires forall k | 0 <= k < |sub.queue| :: Message(t, sub.queue[k]) == Message(s, sub.queue[k])
    requires sub.worker.Writing? ==> Message(t, sub.worker.chunk) == Message(s, sub.worker.chunk)
    ensures Line(t, sub) == Line(s, sub)
  {
    assert Numbers(t, sub.queue) == Numbers(s, sub.queue);
  }

  ghost predicate SameMessages(s: State, t: State) {
    forall c :: Message(t, c) == Message(s, c)
  }

  /** Only the writer moves on. */
  lemma WriterMoves(s: State, t: State, w: nat)
    requires OrderOk(s, w) && t.subs == s.subs && SameMessages(s, t) && t.sent == s.sent
    requires t.writers.Keys == s.writers.Keys && CurrentOk(t, w)
    requires forall i :: Before(t.writers[w], i) ==> Before(s.writers[w], i)
    ensures OrderOk(t, w)
  {
    hide Line;
    forall i | i in t.subs
      ensures LineOk(t, w, i)
    {
      assert LineOk(s, w, i);
      LineKept(s, t, t.subs[i]);
    }
  }

  lemma LineKept(s: State, t: State, sub: Subscriber)
    requires SameMessages(s, t)
    ensures Line(t, sub) == Line(s, sub)
  {
    SameLine(s, t, sub);
  }

  /** Only one subscriber changes, and its line is still in order. */
  lemma SubMoves(s: State, t: State, w: nat, i: nat)
    requires OrderOk(s, w) && i in t.subs && t.subs == s.subs[i := t.subs[i]] && SameMessages(s, t) && t.sent == s.sent
    requires t.writers == s.writers && LineOk(t, w, i)
    ensures OrderOk(t, w)
  {
    hide Line;
    forall j | j in t.subs
      ensures LineOk(t, w, j)
    {
      if j != i {
        assert LineOk(s, w, j);
        LineKept(s, t, t.subs[j]);
      }
    }
  }

  // ----- the steps -----

  lemma GetOrder(s: State, w: nat, p: Bytes, c: nat)
    requires Inv(s) && OrderOk(s, w) && Enabled(s, Get(w, p, c))
    ensures OrderOk(Apply(s, Get(w, p, c)), w)
  {
    hide Line, RefsExact, PlacesOk, ListOk, DataOk, References;
    var t := Apply(s, Get(w, p, c));
    forall i | i in t.subs
      ensures LineOk(t, w, i)
    {
      assert LineOk(s, w, i);
      Unqueued(s, c, i);
      SameLine(s, t, t.subs[i]);
    }
  }

  lemma Unqueued(s: State, c: nat, i: nat)
    requires Inv(s) && i in s.subs && (c in s.pool || c !in s.chunks)
    ensures c !in s.subs[i].queue && Holds(s.subs[i].worker, c) == 0
  {
    hide DataOk, ListOk, References;
    assert Exact(s, c);
    SubBound(s, i, c);
    CountIn(s.subs[i].queue, c);
  }

  lemma WriterStepsOrder(s: State, w: nat, step: Step)
    requires Inv(s) && OrderOk(s, w) && Enabled(s, step)
    requires step.Fill? || step.StoreRefs? || step.ReleaseDropped? || step.ReleaseRefused? || step.Finish?
    requires step.writer == w
    ensures OrderOk(Apply(s, step), w)
  {
    hide LineOk, RefsExact, PlacesOk, DataOk;
    WriterMoves(s, Apply(s, step), w);
  }

  /** The chunk goes to the end of the target's channel. */
  lemma PushOrder(s: State, w: nat, step: Step)
    requires Inv(s) && OrderOk(s, w) && Enabled(s, step) && (step.TrySend? || step.TryAgain?) && step.writer == w
    requires |s.subs[s.writers[w].rest[0]].queue| < CAPACITY
    ensures OrderOk(Apply(s, step), w)
  {
    hide RefsExact, PlacesOk, DataOk, ListOk, Line, Increasing;
    var t := Apply(s, step);
    var c, rest := s.writers[w].chunk, s.writers[w].rest;
    var i := rest[0];
    assert i !in rest[1..];
    PushedLine(s, s.subs[i], c);
    Pushing(Line(s, s.subs[i]), Message(s, c));
    forall j | j in t.subs
      ensures LineOk(t, w, j)
    {
      if j == i {
        LineKept(s, t, t.subs[i]);
      } else {
        LineKept(s, t, t.subs[j]);
      }
    }
  }

  lemma PushedLine(s: State, sub: Subscriber, c: nat)
    ensures Line(s, sub.(queue := sub.queue + [c])) == Line(s, sub) + [Message(s, c)]
  {
    assert Numbers(s, sub.queue + [c]) == Numbers(s, sub.queue) + [Message(s, c)];
  }

  lemma NoRoomOrder(s: State, w: nat, step: Step)
    requires Inv(s) && OrderOk(s, w) && Enabled(s, step) && (step.TrySend? || step.TryAgain?) && step.writer == w
    requires |s.subs[s.writers[w].rest[0]].queue| >= CAPACITY
    ensures OrderOk(Apply(s, step), w)
  {
    hide LineOk, RefsExact, PlacesOk, DataOk, ListOk;
    WriterMoves(s, Apply(s, step), w);
  }

  /** The oldest message of a full channel is dropped. */
  lemma DropOrder(s: State, w: nat)
    requires Inv(s) && OrderOk(s, w) && Enabled(s, TryDrop(w))
    ensures OrderOk(Apply(s, TryDrop(w)), w)
  {
    hide LineOk, RefsExact, PlacesOk, DataOk, ListOk;
    var t := Apply(s, TryDrop(w));
    var i := s.writers[w].rest[0];
    var u := s.(subs := t.subs);
    if s.subs[i].queue != [] {
      PoppedLine(s, u, w, i);
      SubMoves(s, u, w, i);
    } else {
      assert u == s;
    }
    WriterMoves(u, t, w);
  }

  lemma PoppedLine(s: State, t: State, w: nat, i: nat)
    requires i in s.subs && i in t.subs && s.subs[i].queue != [] && w in s.writers && LineOk(s, w, i)
    requires t.writers == s.writers && t.sent == s.sent && SameMessages(s, t)
    requires t.subs[i] == s.subs[i].(queue := s.subs[i].queue[1..], worker := t.subs[i].worker)
    requires t.subs[i].worker == s.subs[i].worker || (!s.subs[i].worker.Writing? && !t.subs[i].worker.Writing?)
    ensures LineOk(t, w, i)
  {
    hide Increasing, Below;
    var sub := s.subs[i];
    var head := GotNumbers(sub.got) + if sub.worker.Writing? then [Message(s, sub.worker.chunk)] else [];
    var first, tail := Message(s, sub.queue[0]), Numbers(s, sub.queue[1..]);
    assert Numbers(s, sub.queue) == [first] + tail;
    assert Line(s, sub) == head + [first] + tail;
    assert Numbers(t, t.subs[i].queue) == tail;
    assert Line(t, t.subs[i]) == head + tail;
    Removing(head, first, tail, Limit(s, w, i));
  }

  lemma ReceiveOrder(s: State, w: nat, i: nat)
    requires OrderOk(s, w) && Enabled(s, Receive(i))
    ensures OrderOk(Apply(s, Receive(i)), w)
  {
    hide Increasing, Below;
    var t := Apply(s, Receive(i));
    var sub := s.subs[i];
    assert Numbers(s, sub.queue) == [Message(s, sub.queue[0])] + Numbers(s, sub.queue[1..]);
    assert Numbers(t, sub.queue[1..]) == Numbers(s, sub.queue[1..]);
    assert Line(t, t.subs[i]) == Line(s, sub);
    SubMoves(s, t, w, i);
  }

  lemma DeliverOrder(s: State, w: nat, i: nat, ok: bool)
    requires OrderOk(s, w) && Enabled(s, Deliver(i, ok))
    ensures OrderOk(Apply(s, Deliver(i, ok)), w)
  {
    hide Increasing, Below;
    var t := Apply(s, Deliver(i, ok));
    var sub := s.subs[i];
    var got, now, tail := GotNumbers(sub.got), Message(s, sub.worker.chunk), Numbers(s, sub.queue);
    assert Line(s, sub) == got + [now] + tail;
    assert Numbers(t, sub.queue) == tail;
    assert GotNumbers(t.subs[i].got) == got + [now];
    assert Line(t, t.subs[i]) == Line(s, sub);
    SubMoves(s, t, w, i);
  }

  lemma DrainTakeOrder(s: State, w: nat, i: nat)
    requires OrderOk(s, w) && Enabled(s, DrainTake(i))
    ensures OrderOk(Apply(s, DrainTake(i)), w)
  {
    hide LineOk;
    PoppedLine(s, Apply(s, DrainTake(i)), w, i);
    SubMoves(s, Apply(s, DrainTake(i)), w, i);
  }

  /** Steps that leave a subscriber's line as it is. */
  lemma StillLine(s: State, t: State, w: nat, i: nat)
    requires OrderOk(s, w) && i in s.subs && i in t.subs && t.subs == s.subs[i := t.subs[i]] && SameMessages(s, t)
    requires t.sent == s.sent && t.writers == s.writers
    requires t.subs[i].queue == s.subs[i].queue && t.subs[i].got == s.subs[i].got
    requires (!t.subs[i].worker.Writing? && !s.subs[i].worker.Writing?) || t.subs[i].worker == s.subs[i].worker
    ensures OrderOk(t, w)
  {
    hide Increasing, Below;
    assert Numbers(t, t.subs[i].queue) == Numbers(s, s.subs[i].queue);
    SubMoves(s, t, w, i);
  }

  lemma QuietWorkerOrder(s: State, w: nat, step: Step)
    requires OrderOk(s, w) && Enabled(s, step)
    requires step.ReleaseWritten? || step.EndOfChannel? || step.DrainRelease? || step.DrainEnd? || step.CloseChannel?
    ensures OrderOk(Apply(s, step), w)
  {
    hide OrderOk;
    StillLine(s, Apply(s, step), w, step.sub);
  }

  lemma DetachOrder(s: State, w: nat, i: nat)
    requires OrderOk(s, w) && i in s.subs
    ensures OrderOk(Detached(s, i), w)
  {
    hide OrderOk, Without;
    if i in s.list { StillLine(s, Detached(s, i), w, i); }
  }

  lemma OnErrorOrder(s: State, w: nat, i: nat)
    requires OrderOk(s, w) && Enabled(s, OnError(i))
    ensures OrderOk(Apply(s, OnError(i)), w)
  {
    hide OrderOk, Without;
    DetachOrder(s, w, i);
    StillLine(Detached(s, i), Apply(s, OnError(i)), w, i);
  }

  lemma AttachOrder(s: State, w: nat, i: nat)
    requires OrderOk(s, w) && Enabled(s, Attach(i))
    ensures OrderOk(Apply(s, Attach(i)), w)
  {
    var t := Apply(s, Attach(i));
    assert Line(t, t.subs[i]) == [];
    SubMoves(s, t, w, i);
  }

  lemma RestOrder(s: State, w: nat, step: Step)
    requires OrderOk(s, w) && Enabled(s, step) && (step.Put? || step.Forget? || step.CloseTake?)
    ensures OrderOk(Apply(s, step), w)
  {
    hide LineOk;
    WriterMoves(s, Apply(s, step), w);
  }

  lemma OnlyWriter(s: State, w: nat, v: nat)
    requires OrderOk(s, w) && v in s.writers
    ensures v == w
  {
  }

  lemma StepKeepsOrder(s: State, w: nat, step: Step)
    requires Inv(s) && OrderOk(s, w) && Enabled(s, step)
    ensures OrderOk(Apply(s, step), w)
  {
    hide Inv, OrderOk, Apply;
    match step {
      case Get(v, p, c) => OnlyWriter(s, w, v); GetOrder(s, w, p, c);
      case Fill(v) => OnlyWriter(s, w, v); WriterStepsOrder(s, w, step);
      case StoreRefs(v) => OnlyWriter(s, w, v); WriterStepsOrder(s, w, step);
      case ReleaseDropped(v) => OnlyWriter(s, w, v); WriterStepsOrder(s, w, step);
      case ReleaseRefused(v) => OnlyWriter(s, w, v); WriterStepsOrder(s, w, step);
      case Finish(v) => OnlyWriter(s, w, v); WriterStepsOrder(s, w, step);
      case TrySend(v) => OnlyWriter(s, w, v); SendOrder(s, w, step);
      case TryAgain(v) => OnlyWriter(s, w, v); SendOrder(s, w, step);
      case TryDrop(v) => OnlyWriter(s, w, v); DropOrder(s, w);
      case Receive(i) => ReceiveOrder(s, w, i);
      case Deliver(i, ok) => DeliverOrder(s, w, i, ok);
      case DrainTake(i) => DrainTakeOrder(s, w, i);
      case OnError(i) => OnErrorOrder(s, w, i);
      case Detach(i) => IsDetached(s, i); DetachOrder(s, w, i);
      case Attach(i) => AttachOrder(s, w, i);
      case Put(_) => RestOrder(s, w, step);
      case Forget(_) => RestOrder(s, w, step);
      case CloseTake => RestOrder(s, w, step);
      case _ => QuietWorkerOrder(s, w, step);
    }
  }

  lemma SendOrder(s: State, w: nat, step: Step)
    requires Inv(s) && OrderOk(s, w) && Enabled(s, step) && (step.TrySend? || step.TryAgain?) && step.writer == w
    ensures OrderOk(Apply(s, step), w)
  {
    hide Inv, OrderOk, Apply;
    if |s.subs[s.writers[w].rest[0]].queue| < CAPACITY { PushOrder(s, w, step); } else { NoRoomOrder(s, w, step); }
  }

  lemma {:induction false} RunsKeepOrder(s: State, w: nat, steps: seq<Step>, t: State)
    requires Inv(s) && OrderOk(s, w) && IsRun(s, steps, t)
    ensures Inv(t) && OrderOk(t, w)
    decreases |steps|
  {
    hide Inv, OrderOk, Enabled, Apply;
    if steps != [] {
      StepKeepsInv(s, steps[0]);
      StepKeepsOrder(s, w, steps[0]);
      RunsKeepOrder(Apply(s, steps[0]), w, steps[1..], t);
    }
  }

  /** In every run with one writer, a subscriber's deliveries are in the order of the writes, none of them twice. */
  lemma DeliveriesInOrder(s: State, w: nat, steps: seq<Step>, t: State, i: nat, a: nat, b: nat)
    requires IsInit(s) && s.writers.Keys == {w} && IsRun(s, steps, t)
    requires i in t.subs && a < b < |t.subs[i].got|
    ensures t.subs[i].got[a].message < t.subs[i].got[b].message < |t.sent|
    ensures t.subs[i].got[a].bytes == t.sent[t.subs[i].got[a].message]
  {
    hide Inv, LineOk, ListOk, RefsExact, PlacesOk;
    InitInv(s);
    RunsKeepOrder(s, w, steps, t);
    DeliveredIsWritten(t, i, a);
    DeliveredIsWritten(t, i, b);
    GotInLine(t, w, i, a, b);
  }

  lemma GotInLine(s: State, w: nat, i: nat, a: nat, b: nat)
    requires w in s.writers && i in s.subs && LineOk(s, w, i) && a < b < |s.subs[i].got|
    ensures s.subs[i].got[a].message < s.subs[i].got[b].message
  {
    var line := Line(s, s.subs[i]);
    assert line[a] == s.subs[i].got[a].message && line[b] == s.subs[i].got[b].message;
  }
}
