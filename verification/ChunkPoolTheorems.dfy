/**
 Pooled chunks are safe under all interleavings: a chunk's counter is exactly the number
 of its references, it goes back to the pool once and never while referenced, no send
 meets a closed channel, and subscribers get the bytes that were written, in order.
 */
module ChunkPoolTheorems {
  import opened MapSums
  import opened ChunkPool

  // ----- the invariant -----

  function RefsOf(s: State, c: nat): int {
    if c in s.chunks then s.chunks[c].refs else 0
  }

  ghost predicate Exact(s: State, c: nat) {
    RefsOf(s, c) == References(s, c)
  }

  /** The counter of every chunk is the number of its references. */
  ghost predicate RefsExact(s: State) {
    forall c: nat :: Exact(s, c)
  }

  predicate Owns(writer: Writer, c: nat) {
    (writer.Filling? || writer.Filled?) && writer.chunk == c
  }

  /** Nobody refers to a chunk in the pool, on the way there, or being filled, and it is in one of these places only. */
  ghost predicate PlacesOk(s: State) {
    && s.pool !! s.freeing
    && (forall c | c in s.pool :: RefsOf(s, c) == 0 && c in s.chunks)
    && (forall c | c in s.freeing :: RefsOf(s, c) == 0 && c in s.chunks)
    && (forall w, c | w in s.writers && Owns(s.writers[w], c) ::
          c in s.chunks && RefsOf(s, c) == 0 && c !in s.pool && c !in s.freeing)
    && (forall v, w, c | v in s.writers && w in s.writers && Owns(s.writers[v], c) && Owns(s.writers[w], c) :: v == w)
  }

  function Rest(writer: Writer): seq<nat> {
    if writer.Sending? || writer.Full? || writer.Dropping? || writer.Retrying? || writer.Refused? then writer.rest else []
  }

  predicate Leaving(worker: Worker) {
    worker.Draining? || worker.DrainHolds? || worker.Done?
  }

  predicate Listed(s: State, i: nat) {
    i in s.subs && !s.subs[i].closed && !Leaving(s.subs[i].worker) && i !in s.closing
  }

  predicate Distinct(list: seq<nat>) {
    forall a, b | 0 <= a < b < |list| :: list[a] != list[b]
  }

  predicate RestOk(s: State, writer: Writer) {
    && (forall i | i in Rest(writer) :: i in s.list)
    && (writer.Full? || writer.Dropping? || writer.Retrying? || writer.Refused? ==> writer.rest != [])
  }

  /** Writers only have listed subscribers before them, and those are open and not draining. */
  predicate ListOk(s: State) {
    && Distinct(s.list)
    && (forall i | i in s.list :: Listed(s, i))
    && (forall i | i in s.closing :: i in s.subs)
    && (forall w | w in s.writers :: RestOk(s, s.writers[w]))
    && (forall i | i in s.subs && s.subs[i].worker.Done? :: s.subs[i].queue == [])
  }

  predicate Carries(s: State, c: nat, bytes: Bytes)
    requires c in s.chunks
  {
    s.chunks[c].message < |s.sent| && s.sent[s.chunks[c].message] == bytes
  }

  predicate GotOk(s: State, sub: Subscriber) {
    forall d | d in sub.got :: d.message < |s.sent| && d.bytes == s.sent[d.message]
  }

  /** A referenced chunk holds what its writer wrote, and so does every delivery. */
  predicate DataOk(s: State) {
    && (forall c | c in s.chunks && s.chunks[c].refs > 0 :: Carries(s, c, s.chunks[c].data))
    && (forall w | w in s.writers && s.writers[w].Filling? && s.writers[w].chunk in s.chunks ::
          Carries(s, s.writers[w].chunk, s.writers[w].payload))
    && (forall w | w in s.writers && s.writers[w].Filled? && s.writers[w].chunk in s.chunks ::
          Carries(s, s.writers[w].chunk, s.chunks[s.writers[w].chunk].data))
    && (forall i | i in s.subs :: GotOk(s, s.subs[i]))
  }

  ghost predicate Inv(s: State) {
    RefsExact(s) && PlacesOk(s) && ListOk(s) && DataOk(s)
  }

  // ----- counting -----

  lemma {:induction false} CountPush(queue: seq<nat>, d: nat, c: nat)
    ensures Count(queue + [d], c) == Count(queue, c) + if c == d then 1 else 0
    decreases |queue|
  {
    if queue == [] {
      assert [d][1..] == [];
    } else {
      assert (queue + [d])[1..] == queue[1..] + [d];
      CountPush(queue[1..], d, c);
    }
  }

  lemma SubChange(s: State, i: nat, sub: Subscriber, c: nat)
    requires i in s.subs
    ensures Sum(SubMap(s.subs[i := sub], c)) == Sum(SubMap(s.subs, c)) - SubRefs(s.subs[i], c) + SubRefs(sub, c)
  {
    hide SubRefs;
    SumPick(SubMap(s.subs, c), i);
    SumPut(SubMap(s.subs, c), i, SubRefs(sub, c));
    assert SubMap(s.subs[i := sub], c) == SubMap(s.subs, c)[i := SubRefs(sub, c)];
  }

  lemma WriterChange(s: State, w: nat, writer: Writer, c: nat)
    requires w in s.writers
    ensures Sum(WriterMap(s.writers[w := writer], c)) == Sum(WriterMap(s.writers, c)) - WriterRefs(s.writers[w], c) + WriterRefs(writer, c)
  {
    hide WriterRefs;
    SumPick(WriterMap(s.writers, c), w);
    SumPut(WriterMap(s.writers, c), w, WriterRefs(writer, c));
    assert WriterMap(s.writers[w := writer], c) == WriterMap(s.writers, c)[w := WriterRefs(writer, c)];
  }

  lemma SubBound(s: State, i: nat, c: nat)
    requires i in s.subs
    ensures SubRefs(s.subs[i], c) <= References(s, c)
  {
    SumBound(SubMap(s.subs, c), i);
  }

  lemma WriterBound(s: State, w: nat, c: nat)
    requires w in s.writers
    ensures WriterRefs(s.writers[w], c) <= References(s, c)
  {
    SumBound(WriterMap(s.writers, c), w);
  }

  lemma NewSub(s: State, i: nat, sub: Subscriber, c: nat)
    requires i !in s.subs && SubRefs(sub, c) == 0
    ensures Sum(SubMap(s.subs[i := sub], c)) == Sum(SubMap(s.subs, c))
  {
    SumPut(SubMap(s.subs, c), i, 0);
    assert SubMap(s.subs, c) - {i} == SubMap(s.subs, c);
    assert SubMap(s.subs[i := sub], c) == SubMap(s.subs, c)[i := 0];
  }

  // ----- the counters stay exact -----

  /** One subscriber and one writer change, and the counter changes by as much as they do. */
  predicate Balanced(s: State, t: State, i: nat, w: nat, c: nat)
    requires i in s.subs && i in t.subs && w in s.writers && w in t.writers
  {
    RefsOf(t, c) - RefsOf(s, c)
    == SubRefs(t.subs[i], c) - SubRefs(s.subs[i], c) + WriterRefs(t.writers[w], c) - WriterRefs(s.writers[w], c)
  }

  lemma SubStep(s: State, t: State, i: nat, c: nat)
    requires Exact(s, c) && i in s.subs && i in t.subs && t.subs == s.subs[i := t.subs[i]] && t.writers == s.writers
    requires RefsOf(t, c) - RefsOf(s, c) == SubRefs(t.subs[i], c) - SubRefs(s.subs[i], c)
    ensures Exact(t, c)
  {
    hide SubRefs, RefsOf;
    SubChange(s, i, t.subs[i], c);
  }

  lemma WriterStep(s: State, t: State, w: nat, c: nat)
    requires Exact(s, c) && w in s.writers && w in t.writers && t.writers == s.writers[w := t.writers[w]] && t.subs == s.subs
    requires RefsOf(t, c) - RefsOf(s, c) == WriterRefs(t.writers[w], c) - WriterRefs(s.writers[w], c)
    ensures Exact(t, c)
  {
    hide WriterRefs, RefsOf;
    WriterChange(s, w, t.writers[w], c);
  }

  lemma BothStep(s: State, t: State, i: nat, w: nat, c: nat)
    requires Exact(s, c) && i in s.subs && i in t.subs && t.subs == s.subs[i := t.subs[i]]
    requires w in s.writers && w in t.writers && t.writers == s.writers[w := t.writers[w]]
    requires Balanced(s, t, i, w, c)
    ensures Exact(t, c)
  {
    hide SubRefs, WriterRefs, RefsOf;
    SubChange(s, i, t.subs[i], c);
    WriterChange(s, w, t.writers[w], c);
  }

  lemma WriterStepsExact(s: State, step: Step, c: nat)
    requires Exact(s, c) && Enabled(s, step) && (step.Get? || step.Fill? || step.Finish?)
    ensures Exact(Apply(s, step), c)
  {
    hide Exact;
    WriterStep(s, Apply(s, step), step.writer, c);
  }

  lemma StoreRefsExact(s: State, w: nat, c: nat)
    requires Exact(s, c) && PlacesOk(s) && Enabled(s, StoreRefs(w))
    ensures Exact(Apply(s, StoreRefs(w)), c)
  {
    hide Exact;
    assert Owns(s.writers[w], s.writers[w].chunk);
    WriterStep(s, Apply(s, StoreRefs(w)), w, c);
  }

  lemma ReleaseExact(s: State, step: Step, c: nat)
    requires Exact(s, c) && Enabled(s, step) && (step.ReleaseDropped? || step.ReleaseRefused?)
    ensures Exact(Apply(s, step), c)
  {
    hide Exact;
    WriterStep(s, Apply(s, step), step.writer, c);
  }

  lemma TrySendExact(s: State, w: nat, c: nat)
    requires Exact(s, c) && Enabled(s, TrySend(w))
    ensures Exact(Apply(s, TrySend(w)), c)
  {
    hide Exact, Count;
    var target := s.writers[w].rest[0];
    CountPush(s.subs[target].queue, s.writers[w].chunk, c);
    BothStep(s, Apply(s, TrySend(w)), target, w, c);
  }

  lemma TryDropExact(s: State, w: nat, c: nat)
    requires Exact(s, c) && Enabled(s, TryDrop(w))
    ensures Exact(Apply(s, TryDrop(w)), c)
  {
    hide Exact;
    BothStep(s, Apply(s, TryDrop(w)), s.writers[w].rest[0], w, c);
  }

  lemma TryAgainExact(s: State, w: nat, c: nat)
    requires Exact(s, c) && Enabled(s, TryAgain(w))
    ensures Exact(Apply(s, TryAgain(w)), c)
  {
    hide Exact, Count;
    var target := s.writers[w].rest[0];
    CountPush(s.subs[target].queue, s.writers[w].chunk, c);
    BothStep(s, Apply(s, TryAgain(w)), target, w, c);
  }

  lemma WorkerStepsExact(s: State, step: Step, c: nat)
    requires Exact(s, c) && Enabled(s, step)
    requires step.Receive? || step.Deliver? || step.ReleaseWritten? || step.EndOfChannel? || step.DrainTake? || step.DrainRelease? || step.DrainEnd?
    ensures Exact(Apply(s, step), c)
  {
    hide Exact;
    SubStep(s, Apply(s, step), step.sub, c);
  }

  lemma DetachExact(s: State, i: nat, c: nat)
    requires Exact(s, c) && i in s.subs
    ensures Exact(Detached(s, i), c)
  {
    hide References;
    if i in s.list { SubStep(s, Detached(s, i), i, c); } else { SameReferences(s, Detached(s, i), c); }
  }

  lemma SameReferences(s: State, t: State, c: nat)
    requires Exact(s, c) && t.subs == s.subs && t.writers == s.writers && RefsOf(s, c) == RefsOf(t, c)
    ensures Exact(t, c)
  {
  }

  lemma QuietStepsExact(s: State, step: Step, c: nat)
    requires Exact(s, c) && Enabled(s, step) && (step.Put? || step.Forget? || step.CloseTake?)
    ensures Exact(Apply(s, step), c)
  {
    hide Exact;
    SameReferences(s, Apply(s, step), c);
  }

  lemma LockedStepsExact(s: State, step: Step, c: nat)
    requires Exact(s, c) && Enabled(s, step)
    requires step.OnError? || step.Attach? || step.Detach? || step.CloseChannel?
    ensures Exact(Apply(s, step), c)
  {
    hide References, Without;
    var t := Apply(s, step);
    match step {
      case OnError(i) => DetachExact(s, i, c); SubStep(Detached(s, i), t, i, c);
      case Attach(i) => NewSubExact(s, i, c);
      case Detach(i) => DetachExact(s, i, c);
      case CloseChannel(i) => SubStep(s, t, i, c);
    }
  }

  lemma NewSubExact(s: State, i: nat, c: nat)
    requires Exact(s, c) && Enabled(s, Attach(i))
    ensures Exact(Apply(s, Attach(i)), c)
  {
    NewSub(s, i, Apply(s, Attach(i)).subs[i], c);
  }

  lemma StepExact(s: State, step: Step)
    requires Inv(s) && Enabled(s, step)
    ensures RefsExact(Apply(s, step))
  {
    hide PlacesOk, ListOk, DataOk, Apply, Exact, Enabled;
    forall c: nat
      ensures Exact(Apply(s, step), c)
    {
      assert Exact(s, c);
      match step {
        case Get(_, _, _) => WriterStepsExact(s, step, c);
        case Fill(_) => WriterStepsExact(s, step, c);
        case Finish(_) => WriterStepsExact(s, step, c);
        case StoreRefs(w) => StoreRefsExact(s, w, c);
        case ReleaseDropped(_) => ReleaseExact(s, step, c);
        case ReleaseRefused(_) => ReleaseExact(s, step, c);
        case TrySend(w) => TrySendExact(s, w, c);
        case TryDrop(w) => TryDropExact(s, w, c);
        case TryAgain(w) => TryAgainExact(s, w, c);
        case OnError(_) => LockedStepsExact(s, step, c);
        case Attach(_) => LockedStepsExact(s, step, c);
        case Detach(_) => LockedStepsExact(s, step, c);
        case CloseChannel(_) => LockedStepsExact(s, step, c);
        case Put(_) => QuietStepsExact(s, step, c);
        case Forget(_) => QuietStepsExact(s, step, c);
        case CloseTake => QuietStepsExact(s, step, c);
        case _ => WorkerStepsExact(s, step, c);
      }
    }
  }

  // ----- every chunk stays in one place -----

  lemma HeldBySub(s: State, i: nat, c: nat)
    requires Exact(s, c) && i in s.subs && SubRefs(s.subs[i], c) > 0
    ensures c in s.chunks && s.chunks[c].refs > 0
  {
    hide SubRefs;
    SubBound(s, i, c);
  }

  lemma HeldByWriter(s: State, w: nat, c: nat)
    requires Exact(s, c) && w in s.writers && WriterRefs(s.writers[w], c) > 0
    ensures c in s.chunks && s.chunks[c].refs > 0
  {
    hide WriterRefs;
    WriterBound(s, w, c);
  }

  /** Giving up a reference to a chunk that is referenced. */
  lemma DecrementPlaces(s: State, c: nat)
    requires PlacesOk(s) && c in s.chunks && s.chunks[c].refs > 0
    ensures PlacesOk(Decrement(s, c))
  {
  }

  /** Places do not depend on subscribers, and only on which writers own chunks. */
  lemma SamePlaces(s: State, t: State)
    requires PlacesOk(s) && t.chunks == s.chunks && t.pool == s.pool && t.freeing == s.freeing
    requires t.writers.Keys == s.writers.Keys
    requires forall w, c | w in s.writers && Owns(t.writers[w], c) :: Owns(s.writers[w], c)
    ensures PlacesOk(t)
  {
  }

  lemma GetPlaces(s: State, w: nat, p: Bytes, c: nat)
    requires PlacesOk(s) && Enabled(s, Get(w, p, c))
    ensures PlacesOk(Apply(s, Get(w, p, c)))
  {
  }

  lemma StorePlaces(s: State, w: nat)
    requires PlacesOk(s) && Enabled(s, StoreRefs(w))
    ensures PlacesOk(Apply(s, StoreRefs(w)))
  {
    var t := Apply(s, StoreRefs(w));
    assert Owns(s.writers[w], s.writers[w].chunk);
    forall v, d | v in t.writers && Owns(t.writers[v], d)
      ensures d != s.writers[w].chunk
    {
      assert Owns(s.writers[v], d);
    }
  }

  lemma FillPlaces(s: State, w: nat)
    requires PlacesOk(s) && Enabled(s, Fill(w))
    ensures PlacesOk(Apply(s, Fill(w)))
  {
    var t := Apply(s, Fill(w));
    forall v, d | v in t.writers && Owns(t.writers[v], d)
      ensures Owns(s.writers[v], d)
    {
    }
  }

  lemma ReleasePlaces(s: State, step: Step)
    requires Inv(s) && Enabled(s, step)
    requires step.ReleaseDropped? || step.ReleaseRefused? || step.ReleaseWritten? || step.DrainRelease?
    ensures PlacesOk(Apply(s, step))
  {
    hide DataOk, ListOk, PlacesOk, RefsExact;
    var c := match step
             case ReleaseDropped(w) => s.writers[w].dropped
             case ReleaseRefused(w) => s.writers[w].chunk
             case ReleaseWritten(i) => s.subs[i].worker.chunk
             case DrainRelease(i) => s.subs[i].worker.chunk;
    ExactAt(s, c);
    if step.ReleaseDropped? || step.ReleaseRefused? { HeldByWriter(s, step.writer, c); } else { HeldBySub(s, step.sub, c); }
    DecrementPlaces(s, c);
    SamePlaces(Decrement(s, c), Apply(s, step));
  }

  lemma ExactAt(s: State, c: nat)
    requires RefsExact(s)
    ensures Exact(s, c)
  {
  }

  lemma PoolPlaces(s: State, step: Step)
    requires PlacesOk(s) && Enabled(s, step) && (step.Put? || step.Forget?)
    ensures PlacesOk(Apply(s, step))
  {
  }

  lemma DetachedSame(s: State, i: nat)
    requires i in s.subs
    ensures var t := Detached(s, i);
            t.chunks == s.chunks && t.pool == s.pool && t.freeing == s.freeing && t.writers == s.writers && t.sent == s.sent
            && t.subs.Keys == s.subs.Keys && t.closing == s.closing
  {
  }

  lemma StepPlaces(s: State, step: Step)
    requires Inv(s) && Enabled(s, step)
    ensures PlacesOk(Apply(s, step))
  {
    hide DataOk, ListOk, PlacesOk, RefsExact, Without;
    match step {
      case Get(w, p, c) => GetPlaces(s, w, p, c);
      case Fill(w) => FillPlaces(s, w);
      case StoreRefs(w) => StorePlaces(s, w);
      case ReleaseDropped(_) => ReleasePlaces(s, step);
      case ReleaseRefused(_) => ReleasePlaces(s, step);
      case ReleaseWritten(_) => ReleasePlaces(s, step);
      case DrainRelease(_) => ReleasePlaces(s, step);
      case Put(_) => PoolPlaces(s, step);
      case Forget(_) => PoolPlaces(s, step);
      case OnError(i) => DetachedSame(s, i); SamePlaces(s, Apply(s, step));
      case Detach(i) => DetachedSame(s, i); SamePlaces(s, Apply(s, step));
      case _ => SamePlaces(s, Apply(s, step));
    }
  }

  // ----- listed subscribers are open -----

  lemma {:induction false} WithoutIs(list: seq<nat>, i: nat)
    requires Distinct(list)
    ensures Distinct(Without(list, i)) && i !in Without(list, i)
    ensures forall j :: j in Without(list, i) <==> j in list && j != i
    decreases |list|
  {
    if list != [] {
      assert Distinct(list[1..]);
      WithoutIs(list[1..], i);
      assert forall j :: j in list <==> j == list[0] || j in list[1..];
      assert list[0] !in list[1..];
    }
  }

  lemma DetachList(s: State, i: nat)
    requires ListOk(s) && i in s.subs && NoWriterActive(s)
    ensures ListOk(Detached(s, i)) && i !in Detached(s, i).list
  {
    WithoutIs(s.list, i);
    var t := Detached(s, i);
    forall w | w in t.writers
      ensures RestOk(t, t.writers[w])
    {
      assert s.writers[w].Resting?;
    }
  }

  /** A subscriber changes without being closed, or is not listed. */
  lemma SubList(s: State, t: State, i: nat)
    requires ListOk(s) && i in s.subs && i in t.subs && t.subs == s.subs[i := t.subs[i]]
    requires t.list == s.list && t.closing <= s.closing && t.writers == s.writers
    requires i in s.list ==> !t.subs[i].closed && !Leaving(t.subs[i].worker)
    requires t.subs[i].worker.Done? ==> t.subs[i].queue == []
    ensures ListOk(t)
  {
    forall w | w in t.writers
      ensures RestOk(t, t.writers[w])
    {
      assert RestOk(s, s.writers[w]);
    }
    forall j | j in t.list
      ensures Listed(t, j)
    {
      assert Listed(s, j);
    }
  }

  lemma WriterList(s: State, t: State, w: nat)
    requires ListOk(s) && w in s.writers && w in t.writers && t.writers == s.writers[w := t.writers[w]]
    requires t.list == s.list && t.closing == s.closing && t.subs == s.subs
    requires RestOk(s, t.writers[w])
    ensures ListOk(t)
  {
    forall v | v in t.writers
      ensures RestOk(t, t.writers[v])
    {
      assert RestOk(s, s.writers[v]);
    }
    forall j | j in t.list
      ensures Listed(t, j)
    {
      assert Listed(s, j);
    }
  }

  lemma SendTarget(s: State, w: nat)
    requires ListOk(s) && w in s.writers && Rest(s.writers[w]) != []
    ensures Rest(s.writers[w])[0] in s.list && Listed(s, Rest(s.writers[w])[0])
  {
    assert RestOk(s, s.writers[w]);
    assert Rest(s.writers[w])[0] in Rest(s.writers[w]);
  }

  lemma RestOf(s: State, w: nat)
    requires ListOk(s) && w in s.writers
    ensures RestOk(s, s.writers[w])
  {
  }

  lemma SendList(s: State, step: Step)
    requires ListOk(s) && Enabled(s, step) && (step.TrySend? || step.TryDrop? || step.TryAgain?)
    ensures ListOk(Apply(s, step))
  {
    hide ListOk;
    var w := step.writer;
    var i := s.writers[w].rest[0];
    SendTarget(s, w);
    RestOf(s, w);
    var t := Apply(s, step);
    var u := s.(subs := t.subs);
    if u.subs != s.subs { SubList(s, u, i); } else { assert u == s; }
    WriterList(u, t, w);
  }

  lemma StepList(s: State, step: Step)
    requires ListOk(s) && Enabled(s, step)
    ensures ListOk(Apply(s, step))
  {
    hide ListOk, Without;
    var t := Apply(s, step);
    match step {
      case Get(w, _, _) => RestOf(s, w); WriterList(s, t, w);
      case Fill(w) => WriterList(s, t, w);
      case StoreRefs(w) => WriterList(s, t, w);
      case TrySend(_) => SendList(s, step);
      case TryDrop(_) => SendList(s, step);
      case TryAgain(_) => SendList(s, step);
      case ReleaseDropped(w) => RestOf(s, w); WriterList(s, t, w);
      case ReleaseRefused(w) => RestOf(s, w); WriterList(s, t, w);
      case Finish(w) => WriterList(s, t, w);
      case OnError(i) => DetachList(s, i); SubList(Detached(s, i), t, i);
      case Detach(i) => DetachList(s, i);
      case Attach(i) => AttachList(s, i);
      case CloseTake => CloseList(s);
      case CloseChannel(i) => NotListed(s, i); SubList(s, t, i);
      case Put(_) => SameList(s, t);
      case Forget(_) => SameList(s, t);
      case _ => WorkerList(s, step);
    }
  }

  lemma SameList(s: State, t: State)
    requires ListOk(s) && t.subs == s.subs && t.list == s.list && t.closing == s.closing && t.writers == s.writers
    ensures ListOk(t)
  {
    forall v | v in t.writers
      ensures RestOk(t, t.writers[v])
    {
      assert RestOk(s, s.writers[v]);
    }
    forall j | j in t.list
      ensures Listed(t, j)
    {
      assert Listed(s, j);
    }
  }

  lemma NotListed(s: State, i: nat)
    requires ListOk(s) && i in s.subs
    ensures s.subs[i].closed || Leaving(s.subs[i].worker) || i in s.closing ==> i !in s.list
    ensures s.subs[i].worker.Done? ==> s.subs[i].queue == []
  {
  }

  lemma WorkerList(s: State, step: Step)
    requires ListOk(s) && Enabled(s, step)
    requires step.Receive? || step.Deliver? || step.ReleaseWritten? || step.EndOfChannel? || step.DrainTake? || step.DrainRelease? || step.DrainEnd?
    ensures ListOk(Apply(s, step))
  {
    hide ListOk;
    NotListed(s, step.sub);
    var t := Apply(s, step);
    SubList(s, t, step.sub);
  }

  lemma AttachList(s: State, i: nat)
    requires ListOk(s) && Enabled(s, Attach(i))
    ensures ListOk(Apply(s, Attach(i)))
  {
    var t := Apply(s, Attach(i));
    forall a | 0 <= a < |s.list|
      ensures s.list[a] != i
    {
      assert Listed(s, s.list[a]);
    }
    forall w | w in t.writers
      ensures RestOk(t, t.writers[w])
    {
      assert s.writers[w].Resting?;
    }
    forall j | j in t.list
      ensures Listed(t, j)
    {
      if j != i { assert Listed(s, j); }
    }
  }

  lemma CloseList(s: State)
    requires ListOk(s) && NoWriterActive(s)
    ensures ListOk(Apply(s, CloseTake))
  {
    var t := Apply(s, CloseTake);
    forall w | w in t.writers
      ensures RestOk(t, t.writers[w])
    {
      assert s.writers[w].Resting?;
    }
    forall i | i in t.closing
      ensures i in t.subs
    {
      if i in s.list { assert Listed(s, i); }
    }
  }

  // ----- bytes -----

  /** Chunks may lose references; whoever is filled or referenced keeps its bytes. */
  lemma SameData(s: State, t: State)
    requires DataOk(s) && t.sent == s.sent && t.subs == s.subs
    requires t.chunks.Keys == s.chunks.Keys
    requires forall c | c in t.chunks :: t.chunks[c].message == s.chunks[c].message
    requires forall c | c in t.chunks && t.chunks[c].refs > 0 :: s.chunks[c].refs > 0 && t.chunks[c].data == s.chunks[c].data
    requires t.writers.Keys == s.writers.Keys
    requires forall w | w in t.writers && (t.writers[w].Filling? || t.writers[w].Filled?) :: t.writers[w] == s.writers[w]
    requires forall w | w in t.writers && t.writers[w].Filled? && t.writers[w].chunk in t.chunks ::
               t.chunks[t.writers[w].chunk].data == s.chunks[t.writers[w].chunk].data
    ensures DataOk(t)
  {
    forall i | i in t.subs
      ensures GotOk(t, t.subs[i])
    {
      assert GotOk(s, s.subs[i]);
    }
  }

  lemma SubData(s: State, t: State, i: nat)
    requires DataOk(s) && t.sent == s.sent && t.chunks == s.chunks && t.writers == s.writers
    requires i in t.subs && t.subs == s.subs[i := t.subs[i]] && GotOk(t, t.subs[i])
    ensures DataOk(t)
  {
    forall j | j in t.subs
      ensures GotOk(t, t.subs[j])
    {
      if j != i { assert GotOk(s, s.subs[j]); }
    }
  }

  lemma SubGot(s: State, i: nat)
    requires DataOk(s) && i in s.subs
    ensures GotOk(s, s.subs[i])
  {
  }

  lemma GetData(s: State, w: nat, p: Bytes, c: nat)
    requires DataOk(s) && PlacesOk(s) && Enabled(s, Get(w, p, c))
    ensures DataOk(Apply(s, Get(w, p, c)))
  {
    var t := Apply(s, Get(w, p, c));
    forall v | v in t.writers && (t.writers[v].Filling? || t.writers[v].Filled?) && v != w
      ensures t.writers[v].chunk != c && t.writers[v].chunk in s.chunks
    {
      assert Owns(s.writers[v], s.writers[v].chunk);
    }
    forall i | i in t.subs
      ensures GotOk(t, t.subs[i])
    {
      assert GotOk(s, s.subs[i]);
    }
  }

  lemma FillData(s: State, w: nat)
    requires DataOk(s) && PlacesOk(s) && Enabled(s, Fill(w))
    ensures DataOk(Apply(s, Fill(w)))
  {
    var t := Apply(s, Fill(w));
    assert Owns(s.writers[w], s.writers[w].chunk);
    forall v | v in t.writers && (t.writers[v].Filling? || t.writers[v].Filled?) && v != w
      ensures t.writers[v].chunk != s.writers[w].chunk
    {
      assert Owns(s.writers[v], s.writers[v].chunk);
    }
    forall i | i in t.subs
      ensures GotOk(t, t.subs[i])
    {
      assert GotOk(s, s.subs[i]);
    }
  }

  lemma StoreData(s: State, w: nat)
    requires DataOk(s) && PlacesOk(s) && Enabled(s, StoreRefs(w))
    ensures DataOk(Apply(s, StoreRefs(w)))
  {
    var t := Apply(s, StoreRefs(w));
    assert Owns(s.writers[w], s.writers[w].chunk);
    forall i | i in t.subs
      ensures GotOk(t, t.subs[i])
    {
      assert GotOk(s, s.subs[i]);
    }
  }

  lemma PutData(s: State, c: nat)
    requires DataOk(s) && PlacesOk(s) && Enabled(s, Put(c))
    ensures DataOk(Apply(s, Put(c)))
  {
    var t := Apply(s, Put(c));
    assert RefsOf(s, c) == 0;
    forall w | w in t.writers && (t.writers[w].Filling? || t.writers[w].Filled?)
      ensures t.writers[w].chunk != c
    {
      assert Owns(s.writers[w], s.writers[w].chunk);
    }
    SameData(s, t);
  }

  lemma DeliverData(s: State, i: nat, ok: bool)
    requires Inv(s) && Enabled(s, Deliver(i, ok))
    ensures DataOk(Apply(s, Deliver(i, ok)))
  {
    hide PlacesOk, ListOk;
    var c := s.subs[i].worker.chunk;
    assert Exact(s, c);
    HeldBySub(s, i, c);
    assert Carries(s, c, s.chunks[c].data);
    SubGot(s, i);
    SubData(s, Apply(s, Deliver(i, ok)), i);
  }

  lemma SendData(s: State, step: Step)
    requires DataOk(s) && Enabled(s, step) && (step.TrySend? || step.TryDrop? || step.TryAgain?)
    ensures DataOk(Apply(s, step))
  {
    hide DataOk;
    var i := s.writers[step.writer].rest[0];
    SubGot(s, i);
    var t := Apply(s, step);
    var u := s.(subs := t.subs);
    if u.subs != s.subs { SubData(s, u, i); } else { assert u == s; }
    SameData(u, t);
  }

  lemma DecrementData(s: State, c: nat)
    requires DataOk(s) && c in s.chunks
    ensures DataOk(Decrement(s, c))
  {
    SameData(s, Decrement(s, c));
  }

  lemma DetachData(s: State, i: nat)
    requires DataOk(s) && i in s.subs
    ensures DataOk(Detached(s, i))
  {
    SubGot(s, i);
    if i in s.list { SubData(s, Detached(s, i), i); }
  }

  lemma AttachData(s: State, i: nat)
    requires DataOk(s) && Enabled(s, Attach(i))
    ensures DataOk(Apply(s, Attach(i)))
  {
    SubData(s, Apply(s, Attach(i)), i);
  }

  lemma ReleaseDroppedData(s: State, w: nat)
    requires DataOk(s) && Enabled(s, ReleaseDropped(w))
    ensures DataOk(Apply(s, ReleaseDropped(w)))
  {
    hide DataOk;
    DecrementData(s, s.writers[w].dropped);
    SameData(Decrement(s, s.writers[w].dropped), Apply(s, ReleaseDropped(w)));
  }

  lemma ReleaseRefusedData(s: State, w: nat)
    requires DataOk(s) && Enabled(s, ReleaseRefused(w))
    ensures DataOk(Apply(s, ReleaseRefused(w)))
  {
    hide DataOk;
    DecrementData(s, s.writers[w].chunk);
    SameData(Decrement(s, s.writers[w].chunk), Apply(s, ReleaseRefused(w)));
  }

  lemma QuietData(s: State, step: Step)
    requires DataOk(s) && Enabled(s, step) && (step.Finish? || step.Forget? || step.CloseTake?)
    ensures DataOk(Apply(s, step))
  {
    hide DataOk;
    SameData(s, Apply(s, step));
  }

  lemma StepData(s: State, step: Step)
    requires Inv(s) && Enabled(s, step)
    ensures DataOk(Apply(s, step))
  {
    hide RefsExact, PlacesOk, ListOk, DataOk, Apply, Enabled;
    match step {
      case Get(w, p, c) => GetData(s, w, p, c);
      case Fill(w) => FillData(s, w);
      case StoreRefs(w) => StoreData(s, w);
      case TrySend(_) => SendData(s, step);
      case TryDrop(_) => SendData(s, step);
      case TryAgain(_) => SendData(s, step);
      case ReleaseDropped(w) => ReleaseDroppedData(s, w);
      case ReleaseRefused(w) => ReleaseRefusedData(s, w);
      case Finish(w) => QuietData(s, step);
      case Deliver(i, ok) => DeliverData(s, i, ok);
      case Put(c) => PutData(s, c);
      case Forget(_) => QuietData(s, step);
      case CloseTake => QuietData(s, step);
      case Attach(i) => AttachData(s, i);
      case Detach(i) => IsDetached(s, i); DetachData(s, i);
      case ReleaseWritten(i) => LetGoData(s, step);
      case DrainRelease(i) => LetGoData(s, step);
      case OnError(i) => OnErrorData(s, i);
      case _ => SubStepData(s, step);
    }
  }

  lemma IsDetached(s: State, i: nat)
    requires Enabled(s, Detach(i))
    ensures i in s.subs && Apply(s, Detach(i)) == Detached(s, i)
  {
  }

  lemma LetGoData(s: State, step: Step)
    requires DataOk(s) && Enabled(s, step) && (step.ReleaseWritten? || step.DrainRelease?)
    ensures DataOk(Apply(s, step))
  {
    hide DataOk;
    var i := step.sub;
    SubGot(s, i);
    var u := Decrement(s, s.subs[i].worker.chunk);
    DecrementData(s, s.subs[i].worker.chunk);
    SubData(u, Apply(s, step), i);
  }

  lemma OnErrorData(s: State, i: nat)
    requires DataOk(s) && Enabled(s, OnError(i))
    ensures DataOk(Apply(s, OnError(i)))
  {
    hide DataOk, Without;
    DetachData(s, i);
    SubGot(Detached(s, i), i);
    SubData(Detached(s, i), Apply(s, OnError(i)), i);
  }

  lemma SubStepData(s: State, step: Step)
    requires DataOk(s) && Enabled(s, step)
    requires step.Receive? || step.EndOfChannel? || step.DrainTake? || step.DrainEnd? || step.CloseChannel?
    ensures DataOk(Apply(s, step))
  {
    hide DataOk;
    SubGot(s, step.sub);
    SubData(s, Apply(s, step), step.sub);
  }

  // ----- every run -----

  lemma StepKeepsInv(s: State, step: Step)
    requires Inv(s) && Enabled(s, step)
    ensures Inv(Apply(s, step))
  {
    hide RefsExact, PlacesOk, ListOk, DataOk, Apply;
    StepExact(s, step);
    StepPlaces(s, step);
    StepList(s, step);
    StepData(s, step);
  }

  lemma InitInv(s: State)
    requires IsInit(s)
    ensures Inv(s)
  {
    forall c: nat
      ensures Exact(s, c)
    {
      assert SubMap(s.subs, c) == map[];
      SumZero(WriterMap(s.writers, c));
    }
  }

  ghost predicate IsRun(s: State, steps: seq<Step>, t: State)
    decreases |steps|
  {
    if steps == [] then s == t else Enabled(s, steps[0]) && IsRun(Apply(s, steps[0]), steps[1..], t)
  }

  /** Whatever writers, workers, Attach, Detach and Close do in between each other. */
  lemma {:induction false} RunsKeepInv(s: State, steps: seq<Step>, t: State)
    requires Inv(s) && IsRun(s, steps, t)
    ensures Inv(t)
    decreases |steps|
  {
    hide Inv, Enabled, Apply;
    if steps != [] {
      StepKeepsInv(s, steps[0]);
      RunsKeepInv(Apply(s, steps[0]), steps[1..], t);
    }
  }

  // ----- what the invariant gives -----

  /** No send meets a closed channel: writers only ever send to open ones. */
  lemma NoSendOnClosedChannel(s: State, w: nat)
    requires Inv(s) && w in s.writers && (s.writers[w].Sending? || s.writers[w].Retrying?) && s.writers[w].rest != []
    ensures s.writers[w].rest[0] in s.subs && !s.subs[s.writers[w].rest[0]].closed
  {
    hide RefsExact, PlacesOk, DataOk;
    SendTarget(s, w);
  }

  /** A chunk is returned by the one that takes its last reference, and was not returned before. */
  lemma ReturnedOnce(s: State, c: nat)
    requires Inv(s) && c in s.chunks && References(s, c) == 1
    ensures c !in s.pool && c !in s.freeing
    ensures var t := Decrement(s, c);
            c in t.freeing && t.chunks[c].refs == 0
  {
    hide DataOk, ListOk, References;
    assert Exact(s, c);
  }

  /** Nothing is ever taken out of the pool, or put into it, that someone still refers to. */
  lemma PoolIsUnreferenced(s: State, c: nat)
    requires Inv(s) && (c in s.pool || c in s.freeing)
    ensures References(s, c) == 0
    ensures forall i | i in s.subs :: c !in s.subs[i].queue && Holds(s.subs[i].worker, c) == 0
  {
    hide DataOk, ListOk, References;
    assert Exact(s, c);
    forall i | i in s.subs
      ensures c !in s.subs[i].queue && Holds(s.subs[i].worker, c) == 0
    {
      SubBound(s, i, c);
      CountIn(s.subs[i].queue, c);
    }
  }

  lemma {:induction false} CountIn(queue: seq<nat>, c: nat)
    ensures c in queue ==> Count(queue, c) > 0
    decreases |queue|
  {
    if queue != [] { CountIn(queue[1..], c); }
  }

  /** Every delivery to a subscriber is the bytes of a message that was written. */
  lemma DeliveredIsWritten(s: State, i: nat, k: nat)
    requires Inv(s) && i in s.subs && k < |s.subs[i].got|
    ensures var d := s.subs[i].got[k];
            d.message < |s.sent| && d.bytes == s.sent[d.message]
  {
    hide RefsExact, PlacesOk, ListOk;
    SubGot(s, i);
    assert s.subs[i].got[k] in s.subs[i].got;
  }

  /** A writer in the middle of Write, and a worker in the middle of run, can always go on. */
  lemma NobodyIsStuck(s: State)
    requires Inv(s)
    ensures forall w | w in s.writers && !s.writers[w].Resting? :: exists step :: Enabled(s, step) && ActsFor(s, step, w)
    ensures forall i | i in s.subs && (s.subs[i].worker.Writing? || s.subs[i].worker.Wrote? || s.subs[i].worker.Draining? || s.subs[i].worker.DrainHolds?) ::
              exists step :: Enabled(s, step) && WorksFor(step, i)
  {
    hide DataOk, References;
    forall w | w in s.writers && !s.writers[w].Resting?
      ensures exists step :: Enabled(s, step) && ActsFor(s, step, w)
    {
      WriterGoesOn(s, w);
    }
    forall i | i in s.subs && (s.subs[i].worker.Writing? || s.subs[i].worker.Wrote? || s.subs[i].worker.Draining? || s.subs[i].worker.DrainHolds?)
      ensures exists step :: Enabled(s, step) && WorksFor(step, i)
    {
      WorkerGoesOn(s, i);
    }
  }

  predicate ActsFor(s: State, step: Step, w: nat) {
    match step
    case Fill(v) => v == w
    case StoreRefs(v) => v == w
    case TrySend(v) => v == w
    case TryDrop(v) => v == w
    case ReleaseDropped(v) => v == w
    case TryAgain(v) => v == w
    case ReleaseRefused(v) => v == w
    case Finish(v) => v == w
    case _ => false
  }

  predicate WorksFor(step: Step, i: nat) {
    match step
    case Deliver(j, _) => i == j
    case ReleaseWritten(j) => i == j
    case DrainTake(j) => i == j
    case DrainRelease(j) => i == j
    case DrainEnd(j) => i == j
    case _ => false
  }

  lemma WriterGoesOn(s: State, w: nat)
    requires Inv(s) && w in s.writers && !s.writers[w].Resting?
    ensures exists step :: Enabled(s, step) && ActsFor(s, step, w)
  {
    hide DataOk, References, ListOk;
    RestOf(s, w);
    if Rest(s.writers[w]) != [] { SendTarget(s, w); }
    var writer := s.writers[w];
    var step := match writer
                case Filling(c, _) => Fill(w)
                case Filled(c) => StoreRefs(w)
                case Sending(_, rest) => if rest == [] then Finish(w) else TrySend(w)
                case Full(_, _) => TryDrop(w)
                case Dropping(_, _, _) => ReleaseDropped(w)
                case Retrying(_, _) => TryAgain(w)
                case Refused(_, _) => ReleaseRefused(w)
                case Resting => Finish(w);
    if writer.Filling? || writer.Filled? { assert Owns(writer, writer.chunk); }
    if writer.Dropping? { assert Exact(s, writer.dropped); HeldByWriter(s, w, writer.dropped); }
    if writer.Refused? { assert Exact(s, writer.chunk); HeldByWriter(s, w, writer.chunk); }
    assert Enabled(s, step) && ActsFor(s, step, w);
  }

  lemma WorkerGoesOn(s: State, i: nat)
    requires Inv(s) && i in s.subs
    requires s.subs[i].worker.Writing? || s.subs[i].worker.Wrote? || s.subs[i].worker.Draining? || s.subs[i].worker.DrainHolds?
    ensures exists step :: Enabled(s, step) && WorksFor(step, i)
  {
    hide DataOk, References, ListOk, PlacesOk;
    var worker := s.subs[i].worker;
    var step := match worker
                case Writing(_) => Deliver(i, true)
                case Wrote(_, _) => ReleaseWritten(i)
                case DrainHolds(_) => DrainRelease(i)
                case Draining => if s.subs[i].queue == [] then DrainEnd(i) else DrainTake(i)
                case Idle => Receive(i)
                case Failed => OnError(i)
                case Done => Receive(i);
    if !worker.Draining? { assert Exact(s, worker.chunk); HeldBySub(s, i, worker.chunk); }
    assert Enabled(s, step) && WorksFor(step, i);
  }

  /** When all writers rest and all workers are done, no chunk is referenced any more: none has leaked. */
  lemma NothingLeaks(s: State, c: nat)
    requires Inv(s) && c in s.chunks && NoWriterActive(s) && forall i | i in s.subs :: s.subs[i].worker.Done?
    ensures s.chunks[c].refs == 0
  {
    hide DataOk, PlacesOk;
    assert Exact(s, c);
    SumZero(SubMap(s.subs, c));
    SumZero(WriterMap(s.writers, c));
  }
}
