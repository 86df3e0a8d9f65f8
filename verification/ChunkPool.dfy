/**
 The writer of internal/util/dynamicmultiwriter.go as a protocol.  Writers hold the
 read lock while they hand one pooled chunk to every subscriber's channel; workers take
 chunks from their channels; the last holder returns a chunk to the pool.  A step is
 one atomic action: a channel operation, an atomic decrement, a pool operation, or the
 body of a section under the write lock, which needs that no writer is active.
 */
module ChunkPool {
  import opened MapSums

  type Bytes = seq<int>

  const CAPACITY: nat := 128

  datatype Chunk = Chunk(refs: int, data: Bytes, message: nat)

  /** A delivery is the number of a message, the bytes that the subscriber's writer was given, and whether it took them. */
  datatype Delivery = Delivery(message: nat, bytes: Bytes, ok: bool)

  /** Where a subscriber's goroutine is in run and drain. */
  datatype Worker = Idle | Writing(chunk: nat) | Wrote(chunk: nat, ok: bool) | Failed | Draining | DrainHolds(chunk: nat) | Done

  datatype Subscriber = Subscriber(queue: seq<nat>, closed: bool, worker: Worker, got: seq<Delivery>)

  /** Where a caller of Write is; rest are the subscribers that have not been given the chunk. */
  datatype Writer =
    | Resting
    | Filling(chunk: nat, payload: Bytes)
    | Filled(chunk: nat)
    | Sending(chunk: nat, rest: seq<nat>)
    | Full(chunk: nat, rest: seq<nat>)
    | Dropping(chunk: nat, rest: seq<nat>, dropped: nat)
    | Retrying(chunk: nat, rest: seq<nat>)
    | Refused(chunk: nat, rest: seq<nat>)

  /** freeing: the last reference is gone, and its goroutine is on the way to pool.Put. */
  datatype State = State(
    chunks: map<nat, Chunk>, pool: set<nat>, freeing: set<nat>,
    subs: map<nat, Subscriber>, list: seq<nat>, closing: set<nat>,
    writers: map<nat, Writer>, sent: seq<Bytes>)

  predicate IsInit(s: State) {
    s.chunks == map[] && s.pool == {} && s.freeing == {} && s.subs == map[] && s.list == [] && s.closing == {} && s.sent == []
    && forall w | w in s.writers :: s.writers[w] == Resting
  }

  datatype Step =
    | Get(writer: nat, payload: Bytes, chunk: nat)
    | Fill(writer: nat)
    | StoreRefs(writer: nat)
    | TrySend(writer: nat)
    | TryDrop(writer: nat)
    | ReleaseDropped(writer: nat)
    | TryAgain(writer: nat)
    | ReleaseRefused(writer: nat)
    | Finish(writer: nat)
    | Receive(sub: nat)
    | Deliver(sub: nat, ok: bool)
    | ReleaseWritten(sub: nat)
    | OnError(sub: nat)
    | EndOfChannel(sub: nat)
    | DrainTake(sub: nat)
    | DrainRelease(sub: nat)
    | DrainEnd(sub: nat)
    | Put(chunk: nat)
    | Forget(chunk: nat)
    | Attach(sub: nat)
    | Detach(sub: nat)
    | CloseTake
    | CloseChannel(sub: nat)

  predicate NoWriterActive(s: State) {
    forall w | w in s.writers :: s.writers[w].Resting?
  }

  // ----- what a step needs -----

  predicate TargetOf(s: State, rest: seq<nat>) {
    rest != [] && rest[0] in s.subs
  }

  predicate Enabled(s: State, step: Step) {
    match step
    case Get(w, p, c) => w in s.writers && s.writers[w].Resting? && s.list != [] && (c in s.pool || c !in s.chunks)
    case Fill(w) => w in s.writers && s.writers[w].Filling? && s.writers[w].chunk in s.chunks
    case StoreRefs(w) => w in s.writers && s.writers[w].Filled? && s.writers[w].chunk in s.chunks
    case TrySend(w) => w in s.writers && s.writers[w].Sending? && TargetOf(s, s.writers[w].rest)
    case TryDrop(w) => w in s.writers && s.writers[w].Full? && TargetOf(s, s.writers[w].rest)
    case ReleaseDropped(w) => w in s.writers && s.writers[w].Dropping? && s.writers[w].dropped in s.chunks
    case TryAgain(w) => w in s.writers && s.writers[w].Retrying? && TargetOf(s, s.writers[w].rest)
    case ReleaseRefused(w) => w in s.writers && s.writers[w].Refused? && s.writers[w].rest != [] && s.writers[w].chunk in s.chunks
    case Finish(w) => w in s.writers && s.writers[w].Sending? && s.writers[w].rest == []
    case Receive(i) => i in s.subs && s.subs[i].worker.Idle? && s.subs[i].queue != []
    case Deliver(i, ok) => i in s.subs && s.subs[i].worker.Writing? && s.subs[i].worker.chunk in s.chunks
    case ReleaseWritten(i) => i in s.subs && s.subs[i].worker.Wrote? && s.subs[i].worker.chunk in s.chunks
    case OnError(i) => i in s.subs && s.subs[i].worker.Failed? && NoWriterActive(s)
    case EndOfChannel(i) => i in s.subs && s.subs[i].worker.Idle? && s.subs[i].queue == [] && s.subs[i].closed
    case DrainTake(i) => i in s.subs && s.subs[i].worker.Draining? && s.subs[i].queue != []
    case DrainRelease(i) => i in s.subs && s.subs[i].worker.DrainHolds? && s.subs[i].worker.chunk in s.chunks
    case DrainEnd(i) => i in s.subs && s.subs[i].worker.Draining? && s.subs[i].queue == []
    case Put(c) => c in s.freeing && c in s.chunks
    case Forget(c) => c in s.pool
    case Attach(i) => i !in s.subs && NoWriterActive(s)
    case Detach(i) => i in s.subs && NoWriterActive(s)
    case CloseTake => NoWriterActive(s)
    case CloseChannel(i) => i in s.closing && i in s.subs
  }

  // ----- what a step does -----

  function SetWriter(s: State, w: nat, writer: Writer): State {
    s.(writers := s.writers[w := writer])
  }

  function SetSub(s: State, i: nat, sub: Subscriber): State {
    s.(subs := s.subs[i := sub])
  }

  /** The atomic decrement in release; whoever brings it to zero goes on to return the chunk. */
  function Decrement(s: State, c: nat): State
    requires c in s.chunks
  {
    var refs := s.chunks[c].refs - 1;
    s.(chunks := s.chunks[c := s.chunks[c].(refs := refs)],
       freeing := if refs == 0 then s.freeing + {c} else s.freeing)
  }

  function Push(s: State, i: nat, c: nat): State
    requires i in s.subs
  {
    SetSub(s, i, s.subs[i].(queue := s.subs[i].queue + [c]))
  }

  function Pop(s: State, i: nat): State
    requires i in s.subs && s.subs[i].queue != []
  {
    SetSub(s, i, s.subs[i].(queue := s.subs[i].queue[1..]))
  }

  function Without(list: seq<nat>, i: nat): seq<nat> {
    if list == [] then []
    else if list[0] == i then list[1..]
    else [list[0]] + Without(list[1..], i)
  }

  /** The locked part of detachSubscriber: only a subscriber that is still listed is removed and closed. */
  function Detached(s: State, i: nat): State
    requires i in s.subs
  {
    if i !in s.list then s
    else SetSub(s, i, s.subs[i].(closed := true)).(list := Without(s.list, i))
  }

  function Apply(s: State, step: Step): State
    requires Enabled(s, step)
  {
    match step
    case Get(w, p, c) =>
      var was := if c in s.chunks then s.chunks[c] else Chunk(0, [], 0);
      s.(chunks := s.chunks[c := was.(message := |s.sent|)], pool := s.pool - {c}, sent := s.sent + [p],
         writers := s.writers[w := Filling(c, p)])
    case Fill(w) =>
      var c := s.writers[w].chunk;
      s.(chunks := s.chunks[c := s.chunks[c].(data := s.writers[w].payload)], writers := s.writers[w := Filled(c)])
    case StoreRefs(w) =>
      var c := s.writers[w].chunk;
      s.(chunks := s.chunks[c := s.chunks[c].(refs := |s.list|)], writers := s.writers[w := Sending(c, s.list)])
    case TrySend(w) =>
      var c, rest := s.writers[w].chunk, s.writers[w].rest;
      if |s.subs[rest[0]].queue| < CAPACITY then SetWriter(Push(s, rest[0], c), w, Sending(c, rest[1..]))
      else SetWriter(s, w, Full(c, rest))
    case TryDrop(w) =>
      var c, rest := s.writers[w].chunk, s.writers[w].rest;
      if s.subs[rest[0]].queue != []
      then SetWriter(Pop(s, rest[0]), w, Dropping(c, rest, s.subs[rest[0]].queue[0]))
      else SetWriter(s, w, Retrying(c, rest))
    case ReleaseDropped(w) =>
      SetWriter(Decrement(s, s.writers[w].dropped), w, Retrying(s.writers[w].chunk, s.writers[w].rest))
    case TryAgain(w) =>
      var c, rest := s.writers[w].chunk, s.writers[w].rest;
      if |s.subs[rest[0]].queue| < CAPACITY then SetWriter(Push(s, rest[0], c), w, Sending(c, rest[1..]))
      else SetWriter(s, w, Refused(c, rest))
    case ReleaseRefused(w) =>
      var c, rest := s.writers[w].chunk, s.writers[w].rest;
      SetWriter(Decrement(s, c), w, Sending(c, rest[1..]))
    case Finish(w) => SetWriter(s, w, Resting)
    case Receive(i) =>
      var sub := s.subs[i];
      SetSub(s, i, sub.(queue := sub.queue[1..], worker := Writing(sub.queue[0])))
    case Deliver(i, ok) =>
      var sub, c := s.subs[i], s.subs[i].worker.chunk;
      SetSub(s, i, sub.(worker := Wrote(c, ok), got := sub.got + [Delivery(s.chunks[c].message, s.chunks[c].data, ok)]))
    case ReleaseWritten(i) =>
      var sub := s.subs[i];
      SetSub(Decrement(s, sub.worker.chunk), i, sub.(worker := if sub.worker.ok then Idle else Failed))
    case OnError(i) => var t := Detached(s, i); SetSub(t, i, t.subs[i].(worker := Draining))
    case EndOfChannel(i) => SetSub(s, i, s.subs[i].(worker := Draining))
    case DrainTake(i) =>
      var sub := s.subs[i];
      SetSub(s, i, sub.(queue := sub.queue[1..], worker := DrainHolds(sub.queue[0])))
    case DrainRelease(i) => SetSub(Decrement(s, s.subs[i].worker.chunk), i, s.subs[i].(worker := Draining))
    case DrainEnd(i) => SetSub(s, i, s.subs[i].(worker := Done))
    case Put(c) => s.(chunks := s.chunks[c := s.chunks[c].(data := [])], freeing := s.freeing - {c}, pool := s.pool + {c})
    case Forget(c) => s.(pool := s.pool - {c})
    case Attach(i) => s.(subs := s.subs[i := Subscriber([], false, Idle, [])], list := s.list + [i])
    case Detach(i) => Detached(s, i)
    case CloseTake => s.(closing := s.closing + (set i | i in s.list), list := [])
    case CloseChannel(i) => SetSub(s, i, s.subs[i].(closed := true)).(closing := s.closing - {i})
  }

  // ----- references -----

  function Count(queue: seq<nat>, c: nat): nat {
    if queue == [] then 0 else (if queue[0] == c then 1 else 0) + Count(queue[1..], c)
  }

  function Holds(worker: Worker, c: nat): nat {
    match worker
    case Writing(d) => if c == d then 1 else 0
    case Wrote(d, _) => if c == d then 1 else 0
    case DrainHolds(d) => if c == d then 1 else 0
    case _ => 0
  }

  function SubRefs(sub: Subscriber, c: nat): nat {
    Count(sub.queue, c) + Holds(sub.worker, c)
  }

  function WriterRefs(writer: Writer, c: nat): nat {
    match writer
    case Sending(d, rest) => if c == d then |rest| else 0
    case Full(d, rest) => if c == d then |rest| else 0
    case Dropping(d, rest, dropped) => (if c == d then |rest| else 0) + if c == dropped then 1 else 0
    case Retrying(d, rest) => if c == d then |rest| else 0
    case Refused(d, rest) => if c == d then |rest| else 0
    case _ => 0
  }

  function SubMap(subs: map<nat, Subscriber>, c: nat): map<nat, nat> {
    map i | i in subs :: SubRefs(subs[i], c)
  }

  function WriterMap(writers: map<nat, Writer>, c: nat): map<nat, nat> {
    map w | w in writers :: WriterRefs(writers[w], c)
  }

  /** All references to a chunk: queued copies, writes in progress, and enqueues still to come. */
  ghost function References(s: State, c: nat): nat {
    Sum(SubMap(s.subs, c)) + Sum(WriterMap(s.writers, c))
  }
}
