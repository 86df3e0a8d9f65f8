/**
 The fan-out of internal/stream/demux: one packet is offered to every subscriber once,
 a subscriber whose queue is full is finished rather than given a stream with a hole,
 and what reaches a subscriber's writer is what was queued, however it is batched.
 */
module FanOut {
  datatype Option<T> = None | Some(value: T)

  /** A subscription.  log is everything ever queued, and closes counts close(sub.queue). */
  datatype Sub<V, T> = Sub(view: V, since: nat, queue: seq<T>, log: seq<T>, finished: bool, closes: nat)

  /** Subscriptions of one kind: all there ever were, the map of the unfinished, and the list that is scanned. */
  datatype Subs<V, T> = Subs(all: map<nat, Sub<V, T>>, live: set<nat>, list: seq<nat>)

  /** What a subscriber is offered: nothing for it, an item, or the end of its service. */
  datatype Offer<V, T> = Skip(view: V) | Send(view: V, item: T) | Refuse

  predicate Distinct(list: seq<nat>) {
    forall a, b | 0 <= a < b < |list| :: list[a] != list[b]
  }

  ghost predicate SubOk<V, T>(sub: Sub<V, T>) {
    sub.closes == (if sub.finished then 1 else 0) && |sub.queue| <= |sub.log| && sub.queue == sub.log[|sub.log| - |sub.queue|..]
  }

  /** The map, the list and the finished flags always agree, and every queue is closed at most once. */
  ghost predicate SubsOk<V, T>(s: Subs<V, T>) {
    && Distinct(s.list)
    && (forall id | id in s.list :: id in s.live) && (forall id | id in s.live :: id in s.list)
    && (forall id | id in s.all :: SubOk(s.all[id]) && (id in s.live <==> !s.all[id].finished))
    && (forall id | id in s.live :: id in s.all)
  }

  // ----- finishing -----

  function Without(list: seq<nat>, id: nat): (r: seq<nat>)
    ensures forall j :: j in r <==> j in list && j != id
    decreases |list|
  {
    if list == [] then []
    else Without(list[..|list| - 1], id) + if list[|list| - 1] == id then [] else [list[|list| - 1]]
  }

  /** finishPacketLocked and finishSectionLocked, up to the check for emptiness. */
  function Finish<V, T>(s: Subs<V, T>, id: nat): Subs<V, T> {
    if id !in s.live || id !in s.all || s.all[id].finished then s
    else Subs(s.all[id := s.all[id].(finished := true, closes := s.all[id].closes + 1)], s.live - {id}, Without(s.list, id))
  }

  lemma {:induction false} WithoutIs(list: seq<nat>, id: nat)
    requires Distinct(list)
    ensures Distinct(Without(list, id))
    ensures id !in list ==> Without(list, id) == list
    decreases |list|
  {
    if list != [] {
      var rest, last := list[..|list| - 1], list[|list| - 1];
      WithoutIs(rest, id);
      assert last !in rest;
      assert forall j | j in rest :: j in list;
      assert rest + [last] == list;
    }
  }

  lemma {:induction false} WithoutAt(list: seq<nat>, i: nat)
    requires Distinct(list) && i < |list|
    ensures Without(list, list[i]) == list[..i] + list[i + 1..]
    decreases |list|
  {
    var rest, last := list[..|list| - 1], list[|list| - 1];
    if i == |list| - 1 {
      assert last !in rest;
      WithoutIs(rest, last);
      assert list[..i] + list[i + 1..] == rest;
    } else {
      WithoutAt(rest, i);
      assert rest[..i] + rest[i + 1..] + [last] == list[..i] + list[i + 1..];
    }
  }

  lemma FinishKeeps<V, T>(s: Subs<V, T>, id: nat)
    requires SubsOk(s)
    ensures SubsOk(Finish(s, id)) && id !in Finish(s, id).live
  {
    WithoutIs(s.list, id);
  }

  // ----- one visit -----

  function Queued<V, T>(sub: Sub<V, T>, view: V, item: T): Sub<V, T> {
    sub.(view := view, queue := sub.queue + [item], log := sub.log + [item])
  }

  /** One turn of dispatch for a live subscriber. */
  function Visit<V, T>(s: Subs<V, T>, id: nat, offer: Offer<V, T>, capacity: nat): Subs<V, T>
    requires id in s.all
  {
    match offer
    case Skip(view) => s.(all := s.all[id := s.all[id].(view := view)])
    case Send(view, item) =>
      if |s.all[id].queue| < capacity then s.(all := s.all[id := Queued(s.all[id], view, item)])
      else Finish(s.(all := s.all[id := s.all[id].(view := view)]), id)
    case Refuse => Finish(s, id)
  }

  /** What the visit makes of the subscriber itself. */
  function Visited<V, T>(sub: Sub<V, T>, offer: Offer<V, T>, capacity: nat): Sub<V, T> {
    match offer
    case Skip(view) => sub.(view := view)
    case Send(view, item) =>
      if |sub.queue| < capacity then Queued(sub, view, item)
      else sub.(view := view, finished := true, closes := sub.closes + 1)
    case Refuse => sub.(finished := true, closes := sub.closes + 1)
  }

  lemma VisitIs<V, T>(s: Subs<V, T>, id: nat, offer: Offer<V, T>, capacity: nat)
    requires SubsOk(s) && id in s.live
    ensures id in s.all
    ensures var t := Visit(s, id, offer, capacity);
            && t.all == s.all[id := Visited(s.all[id], offer, capacity)]
            && (if Visited(s.all[id], offer, capacity).finished then t.live == s.live - {id} && t.list == Without(s.list, id)
                else t.live == s.live && t.list == s.list)
  {
  }

  lemma VisitKeeps<V, T>(s: Subs<V, T>, id: nat, offer: Offer<V, T>, capacity: nat)
    requires SubsOk(s) && id in s.live
    ensures id in s.all && SubsOk(Visit(s, id, offer, capacity))
  {
    VisitIs(s, id, offer, capacity);
    WithoutIs(s.list, id);
    var sub := s.all[id];
    var next := Visited(sub, offer, capacity);
    VisitedOk(sub, offer, capacity);
  }

  lemma VisitedOk<V, T>(sub: Sub<V, T>, offer: Offer<V, T>, capacity: nat)
    requires SubOk(sub) && !sub.finished
    ensures SubOk(Visited(sub, offer, capacity))
  {
    if offer.Send? && |sub.queue| < capacity {
      var log, queue := sub.log + [offer.item], sub.queue + [offer.item];
      assert log[|log| - |queue|..] == sub.log[|sub.log| - |sub.queue|..] + [offer.item];
    }
  }

  // ----- dispatch: every live subscriber once -----

  /** All subscribers of the list, each visited once, as if nothing moved meanwhile. */
  function Keepers<V, T>(s: Subs<V, T>, offers: map<nat, Offer<V, T>>, capacity: nat, list: seq<nat>): seq<nat>
    requires forall id | id in list :: id in s.all && id in offers
    decreases |list|
  {
    if list == [] then []
    else
      var id := list[|list| - 1];
      Keepers(s, offers, capacity, list[..|list| - 1]) + if Visited(s.all[id], offers[id], capacity).finished then [] else [id]
  }

  ghost function Dispatched<V, T>(s: Subs<V, T>, offers: map<nat, Offer<V, T>>, capacity: nat): Subs<V, T>
    requires SubsOk(s) && forall id | id in s.list :: id in offers
  {
    var list := Keepers(s, offers, capacity, s.list);
    Subs(map id | id in s.all :: if id in s.live then Visited(s.all[id], offers[id], capacity) else s.all[id],
         (set id | id in list), list)
  }

  ghost predicate SoFar<V, T>(s: Subs<V, T>, all: map<nat, Sub<V, T>>, offers: map<nat, Offer<V, T>>, capacity: nat, k: nat)
    requires k <= |s.list| && (forall id | id in s.list :: id in offers) && all.Keys == s.all.Keys
  {
    forall id | id in s.all :: all[id] == if id in s.list[..k] then Visited(s.all[id], offers[id], capacity) else s.all[id]
  }

  /** The scan stands at index i after k of the subscribers that were listed at first. */
  ghost predicate Scanned<V, T>(s: Subs<V, T>, t: Subs<V, T>, offers: map<nat, Offer<V, T>>, capacity: nat, i: nat, k: nat)
    requires SubsOk(s) && forall id | id in s.list :: id in offers
  {
    && SubsOk(t) && i <= |t.list| && k <= |s.list|
    && t.list == Keepers(s, offers, capacity, s.list[..k]) + s.list[k..]
    && i == |Keepers(s, offers, capacity, s.list[..k])|
    && t.all.Keys == s.all.Keys && SoFar(s, t.all, offers, capacity, k)
  }

  lemma OneMore<V, T>(s: Subs<V, T>, all: map<nat, Sub<V, T>>, offers: map<nat, Offer<V, T>>, capacity: nat, k: nat)
    requires k < |s.list| && (forall id | id in s.list :: id in offers) && all.Keys == s.all.Keys && SubsOk(s)
    requires SoFar(s, all, offers, capacity, k)
    ensures var id := s.list[k];
            id in all && SoFar(s, all[id := Visited(all[id], offers[id], capacity)], offers, capacity, k + 1)
  {
    hide SubOk, Visited;
  }

  lemma KeepersTurn<V, T>(s: Subs<V, T>, offers: map<nat, Offer<V, T>>, capacity: nat, k: nat)
    requires SubsOk(s) && k < |s.list| && forall id | id in s.list :: id in offers
    ensures s.list[k] in s.all
    ensures var before := Keepers(s, offers, capacity, s.list[..k]);
            Keepers(s, offers, capacity, s.list[..k + 1]) ==
            if Visited(s.all[s.list[k]], offers[s.list[k]], capacity).finished then before else before + [s.list[k]]
  {
    hide SubOk, Visited;
    assert s.list[..k + 1][..k] == s.list[..k];
    assert Keepers(s, offers, capacity, s.list[..k]) + [] == Keepers(s, offers, capacity, s.list[..k]);
  }

  /** What the list is after a turn. */
  lemma TurnList<V, T>(s: Subs<V, T>, t: Subs<V, T>, offers: map<nat, Offer<V, T>>, capacity: nat, i: nat, k: nat)
    requires SubsOk(s) && SubsOk(t) && forall id | id in s.list :: id in offers && id in s.all
    requires k <= |s.list| && i < |t.list| && i == |Keepers(s, offers, capacity, s.list[..k])|
    requires t.list == Keepers(s, offers, capacity, s.list[..k]) + s.list[k..]
    ensures k < |s.list| && t.list[i] == s.list[k] && t.list[i] in t.all
    ensures var gone := Visited(s.all[s.list[k]], offers[s.list[k]], capacity).finished;
            && (if gone then Without(t.list, t.list[i]) else t.list) == Keepers(s, offers, capacity, s.list[..k + 1]) + s.list[k + 1..]
            && (if gone then i else i + 1) == |Keepers(s, offers, capacity, s.list[..k + 1])|
  {
    hide SubsOk, Visited, Keepers, Distinct;
    Distinctly(t);
    ListAt(t.list, Keepers(s, offers, capacity, s.list[..k]), s.list, i, k);
    KeepersTurn(s, offers, capacity, k);
    WithoutAt(t.list, i);
  }

  lemma ScanTurn<V, T>(s: Subs<V, T>, t: Subs<V, T>, offers: map<nat, Offer<V, T>>, capacity: nat, i: nat, k: nat)
    requires SubsOk(s) && forall id | id in s.list :: id in offers
    requires Scanned(s, t, offers, capacity, i, k) && i < |t.list|
    ensures k < |s.list| && t.list[i] == s.list[k] && t.list[i] in t.all && t.list[i] in offers
    ensures var u := Visit(t, t.list[i], offers[t.list[i]], capacity);
            t.list[i] in u.all && Scanned(s, u, offers, capacity, if u.all[t.list[i]].finished then i else i + 1, k + 1)
  {
    hide SubsOk, Visited, Visit, SoFar, Keepers, Distinct;
    Distinctly(s);
    Distinctly(t);
    TurnList(s, t, offers, capacity, i, k);
    var id := t.list[i];
    OneMore(s, t.all, offers, capacity, k);
    UntouchedSoFar(s, t.all, offers, capacity, k);
    VisitIs(t, id, offers[id], capacity);
    VisitKeeps(t, id, offers[id], capacity);
  }

  lemma Distinctly<V, T>(s: Subs<V, T>)
    requires SubsOk(s)
    ensures Distinct(s.list) && forall id | id in s.list :: id in s.live && id in s.all
  {
  }

  lemma ListAt(list: seq<nat>, before: seq<nat>, whole: seq<nat>, i: nat, k: nat)
    requires k <= |whole| && list == before + whole[k..] && i == |before| && i < |list|
    ensures k < |whole| && list[i] == whole[k] && list[..i] == before && list[i + 1..] == whole[k + 1..]
    ensures list == (before + [whole[k]]) + whole[k + 1..]
  {
  }

  lemma UntouchedSoFar<V, T>(s: Subs<V, T>, all: map<nat, Sub<V, T>>, offers: map<nat, Offer<V, T>>, capacity: nat, k: nat)
    requires k < |s.list| && (forall id | id in s.list :: id in offers) && all.Keys == s.all.Keys && SubsOk(s)
    requires SoFar(s, all, offers, capacity, k)
    ensures s.list[k] in s.all && all[s.list[k]] == s.all[s.list[k]]
  {
    hide SubOk, Visited;
  }

  /**
   The scan of dispatch, which removes finished subscribers from the list under its own
   feet and then does not advance: it visits every subscriber exactly once.
   */
  method Dispatch<V, T>(s: Subs<V, T>, offers: map<nat, Offer<V, T>>, capacity: nat) returns (t: Subs<V, T>)
    requires SubsOk(s) && forall id | id in s.list :: id in offers
    ensures t == Dispatched(s, offers, capacity) && SubsOk(t)
  {
    hide SubsOk, Visited, Keepers;
    t := s;
    var i := 0;
    ghost var k := 0;
    ScanStarts(s, offers, capacity);
    while i < |t.list|
      invariant Scanned(s, t, offers, capacity, i, k)
      decreases |s.list| - k
    {
      var id := t.list[i];
      ScanTurn(s, t, offers, capacity, i, k);
      t := Visit(t, id, offers[id], capacity);
      if !t.all[id].finished {
        i := i + 1;
      }
      k := k + 1;
    }
    ScanEnds(s, t, offers, capacity, i, k);
  }

  lemma ScanStarts<V, T>(s: Subs<V, T>, offers: map<nat, Offer<V, T>>, capacity: nat)
    requires SubsOk(s) && forall id | id in s.list :: id in offers
    ensures Scanned(s, s, offers, capacity, 0, 0)
  {
    assert s.list[0..] == s.list;
  }

  lemma ScanEnds<V, T>(s: Subs<V, T>, t: Subs<V, T>, offers: map<nat, Offer<V, T>>, capacity: nat, i: nat, k: nat)
    requires SubsOk(s) && forall id | id in s.list :: id in offers
    requires Scanned(s, t, offers, capacity, i, k) && i >= |t.list|
    ensures t == Dispatched(s, offers, capacity) && SubsOk(t)
  {
    hide SubOk, Visited;
    assert k == |s.list|;
    assert s.list[..k] == s.list;
  }
}
