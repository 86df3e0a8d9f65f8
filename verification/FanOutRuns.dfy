/**
 Runs of the stream demuxer's fan-out: attaching, dispatching, finishing, closing and
 receiving in any order.  A channel subscriber misses no packet while it is attached.
 */
module FanOutRuns {
  import opened FanOut
  import Demux
  import Packets
  import Sections
  import ServiceView

  type uint16 = Packets.uint16
  type Packet = Packets.Packet
  type Section = Sections.Section

  const CAPACITY_PACKETS: nat := 16384
  const CAPACITY_SECTIONS: nat := 512

  /** A channel gets every packet, a service the view of its packets. */
  datatype View = Channel | Service(id: uint16, output: Demux.Output)

  datatype Plain = Plain

  datatype State = State(
    packets: Subs<View, Packet>, sections: Subs<Plain, Section>, nextId: nat,
    stopped: bool, closed: bool, history: seq<Packet>)

  const NEW := State(Subs(map[], {}, []), Subs(map[], {}, []), 0, false, false, [])

  /** What dispatch has for a packet subscriber. */
  function OfferPacket(d: Demux.Demuxer, view: View, p: Packet): Offer<View, Packet>
    requires Demux.Buildable(d)
  {
    match view
    case Channel => Send(Channel, p)
    case Service(id, output) =>
      if d.pat.Some? && id !in d.programs then Refuse
      else
        var e := Demux.Emit(d, id, output, p);
        if e.packet.Some? then Send(Service(id, e.next), e.packet.value) else Skip(Service(id, e.next))
  }

  function PacketOffers(d: Demux.Demuxer, s: Subs<View, Packet>, p: Packet): map<nat, Offer<View, Packet>>
    requires Demux.Buildable(d)
  {
    map id | id in s.all :: OfferPacket(d, s.all[id].view, p)
  }

  /** accepts says which section subscribers want which section. */
  function SectionOffers(s: Subs<Plain, Section>, accepts: (nat, Section) -> bool, section: Section): map<nat, Offer<Plain, Section>> {
    map id | id in s.all :: if accepts(id, section) then Send(Plain, section) else Skip(Plain)
  }

  ghost function DispatchPacket(d: Demux.Demuxer, s: Subs<View, Packet>, p: Packet): Subs<View, Packet>
    requires Demux.Buildable(d) && SubsOk(s)
  {
    Dispatched(s, PacketOffers(d, s, p), CAPACITY_PACKETS)
  }

  ghost function DispatchSection(s: Subs<Plain, Section>, accepts: (nat, Section) -> bool, section: Section): Subs<Plain, Section>
    requires SubsOk(s)
  {
    Dispatched(s, SectionOffers(s, accepts, section), CAPACITY_SECTIONS)
  }

  ghost function DispatchSections(s: Subs<Plain, Section>, accepts: (nat, Section) -> bool, sections: seq<Section>): Subs<Plain, Section>
    requires SubsOk(s)
    decreases |sections|
  {
    if sections == [] then s
    else
      DispatchedOk(s, SectionOffers(s, accepts, sections[0]), CAPACITY_SECTIONS);
      DispatchSections(DispatchSection(s, accepts, sections[0]), accepts, sections[1..])
  }

  // ----- dispatching keeps the books -----

  lemma {:induction false} KeepersAre<V, T>(s: Subs<V, T>, offers: map<nat, Offer<V, T>>, capacity: nat, list: seq<nat>)
    requires (forall id | id in list :: id in s.all && id in offers) && Distinct(list)
    ensures Distinct(Keepers(s, offers, capacity, list))
    ensures forall id :: id in Keepers(s, offers, capacity, list) <==> id in list && !Visited(s.all[id], offers[id], capacity).finished
    decreases |list|
  {
    hide Visited;
    if list != [] {
      var rest, last := list[..|list| - 1], list[|list| - 1];
      KeepersAre(s, offers, capacity, rest);
      assert list == rest + [last];
      assert last !in rest;
    }
  }

  lemma DispatchedOk<V, T>(s: Subs<V, T>, offers: map<nat, Offer<V, T>>, capacity: nat)
    requires SubsOk(s)
    ensures forall id | id in s.list :: id in s.all
    ensures (forall id | id in s.list :: id in offers) ==> SubsOk(Dispatched(s, offers, capacity))
  {
    if forall id | id in s.list :: id in offers {
      KeepersAre(s, offers, capacity, s.list);
      var t := Dispatched(s, offers, capacity);
      forall id | id in t.all
        ensures SubOk(t.all[id]) && (id in t.live <==> !t.all[id].finished)
      {
        DispatchedSub(s, offers, capacity, id);
      }
    }
  }

  lemma DispatchedSub<V, T>(s: Subs<V, T>, offers: map<nat, Offer<V, T>>, capacity: nat, id: nat)
    requires SubsOk(s) && id in s.all && forall j | j in s.list :: j in s.all && j in offers
    ensures var t := Dispatched(s, offers, capacity);
            && id in t.all && SubOk(t.all[id]) && (id in t.live <==> !t.all[id].finished)
            && t.all[id] == if id in s.live then Visited(s.all[id], offers[id], capacity) else s.all[id]
  {
    hide Visited, SubOk;
    KeepersAre(s, offers, capacity, s.list);
    if id in s.live { LiveOk(s, id); VisitedOk(s.all[id], offers[id], capacity); }
  }

  lemma LiveOk<V, T>(s: Subs<V, T>, id: nat)
    requires SubsOk(s) && id in s.live
    ensures id in s.all && SubOk(s.all[id]) && !s.all[id].finished
  {
  }

  // ----- steps -----

  datatype Step =
    | AttachPacket(view: View)
    | AttachSection
    | Dispatches(packet: Packet, sections: seq<Section>, demux: Demux.Demuxer, accepts: (nat, Section) -> bool)
    | FinishPacket(id: nat)
    | FinishSection(id: nat)
    | TakePacket(id: nat)
    | TakeSection(id: nat)
    | Close

  /** After a finish, the demuxer stops for good if nobody is left. */
  predicate Emptied(s: State, t: State) {
    (s.packets.live != {} || s.sections.live != {}) && t.packets.live == {} && t.sections.live == {}
  }

  function Settle(s: State, t: State): State {
    if Emptied(s, t) then t.(stopped := true) else t
  }

  predicate Enabled(s: State, step: Step) {
    match step
    case AttachPacket(view) => !s.stopped && (view.Service? ==> view.output == Demux.NEW_OUTPUT)
    case AttachSection => !s.stopped
    case Dispatches(_, _, d, _) => Demux.Buildable(d)
    case FinishPacket(_) => true
    case FinishSection(_) => true
    case TakePacket(id) => id in s.packets.all && s.packets.all[id].queue != []
    case TakeSection(id) => id in s.sections.all && s.sections.all[id].queue != []
    case Close => !s.closed
  }

  function Add<V, T>(s: Subs<V, T>, id: nat, sub: Sub<V, T>): Subs<V, T> {
    Subs(s.all[id := sub], s.live + {id}, s.list + [id])
  }

  /** A writer receives from its queue, which may be closed already. */
  function Take<V, T>(s: Subs<V, T>, id: nat): Subs<V, T>
    requires id in s.all && s.all[id].queue != []
  {
    s.(all := s.all[id := s.all[id].(queue := s.all[id].queue[1..])])
  }

  /** The loops of close: the first of the list is finished until there is none. */
  function FinishAll<V, T>(s: Subs<V, T>, list: seq<nat>): Subs<V, T>
    decreases |list|
  {
    if list == [] then s else FinishAll(Finish(s, list[0]), list[1..])
  }

  ghost predicate Inv(s: State) {
    && SubsOk(s.packets) && SubsOk(s.sections)
    && (forall id | id in s.packets.all :: id < s.nextId && LogOk(s, s.packets.all[id]))
    && (forall id | id in s.sections.all :: id < s.nextId)
    && (s.closed ==> s.stopped && s.packets.live == {} && s.sections.live == {})
  }

  /** What a channel subscriber has been given: all packets from when it came, up to now or to its end. */
  predicate LogOk(s: State, sub: Sub<View, Packet>) {
    && sub.since <= |s.history|
    && (sub.view.Channel? ==>
          && sub.since + |sub.log| <= |s.history|
          && sub.log == s.history[sub.since..sub.since + |sub.log|]
          && (!sub.finished ==> sub.since + |sub.log| == |s.history|))
  }

  ghost function Apply(s: State, step: Step): State
    requires Inv(s) && Enabled(s, step)
  {
    match step
    case AttachPacket(view) =>
      s.(packets := Add(s.packets, s.nextId, Sub(view, |s.history|, [], [], false, 0)), nextId := s.nextId + 1)
    case AttachSection =>
      s.(sections := Add(s.sections, s.nextId, Sub(Plain, |s.history|, [], [], false, 0)), nextId := s.nextId + 1)
    case Dispatches(p, sections, d, accepts) =>
      Settle(s, s.(packets := DispatchPacket(d, s.packets, p), sections := DispatchSections(s.sections, accepts, sections),
                   history := s.history + [p]))
    case FinishPacket(id) => Settle(s, s.(packets := Finish(s.packets, id)))
    case FinishSection(id) => Settle(s, s.(sections := Finish(s.sections, id)))
    case TakePacket(id) => s.(packets := Take(s.packets, id))
    case TakeSection(id) => s.(sections := Take(s.sections, id))
    case Close =>
      s.(packets := FinishAll(s.packets, s.packets.list), sections := FinishAll(s.sections, s.sections.list), stopped := true, closed := true)
  }

  // ----- what the steps keep -----

  lemma AddKeeps<V, T>(s: Subs<V, T>, id: nat, sub: Sub<V, T>)
    requires SubsOk(s) && id !in s.all && sub.queue == [] && sub.log == [] && !sub.finished && sub.closes == 0
    ensures SubsOk(Add(s, id, sub))
  {
    assert id !in s.list;
  }

  lemma TakeKeeps<V, T>(s: Subs<V, T>, id: nat)
    requires SubsOk(s) && id in s.all && s.all[id].queue != []
    ensures SubsOk(Take(s, id))
  {
    var sub := s.all[id];
    assert SubOk(sub);
    assert sub.queue[1..] == sub.log[|sub.log| - |sub.queue| + 1..];
  }

  lemma {:induction false} FinishAllEnds<V, T>(s: Subs<V, T>, list: seq<nat>)
    requires SubsOk(s)
    ensures SubsOk(FinishAll(s, list)) && FinishAll(s, list).all.Keys == s.all.Keys
    ensures forall id :: id in FinishAll(s, list).live <==> id in s.live && id !in list
    ensures forall id | id in s.all :: SameLog(s.all[id], FinishAll(s, list).all[id])
    decreases |list|
  {
    hide SubsOk;
    if list != [] {
      FinishKeeps(s, list[0]);
      FinishAllEnds(Finish(s, list[0]), list[1..]);
    }
  }

  ghost predicate SameLog<V, T>(a: Sub<V, T>, b: Sub<V, T>) {
    a.view == b.view && a.since == b.since && a.log == b.log && (a.finished ==> b.finished)
  }

  lemma LogKept(s: State, t: State, a: Sub<View, Packet>, b: Sub<View, Packet>)
    requires LogOk(s, a) && SameLog(a, b) && t.history == s.history
    ensures LogOk(t, b)
  {
  }

  lemma ListIsLive<V, T>(s: Subs<V, T>)
    requires SubsOk(s)
    ensures forall id :: id in s.list <==> id in s.live
  {
  }

  lemma CloseKeeps(s: State)
    requires Inv(s) && !s.closed
    ensures Inv(Apply(s, Close))
  {
    hide SubsOk, LogOk;
    var t := Apply(s, Close);
    FinishAllEnds(s.packets, s.packets.list);
    FinishAllEnds(s.sections, s.sections.list);
    ListIsLive(s.packets);
    ListIsLive(s.sections);
    forall id | id in t.packets.all
      ensures LogOk(t, t.packets.all[id])
    {
      LogKept(s, t, s.packets.all[id], t.packets.all[id]);
    }
  }

  lemma FinishStepKeeps(s: State, step: Step)
    requires Inv(s) && Enabled(s, step) && (step.FinishPacket? || step.FinishSection?)
    ensures Inv(Apply(s, step))
  {
    hide SubsOk, LogOk;
    FinishKeeps(s.packets, step.id);
    FinishKeeps(s.sections, step.id);
    var t := Apply(s, step);
    forall id | id in t.packets.all
      ensures LogOk(t, t.packets.all[id])
    {
      LogKept(s, t, s.packets.all[id], t.packets.all[id]);
    }
  }

  /** One dispatched packet and one subscriber. */
  lemma DispatchLog(s: State, t: State, d: Demux.Demuxer, p: Packet, sub: Sub<View, Packet>)
    requires Demux.Buildable(d) && LogOk(s, sub) && t.history == s.history + [p]
    ensures !sub.finished ==> LogOk(t, Visited(sub, OfferPacket(d, sub.view, p), CAPACITY_PACKETS))
    ensures sub.finished ==> LogOk(t, sub)
  {
    hide Demux.Emit, Demux.Buildable;
    if sub.view.Channel? {
      var n := sub.since + |sub.log|;
      assert t.history[sub.since..n] == s.history[sub.since..n];
      if !sub.finished { assert t.history[sub.since..n + 1] == sub.log + [p]; }
    }
  }

  lemma {:induction false} SectionsKept(s: Subs<Plain, Section>, accepts: (nat, Section) -> bool, sections: seq<Section>)
    requires SubsOk(s)
    ensures SubsOk(DispatchSections(s, accepts, sections)) && DispatchSections(s, accepts, sections).all.Keys == s.all.Keys
    ensures DispatchSections(s, accepts, sections).live <= s.live
    decreases |sections|
  {
    hide SubsOk;
    if sections != [] {
      var offers := SectionOffers(s, accepts, sections[0]);
      DispatchedOk(s, offers, CAPACITY_SECTIONS);
      LiveShrinks(s, offers, CAPACITY_SECTIONS);
      SectionsKept(DispatchSection(s, accepts, sections[0]), accepts, sections[1..]);
    }
  }

  lemma LiveShrinks<V, T>(s: Subs<V, T>, offers: map<nat, Offer<V, T>>, capacity: nat)
    requires SubsOk(s) && forall id | id in s.list :: id in s.all && id in offers
    ensures Dispatched(s, offers, capacity).live <= s.live && Dispatched(s, offers, capacity).all.Keys == s.all.Keys
  {
    KeepersAre(s, offers, capacity, s.list);
  }

  lemma DispatchKeeps(s: State, step: Step)
    requires Inv(s) && Enabled(s, step) && step.Dispatches?
    ensures Inv(Apply(s, step))
  {
    hide SubsOk, LogOk, Demux.Buildable, OfferPacket, Visited, Dispatched;
    var offers := PacketOffers(step.demux, s.packets, step.packet);
    DispatchedOk(s.packets, offers, CAPACITY_PACKETS);
    LiveShrinks(s.packets, offers, CAPACITY_PACKETS);
    SectionsKept(s.sections, step.accepts, step.sections);
    var t := Apply(s, step);
    forall id | id in t.packets.all
      ensures LogOk(t, t.packets.all[id])
    {
      DispatchedSub(s.packets, offers, CAPACITY_PACKETS, id);
      DispatchLog(s, t, step.demux, step.packet, s.packets.all[id]);
      LiveExactly(s.packets, id);
    }
  }

  lemma LiveExactly<V, T>(s: Subs<V, T>, id: nat)
    requires SubsOk(s) && id in s.all
    ensures id in s.live <==> !s.all[id].finished
  {
  }

  lemma OtherStepKeeps(s: State, step: Step)
    requires Inv(s) && Enabled(s, step) && (step.AttachPacket? || step.AttachSection? || step.TakePacket? || step.TakeSection?)
    ensures Inv(Apply(s, step))
  {
    hide SubsOk;
    var t := Apply(s, step);
    match step {
      case AttachPacket(view) => AddKeeps(s.packets, s.nextId, Sub(view, |s.history|, [], [], false, 0));
      case AttachSection => AddKeeps(s.sections, s.nextId, Sub(Plain, |s.history|, [], [], false, 0));
      case TakePacket(id) => TakeKeeps(s.packets, id);
      case TakeSection(id) => TakeKeeps(s.sections, id);
    }
    forall id | id in t.packets.all
      ensures LogOk(t, t.packets.all[id])
    {
      if id in s.packets.all { assert LogOk(s, s.packets.all[id]); }
    }
  }

  lemma StepKeeps(s: State, step: Step)
    requires Inv(s) && Enabled(s, step)
    ensures Inv(Apply(s, step))
  {
    hide Inv, Apply;
    match step {
      case Dispatches(_, _, _, _) => DispatchKeeps(s, step);
      case FinishPacket(_) => FinishStepKeeps(s, step);
      case FinishSection(_) => FinishStepKeeps(s, step);
      case Close => NotClosed(s); CloseKeeps(s);
      case _ => OtherStepKeeps(s, step);
    }
  }

  lemma NotClosed(s: State)
    requires Enabled(s, Close)
    ensures !s.closed
  {
  }

  ghost predicate IsRun(s: State, steps: seq<Step>, t: State)
    decreases |steps|
  {
    if steps == [] then s == t else Inv(s) && Enabled(s, steps[0]) && IsRun(Apply(s, steps[0]), steps[1..], t)
  }

  lemma {:induction false} RunsKeep(s: State, steps: seq<Step>, t: State)
    requires Inv(s) && IsRun(s, steps, t)
    ensures Inv(t)
    decreases |steps|
  {
    hide Inv, Enabled, Apply;
    if steps != [] {
      StepKeeps(s, steps[0]);
      RunsKeep(Apply(s, steps[0]), steps[1..], t);
    }
  }

  // ----- lossless or closed -----

  /**
   In every run, a channel subscriber that is not finished has been queued every packet
   since it was attached, and a finished one all of them up to some packet, without a hole.
   Its queue was closed once if it is finished, and else not.
   */
  lemma LosslessOrClosed(steps: seq<Step>, t: State, id: nat)
    requires IsRun(NEW, steps, t) && id in t.packets.all && t.packets.all[id].view.Channel?
    ensures var sub := t.packets.all[id];
            && sub.since + |sub.log| <= |t.history| && sub.log == t.history[sub.since..sub.since + |sub.log|]
            && (sub.finished || sub.log == t.history[sub.since..])
            && sub.closes == (if sub.finished then 1 else 0)
            && (sub.finished <==> id !in t.packets.live) && (sub.finished <==> id !in t.packets.list)
  {
    RunsKeep(NEW, steps, t);
    var sub := t.packets.all[id];
    assert SubOk(sub) && LogOk(t, sub);
    assert !sub.finished ==> t.history[sub.since..] == t.history[sub.since..sub.since + |sub.log|];
  }

  /** Once closed, every subscription is finished, and its queue closed exactly once. */
  lemma ClosedFinishesAll(steps: seq<Step>, t: State)
    requires IsRun(NEW, steps, t) && t.closed
    ensures forall id | id in t.packets.all :: t.packets.all[id].finished && t.packets.all[id].closes == 1
    ensures forall id | id in t.sections.all :: t.sections.all[id].finished && t.sections.all[id].closes == 1
  {
    RunsKeep(NEW, steps, t);
    forall id | id in t.packets.all
      ensures t.packets.all[id].finished && t.packets.all[id].closes == 1
    {
      assert SubOk(t.packets.all[id]);
    }
    forall id | id in t.sections.all
      ensures t.sections.all[id].finished && t.sections.all[id].closes == 1
    {
      assert SubOk(t.sections.all[id]);
    }
  }
}
