/**
 What the fan-out gives and when it ends, over every run: a channel subscriber gets every
 packet, a service subscriber what its view shows, a section subscriber the sections that
 it accepts, and a subscription ends for a few named reasons only.
 */
module FanOutDelivery {
  import opened FanOut
  import opened FanOutRuns
  import Demux

  // ----- packet subscribers -----

  /** The packet that a subscriber of this view is due, if any. */
  function Due(d: Demux.Demuxer, view: View, p: Packet): seq<Packet>
    requires Demux.Buildable(d)
  {
    match view
    case Channel => [p]
    case Service(id, output) =>
      var e := Demux.Emit(d, id, output, p);
      if e.packet.Some? then [e.packet.value] else []
  }

  /** Where that leaves the view. */
  function ViewAfter(d: Demux.Demuxer, view: View, p: Packet): View
    requires Demux.Buildable(d)
  {
    match view
    case Channel => Channel
    case Service(id, output) => Service(id, Demux.Emit(d, id, output, p).next)
  }

  /** A ready PAT does not list the service any more. */
  predicate Unlisted(d: Demux.Demuxer, view: View) {
    view.Service? && d.pat.Some? && view.id !in d.programs
  }

  /** The step ends a subscription that has not ended yet: its writer or its caller, the end of all, a service that is gone, or a full queue. */
  predicate Ends(sub: Sub<View, Packet>, id: nat, step: Step) {
    match step
    case FinishPacket(j) => j == id
    case Close => true
    case Dispatches(p, _, d, _) => Demux.Buildable(d) && (Unlisted(d, sub.view) || (Due(d, sub.view, p) != [] && |sub.queue| >= 16384))
    case _ => false
  }

  /** What the step gives to the subscription otherwise. */
  function Gives(sub: Sub<View, Packet>, step: Step): seq<Packet> {
    if step.Dispatches? && Demux.Buildable(step.demux) then Due(step.demux, sub.view, step.packet) else []
  }

  function Looks(sub: Sub<View, Packet>, step: Step): View {
    if step.Dispatches? && Demux.Buildable(step.demux) then ViewAfter(step.demux, sub.view, step.packet) else sub.view
  }

  lemma DispatchStep(s: State, step: Step, id: nat)
    requires Inv(s) && Enabled(s, step) && step.Dispatches? && id in s.packets.all && !s.packets.all[id].finished
    ensures var sub := s.packets.all[id];
            && id in Apply(s, step).packets.all
            && var now := Apply(s, step).packets.all[id];
            && (now.finished <==> Ends(sub, id, step))
            && (if Ends(sub, id, step) then now.log == sub.log && now.queue == sub.queue
                else now.log == sub.log + Gives(sub, step) && now.queue == sub.queue + Gives(sub, step) && now.view == Looks(sub, step))
  {
    hide SubsOk, LogOk, Demux.Buildable, Demux.Emit, Dispatched, DispatchSections;
    var offers := PacketOffers(step.demux, s.packets, step.packet);
    DispatchedOk(s.packets, offers, CAPACITY_PACKETS);
    LiveExactly(s.packets, id);
    DispatchedSub(s.packets, offers, CAPACITY_PACKETS, id);
    assert s.packets.all[id].log + [] == s.packets.all[id].log;
    assert s.packets.all[id].queue + [] == s.packets.all[id].queue;
  }

  lemma FinishStep(s: State, step: Step, id: nat)
    requires Inv(s) && Enabled(s, step) && (step.FinishPacket? || step.Close?) && id in s.packets.all && !s.packets.all[id].finished
    ensures id in Apply(s, step).packets.all
    ensures Apply(s, step).packets.all[id].finished <==> Ends(s.packets.all[id], id, step)
    ensures SameLog(s.packets.all[id], Apply(s, step).packets.all[id])
  {
    hide SubsOk, LogOk, SubOk;
    LiveExactly(s.packets, id);
    if step.Close? {
      FinishAllEnds(s.packets, s.packets.list);
      ListIsLive(s.packets);
      LiveExactly(Apply(s, step).packets, id);
    }
  }

  /** One step and one packet subscription. */
  lemma StepGives(s: State, step: Step, id: nat)
    requires Inv(s) && Enabled(s, step) && id in s.packets.all && !s.packets.all[id].finished
    ensures var sub := s.packets.all[id];
            && id in Apply(s, step).packets.all
            && var now := Apply(s, step).packets.all[id];
            && (now.finished <==> Ends(sub, id, step))
            && (if now.finished then now.log == sub.log else now.log == sub.log + Gives(sub, step) && now.view == Looks(sub, step))
  {
    var sub := s.packets.all[id];
    assert sub.log + [] == sub.log;
    match step {
      case Dispatches(_, _, _, _) => DispatchStep(s, step, id);
      case FinishPacket(_) => FinishStep(s, step, id);
      case Close => FinishStep(s, step, id);
      case AttachPacket(_) =>
      case AttachSection =>
      case FinishSection(_) =>
      case TakePacket(_) =>
      case TakeSection(_) =>
    }
  }

  lemma FinishedStays(s: State, step: Step, id: nat)
    requires Inv(s) && Enabled(s, step) && id in s.packets.all && s.packets.all[id].finished
    ensures id in Apply(s, step).packets.all && Apply(s, step).packets.all[id].finished
    ensures Apply(s, step).packets.all[id].log == s.packets.all[id].log
  {
    LiveExactly(s.packets, id);
    match step {
      case Dispatches(p, sections, d, _) =>
        hide SubsOk, LogOk, Demux.Buildable, OfferPacket, Visited, Dispatched, DispatchSections;
        var offers := PacketOffers(d, s.packets, p);
        DispatchedOk(s.packets, offers, CAPACITY_PACKETS);
        DispatchedSub(s.packets, offers, CAPACITY_PACKETS, id);
      case Close => FinishAllEnds(s.packets, s.packets.list);
      case _ =>
    }
  }

  /** What the view of a subscription shows over the steps of a run. */
  function Shown(view: View, steps: seq<Step>): seq<Packet>
    decreases |steps|
  {
    if steps == [] then []
    else if steps[0].Dispatches? && Demux.Buildable(steps[0].demux) then
      Due(steps[0].demux, view, steps[0].packet) + Shown(ViewAfter(steps[0].demux, view, steps[0].packet), steps[1..])
    else Shown(view, steps[1..])
  }

  lemma ShownFirst(sub: Sub<View, Packet>, steps: seq<Step>)
    requires steps != []
    ensures Shown(sub.view, steps) == Gives(sub, steps[0]) + Shown(Looks(sub, steps[0]), steps[1..])
  {
    hide Demux.Emit, Demux.Buildable;
    assert [] + Shown(sub.view, steps[1..]) == Shown(sub.view, steps[1..]);
  }

  lemma {:induction false} StaysFinished(s: State, steps: seq<Step>, t: State, id: nat)
    requires Inv(s) && IsRun(s, steps, t) && id in s.packets.all && s.packets.all[id].finished
    ensures id in t.packets.all && t.packets.all[id].finished && t.packets.all[id].log == s.packets.all[id].log
    decreases |steps|
  {
    hide Inv, Enabled, Apply;
    if steps != [] {
      StepKeeps(s, steps[0]);
      FinishedStays(s, steps[0], id);
      StaysFinished(Apply(s, steps[0]), steps[1..], t, id);
    }
  }

  /**
   Over every run, a subscriber is queued exactly what its view shows, in order: all of it
   as long as its subscription has not ended, and what came before the end otherwise.
   */
  lemma {:induction false} GetsWhatIsShown(s: State, steps: seq<Step>, t: State, id: nat)
    requires Inv(s) && IsRun(s, steps, t) && id in s.packets.all && !s.packets.all[id].finished
    ensures id in t.packets.all
    ensures t.packets.all[id].log <= s.packets.all[id].log + Shown(s.packets.all[id].view, steps)
    ensures !t.packets.all[id].finished ==> t.packets.all[id].log == s.packets.all[id].log + Shown(s.packets.all[id].view, steps)
    decreases |steps|
  {
    hide Inv, Enabled, Apply, Gives, Looks, Ends, Shown;
    var sub := s.packets.all[id];
    if steps == [] {
      ShownNothing(sub.view);
    } else {
      var u := Apply(s, steps[0]);
      StepKeeps(s, steps[0]);
      StepGives(s, steps[0], id);
      ShownFirst(sub, steps);
      var given, later := Gives(sub, steps[0]), Shown(Looks(sub, steps[0]), steps[1..]);
      assert (sub.log + given) + later == sub.log + (given + later);
      if u.packets.all[id].finished {
        StaysFinished(u, steps[1..], t, id);
      } else {
        GetsWhatIsShown(u, steps[1..], t, id);
      }
    }
  }

  lemma ShownNothing(view: View)
    ensures Shown(view, []) == []
  {
  }

  /** Some step of the run ends the subscription. */
  ghost predicate SomeStepEnds(s: State, steps: seq<Step>, id: nat)
    decreases |steps|
  {
    && steps != [] && Inv(s) && Enabled(s, steps[0]) && id in s.packets.all
    && (Ends(s.packets.all[id], id, steps[0]) || SomeStepEnds(Apply(s, steps[0]), steps[1..], id))
  }

  /**
   Over every run, a subscription has ended exactly if its writer or caller ended it, all
   was closed, a ready PAT did not list its service, or a packet was due to it while its
   queue held 16384.
   */
  lemma {:induction false} EndedExactly(s: State, steps: seq<Step>, t: State, id: nat)
    requires Inv(s) && IsRun(s, steps, t) && id in s.packets.all && !s.packets.all[id].finished
    ensures id in t.packets.all && (t.packets.all[id].finished <==> SomeStepEnds(s, steps, id))
    decreases |steps|
  {
    hide Inv, Enabled, Apply, Ends;
    if steps != [] {
      var u := Apply(s, steps[0]);
      StepKeeps(s, steps[0]);
      StepGives(s, steps[0], id);
      if u.packets.all[id].finished {
        StaysFinished(u, steps[1..], t, id);
      } else {
        EndedExactly(u, steps[1..], t, id);
      }
    }
  }

  /** Whoever attaches starts with nothing, under a new number. */
  lemma AttachStarts(s: State, view: View)
    requires Inv(s) && Enabled(s, AttachPacket(view))
    ensures Inv(Apply(s, AttachPacket(view))) && s.nextId !in s.packets.all && s.nextId !in s.sections.all
    ensures var t := Apply(s, AttachPacket(view));
            && s.nextId in t.packets.all && s.nextId in t.packets.live && s.nextId in t.packets.list
            && t.packets.all[s.nextId] == Sub(view, |s.history|, [], [], false, 0)
  {
    StepKeeps(s, AttachPacket(view));
  }

  // ----- section subscribers -----

  type Accepts = (nat, Section) -> bool

  /** The sections that this subscriber accepts, in order. */
  function Accepted(accepts: Accepts, id: nat, sections: seq<Section>): seq<Section>
    decreases |sections|
  {
    if sections == [] then []
    else (if accepts(id, sections[0]) then [sections[0]] else []) + Accepted(accepts, id, sections[1..])
  }

  /** How many of so many sections the queue takes before it is full. */
  function Taken(queued: nat, n: nat): nat {
    if queued + n <= 512 then n else if queued < 512 then 512 - queued else 0
  }

  /** What becomes of a subscriber that is offered these sections one by one. */
  predicate Offered(sub: Sub<Plain, Section>, now: Sub<Plain, Section>, sections: seq<Section>) {
    var n := Taken(|sub.queue|, |sections|);
    && (now.finished <==> n < |sections|)
    && now.log == sub.log + sections[..n] && now.queue == sub.queue + sections[..n]
  }

  lemma OneOffered(s: Subs<Plain, Section>, accepts: Accepts, section: Section, id: nat)
    requires SubsOk(s) && id in s.all
    ensures SubsOk(DispatchSection(s, accepts, section)) && id in DispatchSection(s, accepts, section).all
    ensures var sub, now := s.all[id], DispatchSection(s, accepts, section).all[id];
            if sub.finished then now == sub else Offered(sub, now, Accepted(accepts, id, [section]))
  {
    hide SubsOk;
    var offers := SectionOffers(s, accepts, section);
    DispatchedOk(s, offers, CAPACITY_SECTIONS);
    DispatchedSub(s, offers, CAPACITY_SECTIONS, id);
    LiveExactly(s, id);
    assert [section][1..] == [];
    assert [section][..1] == [section] && [section][..0] == [];
    var sub := s.all[id];
    assert sub.log + [] == sub.log && sub.queue + [] == sub.queue;
  }

  /** Being offered more after what was taken. */
  lemma OfferedMore(a: Sub<Plain, Section>, b: Sub<Plain, Section>, c: Sub<Plain, Section>, first: seq<Section>, rest: seq<Section>)
    requires !a.finished && Offered(a, b, first) && if b.finished then c == b else Offered(b, c, rest)
    ensures Offered(a, c, first + rest)
  {
    var n := Taken(|a.queue|, |first|);
    if b.finished {
      assert (first + rest)[..n] == first[..n];
    } else {
      assert first[..n] == first;
      var m := Taken(|b.queue|, |rest|);
      assert (first + rest)[..n + m] == first + rest[..m];
    }
  }

  lemma {:induction false} SectionsOffered(s: Subs<Plain, Section>, accepts: Accepts, sections: seq<Section>, id: nat)
    requires SubsOk(s) && id in s.all
    ensures id in DispatchSections(s, accepts, sections).all
    ensures var sub, now := s.all[id], DispatchSections(s, accepts, sections).all[id];
            if sub.finished then now == sub else Offered(sub, now, Accepted(accepts, id, sections))
    decreases |sections|
  {
    hide SubsOk, Offered, Dispatched;
    var sub := s.all[id];
    if sections == [] {
      if !sub.finished { NothingOffered(sub); }
    } else {
      OneOffered(s, accepts, sections[0], id);
      var t := DispatchSection(s, accepts, sections[0]);
      SectionsOffered(t, accepts, sections[1..], id);
      assert Accepted(accepts, id, sections) == Accepted(accepts, id, [sections[0]]) + Accepted(accepts, id, sections[1..]) by {
        assert [sections[0]][1..] == [];
      }
      if !sub.finished {
        OfferedMore(sub, t.all[id], DispatchSections(t, accepts, sections[1..]).all[id],
                    Accepted(accepts, id, [sections[0]]), Accepted(accepts, id, sections[1..]));
      }
    }
  }

  lemma NothingOffered(sub: Sub<Plain, Section>)
    requires !sub.finished
    ensures Offered(sub, sub, [])
  {
    assert sub.log + [] == sub.log && sub.queue + [] == sub.queue;
  }

  /** The sections of a step that a subscriber accepts. */
  function Wanted(step: Step, id: nat): seq<Section> {
    if step.Dispatches? then Accepted(step.accepts, id, step.sections) else []
  }

  /** The step ends a section subscription: its observer or its caller, the end of all, or more sections than its queue takes. */
  predicate EndsSections(sub: Sub<Plain, Section>, id: nat, step: Step) {
    match step
    case FinishSection(j) => j == id
    case Close => true
    case Dispatches(_, _, _, _) => Wanted(step, id) != [] && |sub.queue| + |Wanted(step, id)| > 512
    case _ => false
  }

  lemma FinishSectionStep(s: State, step: Step, id: nat)
    requires Inv(s) && Enabled(s, step) && id in s.sections.all && (step.FinishSection? || step.Close?)
    ensures id in Apply(s, step).sections.all && SameLog(s.sections.all[id], Apply(s, step).sections.all[id])
    ensures !s.sections.all[id].finished ==> (Apply(s, step).sections.all[id].finished <==> EndsSections(s.sections.all[id], id, step))
  {
    hide SubsOk, LogOk, SubOk;
    LiveExactly(s.sections, id);
    if step.Close? {
      FinishAllEnds(s.sections, s.sections.list);
      ListIsLive(s.sections);
      CloseKeeps(s);
      LiveExactly(Apply(s, step).sections, id);
    }
  }

  lemma DispatchesSections(s: State, step: Step, id: nat)
    requires Inv(s) && Enabled(s, step) && id in s.sections.all && step.Dispatches?
    ensures id in Apply(s, step).sections.all
    ensures var sub, now := s.sections.all[id], Apply(s, step).sections.all[id];
            if sub.finished then now == sub else Offered(sub, now, Wanted(step, id))
  {
    hide SubsOk, LogOk, DispatchPacket, DispatchSections, Offered, Accepted;
    SectionsOffered(s.sections, step.accepts, step.sections, id);
  }

  lemma OthersLeaveSections(s: State, step: Step, id: nat)
    requires Inv(s) && Enabled(s, step) && id in s.sections.all && !step.FinishSection? && !step.Close? && !step.Dispatches?
    ensures id in Apply(s, step).sections.all && Apply(s, step).sections.all[id].finished == s.sections.all[id].finished
    ensures Apply(s, step).sections.all[id].log == s.sections.all[id].log
  {
    hide SubsOk, LogOk;
  }

  /** One step and one section subscription. */
  lemma SectionStep(s: State, step: Step, id: nat)
    requires Inv(s) && Enabled(s, step) && id in s.sections.all
    ensures id in Apply(s, step).sections.all
    ensures var sub, now := s.sections.all[id], Apply(s, step).sections.all[id];
            if sub.finished then now.finished && now.log == sub.log
            else
              && (now.finished <==> EndsSections(sub, id, step))
              && now.log <= sub.log + Wanted(step, id) && (!now.finished ==> now.log == sub.log + Wanted(step, id))
  {
    hide Inv, Enabled, Apply, Accepted;
    assert s.sections.all[id].log + [] == s.sections.all[id].log;
    match step {
      case Dispatches(_, _, _, _) => DispatchesSections(s, step, id);
      case FinishSection(_) => FinishSectionStep(s, step, id);
      case Close => FinishSectionStep(s, step, id);
      case _ => OthersLeaveSections(s, step, id);
    }
  }

  function WantedAll(steps: seq<Step>, id: nat): seq<Section>
    decreases |steps|
  {
    if steps == [] then [] else Wanted(steps[0], id) + WantedAll(steps[1..], id)
  }

  ghost predicate SomeStepEndsSections(s: State, steps: seq<Step>, id: nat)
    decreases |steps|
  {
    && steps != [] && Inv(s) && Enabled(s, steps[0]) && id in s.sections.all
    && (EndsSections(s.sections.all[id], id, steps[0]) || SomeStepEndsSections(Apply(s, steps[0]), steps[1..], id))
  }

  lemma {:induction false} SectionsStayFinished(s: State, steps: seq<Step>, t: State, id: nat)
    requires Inv(s) && IsRun(s, steps, t) && id in s.sections.all && s.sections.all[id].finished
    ensures id in t.sections.all && t.sections.all[id].finished && t.sections.all[id].log == s.sections.all[id].log
    decreases |steps|
  {
    hide Inv, Enabled, Apply, Wanted, EndsSections;
    if steps != [] {
      StepKeeps(s, steps[0]);
      SectionStep(s, steps[0], id);
      SectionsStayFinished(Apply(s, steps[0]), steps[1..], t, id);
    }
  }

  /**
   Over every run, a section subscriber is queued exactly the sections that it accepts, in
   order, until its subscription ends: by itself, with all, or when more are offered than
   its queue of 512 takes.
   */
  lemma {:induction false} GetsWhatItAccepts(s: State, steps: seq<Step>, t: State, id: nat)
    requires Inv(s) && IsRun(s, steps, t) && id in s.sections.all && !s.sections.all[id].finished
    ensures id in t.sections.all
    ensures t.sections.all[id].finished <==> SomeStepEndsSections(s, steps, id)
    ensures t.sections.all[id].log <= s.sections.all[id].log + WantedAll(steps, id)
    ensures !t.sections.all[id].finished ==> t.sections.all[id].log == s.sections.all[id].log + WantedAll(steps, id)
    decreases |steps|
  {
    hide Inv, Enabled, Apply, Wanted, EndsSections;
    var sub := s.sections.all[id];
    if steps == [] {
      assert sub.log + [] == sub.log;
    } else {
      var u := Apply(s, steps[0]);
      StepKeeps(s, steps[0]);
      SectionStep(s, steps[0], id);
      var given, later := Wanted(steps[0], id), WantedAll(steps[1..], id);
      assert (sub.log + given) + later == sub.log + (given + later);
      if u.sections.all[id].finished {
        SectionsStayFinished(u, steps[1..], t, id);
      } else {
        GetsWhatItAccepts(u, steps[1..], t, id);
      }
    }
  }

  // ----- the end of all -----

  predicate Attached(s: State) {
    s.packets.live != {} || s.sections.live != {}
  }

  /** The demuxer stops for good exactly when the last subscription ends or all is closed, and attaching is refused from then on. */
  lemma StopsExactly(s: State, step: Step, view: View)
    requires Inv(s) && Enabled(s, step)
    ensures Apply(s, step).stopped <==> s.stopped || step.Close? || (Attached(s) && !Attached(Apply(s, step)))
    ensures Apply(s, step).stopped ==> !Enabled(Apply(s, step), AttachPacket(view)) && !Enabled(Apply(s, step), AttachSection)
  {
    hide SubsOk, LogOk, DispatchPacket, DispatchSections, Finish, FinishAll;
    if step.AttachPacket? || step.AttachSection? { assert s.nextId in Apply(s, step).packets.live || s.nextId in Apply(s, step).sections.live; }
  }
}
