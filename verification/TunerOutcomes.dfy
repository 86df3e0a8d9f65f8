/**
 What the manager does to a tuner, told by the fields: which tuner an attempt takes or
 names, what a reservation writes, what the marks of a device set and clear until it is
 released, and who uses a tuner.
 */
module TunerOutcomes {
  import opened Tuners
  import opened TunerTheorems

  // ----- which tuner an attempt takes -----

  /** Enabled, of the channel's type, usable and without fault. */
  predicate Fits(s: State, q: Request, i: nat)
    requires i < |s.tuners| == |s.runtime|
  {
    !s.tuners[i].disabled && q.channelType in s.tuners[i].groups && s.tuners[i].usable && !s.runtime[i].fault
  }

  /** Fits, nobody holds it, and a device can be made for it. */
  predicate CanTake(s: State, q: Request, i: nat)
    requires i < |s.tuners| == |s.runtime|
  {
    Fits(s, q, i) && !s.runtime[i].inUse && i in q.makes
  }

  /** Fits, and whoever holds or uses it has less priority than the request. */
  predicate CanGrab(s: State, q: Request, i: nat)
    requires i < |s.tuners| == |s.runtime|
  {
    && Fits(s, q, i) && s.runtime[i].inUse && s.runtime[i].priority < q.priority
    && forall id | id in s.runtime[i].users :: s.runtime[i].users[id].priority < q.priority
  }

  /** The k-th tuner from the one after that which this type was given last. */
  function Rotated(s: State, q: Request, k: nat): nat
    requires s.tuners != []
  {
    ((if q.channelType in s.nextByType then s.nextByType[q.channelType] else 0) + k) % |s.tuners|
  }

  lemma TakeExactly(s: State, q: Request, i: nat)
    requires Inv(s) && i < |s.tuners|
    ensures Available(s, q, i) <==> CanTake(s, q, i)
    ensures Grabbable(s, q, i) <==> CanGrab(s, q, i)
  {
    hide EffectivePriority, DeviceOk;
    assert TunerOk(s, i);
    EffectiveBelow(s.runtime[i], q.priority);
  }

  /** The first tuner of the rotation that can be taken. */
  predicate IsFirst(s: State, q: Request, k: nat)
    requires Inv(s) && k < |s.tuners|
  {
    CanTake(s, q, Rotated(s, q, k)) && forall j | 0 <= j < k :: !CanTake(s, q, Rotated(s, q, j))
  }

  /** The state after giving tuner i to the request as device d. */
  predicate Given(s: State, q: Request, i: nat, d: nat, t: State)
    requires i < |s.tuners| == |s.runtime|
  {
    && t.tuners == s.tuners && t.changed == s.changed
    && t.inUse == s.inUse + {i}
    && t.runtime == s.runtime[i := Runtime(true, false, false, false, q.priority, Some(d), q.requested, q.tuned, s.runtime[i].users)]
    && t.nextByType == s.nextByType[q.channelType := if i + 1 < |s.tuners| then i + 1 else 0]
    && t.devices == s.devices[d := Device(i, false)]
  }

  lemma NextTurn(i: nat, n: nat)
    requires i < n
    ensures (i + 1) % n == if i + 1 < n then i + 1 else 0
  {
  }

  /**
   An attempt gets a device exactly if some tuner can be taken.  It is given the first one
   of the rotation, with its own priority and channels, no flag set and the tuner's users
   kept, and the rotation goes on after it; otherwise nothing changes.
   */
  lemma ReservesExactly(s: State, q: Request, d: nat)
    requires Inv(s) && d !in s.devices
    ensures Outcome(s, q, d).device.Some? <==> exists i | 0 <= i < |s.tuners| :: CanTake(s, q, i)
    ensures Outcome(s, q, d).device.Some? ==>
              Outcome(s, q, d).device.value == d
              && exists k | 0 <= k < |s.tuners| :: IsFirst(s, q, k) && Given(s, q, Rotated(s, q, k), d, TryAcquire(s, q, d))
    ensures Outcome(s, q, d).device.None? ==> TryAcquire(s, q, d) == s
  {
    AcquiresExactly(s, q, d);
    hide TunerOk, DeviceOk, ScanFrom, TryAcquire, CanTake, CanGrab, Available, Grabbable;
    forall i | 0 <= i < |s.tuners|
      ensures Available(s, q, i) <==> CanTake(s, q, i)
    {
      TakeExactly(s, q, i);
    }
    if Outcome(s, q, d).device.Some? {
      var k :| 0 <= k < |s.tuners| && Available(s, q, Turn(s, q, k)) && NoneBefore(s, q, k)
               && TryAcquire(s, q, d) == Reserve(s, q, Turn(s, q, k), d);
      FirstIs(s, q, k);
      TakenIsWithoutFault(s, q, Turn(s, q, k));
      NextTurn(Turn(s, q, k), |s.tuners|);
    }
  }

  lemma TakenIsWithoutFault(s: State, q: Request, i: nat)
    requires i < |s.tuners| == |s.runtime| && Available(s, q, i)
    ensures !s.runtime[i].fault
  {
  }

  lemma FirstIs(s: State, q: Request, k: nat)
    requires Inv(s) && k < |s.tuners| && Available(s, q, Turn(s, q, k)) && NoneBefore(s, q, k)
    ensures IsFirst(s, q, k)
  {
    hide Available, Grabbable, CanTake, CanGrab, TunerOk, DeviceOk;
    TakeExactly(s, q, Turn(s, q, k));
    forall j | 0 <= j < k
      ensures !CanTake(s, q, Rotated(s, q, j))
    {
      TakeExactly(s, q, Turn(s, q, j));
    }
  }

  // ----- which holder an attempt names -----

  ghost function Weight(s: State, q: Request, k: nat): int
    requires k < |s.tuners| == |s.runtime|
  {
    EffectivePriority(s.runtime[Turn(s, q, k)])
  }

  /** Of the first n turns, the k-th is the first with the weakest holder that can be grabbed. */
  ghost predicate IsVictim(s: State, q: Request, k: nat, n: nat)
    requires k < n <= |s.tuners| == |s.runtime|
  {
    && Grabbable(s, q, Turn(s, q, k))
    && (forall j | 0 <= j < k :: Grabbable(s, q, Turn(s, q, j)) ==> Weight(s, q, k) < Weight(s, q, j))
    && (forall j | k < j < n :: Grabbable(s, q, Turn(s, q, j)) ==> Weight(s, q, k) <= Weight(s, q, j))
  }

  ghost predicate VictimKnown(s: State, q: Request, n: nat, g: Option<Grab>)
    requires n <= |s.tuners| == |s.runtime|
  {
    match g
    case None => forall j | 0 <= j < n :: !Grabbable(s, q, Turn(s, q, j))
    case Some(grab) =>
      exists k | 0 <= k < n ::
        && IsVictim(s, q, k, n)
        && s.runtime[Turn(s, q, k)].device == Some(grab.device) && Weight(s, q, k) == grab.priority
  }

  lemma LookKnows(s: State, q: Request, n: nat, acc: Scan)
    requires n < |s.tuners| == |s.runtime| && VictimKnown(s, q, n, acc.grab)
    ensures VictimKnown(s, q, n + 1, Looking(s, q, Turn(s, q, n), acc).grab)
  {
    hide EffectivePriority, Matches, IsVictim;
    var r := s.runtime[Turn(s, q, n)];
    if acc.grab.Some? {
      var k :| 0 <= k < n && IsVictim(s, q, k, n) && s.runtime[Turn(s, q, k)].device == Some(acc.grab.value.device)
               && Weight(s, q, k) == acc.grab.value.priority;
      VictimGoesOn(s, q, k, n);
      if Grabbable(s, q, Turn(s, q, n)) && Weight(s, q, n) < Weight(s, q, k) { assert IsVictim(s, q, n, n + 1); }
    } else if Grabbable(s, q, Turn(s, q, n)) {
      FirstVictim(s, q, n);
    }
  }

  lemma FirstVictim(s: State, q: Request, n: nat)
    requires n < |s.tuners| == |s.runtime| && VictimKnown(s, q, n, None) && Grabbable(s, q, Turn(s, q, n))
    ensures IsVictim(s, q, n, n + 1)
  {
    hide Grabbable, Turn, EffectivePriority;
  }

  /** One more turn leaves the victim, or is weaker. */
  lemma VictimGoesOn(s: State, q: Request, k: nat, n: nat)
    requires k < n < |s.tuners| == |s.runtime| && IsVictim(s, q, k, n)
    ensures if Grabbable(s, q, Turn(s, q, n)) && Weight(s, q, n) < Weight(s, q, k) then IsVictim(s, q, n, n + 1)
            else IsVictim(s, q, k, n + 1)
  {
    hide Grabbable, Turn, EffectivePriority;
  }

  lemma {:induction false} ScanKnows(s: State, q: Request, n: nat, acc: Scan)
    requires Inv(s) && n <= |s.tuners| && VictimKnown(s, q, n, acc.grab) && acc.chosen.None?
    ensures var scan := ScanFrom(s, q, n, acc);
            scan.chosen.None? ==> VictimKnown(s, q, |s.tuners|, scan.grab)
    decreases |s.tuners| - n
  {
    hide Available, Looking, TunerOk, DeviceOk, VictimKnown;
    if n < |s.tuners| {
      ScanTurn(s, q, n, acc);
      if !Available(s, q, Turn(s, q, n)) {
        LookKnows(s, q, n, acc);
        KeepsChoice(s, q, Turn(s, q, n), acc);
        ScanKnows(s, q, n + 1, Looking(s, q, Turn(s, q, n), acc));
      }
    }
  }

  /** The greatest priority on a tuner, as a number that holds. */
  ghost predicate Weighs(s: State, i: nat, m: int)
    requires i < |s.runtime|
  {
    IsEffective(s.runtime[i].priority, s.runtime[i].users, m)
  }

  /** The first tuner of the rotation with the weakest holder below the request, held by device v. */
  ghost predicate IsWeakest(s: State, q: Request, k: nat, v: nat)
    requires Inv(s) && k < |s.tuners|
  {
    var i := Rotated(s, q, k);
    && CanGrab(s, q, i) && s.runtime[i].device == Some(v)
    && exists m: int :: Weighs(s, i, m) && forall j | 0 <= j < |s.tuners| && j != k && CanGrab(s, q, Rotated(s, q, j)) ::
                          exists other: int :: Weighs(s, Rotated(s, q, j), other) && (m < other || (m == other && k < j))
  }

  lemma WeighsExactly(s: State, i: nat, m: int)
    requires i < |s.runtime|
    ensures Weighs(s, i, m) <==> m == EffectivePriority(s.runtime[i])
  {
    if Weighs(s, i, m) { EffectiveIsUnique(s.runtime[i].priority, s.runtime[i].users, m, EffectivePriority(s.runtime[i])); }
  }

  lemma WeakestExactly(s: State, q: Request, k: nat, v: nat)
    requires Inv(s) && k < |s.tuners|
    ensures IsWeakest(s, q, k, v) <==> IsVictim(s, q, k, |s.tuners|) && s.runtime[Turn(s, q, k)].device == Some(v)
  {
    hide Available, Grabbable, CanTake, CanGrab, TunerOk, DeviceOk, EffectivePriority, Weighs;
    forall j | 0 <= j < |s.tuners|
      ensures Grabbable(s, q, Turn(s, q, j)) <==> CanGrab(s, q, Rotated(s, q, j))
      ensures Weighs(s, Rotated(s, q, j), Weight(s, q, j))
      ensures forall m: int :: Weighs(s, Rotated(s, q, j), m) ==> m == Weight(s, q, j)
    {
      TakeExactly(s, q, Turn(s, q, j));
      WeighsExactly(s, Rotated(s, q, j), Weight(s, q, j));
      forall m: int | Weighs(s, Rotated(s, q, j), m) { WeighsExactly(s, Rotated(s, q, j), m); }
    }
  }

  lemma OneVictim(s: State, q: Request, a: nat, b: nat)
    requires Inv(s) && a < |s.tuners| && b < |s.tuners| && IsVictim(s, q, a, |s.tuners|) && IsVictim(s, q, b, |s.tuners|)
    ensures a == b
  {
    hide Grabbable, Turn, EffectivePriority, TunerOk, DeviceOk;
  }

  lemma NamesVictim(s: State, q: Request, d: nat, v: nat)
    requires Inv(s) && Outcome(s, q, d).device.None?
    ensures var g := Outcome(s, q, d).grab;
            g.Some? && g.value.device == v <==> exists k | 0 <= k < |s.tuners| :: HeldVictim(s, q, k, v)
  {
    hide TunerOk, DeviceOk, ScanFrom, IsVictim, Grabbable, EffectivePriority;
    ScanKnows(s, q, 0, NOTHING);
    var g := Outcome(s, q, d).grab;
    if a :| 0 <= a < |s.tuners| && HeldVictim(s, q, a, v) {
      VictimGrabbable(s, q, a);
      if g.Some? {
        var b :| 0 <= b < |s.tuners| && IsVictim(s, q, b, |s.tuners|) && s.runtime[Turn(s, q, b)].device == Some(g.value.device);
        OneVictim(s, q, a, b);
      }
    }
    if g.Some? && g.value.device == v {
      var b :| 0 <= b < |s.tuners| && IsVictim(s, q, b, |s.tuners|) && s.runtime[Turn(s, q, b)].device == Some(g.value.device);
      assert HeldVictim(s, q, b, v);
    }
  }

  ghost predicate HeldVictim(s: State, q: Request, k: nat, v: nat)
    requires k < |s.tuners| == |s.runtime|
  {
    IsVictim(s, q, k, |s.tuners|) && s.runtime[Turn(s, q, k)].device == Some(v)
  }

  lemma VictimGrabbable(s: State, q: Request, k: nat)
    requires k < |s.tuners| == |s.runtime| && IsVictim(s, q, k, |s.tuners|)
    ensures Grabbable(s, q, Turn(s, q, k))
  {
  }

  /**
   The request is told to grab from device v exactly if no tuner can be taken and v holds
   the tuner with the weakest holder below it, the first such in the rotation.
   */
  lemma GrabsExactly(s: State, q: Request, d: nat, wait: bool, v: nat)
    requires Inv(s) && d !in s.devices
    ensures Decide(Outcome(s, q, d), wait) == Grabs(v) <==>
              && (forall i | 0 <= i < |s.tuners| :: !CanTake(s, q, i))
              && exists k | 0 <= k < |s.tuners| :: IsWeakest(s, q, k, v)
  {
    ReservesExactly(s, q, d);
    DecidesExactly(s, q, d, wait);
    hide TunerOk, DeviceOk, ScanFrom, CanTake, Available, Grabbable, IsVictim, IsWeakest, UpTo, Turn, Outcome;
    forall k | 0 <= k < |s.tuners|
      ensures IsWeakest(s, q, k, v) <==> HeldVictim(s, q, k, v)
    {
      WeakestExactly(s, q, k, v);
    }
    if Outcome(s, q, d).device.None? {
      NamesVictim(s, q, d, v);
      if k :| 0 <= k < |s.tuners| && HeldVictim(s, q, k, v) {
        VictimGrabbable(s, q, k);
        assert Turn(s, q, k) in AllTuners(s);
      }
    }
  }

  predicate IsOfType(s: State, q: Request, i: nat)
    requires i < |s.tuners|
  {
    !s.tuners[i].disabled && q.channelType in s.tuners[i].groups
  }

  /** The other answers, and that a request waits only if it may and has to. */
  lemma AnswersExactly(s: State, q: Request, d: nat, wait: bool)
    requires Inv(s) && d !in s.devices
    ensures var v := Decide(Outcome(s, q, d), wait);
            var ofType := exists i | 0 <= i < |s.tuners| :: IsOfType(s, q, i);
            var usable := exists i | 0 <= i < |s.tuners| :: IsOfType(s, q, i) && s.tuners[i].usable;
            var nothing := forall i | 0 <= i < |s.tuners| :: !CanTake(s, q, i) && !CanGrab(s, q, i);
            && (v == NotFound <==> !ofType)
            && (v == Unsupported <==> ofType && !usable)
            && (v == Unavailable <==> usable && nothing && !wait)
            && (v == Waits <==> usable && nothing && wait)
  {
    DecidesExactly(s, q, d, wait);
    AllAreTuners(s);
    hide TunerOk, DeviceOk, ScanFrom, CanTake, CanGrab, Available, Grabbable, UpTo, Outcome, AllTuners;
    forall i | 0 <= i < |s.tuners|
      ensures Available(s, q, i) <==> CanTake(s, q, i)
      ensures Grabbable(s, q, i) <==> CanGrab(s, q, i)
      ensures Matches(s, q, i) <==> IsOfType(s, q, i)
    {
      TakeExactly(s, q, i);
    }
  }

  lemma AllAreTuners(s: State)
    ensures forall i: nat :: i in AllTuners(s) <==> i < |s.tuners|
  {
  }

  // ----- what the marks do -----

  /** A call of device d that clears the flag. */
  predicate Clears(step: Step, d: nat, offs: set<Mark>) {
    step.Marks? && step.device == d && step.mark in offs
  }

  /** The flag was set by a mark of device d, or before, and no mark of d has cleared it since. */
  ghost predicate On(before: bool, steps: seq<Step>, d: nat, on: Mark, offs: set<Mark>) {
    || (before && forall l | 0 <= l < |steps| :: !Clears(steps[l], d, offs))
    || exists k | 0 <= k < |steps| :: steps[k] == Marks(d, on) && forall l | k < l < |steps| :: !Clears(steps[l], d, offs)
  }

  lemma OnFirst(before: bool, steps: seq<Step>, d: nat, on: Mark, offs: set<Mark>)
    requires steps != [] && on !in offs
    ensures On(before, steps, d, on, offs) <==>
              On(steps[0] == Marks(d, on) || (before && !Clears(steps[0], d, offs)), steps[1..], d, on, offs)
  {
    hide Clears;
    var rest := steps[1..];
    if On(before, steps, d, on, offs) {
      if before && forall l | 0 <= l < |steps| :: !Clears(steps[l], d, offs) {
        assert !Clears(steps[0], d, offs);
        assert forall l | 0 <= l < |rest| :: rest[l] == steps[l + 1];
      } else {
        var k :| 0 <= k < |steps| && steps[k] == Marks(d, on) && forall l | k < l < |steps| :: !Clears(steps[l], d, offs);
        assert forall l | 0 <= l < |rest| :: rest[l] == steps[l + 1];
        if k > 0 { assert rest[k - 1] == Marks(d, on); }
      }
    }
    var now := steps[0] == Marks(d, on) || (before && !Clears(steps[0], d, offs));
    if On(now, rest, d, on, offs) {
      if now && forall l | 0 <= l < |rest| :: !Clears(rest[l], d, offs) {
        assert forall l | 0 < l < |steps| :: steps[l] == rest[l - 1];
      } else {
        var k :| 0 <= k < |rest| && rest[k] == Marks(d, on) && forall l | k < l < |rest| :: !Clears(rest[l], d, offs);
        assert steps[k + 1] == Marks(d, on) && forall l | k + 1 < l < |steps| :: steps[l] == rest[l - 1];
      }
    }
  }

  /** Each flag is set by one mark of the tuner's own device and cleared by others; nothing else touches it. */
  lemma StepFlags(s: State, step: Step, i: nat, d: nat)
    requires Inv(s) && Enabled(s, step) && i < |s.runtime| && s.runtime[i].device == Some(d) && step != Releases(d)
    ensures var t := Apply(s, step);
            && |t.runtime| == |s.runtime| && t.runtime[i].device == Some(d)
            && (t.runtime[i].running <==> step == Marks(d, Running) || (s.runtime[i].running && !Clears(step, d, {Stopped, Fault})))
            && (t.runtime[i].stopped <==> step == Marks(d, Stopped) || (s.runtime[i].stopped && !Clears(step, d, {Running})))
            && (t.runtime[i].fault <==> step == Marks(d, Fault) || (s.runtime[i].fault && !Clears(step, d, {})))
  {
    hide TryAcquire;
    assert TunerOk(s, i);
    if Spares(step, d) {
      StepSpares(s, step, i, d);
    }
  }

  lemma {:induction false} FlagsExactly(s: State, steps: seq<Step>, t: State, i: nat, d: nat)
    requires Inv(s) && IsRun(s, steps, t) && i < |s.runtime| && s.runtime[i].device == Some(d) && Releases(d) !in steps
    ensures |t.runtime| == |s.runtime| && t.runtime[i].device == Some(d)
    ensures t.runtime[i].running <==> On(s.runtime[i].running, steps, d, Running, {Stopped, Fault})
    ensures t.runtime[i].stopped <==> On(s.runtime[i].stopped, steps, d, Stopped, {Running})
    ensures t.runtime[i].fault <==> On(s.runtime[i].fault, steps, d, Fault, {})
    decreases |steps|
  {
    hide Inv, Enabled, Apply;
    if steps != [] {
      hide On, Clears;
      StepKeeps(s, steps[0]);
      StepFlags(s, steps[0], i, d);
      OnFirst(s.runtime[i].running, steps, d, Running, {Stopped, Fault});
      OnFirst(s.runtime[i].stopped, steps, d, Stopped, {Running});
      OnFirst(s.runtime[i].fault, steps, d, Fault, {});
      FlagsExactly(Apply(s, steps[0]), steps[1..], t, i, d);
    }
  }

  /**
   Over every run from a reservation until its device is released, the tuner is at fault
   exactly if the device has been marked so, running exactly if its last mark says so, and
   stopped exactly if it has been marked stopped and not running since.
   */
  lemma MarksSinceReserved(s: State, q: Request, d: nat, steps: seq<Step>, t: State)
    requires Inv(s) && d !in s.devices && Outcome(s, q, d).device.Some?
    requires IsRun(TryAcquire(s, q, d), steps, t) && Releases(d) !in steps
    ensures d in TryAcquire(s, q, d).devices
    ensures var i := TryAcquire(s, q, d).devices[d].tuner;
            && i < |t.runtime| && t.runtime[i].inUse && t.runtime[i].device == Some(d)
            && (t.runtime[i].running <==> On(false, steps, d, Running, {Stopped, Fault}))
            && (t.runtime[i].stopped <==> On(false, steps, d, Stopped, {Running}))
            && (t.runtime[i].fault <==> Marks(d, Fault) in steps)
  {
    ReservesExactly(s, q, d);
    hide CanTake, IsFirst, Rotated, TunerOk, DeviceOk, TryAcquire, Outcome, On;
    var u := TryAcquire(s, q, d);
    var k :| 0 <= k < |s.tuners| && IsFirst(s, q, k) && Given(s, q, Rotated(s, q, k), d, u);
    AcquireKeeps(s, q, d);
    var i := Rotated(s, q, k);
    FlagsExactly(u, steps, t, i, d);
    FaultOn(steps, d);
    RunsKeep(u, steps, t);
    assert TunerOk(t, i);
  }

  lemma FaultOn(steps: seq<Step>, d: nat)
    ensures On(false, steps, d, Fault, {}) <==> Marks(d, Fault) in steps
  {
    assert Marks(d, Fault) in steps ==> exists k | 0 <= k < |steps| :: steps[k] == Marks(d, Fault);
  }

  lemma FaultStays(s: State, d: nat, steps: seq<Step>, t: State)
    requires Inv(s) && d in s.devices && !s.devices[d].released
    requires IsRun(s, [Marks(d, Fault)] + steps, t) && Releases(d) !in steps
    ensures Inv(t)
    ensures s.devices[d].tuner < |t.runtime| && t.runtime[s.devices[d].tuner].device == Some(d) && t.runtime[s.devices[d].tuner].fault
  {
    assert DeviceOk(s, d);
    hide Inv, Enabled, Apply, DeviceOk, IsRun;
    var all := [Marks(d, Fault)] + steps;
    RunsKeep(s, all, t);
    DeviceOfTuner(s, d);
    FlagsExactly(s, all, t, s.devices[d].tuner, d);
    assert all[0] == Marks(d, Fault);
    assert forall l | 0 < l < |all| :: !Clears(all[l], d, {});
  }

  lemma DeviceOfTuner(s: State, d: nat)
    requires Inv(s) && d in s.devices && !s.devices[d].released
    ensures s.devices[d].tuner < |s.runtime| && s.runtime[s.devices[d].tuner].device == Some(d)
  {
    assert DeviceOk(s, d);
  }

  /** A device is in the runtime of one tuner only. */
  lemma OneTuner(s: State, i: nat, j: nat, d: nat)
    requires Inv(s) && i < |s.runtime| && j < |s.runtime| && s.runtime[i].device == Some(d) && s.runtime[j].device == Some(d)
    ensures i == j
  {
    assert TunerOk(s, i) && TunerOk(s, j);
  }

  /** Nobody is given a tuner at fault, and nobody is told to grab it. */
  lemma FaultedIsPassedOver(s: State, i: nat, d: nat, q: Request, e: nat, wait: bool)
    requires Inv(s) && e !in s.devices && i < |s.runtime| && s.runtime[i].fault && s.runtime[i].device == Some(d)
    ensures !CanTake(s, q, i) && !CanGrab(s, q, i)
    ensures |TryAcquire(s, q, e).runtime| == |s.runtime| && TryAcquire(s, q, e).runtime[i] == s.runtime[i]
    ensures Decide(Outcome(s, q, e), wait) != Grabs(d)
  {
    ReservesExactly(s, q, e);
    GrabsExactly(s, q, e, wait, d);
    hide TunerOk, DeviceOk, ScanFrom, TryAcquire, Outcome, Rotated;
    forall k | 0 <= k < |s.tuners|
      ensures !IsWeakest(s, q, k, d)
    {
      if IsWeakest(s, q, k, d) { OneTuner(s, i, Rotated(s, q, k), d); }
    }
  }

  /**
   From a fault of the tuner's own device until its release, nobody is given the tuner and
   nobody is told to grab it, whatever is asked for and whatever else happens.
   */
  lemma FaultIsPassedOver(s: State, d: nat, steps: seq<Step>, t: State, q: Request, e: nat, wait: bool)
    requires Inv(s) && d in s.devices && !s.devices[d].released
    requires IsRun(s, [Marks(d, Fault)] + steps, t) && Releases(d) !in steps && e !in t.devices
    ensures Inv(t)
    ensures var i := s.devices[d].tuner;
            && i < |t.runtime| && t.runtime[i].fault
            && !Available(t, q, i) && !Grabbable(t, q, i)
            && |TryAcquire(t, q, e).runtime| == |t.runtime| && TryAcquire(t, q, e).runtime[i] == t.runtime[i]
            && Decide(Outcome(t, q, e), wait) != Grabs(d)
  {
    hide TunerOk, DeviceOk, IsRun, TryAcquire, Outcome, Decide, CanTake, CanGrab, Available, Grabbable;
    FaultStays(s, d, steps, t);
    FaultedIsPassedOver(t, s.devices[d].tuner, d, q, e, wait);
    TakeExactly(t, q, s.devices[d].tuner);
  }

  /** Releasing an unreleased device clears its tuner of everything, its users too, and closes the channel. */
  lemma ReleaseClears(s: State, d: nat)
    requires Inv(s) && d in s.devices && !s.devices[d].released
    ensures s.devices[d].tuner < |s.runtime|
    ensures var i := s.devices[d].tuner;
            var t := ReleaseOnce(s, d);
            && t.tuners == s.tuners && t.nextByType == s.nextByType
            && t.inUse == s.inUse - {i} && t.changed == s.changed + 1
            && t.runtime == s.runtime[i := Runtime(false, false, false, false, 0, None, None, None, map[])]
            && t.devices == s.devices[d := Device(i, true)]
  {
    assert DeviceOk(s, d);
    assert TunerOk(s, s.devices[d].tuner);
  }

  /** Once it is released, the tuner is without fault and given to whom it suits. */
  lemma ReleasedCanBeTaken(s: State, d: nat, q: Request, e: nat)
    requires Inv(s) && d in s.devices && !s.devices[d].released && e !in s.devices
    requires s.devices[d].tuner < |s.tuners| == |s.runtime| && s.devices[d].tuner in q.makes
    requires IsOfType(s, q, s.devices[d].tuner) && s.tuners[s.devices[d].tuner].usable
    ensures Inv(ReleaseOnce(s, d)) && !ReleaseOnce(s, d).runtime[s.devices[d].tuner].fault
    ensures e !in ReleaseOnce(s, d).devices && Outcome(ReleaseOnce(s, d), q, e).device == Some(e)
  {
    ReleaseClears(s, d);
    ReleaseKeeps(s, d);
    var t := ReleaseOnce(s, d);
    ReservesExactly(t, q, e);
    hide Inv, ReleaseOnce, Outcome, TryAcquire;
    assert CanTake(t, q, s.devices[d].tuner);
  }

  // ----- users -----

  function Users(s: State, i: nat): map<string, User>
    requires i < |s.runtime|
  {
    s.runtime[i].users
  }

  function Refs(users: map<string, User>, id: string): nat {
    if id in users then users[id].refs else 0
  }

  /** Every user that is kept has a reference. */
  predicate RefsOk(s: State) {
    forall i | 0 <= i < |s.runtime| :: Counting(s.runtime[i].users)
  }

  predicate Counting(users: map<string, User>) {
    forall id | id in users :: users[id].refs > 0
  }

  predicate Adds(step: Step, i: nat, id: string) {
    step.AddsUser? && step.tuner == i && step.id == id && id != ""
  }

  predicate Removes(step: Step, i: nat, id: string) {
    step.RemovesUser? && step.tuner == i && step.id == id
  }

  /** Every adding counts, and every removing as long as there is something to remove. */
  function Counted(refs: nat, steps: seq<Step>, i: nat, id: string): nat
    decreases |steps|
  {
    if steps == [] then refs
    else
      Counted(if Adds(steps[0], i, id) then refs + 1
              else if Removes(steps[0], i, id) && refs > 0 then refs - 1 else refs, steps[1..], i, id)
  }

  /** The priority that the last adding named. */
  function LastGiven(priority: int, steps: seq<Step>, i: nat, id: string): int
    decreases |steps|
  {
    if steps == [] then priority
    else LastGiven(LastOf(priority, steps[0], i, id), steps[1..], i, id)
  }

  function LastOf(priority: int, step: Step, i: nat, id: string): int {
    if Adds(step, i, id) then step.priority else priority
  }

  lemma AcquiringKeepsUsers(s: State, q: Request, d: nat, i: nat)
    requires Inv(s) && d !in s.devices && i < |s.runtime|
    ensures |TryAcquire(s, q, d).runtime| == |s.runtime| && Users(TryAcquire(s, q, d), i) == Users(s, i)
  {
    ReservesExactly(s, q, d);
    hide Inv, TryAcquire, Outcome, IsFirst, CanTake, Rotated;
  }

  /** What one step does to one user of a tuner. */
  predicate UserMoves(users: map<string, User>, now: map<string, User>, step: Step, i: nat, id: string) {
    && Counting(now)
    && Refs(now, id) == (if Adds(step, i, id) then Refs(users, id) + 1
                         else if Removes(step, i, id) && Refs(users, id) > 0 then Refs(users, id) - 1 else Refs(users, id))
    && (id in now ==>
          if Adds(step, i, id) then now[id].priority == step.priority
          else id in users && now[id].priority == users[id].priority)
  }

  lemma SameUsers(users: map<string, User>, step: Step, i: nat, id: string)
    requires Counting(users) && !step.AddsUser? && !step.RemovesUser?
    ensures UserMoves(users, users, step, i, id)
  {
  }

  lemma AddingMoves(s: State, step: Step, i: nat, id: string)
    requires step.AddsUser? && step.tuner < |s.runtime| && i < |s.runtime| && Counting(Users(s, i))
    ensures UserMoves(Users(s, i), Users(AddUser(s, step.tuner, step.id, step.priority), i), step, i, id)
  {
  }

  lemma RemovingMoves(s: State, step: Step, i: nat, id: string)
    requires step.RemovesUser? && step.tuner < |s.runtime| && i < |s.runtime| && Counting(Users(s, i))
    ensures UserMoves(Users(s, i), Users(RemoveUser(s, step.tuner, step.id), i), step, i, id)
  {
  }

  lemma CallKeepsUsers(s: State, step: Step, i: nat)
    requires Inv(s) && Enabled(s, step) && i < |s.runtime|
    requires step.Marks? || (step.Releases? && s.runtime[i].device != Some(step.device))
    ensures |Apply(s, step).runtime| == |s.runtime| && Users(Apply(s, step), i) == Users(s, i)
  {
    if step.Releases? { assert DeviceOk(s, step.device); }
  }

  lemma StepUsers(s: State, step: Step, i: nat, id: string)
    requires Inv(s) && Enabled(s, step) && i < |s.runtime| && Counting(Users(s, i))
    requires step.Releases? ==> s.runtime[i].device != Some(step.device)
    ensures |Apply(s, step).runtime| == |s.runtime| && UserMoves(Users(s, i), Users(Apply(s, step), i), step, i, id)
  {
    hide Inv, TryAcquire, ReleaseOnce, MarkDevice, UserMoves, Counting;
    match step {
      case Acquires(q, d) => AcquiringKeepsUsers(s, q, d, i); SameUsers(Users(s, i), step, i, id);
      case Releases(d) => CallKeepsUsers(s, step, i); SameUsers(Users(s, i), step, i, id);
      case Marks(_, _) => CallKeepsUsers(s, step, i); SameUsers(Users(s, i), step, i, id);
      case AddsUser(_, _, _) => AddingMoves(s, step, i, id);
      case RemovesUser(_, _) => RemovingMoves(s, step, i, id);
    }
  }

  lemma StepKeepsRefs(s: State, step: Step)
    requires Inv(s) && Enabled(s, step) && RefsOk(s)
    ensures RefsOk(Apply(s, step))
  {
    hide Apply, Counting;
    StepKeepsTuners(s, step);
    var t := Apply(s, step);
    forall i | 0 <= i < |t.runtime|
      ensures Counting(t.runtime[i].users)
    {
      if step.Releases? && s.runtime[i].device == Some(step.device) {
        ReleasedHasNoUsers(s, step.device, i);
      } else {
        StepUsers(s, step, i, "");
      }
    }
  }

  lemma ReleasedHasNoUsers(s: State, d: nat, i: nat)
    requires Inv(s) && i < |s.runtime| && s.runtime[i].device == Some(d) && d in s.devices && s.devices[d].tuner < |s.runtime|
    ensures |Apply(s, Releases(d)).runtime| == |s.runtime| && Counting(Apply(s, Releases(d)).runtime[i].users)
  {
    assert TunerOk(s, i);
  }

  lemma {:induction false} RunsKeepRefs(s: State, steps: seq<Step>, t: State)
    requires Inv(s) && RefsOk(s) && IsRun(s, steps, t)
    ensures RefsOk(t)
    decreases |steps|
  {
    hide Inv, Enabled, Apply, RefsOk;
    if steps != [] {
      StepKeeps(s, steps[0]);
      StepKeepsRefs(s, steps[0]);
      RunsKeepRefs(Apply(s, steps[0]), steps[1..], t);
    }
  }

  lemma {:induction false} UsersFollow(s: State, steps: seq<Step>, t: State, i: nat, d: nat, id: string, priority: int)
    requires Inv(s) && RefsOk(s) && IsRun(s, steps, t) && i < |s.runtime| && s.runtime[i].device == Some(d) && Releases(d) !in steps
    requires id in Users(s, i) ==> Users(s, i)[id].priority == priority
    ensures |t.runtime| == |s.runtime|
    ensures Refs(Users(t, i), id) == Counted(Refs(Users(s, i), id), steps, i, id)
    ensures id in Users(t, i) ==> Users(t, i)[id].priority == LastGiven(priority, steps, i, id)
    decreases |steps|
  {
    hide Inv, Enabled, Apply, Removes;
    if steps != [] {
      StepKeeps(s, steps[0]);
      StepKeepsRefs(s, steps[0]);
      StepFlags(s, steps[0], i, d);
      StepUsers(s, steps[0], i, id);
      UsersFollow(Apply(s, steps[0]), steps[1..], t, i, d, id, LastOf(priority, steps[0], i, id));
    }
  }

  /**
   After any run from the start, and until the device on a tuner is released: a user of the
   tuner has as many references as it was added more often than removed, is gone exactly
   when there is none, and has the priority that it was last added with.
   */
  lemma UsersAreCounted(tuners: seq<Tuner>, before: seq<Step>, s: State, steps: seq<Step>, t: State, i: nat, d: nat, id: string)
    requires IsRun(NewManager(tuners), before, s) && IsRun(s, steps, t)
    requires i < |s.runtime| && s.runtime[i].device == Some(d) && Releases(d) !in steps
    ensures |t.runtime| == |s.runtime|
    ensures var count := Counted(Refs(Users(s, i), id), steps, i, id);
            && (id in Users(t, i) <==> count > 0)
            && (id in Users(t, i) ==>
                  && Users(t, i)[id].refs == count
                  && Users(t, i)[id].priority == LastGiven(if id in Users(s, i) then Users(s, i)[id].priority else 0, steps, i, id))
  {
    hide Inv, IsRun, Counted, LastGiven;
    InitInv(tuners);
    RunsKeep(NewManager(tuners), before, s);
    RunsKeepRefs(NewManager(tuners), before, s);
    RunsKeepRefs(s, steps, t);
    UsersFollow(s, steps, t, i, d, id, if id in Users(s, i) then Users(s, i)[id].priority else 0);
  }
}
