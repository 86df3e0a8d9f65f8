/**
 Every tuner has at most one unreleased device, late calls of old devices do nothing, an
 attempt takes a tuner whenever there is one and otherwise names the weakest holder, and
 whoever waits for a release is woken by it.
 */
module TunerTheorems {
  import opened Tuners

  // ----- the invariant -----

  predicate TunerOk(s: State, i: nat)
    requires i < |s.runtime|
  {
    var r := s.runtime[i];
    && (r.inUse <==> i in s.inUse)
    && (r.inUse <==> r.device.Some?)
    && (r.device.Some? ==> r.device.value in s.devices && s.devices[r.device.value] == Device(i, false))
    && (!r.inUse ==> r.(users := map[]) == FREE)
  }

  predicate DeviceOk(s: State, d: nat)
    requires d in s.devices
  {
    && s.devices[d].tuner < |s.runtime|
    && (!s.devices[d].released ==> s.runtime[s.devices[d].tuner].device == Some(d))
  }

  predicate Inv(s: State) {
    && |s.tuners| == |s.runtime|
    && (forall i | 0 <= i < |s.runtime| :: TunerOk(s, i))
    && (forall d | d in s.devices :: DeviceOk(s, d))
    && (forall i | i in s.inUse :: i < |s.runtime|)
    && (forall t | t in s.nextByType :: s.nextByType[t] < |s.tuners|)
  }

  /** A tuner's only unreleased device is the one in its runtime. */
  lemma AtMostOneDevice(s: State, a: nat, b: nat)
    requires Inv(s) && a in s.devices && b in s.devices && s.devices[a].tuner == s.devices[b].tuner
    requires !s.devices[a].released && !s.devices[b].released
    ensures a == b
  {
    assert DeviceOk(s, a) && DeviceOk(s, b);
  }

  lemma InitInv(tuners: seq<Tuner>)
    ensures Inv(NewManager(tuners))
  {
  }

  lemma SetRuntime(s: State, t: State, i: nat)
    requires Inv(s) && i < |s.runtime| == |t.runtime| && t == s.(runtime := s.runtime[i := t.runtime[i]])
    requires t.runtime[i].inUse == s.runtime[i].inUse && t.runtime[i].device == s.runtime[i].device
    requires !t.runtime[i].inUse ==> t.runtime[i].(users := map[]) == FREE
    ensures Inv(t)
  {
    forall j | 0 <= j < |t.runtime|
      ensures TunerOk(t, j)
    {
      assert TunerOk(s, j);
    }
    forall d | d in t.devices
      ensures DeviceOk(t, d)
    {
      assert DeviceOk(s, d);
    }
  }

  lemma ReserveKeeps(s: State, q: Request, i: nat, d: nat)
    requires Inv(s) && i < |s.runtime| && i !in s.inUse && d !in s.devices
    ensures Inv(Reserve(s, q, i, d))
  {
    var t := Reserve(s, q, i, d);
    assert TunerOk(s, i);
    forall j | 0 <= j < |t.runtime|
      ensures TunerOk(t, j)
    {
      assert TunerOk(s, j);
    }
    forall e | e in t.devices
      ensures DeviceOk(t, e)
    {
      if e != d { assert DeviceOk(s, e); }
    }
  }

  lemma ReleaseKeeps(s: State, d: nat)
    requires Inv(s) && d in s.devices
    ensures s.devices[d].tuner < |s.runtime| && Inv(ReleaseOnce(s, d))
  {
    assert DeviceOk(s, d);
    if !s.devices[d].released {
      var t := ReleaseOnce(s, d);
      var i := s.devices[d].tuner;
      assert TunerOk(s, i);
      forall j | 0 <= j < |t.runtime|
        ensures TunerOk(t, j)
      {
        assert TunerOk(s, j);
      }
      forall e | e in t.devices
        ensures DeviceOk(t, e)
      {
        assert DeviceOk(s, e);
      }
    }
  }

  // ----- what an attempt finds -----

  /** The tuners of the turns before offset. */
  function Looked(s: State, q: Request, offset: nat): set<nat>
    requires s.tuners != [] || offset == 0
  {
    set k | 0 <= k < offset :: Turn(s, q, k)
  }

  lemma {:induction false} AddMod(a: nat, b: nat, n: nat)
    requires n > 0 && a < n && b < n
    ensures (a + b) % n == if a + b < n then a + b else a + b - n
  {
  }

  /** In as many turns as there are tuners, every tuner gets its turn. */
  lemma EveryTunerHasATurn(s: State, q: Request, i: nat)
    requires Inv(s) && i < |s.tuners|
    ensures i in Looked(s, q, |s.tuners|)
  {
    var n := |s.tuners|;
    var a := Start(s, q);
    var k := if i >= a then i - a else i + n - a;
    AddMod(a, k, n);
    assert Turn(s, q, k) == i;
  }

  predicate InRange(s: State, seen: set<nat>) {
    |s.tuners| == |s.runtime| && forall i | i in seen :: i < |s.tuners|
  }

  /** The named victim can be grabbed, and none that can be grabbed is held with less priority. */
  ghost predicate WeakestVictim(s: State, q: Request, seen: set<nat>, g: Option<Grab>)
    requires InRange(s, seen)
  {
    match g
    case None => forall i | i in seen :: !Grabbable(s, q, i)
    case Some(grab) =>
      && (exists i | i in seen :: Grabbable(s, q, i) && s.runtime[i].device == Some(grab.device) && EffectivePriority(s.runtime[i]) == grab.priority)
      && (forall i | i in seen && Grabbable(s, q, i) :: grab.priority <= EffectivePriority(s.runtime[i]))
  }

  /** What the scan knows after having looked at some tuners without finding an available one. */
  ghost predicate ScanOk(s: State, q: Request, seen: set<nat>, scan: Scan)
    requires InRange(s, seen)
  {
    && (forall i | i in seen :: !Available(s, q, i))
    && (scan.found <==> exists i | i in seen :: Matches(s, q, i))
    && (scan.usable <==> exists i | i in seen :: Matches(s, q, i) && s.tuners[i].usable)
    && WeakestVictim(s, q, seen, scan.grab)
  }

  /** One turn that does not reserve. */
  ghost function Looking(s: State, q: Request, i: nat, acc: Scan): Scan
    requires i < |s.tuners| == |s.runtime|
  {
    if !Matches(s, q, i) then acc
    else if !s.tuners[i].usable then acc.(found := true)
    else if s.runtime[i].fault || i !in s.inUse then acc.(found := true, usable := true)
    else acc.(found := true, usable := true, grab := Better(acc.grab, s.runtime[i], q.priority))
  }

  lemma LookingKeeps(s: State, q: Request, seen: set<nat>, i: nat, acc: Scan)
    requires InRange(s, seen) && i < |s.tuners| && ScanOk(s, q, seen, acc) && !Available(s, q, i)
    requires TunerOk(s, i)
    ensures InRange(s, seen + {i}) && ScanOk(s, q, seen + {i}, Looking(s, q, i, acc))
  {
    LookingGrab(s, q, seen, i, acc);
    hide EffectivePriority, Available, Grabbable, WeakestVictim, Better;
    var all := seen + {i};
    assert i in all && forall j | j in seen :: j in all;
  }

  lemma LookingGrab(s: State, q: Request, seen: set<nat>, i: nat, acc: Scan)
    requires InRange(s, seen) && i < |s.tuners| && WeakestVictim(s, q, seen, acc.grab)
    ensures WeakestVictim(s, q, seen + {i}, Looking(s, q, i, acc).grab)
  {
    hide EffectivePriority;
    var all := seen + {i};
    if acc.grab.Some? {
      var v :| v in seen && Grabbable(s, q, v) && s.runtime[v].device == Some(acc.grab.value.device)
               && EffectivePriority(s.runtime[v]) == acc.grab.value.priority;
      assert v in all;
    }
    assert i in all;
  }

  lemma ScanTurn(s: State, q: Request, offset: nat, acc: Scan)
    requires |s.tuners| == |s.runtime| && offset < |s.tuners|
    ensures var i := Turn(s, q, offset);
            ScanFrom(s, q, offset, acc) ==
            if Available(s, q, i) then acc.(found := true, usable := true, chosen := Some(i))
            else ScanFrom(s, q, offset + 1, Looking(s, q, i, acc))
  {
    hide Better;
  }

  lemma LookedMore(s: State, q: Request, offset: nat)
    requires s.tuners != []
    ensures Looked(s, q, offset + 1) == Looked(s, q, offset) + {Turn(s, q, offset)}
    ensures forall i | i in Looked(s, q, offset) :: i < |s.tuners|
  {
  }

  lemma {:induction false} ScanFinds(s: State, q: Request, offset: nat, acc: Scan)
    requires Inv(s) && offset <= |s.tuners| && acc.chosen.None?
    requires InRange(s, Looked(s, q, offset)) && ScanOk(s, q, Looked(s, q, offset), acc)
    ensures var scan := ScanFrom(s, q, offset, acc);
            && InRange(s, Looked(s, q, |s.tuners|))
            && if scan.chosen.None? then ScanOk(s, q, Looked(s, q, |s.tuners|), scan)
               else exists k | offset <= k < |s.tuners| ::
                      scan.chosen == Some(Turn(s, q, k)) && Available(s, q, Turn(s, q, k)) && NoneBefore(s, q, k)
    decreases |s.tuners| - offset
  {
    hide Available, ScanOk, Looking, TunerOk, DeviceOk;
    if offset < |s.tuners| {
      var i := Turn(s, q, offset);
      ScanTurn(s, q, offset, acc);
      LookedMore(s, q, offset);
      if Available(s, q, i) {
        NoneBeforeOf(s, q, offset, acc);
        LookedInRange(s, q, |s.tuners|);
      } else {
        LookingKeeps(s, q, Looked(s, q, offset), i, acc);
        KeepsChoice(s, q, i, acc);
        ScanFinds(s, q, offset + 1, Looking(s, q, i, acc));
      }
    }
  }

  lemma KeepsChoice(s: State, q: Request, i: nat, acc: Scan)
    requires i < |s.tuners| == |s.runtime|
    ensures Looking(s, q, i, acc).chosen == acc.chosen
  {
  }

  lemma LookedInRange(s: State, q: Request, offset: nat)
    requires |s.tuners| == |s.runtime| && s.tuners != []
    ensures InRange(s, Looked(s, q, offset))
  {
  }

  predicate NoneBefore(s: State, q: Request, k: nat)
    requires s.tuners != [] && |s.tuners| == |s.runtime|
  {
    forall j | 0 <= j < k :: !Available(s, q, Turn(s, q, j))
  }

  lemma NoneBeforeOf(s: State, q: Request, offset: nat, acc: Scan)
    requires s.tuners != [] && InRange(s, Looked(s, q, offset)) && ScanOk(s, q, Looked(s, q, offset), acc)
    ensures NoneBefore(s, q, offset)
  {
    hide Available;
    forall j | 0 <= j < offset
      ensures !Available(s, q, Turn(s, q, j))
    {
      assert Turn(s, q, j) in Looked(s, q, offset);
    }
  }

  /** The scan of a whole attempt. */
  lemma WholeScan(s: State, q: Request)
    requires Inv(s)
    ensures var scan := ScanFrom(s, q, 0, NOTHING);
            if scan.chosen.None? then InRange(s, AllTuners(s)) && ScanOk(s, q, AllTuners(s), scan)
            else s.tuners != [] && exists k | 0 <= k < |s.tuners| ::
                   scan.chosen == Some(Turn(s, q, k)) && Available(s, q, Turn(s, q, k)) && NoneBefore(s, q, k)
  {
    hide Available, TunerOk, DeviceOk;
    assert Looked(s, q, 0) == {};
    ScanFinds(s, q, 0, NOTHING);
    forall i | 0 <= i < |s.tuners|
      ensures i in Looked(s, q, |s.tuners|)
    {
      EveryTunerHasATurn(s, q, i);
    }
    assert Looked(s, q, |s.tuners|) == AllTuners(s);
  }

  /** The indices of all tuners. */
  function AllTuners(s: State): set<nat> {
    UpTo(|s.tuners|)
  }

  function UpTo(n: nat): (r: set<nat>)
    ensures forall i: nat :: i in r <==> i < n
  {
    if n == 0 then {} else UpTo(n - 1) + {n - 1}
  }

  /**
   An attempt gets a device exactly if some matching, usable tuner without fault is free
   and can make one; it takes the first such in the rotation.
   */
  lemma AcquiresExactly(s: State, q: Request, d: nat)
    requires Inv(s) && d !in s.devices
    ensures Outcome(s, q, d).device.Some? <==> exists i | 0 <= i < |s.tuners| :: Available(s, q, i)
    ensures Outcome(s, q, d).device.Some? ==>
              s.tuners != [] && exists k | 0 <= k < |s.tuners| ::
                Available(s, q, Turn(s, q, k)) && NoneBefore(s, q, k) && TryAcquire(s, q, d) == Reserve(s, q, Turn(s, q, k), d)
    ensures Outcome(s, q, d).device.None? ==> TryAcquire(s, q, d) == s
  {
    hide Available, TunerOk, DeviceOk;
    WholeScan(s, q);
    var scan := ScanFrom(s, q, 0, NOTHING);
    if scan.chosen.None? {
      assert forall i | 0 <= i < |s.tuners| :: i in AllTuners(s);
    } else {
      var k :| 0 <= k < |s.tuners| && scan.chosen == Some(Turn(s, q, k)) && Available(s, q, Turn(s, q, k)) && NoneBefore(s, q, k);
      assert 0 <= Turn(s, q, k) < |s.tuners|;
    }
  }

  /** Without a device the attempt reports truly whether there are matching and usable tuners, and names the weakest victim. */
  lemma FailureIsTrue(s: State, q: Request, d: nat)
    requires Inv(s) && Outcome(s, q, d).device.None?
    ensures InRange(s, AllTuners(s))
    ensures Outcome(s, q, d).found <==> exists i | i in AllTuners(s) :: Matches(s, q, i)
    ensures Outcome(s, q, d).usable <==> exists i | i in AllTuners(s) :: Matches(s, q, i) && s.tuners[i].usable
    ensures WeakestVictim(s, q, AllTuners(s), Outcome(s, q, d).grab)
    ensures forall i | i in AllTuners(s) && Matches(s, q, i) && s.tuners[i].usable ::
              s.runtime[i].fault || i in s.inUse || i !in q.makes
  {
    hide WeakestVictim, TunerOk, DeviceOk, Matches, ScanFrom, UpTo;
    WholeScan(s, q);
  }

  // ----- every run -----

  lemma AcquireKeeps(s: State, q: Request, d: nat)
    requires Inv(s) && d !in s.devices
    ensures Inv(TryAcquire(s, q, d))
    ensures TryAcquire(s, q, d).changed == s.changed
    ensures forall e | e in s.devices :: e in TryAcquire(s, q, d).devices && TryAcquire(s, q, d).devices[e] == s.devices[e]
  {
    hide TunerOk, DeviceOk, Matches, ScanFrom, TryAcquire;
    AcquiresExactly(s, q, d);
    if TryAcquire(s, q, d) != s {
      var k :| 0 <= k < |s.tuners| && Available(s, q, Turn(s, q, k)) && TryAcquire(s, q, d) == Reserve(s, q, Turn(s, q, k), d);
      ReserveKeeps(s, q, Turn(s, q, k), d);
    }
  }

  lemma StepKeeps(s: State, step: Step)
    requires Inv(s) && Enabled(s, step)
    ensures Inv(Apply(s, step))
  {
    hide TryAcquire;
    var t := Apply(s, step);
    match step {
      case Acquires(q, d) => AcquireKeeps(s, q, d);
      case Releases(d) => ReleaseKeeps(s, d);
      case Marks(d, _) => if t != s { assert TunerOk(s, s.devices[d].tuner); SetRuntime(s, t, s.devices[d].tuner); }
      case AddsUser(i, _, _) => if t != s { assert TunerOk(s, i); SetRuntime(s, t, i); }
      case RemovesUser(i, _) => if t != s { assert TunerOk(s, i); SetRuntime(s, t, i); }
    }
  }

  ghost predicate IsRun(s: State, steps: seq<Step>, t: State)
    decreases |steps|
  {
    if steps == [] then s == t else Enabled(s, steps[0]) && IsRun(Apply(s, steps[0]), steps[1..], t)
  }

  lemma {:induction false} RunsKeep(s: State, steps: seq<Step>, t: State)
    requires Inv(s) && IsRun(s, steps, t)
    ensures Inv(t)
    decreases |steps|
  {
    hide Inv, Enabled, Apply;
    if steps != [] {
      StepKeeps(s, steps[0]);
      RunsKeep(Apply(s, steps[0]), steps[1..], t);
    }
  }

  // ----- late calls -----

  /** Whatever a device that was released still does, the reservation that came after it stays as it is. */
  lemma LateCallsDoNothing(s: State, d: nat, mark: Mark)
    requires Inv(s) && d in s.devices && s.devices[d].released
    ensures s.devices[d].tuner < |s.runtime|
    ensures ReleaseOnce(s, d) == s && MarkDevice(s, d, mark) == s
  {
    assert DeviceOk(s, d);
    assert TunerOk(s, s.devices[d].tuner);
  }

  /** The step is not a call on this device. */
  predicate Spares(step: Step, d: nat) {
    && (step.Releases? ==> step.device != d)
    && (step.Marks? ==> step.device != d)
  }

  /** What a reservation consists of. */
  function Reserved(s: State, i: nat): Runtime
    requires i < |s.runtime|
  {
    s.runtime[i].(users := map[])
  }

  lemma StepSpares(s: State, step: Step, i: nat, d: nat)
    requires Inv(s) && Enabled(s, step) && i < |s.runtime| && s.runtime[i].device == Some(d) && Spares(step, d)
    ensures |Apply(s, step).runtime| == |s.runtime| && Reserved(Apply(s, step), i) == Reserved(s, i)
  {
    hide TryAcquire;
    if step.Acquires? {
      AcquireSpares(s, step.request, step.device, i, d);
    } else {
      hide Outcome, ScanFrom;
      assert TunerOk(s, i);
      if step.Releases? || step.Marks? { assert DeviceOk(s, step.device); }
    }
  }

  lemma AcquireSpares(s: State, q: Request, e: nat, i: nat, d: nat)
    requires Inv(s) && e !in s.devices && i < |s.runtime| && s.runtime[i].device == Some(d)
    ensures |TryAcquire(s, q, e).runtime| == |s.runtime| && Reserved(TryAcquire(s, q, e), i) == Reserved(s, i)
  {
    hide TryAcquire, DeviceOk, ScanFrom;
    assert TunerOk(s, i);
    AcquiresExactly(s, q, e);
  }

  /** Over every run, a reservation stays as it is until its own device is called: nothing else touches it. */
  lemma {:induction false} ReservationStands(s: State, steps: seq<Step>, t: State, i: nat, d: nat)
    requires Inv(s) && IsRun(s, steps, t) && i < |s.runtime| && s.runtime[i].device == Some(d)
    requires forall step | step in steps :: Spares(step, d)
    ensures |t.runtime| == |s.runtime| && Reserved(t, i) == Reserved(s, i) && i in t.inUse
    decreases |steps|
  {
    hide Inv, Enabled, Apply, Spares;
    if steps == [] {
      HolderInUse(s, i);
    } else {
      StepKeeps(s, steps[0]);
      StepSpares(s, steps[0], i, d);
      assert forall step | step in steps[1..] :: step in steps;
      ReservationStands(Apply(s, steps[0]), steps[1..], t, i, d);
    }
  }

  lemma HolderInUse(s: State, i: nat)
    requires Inv(s) && i < |s.runtime| && s.runtime[i].device.Some?
    ensures i in s.inUse
  {
    assert TunerOk(s, i);
  }

  // ----- wake-ups -----

  /** The channel that an attempt captured is closed. */
  predicate Closed(s: State, captured: nat) {
    captured < s.changed
  }

  predicate Released(s: State, d: nat) {
    d in s.devices && s.devices[d].released
  }

  lemma StepClosesOnRelease(s: State, step: Step, d: nat)
    requires Inv(s) && Enabled(s, step)
    ensures Apply(s, step).changed >= s.changed
    ensures d in s.devices && !Released(s, d) && Released(Apply(s, step), d) ==> Apply(s, step).changed > s.changed
    ensures d in s.devices ==> d in Apply(s, step).devices
  {
    hide TryAcquire;
    match step {
      case Acquires(q, e) => AcquireKeeps(s, q, e);
      case Releases(e) => assert DeviceOk(s, e); assert TunerOk(s, s.devices[e].tuner);
      case Marks(_, _) =>
      case AddsUser(_, _, _) =>
      case RemovesUser(_, _) =>
    }
  }

  /**
   No lost wake-up: once the victim that an attempt named has been released, by whomever
   and whatever else happened, the channel that the attempt captured is closed.
   */
  lemma {:induction false} NoLostWakeUp(s: State, steps: seq<Step>, t: State, d: nat)
    requires Inv(s) && IsRun(s, steps, t) && d in s.devices && !Released(s, d) && Released(t, d)
    ensures Closed(t, s.changed)
    decreases |steps|
  {
    hide Inv, Enabled, Apply;
    var u := Apply(s, steps[0]);
    StepKeeps(s, steps[0]);
    StepClosesOnRelease(s, steps[0], d);
    if Released(u, d) { StaysClosed(u, steps[1..], t); } else { NoLostWakeUp(u, steps[1..], t, d); }
  }

  lemma {:induction false} StaysClosed(s: State, steps: seq<Step>, t: State)
    requires Inv(s) && IsRun(s, steps, t)
    ensures t.changed >= s.changed
    decreases |steps|
  {
    hide Inv, Enabled, Apply;
    if steps != [] {
      StepKeeps(s, steps[0]);
      StepClosesOnRelease(s, steps[0], 0);
      StaysClosed(Apply(s, steps[0]), steps[1..], t);
    }
  }

  /** The victim of an attempt is an unreleased device, so the attempt can wait for it. */
  lemma VictimIsUnreleased(s: State, q: Request, d: nat)
    requires Inv(s) && Outcome(s, q, d).device.None? && Outcome(s, q, d).grab.Some?
    ensures var g := Outcome(s, q, d).grab.value;
            g.device in s.devices && !Released(s, g.device) && g.priority < q.priority
  {
    hide ScanFrom, EffectivePriority, UpTo, AllTuners, DeviceOk;
    FailureIsTrue(s, q, d);
    var g := Outcome(s, q, d).grab.value;
    var i :| i in AllTuners(s) && Grabbable(s, q, i) && s.runtime[i].device == Some(g.device) && EffectivePriority(s.runtime[i]) == g.priority;
    assert TunerOk(s, i);
  }

  lemma FreeingStep(s: State, step: Step, i: nat)
    requires Inv(s) && Enabled(s, step) && i in s.inUse && i !in Apply(s, step).inUse
    ensures step.Releases? && Apply(s, step).changed == s.changed + 1
  {
    hide TryAcquire;
    match step {
      case Acquires(q, d) =>
        hide TunerOk, DeviceOk, Matches, ScanFrom;
        AcquiresExactly(s, q, d);
      case Releases(d) => assert DeviceOk(s, d);
      case Marks(_, _) =>
      case AddsUser(_, _, _) =>
      case RemovesUser(_, _) =>
    }
  }

  /** Whenever a tuner becomes free, whatever else happens, everyone who waited before is woken. */
  lemma {:induction false} FreeingNotifies(s: State, steps: seq<Step>, t: State, i: nat)
    requires Inv(s) && IsRun(s, steps, t) && i in s.inUse && i !in t.inUse
    ensures Closed(t, s.changed)
    decreases |steps|
  {
    hide Inv, Enabled, Apply;
    var u := Apply(s, steps[0]);
    StepKeeps(s, steps[0]);
    StepClosesOnRelease(s, steps[0], 0);
    StaysClosed(u, steps[1..], t);
    if i in u.inUse { FreeingNotifies(u, steps[1..], t, i); } else { FreeingStep(s, steps[0], i); }
  }

  // ----- what the caller is told -----

  /** AcquireDevice after one attempt. */
  datatype Verdict = Got(device: nat) | NotFound | Unsupported | Grabs(victim: nat) | Unavailable | Waits

  function Decide(a: Attempt, wait: bool): Verdict {
    if a.device.Some? then Got(a.device.value)
    else if !a.found then NotFound
    else if !a.usable then Unsupported
    else if a.grab.Some? then Grabs(a.grab.value.device)
    else if !wait then Unavailable
    else Waits
  }

  /** Each answer is given exactly when it is true. */
  lemma DecidesExactly(s: State, q: Request, d: nat, wait: bool)
    requires Inv(s) && d !in s.devices
    ensures InRange(s, AllTuners(s))
    ensures var v := Decide(Outcome(s, q, d), wait);
            var free := exists i | i in AllTuners(s) :: Available(s, q, i);
            var matching := exists i | i in AllTuners(s) :: Matches(s, q, i);
            var usable := exists i | i in AllTuners(s) :: Matches(s, q, i) && s.tuners[i].usable;
            var victim := exists i | i in AllTuners(s) :: Grabbable(s, q, i);
            && (v.Got? <==> free)
            && (v.NotFound? <==> !matching)
            && (v.Unsupported? <==> matching && !usable)
            && (v.Grabs? <==> !free && victim)
            && (v.Unavailable? || v.Waits? <==> usable && !free && !victim)
  {
    AcquiresExactly(s, q, d);
    AvailableIsUsable(s, q);
    hide WeakestVictim, TunerOk, DeviceOk, Matches, ScanFrom, UpTo, Available, Grabbable;
    if Outcome(s, q, d).device.None? {
      FailureIsTrue(s, q, d);
      VictimExactly(s, q, AllTuners(s), Outcome(s, q, d).grab);
    }
    if i :| 0 <= i < |s.tuners| && Available(s, q, i) { assert i in AllTuners(s); }
  }

  lemma AvailableIsUsable(s: State, q: Request)
    requires Inv(s)
    ensures InRange(s, AllTuners(s))
    ensures forall i | i in AllTuners(s) && Available(s, q, i) :: Matches(s, q, i) && s.tuners[i].usable
    ensures forall i | i in AllTuners(s) && Grabbable(s, q, i) :: Matches(s, q, i) && s.tuners[i].usable
  {
  }

  lemma VictimExactly(s: State, q: Request, seen: set<nat>, g: Option<Grab>)
    requires InRange(s, seen) && WeakestVictim(s, q, seen, g)
    ensures g.Some? <==> exists i | i in seen :: Grabbable(s, q, i)
  {
  }

  // ----- a wake-up that nobody sends -----

  /** All these priorities are below p. */
  predicate Below(priority: int, users: map<string, User>, p: int) {
    priority < p && forall id | id in users :: users[id].priority < p
  }

  /** The tuner that an attempt of the request takes. */
  ghost predicate Takes(s: State, q: Request, i: nat)
    requires s.tuners != [] && |s.tuners| == |s.runtime|
  {
    exists k | 0 <= k < |s.tuners| :: i == Turn(s, q, k) && Available(s, q, Turn(s, q, k)) && NoneBefore(s, q, k)
  }

  /** Held, and fit for the request but for the priorities that hold it. */
  predicate HeldFor(s: State, q: Request, i: nat)
    requires i < |s.tuners| == |s.runtime|
  {
    Matches(s, q, i) && s.tuners[i].usable && !s.runtime[i].fault && i in s.inUse
  }

  /**
   The step lowers a tuner below the request's priority: the last reference of its only
   user of that priority goes, that user comes back with less, or a request of less
   priority reserves it where this one could not make a device.
   */
  ghost predicate Uncovers(s: State, q: Request, step: Step, i: nat)
    requires i < |s.tuners| == |s.runtime|
  {
    var r := s.runtime[i];
    match step
    case RemovesUser(j, id) =>
      j == i && HeldFor(s, q, i) && id in r.users && r.users[id].refs <= 1 && Below(r.priority, r.users - {id}, q.priority)
    case AddsUser(j, id, priority) =>
      j == i && HeldFor(s, q, i) && id != "" && priority < q.priority && Below(r.priority, r.users - {id}, q.priority)
    case Acquires(other, _) =>
      Takes(s, other, i) && Matches(s, q, i) && i !in q.makes && Below(other.priority, r.users, q.priority)
    case Releases(_) => false
    case Marks(_, _) => false
  }

  lemma EffectiveBelow(r: Runtime, p: int)
    ensures EffectivePriority(r) < p <==> Below(r.priority, r.users, p)
  {
  }

  lemma BelowPut(priority: int, users: map<string, User>, id: string, u: User, p: int)
    ensures Below(priority, users[id := u], p) <==> u.priority < p && Below(priority, users - {id}, p)
  {
    var more, less := users[id := u], users - {id};
    assert more[id] == u;
    assert forall j | j in less :: j in more && less[j] == more[j];
    assert forall j | j in more :: j == id || j in less;
  }

  lemma AddUncovers(s: State, q: Request, i: nat, j: nat, id: string, priority: int)
    requires Inv(s) && i < |s.tuners| && j < |s.tuners| && !Available(s, q, i) && !Grabbable(s, q, i)
    ensures var t := AddUser(s, j, id, priority);
            Available(t, q, i) || Grabbable(t, q, i) <==> Uncovers(s, q, AddsUser(j, id, priority), i)
  {
    hide EffectivePriority, Below;
    var t := AddUser(s, j, id, priority);
    var r := s.runtime[i];
    EffectiveBelow(r, q.priority);
    EffectiveBelow(t.runtime[i], q.priority);
    assert TunerOk(s, i);
    BelowPut(r.priority, r.users, id, User(priority, if id in r.users then r.users[id].refs + 1 else 1), q.priority);
  }

  lemma RemoveUncovers(s: State, q: Request, i: nat, j: nat, id: string)
    requires Inv(s) && i < |s.tuners| && j < |s.tuners| && !Available(s, q, i) && !Grabbable(s, q, i)
    ensures var t := RemoveUser(s, j, id);
            Available(t, q, i) || Grabbable(t, q, i) <==> Uncovers(s, q, RemovesUser(j, id), i)
  {
    hide EffectivePriority, Below;
    var t := RemoveUser(s, j, id);
    var r := s.runtime[i];
    EffectiveBelow(r, q.priority);
    EffectiveBelow(t.runtime[i], q.priority);
    assert TunerOk(s, i);
    if id in r.users {
      var u := r.users[id];
      BelowPut(r.priority, r.users, id, u, q.priority);
      BelowPut(r.priority, r.users, id, u.(refs := if u.refs > 0 then u.refs - 1 else 0), q.priority);
      assert r.users[id := u] == r.users;
    }
  }

  lemma AcquireUncovers(s: State, q: Request, other: Request, e: nat, i: nat)
    requires Inv(s) && e !in s.devices && i < |s.tuners|
    requires !Available(s, q, i) && !Grabbable(s, q, i)
    ensures var t := TryAcquire(s, other, e);
            && |t.tuners| == |t.runtime| == |s.tuners|
            && (Available(t, q, i) || Grabbable(t, q, i) <==> Uncovers(s, q, Acquires(other, e), i))
  {
    var t := TryAcquire(s, other, e);
    AcquiresExactly(s, other, e);
    hide TryAcquire, EffectivePriority, Turn, NoneBefore;
    EffectiveBelow(s.runtime[i], q.priority);
    if Outcome(s, other, e).device.Some? {
      var k :| 0 <= k < |s.tuners| && Available(s, other, Turn(s, other, k)) && NoneBefore(s, other, k) && t == Reserve(s, other, Turn(s, other, k), e);
      OnlyOneIsTaken(s, other, k, i);
      EffectiveBelow(t.runtime[i], q.priority);
    }
  }

  lemma OnlyOneIsTaken(s: State, q: Request, k: nat, i: nat)
    requires |s.tuners| == |s.runtime| && k < |s.tuners| && Available(s, q, Turn(s, q, k)) && NoneBefore(s, q, k)
    ensures Takes(s, q, i) <==> i == Turn(s, q, k)
  {
    hide Available;
    if Takes(s, q, i) {
      var j :| 0 <= j < |s.tuners| && i == Turn(s, q, j) && Available(s, q, Turn(s, q, j)) && NoneBefore(s, q, j);
      assert j == k;
    }
  }

  /** Which steps that close nothing make a tuner fit for a request. */
  lemma OpensExactly(s: State, q: Request, step: Step, i: nat)
    requires Inv(s) && Enabled(s, step) && i < |s.tuners| && Apply(s, step).changed == s.changed
    requires !Available(s, q, i) && !Grabbable(s, q, i)
    ensures var t := Apply(s, step);
            && |t.tuners| == |t.runtime| == |s.tuners|
            && (Available(t, q, i) || Grabbable(t, q, i) <==> Uncovers(s, q, step, i))
  {
    hide TryAcquire, EffectivePriority;
    match step {
      case Acquires(other, e) => AcquireUncovers(s, q, other, e, i);
      case Releases(e) => assert DeviceOk(s, e); assert TunerOk(s, s.devices[e].tuner);
      case Marks(e, _) => MarksUncoverNothing(s, q, step, i);
      case AddsUser(j, id, priority) => AddUncovers(s, q, i, j, id, priority);
      case RemovesUser(j, id) => RemoveUncovers(s, q, i, j, id);
    }
  }

  lemma MarksUncoverNothing(s: State, q: Request, step: Step, i: nat)
    requires Inv(s) && Enabled(s, step) && step.Marks? && i < |s.tuners|
    requires !Available(s, q, i) && !Grabbable(s, q, i)
    ensures !Available(Apply(s, step), q, i) && !Grabbable(Apply(s, step), q, i)
  {
    hide EffectivePriority;
    EffectiveBelow(s.runtime[i], q.priority);
    EffectiveBelow(Apply(s, step).runtime[i], q.priority);
  }

  /** The request waits: a tuner is fit for it, but none can be had. */
  ghost predicate Waiting(s: State, q: Request)
    requires |s.tuners| == |s.runtime|
  {
    && (exists i | 0 <= i < |s.tuners| :: Matches(s, q, i) && s.tuners[i].usable)
    && forall i | 0 <= i < |s.tuners| :: !Available(s, q, i) && !Grabbable(s, q, i)
  }

  lemma WaitsExactly(s: State, q: Request, d: nat)
    requires Inv(s) && d !in s.devices
    ensures Decide(Outcome(s, q, d), true).Waits? <==> Waiting(s, q)
  {
    DecidesExactly(s, q, d, true);
    hide Available, Grabbable, Matches, ScanFrom, UpTo, TunerOk, DeviceOk, Outcome, Decide;
    assert forall i | 0 <= i < |s.tuners| :: i in AllTuners(s);
  }

  lemma StepKeepsTuners(s: State, step: Step)
    requires Inv(s) && Enabled(s, step)
    ensures Apply(s, step).tuners == s.tuners && Inv(Apply(s, step))
  {
    StepKeeps(s, step);
    hide Inv, ScanFrom;
  }

  lemma ClosingIsReleasing(s: State, step: Step, q: Request, i: nat)
    requires Inv(s) && Enabled(s, step) && i < |s.tuners| && Apply(s, step).changed != s.changed
    ensures !Uncovers(s, q, step, i)
  {
    hide TryAcquire;
    match step {
      case Acquires(other, e) => AcquireKeeps(s, other, e);
      case Releases(_) =>
      case Marks(_, _) =>
      case AddsUser(_, _, _) =>
      case RemovesUser(_, _) =>
    }
  }

  /**
   A step leaves the waiting request asleep though it could be served exactly if it
   uncovers a tuner for it; every other step that serves it closes its channel.
   */
  lemma MissedExactly(s: State, q: Request, step: Step, d: nat, e: nat)
    requires Inv(s) && Enabled(s, step) && d !in s.devices && Decide(Outcome(s, q, d), true).Waits?
    requires e !in Apply(s, step).devices
    ensures |Apply(s, step).tuners| == |Apply(s, step).runtime|
    ensures !Closed(Apply(s, step), Outcome(s, q, d).changed) && !Decide(Outcome(Apply(s, step), q, e), true).Waits?
       <==> exists i | 0 <= i < |s.tuners| :: Uncovers(s, q, step, i)
  {
    hide Inv, Apply, Enabled, Decide, ScanFrom, Uncovers, Available, Grabbable, Matches;
    var t := Apply(s, step);
    InvSizes(s);
    StepKeepsTuners(s, step);
    InvSizes(t);
    WaitsExactly(s, q, d);
    WaitsExactly(t, q, e);
    StepClosesOnRelease(s, step, d);
    SameMatches(s, t, q);
    forall i | 0 <= i < |s.tuners|
      ensures t.changed == s.changed ==> (Available(t, q, i) || Grabbable(t, q, i) <==> Uncovers(s, q, step, i))
      ensures t.changed != s.changed ==> !Uncovers(s, q, step, i)
    {
      if t.changed == s.changed { OpensExactly(s, q, step, i); } else { ClosingIsReleasing(s, step, q, i); }
    }
  }

  lemma InvSizes(s: State)
    requires Inv(s)
    ensures |s.tuners| == |s.runtime|
  {
  }

  lemma SameMatches(s: State, t: State, q: Request)
    requires t.tuners == s.tuners
    ensures forall i | 0 <= i < |s.tuners| :: Matches(s, q, i) <==> Matches(t, q, i)
  {
  }

  /** No step of the run uncovers a tuner for the request. */
  ghost predicate UncoversNothing(s: State, q: Request, steps: seq<Step>)
    requires Inv(s)
    decreases |steps|
  {
    steps != [] && Enabled(s, steps[0]) ==>
      && (forall i | 0 <= i < |s.tuners| :: !Uncovers(s, q, steps[0], i))
      && (StepKeeps(s, steps[0]); UncoversNothing(Apply(s, steps[0]), q, steps[1..]))
  }

  /** After every other run, whoever still sleeps still has to wait. */
  lemma {:induction false} SleepersHaveToWait(s: State, q: Request, steps: seq<Step>, t: State, d: nat, e: nat)
    requires Inv(s) && IsRun(s, steps, t) && UncoversNothing(s, q, steps)
    requires d !in s.devices && Decide(Outcome(s, q, d), true).Waits? && e !in t.devices
    ensures |t.tuners| == |t.runtime|
    ensures Closed(t, Outcome(s, q, d).changed) || Decide(Outcome(t, q, e), true).Waits?
    decreases |steps|
  {
    hide Inv, Enabled, Apply, Uncovers, Decide, ScanFrom;
    InvSizes(s);
    if steps == [] {
      WaitsExactly(s, q, d);
      WaitsExactly(s, q, e);
    } else {
      var u := Apply(s, steps[0]);
      StepKeeps(s, steps[0]);
      RunsKeep(u, steps[1..], t);
      InvSizes(t);
      StaysClosed(u, steps[1..], t);
      var f := NewDevice(u.devices.Keys);
      MissedExactly(s, q, steps[0], d, f);
      StepClosesOnRelease(s, steps[0], d);
      if Decide(Outcome(u, q, f), true).Waits? { SleepersHaveToWait(u, q, steps[1..], t, f, e); }
    }
  }

  /** There is always a device number that is not used yet. */
  lemma {:induction false} NewDevice(used: set<nat>) returns (d: nat)
    ensures d !in used && forall x | x in used :: x < d
    decreases |used|
  {
    if used == {} {
      d := 0;
    } else {
      var x :| x in used;
      d := NewDevice(used - {x});
      d := if x < d then d else x + 1;
      assert forall y | y in used :: y == x || y in used - {x};
    }
  }

  /** A tuner held with priority low, and used by someone with priority high. */
  function Held(t: string, low: int, high: int): State {
    var held := Runtime(true, false, false, false, low, Some(0), None, None, map["user" := User(high, 1)]);
    State([Tuner(false, {t}, true)], {0}, [held], map[t := 0], 0, map[0 := Device(0, false)])
  }

  /** Reserving the tuner and adding the user leads there. */
  lemma HeldIsReached(t: string, low: int, high: int)
    ensures IsRun(NewManager([Tuner(false, {t}, true)]),
                  [Acquires(Request(t, low, None, None, {0}), 0), AddsUser(0, "user", high)], Held(t, low, high))
  {
    var s := NewManager([Tuner(false, {t}, true)]);
    var q := Request(t, low, None, None, {0});
    InitInv(s.tuners);
    assert Available(s, q, 0);
    ScanTurn(s, q, 0, NOTHING);
    assert Turn(s, q, 0) == 0;
    var u := TryAcquire(s, q, 0);
    assert u == Reserve(s, q, 0, 0);
    assert u.runtime == [Runtime(true, false, false, false, low, Some(0), None, None, map[])];
    var steps := [Acquires(q, 0), AddsUser(0, "user", high)];
    assert steps[1..] == [AddsUser(0, "user", high)] && steps[1..][1..] == [];
    assert Apply(u, AddsUser(0, "user", high)) == Held(t, low, high);
    assert IsRun(u, steps[1..], Held(t, low, high));
  }

  /**
   A waiter can miss its chance: it waits because a user holds the tuner with at least its
   priority; the user leaves; the tuner could be grabbed now, but the channel that the
   waiter captured is still open.
   */
  lemma WaiterMissesLeavingUser(t: string, low: int, high: int, priority: int)
    requires low < priority <= high
    ensures var s := Held(t, low, high);
            var q := Request(t, priority, None, None, {});
            var left := RemoveUser(s, 0, "user");
            && Inv(s) && Inv(left)
            && Decide(Outcome(s, q, 1), true) == Waits
            && Decide(Outcome(left, q, 1), true) == Grabs(0)
            && !Closed(left, Outcome(s, q, 1).changed)
  {
    var s := Held(t, low, high);
    var q := Request(t, priority, None, None, {});
    var left := RemoveUser(s, 0, "user");
    assert Inv(s);
    StepKeeps(s, RemovesUser(0, "user"));
    assert s.runtime[0].users["user"].priority == high;
    EffectiveIsUnique(low, s.runtime[0].users, EffectivePriority(s.runtime[0]), high);
    assert left.runtime[0].users == map[];
    EffectiveIsUnique(low, map[], EffectivePriority(left.runtime[0]), low);
    DecidesExactly(s, q, 1, true);
    DecidesExactly(left, q, 1, true);
    assert AllTuners(s) == {0} && AllTuners(left) == {0};
    assert Grabbable(left, q, 0) && Matches(s, q, 0);
    assert !Available(s, q, 0) && !Grabbable(s, q, 0) && !Available(left, q, 0);
    VictimOfOne(left, q);
  }

  lemma VictimOfOne(s: State, q: Request)
    requires Inv(s) && |s.tuners| == 1 && Decide(Outcome(s, q, 1), true).Grabs? && s.runtime[0].device == Some(0)
    ensures Decide(Outcome(s, q, 1), true) == Grabs(0)
  {
    hide ScanFrom;
    FailureIsTrue(s, q, 1);
    assert AllTuners(s) == {0};
  }
}
