/** The TunerManager object with its loops, each method against the step of the same name in Tuners. */
module TunerManager {
  import opened Tuners
  import opened TunerTheorems

  class Manager {
    const tuners: seq<Tuner>
    var inUse: set<nat>
    var runtime: seq<Runtime>
    var nextByType: map<string, nat>
    var changed: nat
    var devices: map<nat, Device>

    ghost function State(): State
      reads this
    {
      Tuners.State(tuners, inUse, runtime, nextByType, changed, devices)
    }

    ghost predicate Valid()
      reads this
    {
      Inv(State())
    }

    constructor (tuners: seq<Tuner>)
      ensures Valid() && State() == NewManager(tuners)
    {
      this.tuners := tuners;
      inUse, runtime, nextByType, changed, devices := {}, seq(|tuners|, _ => FREE), map[], 0, map[];
      new;
      InitInv(tuners);
    }

    /** effectivePriority: the loop over the users. */
    static method FindEffectivePriority(r: Runtime) returns (priority: int)
      ensures priority == EffectivePriority(r)
    {
      priority := r.priority;
      var todo := r.users.Keys;
      while todo != {}
        invariant todo <= r.users.Keys
        invariant r.priority <= priority && forall id | id in r.users && id !in todo :: r.users[id].priority <= priority
        invariant priority == r.priority || exists id | id in r.users :: r.users[id].priority == priority
        decreases |todo|
      {
        var id :| id in todo;
        if r.users[id].priority > priority {
          priority := r.users[id].priority;
        }
        todo := todo - {id};
      }
      EffectiveIsUnique(r.priority, r.users, priority, EffectivePriority(r));
    }

    static method BetterGrabCandidate(current: Option<Grab>, r: Runtime, priority: int) returns (grab: Option<Grab>)
      ensures grab == Better(current, r, priority)
    {
      if r.device.None? {
        return current;
      }
      var effective := FindEffectivePriority(r);
      if priority <= effective {
        return current;
      }
      if current.Some? && current.value.priority <= effective {
        return current;
      }
      grab := Some(Grab(r.device.value, effective));
    }

    /** reserveLocked */
    method ReserveTuner(i: nat, q: Request, d: nat)
      requires Valid() && i < |tuners| && i !in inUse && d !in devices
      modifies this
      ensures Valid() && State() == Reserve(old(State()), q, i, d)
    {
      ReserveKeeps(State(), q, i, d);
      inUse := inUse + {i};
      runtime := runtime[i := runtime[i].(inUse := true, running := false, stopped := false, priority := q.priority,
                                          requested := q.requested, tuned := q.tuned, device := Some(d))];
      devices := devices[d := Device(i, false)];
      nextByType := nextByType[q.channelType := (i + 1) % |tuners|];
    }

    /** tryAcquireLocked; d is the new managed device if one is made. */
    method TryAcquireLocked(q: Request, d: nat) returns (attempt: Attempt)
      requires Valid() && d !in devices
      modifies this
      ensures Valid() && State() == TryAcquire(old(State()), q, d) && attempt == Outcome(old(State()), q, d)
    {
      hide Inv, Better;
      ghost var s := State();
      Sizes(s);
      var start := if q.channelType in nextByType then nextByType[q.channelType] else 0;
      var found, usable := false, false;
      var grab: Option<Grab> := None;
      for offset := 0 to |tuners|
        invariant State() == s && Inv(s)
        invariant ScanFrom(s, q, offset, Scan(None, found, usable, grab)) == ScanFrom(s, q, 0, NOTHING)
      {
        var i := (start + offset) % |tuners|;
        if tuners[i].disabled || q.channelType !in tuners[i].groups {
          continue;
        }
        found := true;
        if !tuners[i].usable {
          continue;
        }
        usable := true;
        if runtime[i].fault {
          continue;
        }
        if i in inUse {
          grab := BetterGrabCandidate(grab, runtime[i], q.priority);
          continue;
        }
        if i !in q.makes {
          continue;
        }
        ReserveTuner(i, q, d);
        return Attempt(Some(d), found, usable, grab, changed);
      }
      attempt := Attempt(None, found, usable, grab, changed);
    }

    /** releaseOnce, and in it release */
    method ReleaseDevice(d: nat)
      requires Valid() && d in devices
      modifies this
      ensures Valid() && d in old(devices) && State() == ReleaseAt(old(State()), d)
    {
      ReleaseKeeps(State(), d);
      if devices[d].released {
        return;
      }
      var i := devices[d].tuner;
      devices := devices[d := devices[d].(released := true)];
      if i in inUse {
        inUse := inUse - {i};
        runtime := runtime[i := FREE];
        changed := changed + 1;
      }
    }

    /** markRunning, markStopped and markFault */
    method MarkLocked(d: nat, mark: Mark)
      requires Valid() && d in devices
      modifies this
      ensures Valid() && d in old(devices) && State() == MarkAt(old(State()), d, mark)
    {
      assert DeviceOk(State(), d);
      assert TunerOk(State(), devices[d].tuner);
      var i := devices[d].tuner;
      if !runtime[i].inUse || runtime[i].device != Some(d) {
        return;
      }
      ghost var s := State();
      runtime := runtime[i := Marked(runtime[i], mark)];
      SetRuntime(s, State(), i);
    }

    /** addUser */
    method AddTunerUser(i: nat, id: string, priority: int)
      requires Valid() && i < |runtime|
      modifies this
      ensures Valid() && i < |old(runtime)| && State() == AddUser(old(State()), i, id, priority)
    {
      if id == "" {
        return;
      }
      ghost var s := State();
      assert TunerOk(s, i);
      var users := runtime[i].users;
      if id in users {
        users := users[id := User(priority, users[id].refs + 1)];
      } else {
        users := users[id := User(priority, 1)];
      }
      runtime := runtime[i := runtime[i].(users := users)];
      SetRuntime(s, State(), i);
    }

    /** removeUser */
    method RemoveTunerUser(i: nat, id: string)
      requires Valid() && i < |runtime|
      modifies this
      ensures Valid() && i < |old(runtime)| && State() == RemoveUser(old(State()), i, id)
    {
      var users := runtime[i].users;
      if id !in users {
        return;
      }
      ghost var s := State();
      assert TunerOk(s, i);
      if users[id].refs <= 1 {
        users := users - {id};
      } else {
        users := users[id := users[id].(refs := users[id].refs - 1)];
      }
      runtime := runtime[i := runtime[i].(users := users)];
      SetRuntime(s, State(), i);
    }
  }

  lemma Sizes(s: State)
    requires Inv(s)
    ensures |s.tuners| == |s.runtime| && forall t | t in s.nextByType :: s.nextByType[t] < |s.tuners|
  {
  }

  function ReleaseAt(s: State, d: nat): State
    requires d in s.devices
  {
    if s.devices[d].tuner < |s.runtime| then ReleaseOnce(s, d) else s
  }

  function MarkAt(s: State, d: nat, mark: Mark): State
    requires d in s.devices
  {
    if s.devices[d].tuner < |s.runtime| then MarkDevice(s, d, mark) else s
  }
}
