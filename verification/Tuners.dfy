/**
 Tuner reservation of internal/tuner/manager.go as a protocol.  Every section under the
 manager's mutex is one step.  The channel "changed" is a number: a captured channel is
 closed once the number has moved on.
 */
module Tuners {
  datatype Option<T> = None | Some(value: T)

  datatype Tuner = Tuner(disabled: bool, groups: set<string>, usable: bool)

  datatype User = User(priority: int, refs: nat)

  type Channel = int

  datatype Runtime = Runtime(
    inUse: bool, running: bool, stopped: bool, fault: bool, priority: int,
    device: Option<nat>, requested: Option<Channel>, tuned: Option<Channel>, users: map<string, User>)

  const FREE := Runtime(false, false, false, false, 0, None, None, None, map[])

  /** A managed device and whether its releaseOnce has run. */
  datatype Device = Device(tuner: nat, released: bool)

  datatype State = State(
    tuners: seq<Tuner>, inUse: set<nat>, runtime: seq<Runtime>, nextByType: map<string, nat>,
    changed: nat, devices: map<nat, Device>)

  function NewManager(tuners: seq<Tuner>): State {
    State(tuners, {}, seq(|tuners|, _ => FREE), map[], 0, map[])
  }

  // ----- priorities -----

  /** m is the greatest of the reservation's priority and those of all users. */
  predicate IsEffective(priority: int, users: map<string, User>, m: int) {
    && priority <= m && (forall id | id in users :: users[id].priority <= m)
    && (m == priority || exists id | id in users :: users[id].priority == m)
  }

  lemma {:induction false} EffectiveExists(priority: int, users: map<string, User>) returns (m: int)
    ensures IsEffective(priority, users, m)
    decreases users.Keys
  {
    if users == map[] {
      m := priority;
    } else {
      var id :| id in users;
      m := EffectiveExists(priority, users - {id});
      m := if users[id].priority > m then users[id].priority else m;
      assert forall j | j in users :: j == id || (j in users - {id} && users[j] == (users - {id})[j]);
    }
  }

  lemma EffectiveIsUnique(priority: int, users: map<string, User>, a: int, b: int)
    requires IsEffective(priority, users, a) && IsEffective(priority, users, b)
    ensures a == b
  {
  }

  /** effectivePriority */
  ghost function EffectivePriority(r: Runtime): (m: int)
    ensures IsEffective(r.priority, r.users, m)
  {
    Effective(r);
    var m :| IsEffective(r.priority, r.users, m);
    m
  }

  lemma Effective(r: Runtime)
    ensures exists m :: IsEffective(r.priority, r.users, m)
  {
    var m := EffectiveExists(r.priority, r.users);
  }

  // ----- tryAcquireLocked -----

  datatype Grab = Grab(device: nat, priority: int)

  /** What a caller asks for, and which tuners NewDevice would make a device for. */
  datatype Request = Request(channelType: string, priority: int, requested: Option<Channel>, tuned: Option<Channel>, makes: set<nat>)

  datatype Attempt = Attempt(device: Option<nat>, found: bool, usable: bool, grab: Option<Grab>, changed: nat)

  predicate Matches(s: State, q: Request, i: nat)
    requires i < |s.tuners|
  {
    !s.tuners[i].disabled && q.channelType in s.tuners[i].groups
  }

  /** A tuner that can be reserved right away. */
  predicate Available(s: State, q: Request, i: nat)
    requires i < |s.tuners| == |s.runtime|
  {
    Matches(s, q, i) && s.tuners[i].usable && !s.runtime[i].fault && i !in s.inUse && i in q.makes
  }

  /** A tuner whose holder has less priority than the request. */
  ghost predicate Grabbable(s: State, q: Request, i: nat)
    requires i < |s.tuners| == |s.runtime|
  {
    && Matches(s, q, i) && s.tuners[i].usable && !s.runtime[i].fault && i in s.inUse
    && s.runtime[i].device.Some? && EffectivePriority(s.runtime[i]) < q.priority
  }

  /** betterGrabCandidate */
  ghost function Better(current: Option<Grab>, r: Runtime, priority: int): Option<Grab> {
    if r.device.None? then current
    else if priority <= EffectivePriority(r) then current
    else if current.Some? && current.value.priority <= EffectivePriority(r) then current
    else Some(Grab(r.device.value, EffectivePriority(r)))
  }

  function Start(s: State, q: Request): nat {
    if q.channelType in s.nextByType then s.nextByType[q.channelType] else 0
  }

  /** The tuner that is looked at in the given turn. */
  function Turn(s: State, q: Request, offset: nat): nat
    requires s.tuners != []
  {
    (Start(s, q) + offset) % |s.tuners|
  }

  datatype Scan = Scan(chosen: Option<nat>, found: bool, usable: bool, grab: Option<Grab>)

  /** The loop from the given turn on. */
  ghost function ScanFrom(s: State, q: Request, offset: nat, acc: Scan): Scan
    requires |s.tuners| == |s.runtime| && offset <= |s.tuners|
    decreases |s.tuners| - offset
  {
    if offset == |s.tuners| then acc
    else
      var i := Turn(s, q, offset);
      if !Matches(s, q, i) then ScanFrom(s, q, offset + 1, acc)
      else
        var found := acc.(found := true);
        if !s.tuners[i].usable then ScanFrom(s, q, offset + 1, found)
        else
          var usable := found.(usable := true);
          if s.runtime[i].fault then ScanFrom(s, q, offset + 1, usable)
          else if i in s.inUse then
            ScanFrom(s, q, offset + 1, usable.(grab := Better(usable.grab, s.runtime[i], q.priority)))
          else if i in q.makes then usable.(chosen := Some(i))
          else ScanFrom(s, q, offset + 1, usable)
  }

  const NOTHING := Scan(None, false, false, None)

  /** reserveLocked, with d the new managed device. */
  function Reserve(s: State, q: Request, i: nat, d: nat): State
    requires i < |s.runtime| && s.tuners != []
  {
    s.(inUse := s.inUse + {i},
       runtime := s.runtime[i := s.runtime[i].(inUse := true, running := false, stopped := false, priority := q.priority,
                                               requested := q.requested, tuned := q.tuned, device := Some(d))],
       nextByType := s.nextByType[q.channelType := (i + 1) % |s.tuners|],
       devices := s.devices[d := Device(i, false)])
  }

  ghost function TryAcquire(s: State, q: Request, d: nat): State
    requires |s.tuners| == |s.runtime|
  {
    var scan := ScanFrom(s, q, 0, NOTHING);
    if scan.chosen.Some? && scan.chosen.value < |s.runtime| && s.tuners != [] then Reserve(s, q, scan.chosen.value, d) else s
  }

  ghost function Outcome(s: State, q: Request, d: nat): Attempt
    requires |s.tuners| == |s.runtime|
  {
    var scan := ScanFrom(s, q, 0, NOTHING);
    Attempt(if scan.chosen.Some? then Some(d) else None, scan.found, scan.usable, scan.grab, s.changed)
  }

  // ----- the other locked sections -----

  /** release: whoever waits is woken. */
  function Release(s: State, i: nat): State
    requires i < |s.runtime|
  {
    if i !in s.inUse then s
    else s.(inUse := s.inUse - {i}, runtime := s.runtime[i := FREE], changed := s.changed + 1)
  }

  /** releaseOnce of a managed device. */
  function ReleaseOnce(s: State, d: nat): State
    requires d in s.devices && s.devices[d].tuner < |s.runtime|
  {
    if s.devices[d].released then s
    else Release(s.(devices := s.devices[d := s.devices[d].(released := true)]), s.devices[d].tuner)
  }

  datatype Mark = Running | Stopped | Fault

  function Marked(r: Runtime, mark: Mark): Runtime {
    match mark
    case Running => r.(running := true, stopped := false)
    case Stopped => r.(running := false, stopped := true)
    case Fault => r.(running := false, fault := true)
  }

  /** markRunning, markStopped and markFault */
  function MarkDevice(s: State, d: nat, mark: Mark): State
    requires d in s.devices && s.devices[d].tuner < |s.runtime|
  {
    var i := s.devices[d].tuner;
    if !s.runtime[i].inUse || s.runtime[i].device != Some(d) then s
    else s.(runtime := s.runtime[i := Marked(s.runtime[i], mark)])
  }

  function SetUsers(s: State, i: nat, users: map<string, User>): State
    requires i < |s.runtime|
  {
    s.(runtime := s.runtime[i := s.runtime[i].(users := users)])
  }

  function AddUser(s: State, i: nat, id: string, priority: int): State
    requires i < |s.runtime|
  {
    var users := s.runtime[i].users;
    if id == "" then s
    else SetUsers(s, i, users[id := User(priority, if id in users then users[id].refs + 1 else 1)])
  }

  function RemoveUser(s: State, i: nat, id: string): State
    requires i < |s.runtime|
  {
    var users := s.runtime[i].users;
    if id !in users then s
    else if users[id].refs <= 1 then SetUsers(s, i, users - {id})
    else SetUsers(s, i, users[id := users[id].(refs := users[id].refs - 1)])
  }

  datatype Step =
    | Acquires(request: Request, device: nat)
    | Releases(device: nat)
    | Marks(device: nat, mark: Mark)
    | AddsUser(tuner: nat, id: string, priority: int)
    | RemovesUser(tuner: nat, id: string)

  /** New devices are new objects; calls on a device need the device. */
  predicate Enabled(s: State, step: Step) {
    && |s.tuners| == |s.runtime|
    && match step
       case Acquires(_, d) => d !in s.devices
       case Releases(d) => d in s.devices && s.devices[d].tuner < |s.runtime|
       case Marks(d, _) => d in s.devices && s.devices[d].tuner < |s.runtime|
       case AddsUser(i, _, _) => i < |s.runtime|
       case RemovesUser(i, _) => i < |s.runtime|
  }

  ghost function Apply(s: State, step: Step): State
    requires Enabled(s, step)
  {
    match step
    case Acquires(q, d) => TryAcquire(s, q, d)
    case Releases(d) => ReleaseOnce(s, d)
    case Marks(d, mark) => MarkDevice(s, d, mark)
    case AddsUser(i, id, priority) => AddUser(s, i, id, priority)
    case RemovesUser(i, id) => RemoveUser(s, i, id)
  }
}
