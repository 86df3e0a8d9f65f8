/**
 The continuity monitor of internal/stream/demux/demuxer.go: on the packets of one PID
 it reports a drop exactly where the counter does not go on, allowing one exact repeat,
 and it never reports one on the PAT packets of a service view.
 */
module Continuity {
  import opened Packets
  import Crc
  import ServiceView

  type byte = Crc.byte

  datatype Option<T> = None | Some(value: T)

  /** What the monitor knows of one PID. */
  datatype Track = Track(seen: bool, last: byte, duplicateSeen: bool, remembered: Option<Packet>)

  datatype Drop = Drop(expected: byte, actual: byte)

  datatype Observed = Observed(next: Track, drop: Option<Drop>)

  const NEW_TRACK := Track(false, 0, false, None)

  predicate Observable(p: Packet) {
    p[0] == SYNC_BYTE && !TransportError(p) && !IsNull(p) && ValidPayloadOffset(p)
  }

  function Restarted(t: Track, p: Packet): Track {
    if Discontinuity(p) then t.(seen := false, duplicateSeen := false, remembered := None) else t
  }

  /** observe, for an observable packet of the track's PID */
  function Watch(t: Track, p: Packet): Observed {
    var was := Restarted(t, p);
    if !HasPayload(p) then Observed(was, None)
    else
      var counter := Counter(p);
      if was.seen && counter == was.last && !was.duplicateSeen && was.remembered == Some(p)
      then Observed(was.(seen := true, last := counter, duplicateSeen := true), None)
      else Observed(Track(true, counter, false, Some(p)),
                    if was.seen && counter != NextCounter(was.last) then Some(Drop(NextCounter(was.last), counter)) else None)
  }

  // ----- one PID without restarts -----

  /** A packet that the monitor counts. */
  predicate Counted(p: Packet) {
    Observable(p) && HasPayload(p) && !Discontinuity(p)
  }

  predicate AllCounted(ps: seq<Packet>) {
    forall i | 0 <= i < |ps| :: Counted(ps[i])
  }

  function After(ps: seq<Packet>): Track
    decreases |ps|
  {
    if ps == [] then NEW_TRACK else Watch(After(ps[..|ps| - 1]), ps[|ps| - 1]).next
  }

  /** A drop is reported for the last of the packets. */
  predicate Reported(ps: seq<Packet>)
    requires ps != []
  {
    Watch(After(ps[..|ps| - 1]), ps[|ps| - 1]).drop.Some?
  }

  /** The last packet repeats the one before it, which is not itself a repeat. */
  predicate Repeats(ps: seq<Packet>)
    decreases |ps|
  {
    |ps| >= 2 && ps[|ps| - 1] == ps[|ps| - 2] && !Repeats(ps[..|ps| - 1])
  }

  /** The state after any packets: only the last of them matters, and whether it was a repeat. */
  lemma {:induction false} AfterIs(ps: seq<Packet>)
    requires AllCounted(ps) && ps != []
    ensures After(ps) == Track(true, Counter(ps[|ps| - 1]), Repeats(ps), Some(ps[|ps| - 1]))
    decreases |ps|
  {
    hide Counter, HasPayload, Discontinuity, Observable;
    var before, p := ps[..|ps| - 1], ps[|ps| - 1];
    assert Counted(p);
    if before != [] { AfterIs(before); }
  }

  /** A drop is reported exactly where the counter does not follow and the packet is no single repeat. */
  lemma ReportsExactly(ps: seq<Packet>)
    requires AllCounted(ps) && ps != []
    ensures Reported(ps) <==> |ps| >= 2 && !Repeats(ps) && Counter(ps[|ps| - 1]) != NextCounter(Counter(ps[|ps| - 2]))
  {
    hide Counter, HasPayload, Discontinuity, Observable;
    var before, p := ps[..|ps| - 1], ps[|ps| - 1];
    assert Counted(p);
    if before != [] { AfterIs(before); }
  }

  // ----- any packets of one PID -----

  /** The packets with a payload since the last one that signals a discontinuity, which counts itself. */
  function Since(ps: seq<Packet>): seq<Packet>
    decreases |ps|
  {
    if ps == [] then []
    else
      var before, p := Since(ps[..|ps| - 1]), ps[|ps| - 1];
      (if Discontinuity(p) then [] else before) + if HasPayload(p) then [p] else []
  }

  /** What the monitor knows after these packets. */
  predicate Knows(t: Track, since: seq<Packet>) {
    if since == [] then !t.seen && !t.duplicateSeen && t.remembered.None?
    else t == Track(true, Counter(since[|since| - 1]), Repeats(since), Some(since[|since| - 1]))
  }

  lemma WatchKnows(t: Track, since: seq<Packet>, p: Packet)
    requires Knows(t, since)
    ensures Knows(Watch(t, p).next, (if Discontinuity(p) then [] else since) + if HasPayload(p) then [p] else [])
  {
    hide Counter, HasPayload, Discontinuity, NextCounter;
    assert since + [] == since && [] + [p] == [p];
    assert (since + [p])[..|since|] == since;
  }

  lemma {:induction false} AfterKnows(ps: seq<Packet>)
    ensures Knows(After(ps), Since(ps))
    decreases |ps|
  {
    hide Watch, HasPayload, Discontinuity, Knows;
    if ps == [] {
      NothingKnown();
    } else {
      AfterKnows(ps[..|ps| - 1]);
      WatchKnows(After(ps[..|ps| - 1]), Since(ps[..|ps| - 1]), ps[|ps| - 1]);
    }
  }

  lemma NothingKnown()
    ensures Knows(NEW_TRACK, [])
  {
  }

  /**
   For any packets of a PID: a drop is reported for the last of them exactly if it has a
   payload and signals no discontinuity, one with a payload came since the last signalled
   discontinuity, its counter does not follow that one's, and it is no single repeat of it.
   */
  lemma ReportsAlways(ps: seq<Packet>)
    requires ps != []
    ensures var p, since := ps[|ps| - 1], Since(ps[..|ps| - 1]);
            Reported(ps) <==>
              && HasPayload(p) && !Discontinuity(p) && since != []
              && Counter(p) != NextCounter(Counter(since[|since| - 1])) && !Repeats(since + [p])
  {
    hide Counter, HasPayload, Discontinuity, NextCounter;
    var p, since := ps[|ps| - 1], Since(ps[..|ps| - 1]);
    AfterKnows(ps[..|ps| - 1]);
    assert (since + [p])[..|since|] == since;
    if since != [] && p == since[|since| - 1] { SameCounter(p); }
  }

  lemma SameCounter(p: Packet)
    ensures Counter(p) != NextCounter(Counter(p))
  {
  }

  /** The monitor ignores packets without sync byte, with an error, on the null PID, or with an adaptation field that runs over. */
  lemma ObservesExactly(p: Packet)
    ensures Observable(p) <==>
              p[0] == 0x47 && p[1] & 0x80 == 0 && Pid(p) != 0x1fff && (p[3] & 0x20 != 0 ==> 5 + p[4] as nat <= 188)
  {
    AdaptationBits(p[3]);
  }

  // ----- service views -----

  lemma UnadornedIsCounted(q: Packet)
    requires ServiceView.Unadorned(q) && Pid(q) == 0
    ensures Counted(q)
  {
  }

  /** The monitor never reports a drop on the PAT packets that a view shows, over any run and any PAT changes. */
  lemma NoDropOnServicePats(service: uint16, steps: seq<ServiceView.Step>, k: nat)
    requires 0 < k <= |ServiceView.PatsShown(service, ServiceView.START, steps)|
    ensures !Reported(ServiceView.PatsShown(service, ServiceView.START, steps)[..k])
  {
    hide Counter, NextCounter, Counted, Reported, ServiceView.PatsShown, ServiceView.ViewOk;
    var all := ServiceView.PatsShown(service, ServiceView.START, steps);
    ServiceView.StartOk(service);
    ServiceView.PatsCountOn(service, ServiceView.START, steps);
    var ps := all[..k];
    forall i | 0 <= i < |ps|
      ensures Counted(ps[i])
    {
      assert ServiceView.AnnouncesService(all[i], service);
      AnnouncedIsCounted(all[i], service);
    }
    ReportsExactly(ps);
    if k >= 2 { ServiceView.NoGap(0, all, k - 2); }
  }

  lemma AnnouncedIsCounted(q: Packet, service: uint16)
    requires ServiceView.AnnouncesService(q, service)
    ensures Counted(q)
  {
    hide ServiceView.DeliversOne, ServiceView.Unadorned, Counted;
    var pid: uint16 :| ServiceView.Announces(q, service, pid);
    UnadornedIsCounted(q);
  }

  // ----- the monitor's arrays -----

  class Monitor {
    const seen: array<bool>
    const last: array<byte>
    const duplicateSeen: array<bool>
    var lastPacket: map<uint16, Packet>

    ghost predicate Valid()
      reads this
    {
      seen.Length == last.Length == duplicateSeen.Length == 0x2000
      && seen != duplicateSeen && (seen as object) != (last as object) && (duplicateSeen as object) != (last as object)
    }

    ghost function TrackOf(pid: uint16): Track
      requires Valid() && pid <= MAX_PID
      reads this, seen, last, duplicateSeen
    {
      Track(seen[pid], last[pid], duplicateSeen[pid], if pid in lastPacket then Some(lastPacket[pid]) else None)
    }

    constructor ()
      ensures Valid() && fresh(seen) && fresh(last) && fresh(duplicateSeen)
      ensures forall pid: uint16 | pid <= MAX_PID :: TrackOf(pid) == NEW_TRACK
    {
      seen := new bool[0x2000](_ => false);
      last := new byte[0x2000](_ => 0);
      duplicateSeen := new bool[0x2000](_ => false);
      lastPacket := map[];
    }

    method Forget(pid: uint16)
      requires Valid() && pid <= MAX_PID
      modifies this`lastPacket, seen, duplicateSeen
      ensures Valid() && TrackOf(pid) == old(TrackOf(pid)).(seen := false, duplicateSeen := false, remembered := None)
      ensures forall other: uint16 | other <= MAX_PID && other != pid :: TrackOf(other) == old(TrackOf(other))
    {
      seen[pid] := false;
      duplicateSeen[pid] := false;
      lastPacket := lastPacket - {pid};
    }

    method Observe(p: Packet) returns (drop: Option<Drop>)
      requires Valid()
      modifies this`lastPacket, seen, last, duplicateSeen
      ensures Valid()
      ensures !Observable(p) ==> drop.None? && forall pid: uint16 | pid <= MAX_PID :: TrackOf(pid) == old(TrackOf(pid))
      ensures Observable(p) ==> Pid(p) <= MAX_PID && Observed(TrackOf(Pid(p)), drop) == Watch(old(TrackOf(Pid(p))), p)
      ensures forall pid: uint16 | pid <= MAX_PID && pid != Pid(p) :: TrackOf(pid) == old(TrackOf(pid))
    {
      hide Observable, Discontinuity, HasPayload, Counter, NextCounter, Pid;
      if !Observable(p) {
        return None;
      }
      var pid := Pid(p);
      PidInRange(p);
      if Discontinuity(p) {
        Forget(pid);
      }
      assert TrackOf(pid) == Restarted(old(TrackOf(pid)), p);
      if !HasPayload(p) {
        return None;
      }
      drop := Count(pid, p);
    }

    /** The part of observe for a packet with a payload. */
    method Count(pid: uint16, p: Packet) returns (drop: Option<Drop>)
      requires Valid() && pid <= MAX_PID && HasPayload(p)
      modifies this`lastPacket, seen, last, duplicateSeen
      ensures Valid()
      ensures forall t: Track | Restarted(t, p) == old(TrackOf(pid)) :: Observed(TrackOf(pid), drop) == Watch(t, p)
      ensures forall other: uint16 | other <= MAX_PID && other != pid :: TrackOf(other) == old(TrackOf(other))
    {
      hide Discontinuity, HasPayload, Counter, NextCounter;
      var counter := Counter(p);
      var before, ok := last[pid], seen[pid];
      seen[pid] := true;
      last[pid] := counter;
      if ok && counter == before && !duplicateSeen[pid] && pid in lastPacket && lastPacket[pid] == p {
        duplicateSeen[pid] := true;
        return None;
      }
      duplicateSeen[pid] := false;
      lastPacket := lastPacket[pid := p];
      var expected := NextCounter(before);
      drop := if ok && counter != expected then Some(Drop(expected, counter)) else None;
    }
  }

  lemma PidInRange(p: Packet)
    ensures Pid(p) <= MAX_PID
  {
    PidFits(p[1], p[2]);
  }
}
