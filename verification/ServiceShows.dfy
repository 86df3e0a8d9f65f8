/**
 Exactly which packets a service view shows over every run, told by what the
 demultiplexer has seen: the last complete PAT, the last PMT of the service since it took
 its PMT PID, and the last complete CAT.
 */
module ServiceShows {
  import opened Crc
  import opened Packets
  import opened Sections
  import opened Pat
  import opened Demux
  import opened ServiceView

  // ----- the last complete PAT -----

  predicate CompletesPat(v: View, step: Step) {
    step.Sees? && step.event.SawPat? && Completed(v.demux, step.event.section).Ok?
  }

  /** Of the first n steps, the last that completed a PAT listed the service x at this PMT PID. */
  ghost predicate ListedAt(service: uint16, steps: seq<Step>, n: nat, x: uint16, pid: uint16)
    requires n <= |steps|
  {
    exists k | 0 <= k < n ::
      && CompletesPat(Then(service, steps, k), steps[k])
      && Lists(Then(service, steps, k), steps[k], x, pid)
      && forall l | k < l < n :: !CompletesPat(Then(service, steps, l), steps[l])
  }

  predicate Lists(v: View, step: Step, x: uint16, pid: uint16)
    requires CompletesPat(v, step)
  {
    var programs := Completed(v.demux, step.event.section).value.programs;
    x in programs && programs[x] == pid
  }

  predicate HasProgram(v: View, x: uint16, pid: uint16) {
    x in v.demux.programs && v.demux.programs[x].pmtPid == pid
  }

  lemma ListsNow(v: View, step: Step, service: uint16, x: uint16, pid: uint16)
    requires Buildable(v.demux)
    ensures HasProgram(Move(service, v, step), x, pid) <==>
              if CompletesPat(v, step) then Lists(v, step, x, pid) else HasProgram(v, x, pid)
  {
    hide Completed, Add, Emit;
  }

  /** A service is listed, at this PMT PID, exactly if the last complete PAT lists it there. */
  lemma {:induction false} ListedExactly(service: uint16, steps: seq<Step>, n: nat, x: uint16, pid: uint16)
    requires n <= |steps|
    ensures HasProgram(Then(service, steps, n), x, pid) <==> ListedAt(service, steps, n, x, pid)
    decreases n
  {
    hide Then, CompletesPat, Move, ViewOk, Lists;
    if n == 0 {
      NotLeftYet(service, steps);
    } else {
      ListedExactly(service, steps, n - 1, x, pid);
      ThenMove(service, steps, n - 1);
      var v, step := Then(service, steps, n - 1), steps[n - 1];
      ListsNow(v, step, service, x, pid);
      if CompletesPat(v, step) {
        if ListedAt(service, steps, n, x, pid) {
          var k :| 0 <= k < n && CompletesPat(Then(service, steps, k), steps[k]) && Lists(Then(service, steps, k), steps[k], x, pid)
                   && forall l | k < l < n :: !CompletesPat(Then(service, steps, l), steps[l]);
          assert k == n - 1;
        }
      } else {
        ListedStays(service, steps, n - 1, x, pid);
      }
    }
  }

  lemma ListedStays(service: uint16, steps: seq<Step>, n: nat, x: uint16, pid: uint16)
    requires n < |steps| && !CompletesPat(Then(service, steps, n), steps[n])
    ensures ListedAt(service, steps, n + 1, x, pid) <==> ListedAt(service, steps, n, x, pid)
  {
    hide Then, CompletesPat, Lists;
    if ListedAt(service, steps, n, x, pid) {
      var k :| 0 <= k < n && CompletesPat(Then(service, steps, k), steps[k]) && Lists(Then(service, steps, k), steps[k], x, pid)
               && forall l | k < l < n :: !CompletesPat(Then(service, steps, l), steps[l]);
      assert forall l | k < l < n + 1 :: !CompletesPat(Then(service, steps, l), steps[l]);
    }
  }

  // ----- the last complete CAT -----

  predicate CompletesCat(v: View, step: Step) {
    step.Sees? && step.event.SawCat? && Add(v.demux.catSections, step.event.section).ready
  }

  /** Of the first n steps, the last that completed a CAT named this PID. */
  ghost predicate NamedByCat(service: uint16, steps: seq<Step>, n: nat, pid: uint16)
    requires n <= |steps|
  {
    exists k | 0 <= k < n ::
      && CompletesCat(Then(service, steps, k), steps[k])
      && pid in steps[k].event.emm
      && forall l | k < l < n :: !CompletesCat(Then(service, steps, l), steps[l])
  }

  lemma CatNow(v: View, step: Step, service: uint16)
    requires Buildable(v.demux)
    ensures Move(service, v, step).demux.emm == if CompletesCat(v, step) then step.event.emm else v.demux.emm
  {
    hide Completed, Add, Emit;
  }

  lemma {:induction false} CatExactly(service: uint16, steps: seq<Step>, n: nat, pid: uint16)
    requires n <= |steps|
    ensures pid in Then(service, steps, n).demux.emm <==> NamedByCat(service, steps, n, pid)
    decreases n
  {
    hide Then, Move, ViewOk;
    if n == 0 {
      NotLeftYet(service, steps);
    } else {
      CatExactly(service, steps, n - 1, pid);
      ThenMove(service, steps, n - 1);
      var v, step := Then(service, steps, n - 1), steps[n - 1];
      CatNow(v, step, service);
      CatGoesOn(service, steps, n - 1, pid);
    }
  }

  lemma CatGoesOn(service: uint16, steps: seq<Step>, n: nat, pid: uint16)
    requires n < |steps|
    ensures NamedByCat(service, steps, n + 1, pid) <==>
              if CompletesCat(Then(service, steps, n), steps[n]) then pid in steps[n].event.emm else NamedByCat(service, steps, n, pid)
  {
    hide Then, Add;
    if CompletesCat(Then(service, steps, n), steps[n]) {
      if NamedByCat(service, steps, n + 1, pid) {
        var k :| 0 <= k < n + 1 && CompletesCat(Then(service, steps, k), steps[k]) && pid in steps[k].event.emm
                 && forall l | k < l < n + 1 :: !CompletesCat(Then(service, steps, l), steps[l]);
        assert k == n;
      }
    } else if NamedByCat(service, steps, n, pid) {
      var k :| 0 <= k < n && CompletesCat(Then(service, steps, k), steps[k]) && pid in steps[k].event.emm
               && forall l | k < l < n :: !CompletesCat(Then(service, steps, l), steps[l]);
      assert forall l | k < l < n + 1 :: !CompletesCat(Then(service, steps, l), steps[l]);
    }
  }

  // ----- the last PMT of the service -----

  predicate IsPmt(step: Step, service: uint16) {
    step.Sees? && step.event.SawPmt? && step.event.service == service
  }

  /** From step k to step n the service has been listed at the PMT PID that it has at step n. */
  ghost predicate SameProgram(service: uint16, steps: seq<Step>, k: nat, n: nat)
    requires k <= n <= |steps|
  {
    forall l | k <= l <= n ::
      && service in Then(service, steps, l).demux.programs && service in Then(service, steps, n).demux.programs
      && Then(service, steps, l).demux.programs[service].pmtPid == Then(service, steps, n).demux.programs[service].pmtPid
  }

  /** Of the first n steps, the last PMT of the service since it took its PMT PID named this PID. */
  ghost predicate NamedByPmt(service: uint16, steps: seq<Step>, n: nat, pid: uint16)
    requires n <= |steps|
  {
    exists k | 0 <= k < n ::
      && IsPmt(steps[k], service) && pid in steps[k].event.pids
      && (forall l | k < l < n :: !IsPmt(steps[l], service))
      && SameProgram(service, steps, k, n)
  }

  /** How the PIDs of a program change in one step. */
  lemma PmtNow(v: View, step: Step, service: uint16)
    requires Buildable(v.demux) && service in Move(service, v, step).demux.programs
    ensures var programs, now := v.demux.programs, Move(service, v, step).demux.programs;
            now[service].pids ==
              if service in programs && now[service].pmtPid == programs[service].pmtPid
              then (if IsPmt(step, service) then step.event.pids else programs[service].pids)
              else {}
  {
    hide Completed, Add, Emit;
  }

  lemma PmtKeepsPrograms(v: View, step: Step, service: uint16)
    requires Buildable(v.demux) && IsPmt(step, service)
    ensures service in Move(service, v, step).demux.programs <==> service in v.demux.programs
    ensures service in v.demux.programs ==>
              Move(service, v, step).demux.programs[service].pmtPid == v.demux.programs[service].pmtPid
  {
  }

  lemma PmtGoesOn(service: uint16, steps: seq<Step>, n: nat, pid: uint16)
    requires n < |steps| && service in Then(service, steps, n + 1).demux.programs
    ensures NamedByPmt(service, steps, n + 1, pid) <==>
              && SameProgram(service, steps, n, n + 1)
              && if IsPmt(steps[n], service) then pid in steps[n].event.pids else NamedByPmt(service, steps, n, pid)
  {
    hide Then, IsPmt;
    if NamedByPmt(service, steps, n + 1, pid) {
      var k :| 0 <= k < n + 1 && IsPmt(steps[k], service) && (IsAPmt(steps[k], service); pid in steps[k].event.pids)
               && (forall l | k < l < n + 1 :: !IsPmt(steps[l], service)) && SameProgram(service, steps, k, n + 1);
      if k < n { assert SameProgram(service, steps, k, n); }
    }
    if SameProgram(service, steps, n, n + 1) {
      if IsPmt(steps[n], service) {
        IsAPmt(steps[n], service);
      } else if NamedByPmt(service, steps, n, pid) {
        var k :| 0 <= k < n && IsPmt(steps[k], service) && (IsAPmt(steps[k], service); pid in steps[k].event.pids)
                 && (forall l | k < l < n :: !IsPmt(steps[l], service)) && SameProgram(service, steps, k, n);
        assert SameProgram(service, steps, k, n + 1);
      }
    }
  }

  lemma IsAPmt(step: Step, service: uint16)
    requires IsPmt(step, service)
    ensures step.Sees? && step.event.SawPmt?
  {
  }

  lemma {:induction false} PmtExactly(service: uint16, steps: seq<Step>, n: nat, pid: uint16)
    requires n <= |steps| && service in Then(service, steps, n).demux.programs
    ensures pid in Then(service, steps, n).demux.programs[service].pids <==> NamedByPmt(service, steps, n, pid)
    decreases n
  {
    hide Then, Move, ViewOk, NamedByPmt;
    if n == 0 {
      NotLeftYet(service, steps);
    } else {
      ThenMove(service, steps, n - 1);
      var v, step := Then(service, steps, n - 1), steps[n - 1];
      PmtNow(v, step, service);
      PmtGoesOn(service, steps, n - 1, pid);
      if service in v.demux.programs { PmtExactly(service, steps, n - 1, pid); }
      if IsPmt(step, service) { PmtKeepsPrograms(v, step, service); }
    }
  }

  // ----- what is shown -----

  /** No transport error, not the null PID, and any adaptation field ends inside the packet. */
  predicate Undamaged(p: Packet) {
    && p[1] & 0x80 == 0
    && Pid(p) != 0x1fff
    && (p[3] & 0x20 != 0 ==> 5 + p[4] as nat <= 188)
  }

  lemma UsableExactly(p: Packet)
    ensures Usable(p) <==> Undamaged(p)
  {
    AdaptationBits(p[3]);
  }

  /** The last complete PAT lists the service. */
  ghost predicate IsListed(service: uint16, steps: seq<Step>) {
    exists pid: uint16 :: ListedAt(service, steps, |steps|, service, pid)
  }

  lemma IsListedExactly(service: uint16, steps: seq<Step>)
    ensures IsListed(service, steps) <==> service in Then(service, steps, |steps|).demux.programs
  {
    hide Then, ListedAt;
    var programs := Then(service, steps, |steps|).demux.programs;
    if service in programs {
      ListedExactly(service, steps, |steps|, service, programs[service].pmtPid);
    }
    if IsListed(service, steps) {
      var pid: uint16 :| ListedAt(service, steps, |steps|, service, pid);
      ListedExactly(service, steps, |steps|, service, pid);
    }
  }

  /** Whom a PID belongs to, by the run alone. */
  ghost predicate Belongs(service: uint16, steps: seq<Step>, pid: uint16) {
    || pid == 0x0001 || 0x0010 <= pid <= 0x0014 || pid == 0x001e || pid == 0x001f
    || pid == 0x0023 || pid == 0x0024 || pid == 0x0029
    || ListedAt(service, steps, |steps|, service, pid)
    || NamedByPmt(service, steps, |steps|, pid)
    || NamedByCat(service, steps, |steps|, pid)
  }

  lemma BelongsExactly(service: uint16, steps: seq<Step>, pid: uint16)
    requires service in Then(service, steps, |steps|).demux.programs
    ensures Allowed(Then(service, steps, |steps|).demux, service, pid) <==> Belongs(service, steps, pid)
  {
    ListedExactly(service, steps, |steps|, service, pid);
    PmtExactly(service, steps, |steps|, pid);
    CatExactly(service, steps, |steps|, pid);
    hide Then, ListedAt, NamedByPmt, NamedByCat;
  }

  /**
   After every run from the start, a packet on a PID other than 0 is shown exactly if it
   is undamaged, the last complete PAT lists the service, and its PID is a common one, the
   PMT PID of that PAT, one that the last PMT of the service since then named, or one that
   the last complete CAT named; it is shown unchanged.
   */
  lemma ShowsExactly(service: uint16, steps: seq<Step>, p: Packet)
    requires Pid(p) != 0
    ensures Buildable(Then(service, steps, |steps|).demux)
    ensures var v := Then(service, steps, |steps|);
            Emit(v.demux, service, v.output, p).packet ==
              if Undamaged(p) && IsListed(service, steps) && Belongs(service, steps, Pid(p)) then Some(p) else None
  {
    hide Then, Usable, Undamaged, Allowed, IsListed, Belongs, Emit, ViewOk;
    var v := Then(service, steps, |steps|);
    ThenOk(service, steps, |steps|);
    OtherPasses(service, v, p);
    UsableExactly(p);
    IsListedExactly(service, steps);
    if service in v.demux.programs { BelongsExactly(service, steps, Pid(p)); }
  }
}
