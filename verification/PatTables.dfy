/**
 What a PAT section lists, which sections a table is made of, and what a complete table
 lists, told by the bytes and by the order of arrival.
 */
module PatTables {
  import opened Crc
  import opened Packets
  import opened Sections
  import opened Pat
  import opened Demux
  import ServiceView

  // ----- the entries of a section -----

  /** How many entries of four bytes lie between the header and the CRC. */
  function Count(s: Section): nat
    requires |s| >= 3
  {
    if Total(s) < 12 then 0 else (Total(s) - 12) / 4
  }

  function ProgramAt(s: Section, i: nat): uint16
    requires |s| >= 12 + 4 * i
  {
    Word(s[8 + 4 * i], s[9 + 4 * i])
  }

  function PidAt(s: Section, i: nat): uint16
    requires |s| >= 12 + 4 * i
  {
    Word(s[10 + 4 * i] & 0x1f, s[11 + 4 * i])
  }

  /** Of the entries from i to n, the last for this program has this PID. */
  ghost predicate LastEntry(s: Section, i: nat, n: nat, program: uint16, pid: uint16)
    requires |s| >= 8 + 4 * n
  {
    exists k | i <= k < n :: ProgramAt(s, k) == program && PidAt(s, k) == pid && NoEntry(s, k + 1, n, program)
  }

  ghost predicate NoEntry(s: Section, i: nat, n: nat, program: uint16)
    requires |s| >= 8 + 4 * n
  {
    forall l | i <= l < n :: ProgramAt(s, l) != program
  }

  /** Program 0 stands for the network PID. */
  predicate Lists(pat: Pat, program: uint16, pid: uint16) {
    if program == 0 then pat.networkPid == pid else program in pat.programs && pat.programs[program] == pid
  }

  lemma EntryLists(pat: Pat, program: uint16, pid: uint16, q: uint16, x: uint16)
    ensures Lists(WithEntry(pat, program, pid), q, x) <==> if q == program then x == pid else Lists(pat, q, x)
  {
  }

  lemma {:induction false} EntriesList(pat: Pat, s: Section, i: nat, n: nat, end: int, q: uint16, x: uint16)
    requires i <= n && end <= |s| && 8 + 4 * n <= end < 12 + 4 * n
    ensures Lists(Entries(pat, s, 8 + 4 * i, end), q, x) <==>
              LastEntry(s, i, n, q, x) || (NoEntry(s, i, n, q) && Lists(pat, q, x))
    decreases n - i
  {
    hide Lists, WithEntry, Word;
    if i < n {
      var more := WithEntry(pat, ProgramAt(s, i), PidAt(s, i));
      EntryLists(pat, ProgramAt(s, i), PidAt(s, i), q, x);
      EntriesList(more, s, i + 1, n, end, q, x);
      OneEntryMore(s, i, n, q, x);
    }
  }

  lemma OneEntryMore(s: Section, i: nat, n: nat, q: uint16, x: uint16)
    requires i < n && |s| >= 8 + 4 * n
    ensures NoEntry(s, i, n, q) <==> ProgramAt(s, i) != q && NoEntry(s, i + 1, n, q)
    ensures LastEntry(s, i, n, q, x) <==>
              LastEntry(s, i + 1, n, q, x) || (ProgramAt(s, i) == q && PidAt(s, i) == x && NoEntry(s, i + 1, n, q))
  {
    hide Word;
  }

  /**
   A PAT section parses exactly if it is whole, is a PAT and has a right CRC.  It lists a
   program at the PID of the last of its entries for the program, and the network PID in
   the same way for program 0; the network PID is 0 if no entry gives it.
   */
  lemma ParsesExactly(s: Section, program: uint16, pid: uint16)
    ensures Parse(s).Ok? <==> |s| >= 12 && s[0] == 0 && ValidCrc(s)
    ensures Parse(s).Ok? ==>
              && |s| >= 12 && 8 + 4 * Count(s) <= |s|
              && Parse(s).value.streamId == Word(s[3], s[4])
              && Parse(s).value.version == (s[5] >> 1) & 0x1f
              && (Lists(Parse(s).value, program, pid) <==>
                    LastEntry(s, 0, Count(s), program, pid) || (program == 0 && pid == 0 && NoEntry(s, 0, Count(s), 0)))
              && 0 !in Parse(s).value.programs
  {
    hide Word, LengthField, WithEntry, NoEntry, LastEntry;
    if Parse(s).Ok? {
      var empty := Pat(Word(s[3], s[4]), Version(s[5]), 0, map[]);
      var end := Total(s) - 4;
      EntriesFit(empty, s, 8, end);
      if Total(s) >= 12 {
        EntriesList(empty, s, 0, Count(s), end, program, pid);
      } else {
        NoEntries(s, program, pid);
      }
    }
  }

  lemma NoEntries(s: Section, program: uint16, pid: uint16)
    requires |s| >= 8
    ensures NoEntry(s, 0, 0, program) && !LastEntry(s, 0, 0, program, pid)
  {
  }

  // ----- the sections of a table -----

  /** Whole, in force now, and with a number that is not past the last. */
  predicate Counts(s: Section) {
    |s| >= 8 && Total(s) <= |s| && s[5] & 1 == 1 && s[6] <= s[7]
  }

  /** The same id, version and number of sections. */
  predicate SameHeader(a: Section, b: Section)
    requires |a| >= 8 && |b| >= 8
  {
    a[3..5] == b[3..5] && (a[5] >> 1) & 0x1f == (b[5] >> 1) & 0x1f && a[7] == b[7]
  }

  function AddAll(t: TableSet, sections: seq<Section>): TableSet
    decreases |sections|
  {
    if sections == [] then t else Add(AddAll(t, sections[..|sections| - 1]), sections[|sections| - 1]).next
  }

  lemma CurrentBit(b: byte)
    ensures CurrentNext(b) <==> b & 1 == 1
  {
  }

  lemma CountsExactly(s: Section)
    ensures Countable(s) <==> Counts(s)
  {
    hide LengthField, CurrentNext;
    if |s| >= 8 {
      CurrentBit(s[5]);
      Ordered8(s[6], s[7]);
    }
  }

  lemma Ordered8(a: byte, b: byte)
    ensures a as nat <= b as nat <==> a <= b
    ensures a as nat == b as nat <==> a == b
  {
  }

  /** A table that some counted section s has set up. */
  predicate HeadedBy(t: TableSet, s: Section)
    requires |s| >= 8
  {
    t.initialized && t.extension == Word(s[3], s[4]) && t.version == (s[5] >> 1) & 0x1f && t.last == s[7] as nat
  }

  lemma ByteFits(b: byte)
    ensures 0 <= b as int < 0x100
  {
  }

  lemma SameParts(a: int, b: int, c: int, d: int)
    requires 0 <= b < 0x100 && 0 <= d < 0x100
    ensures a * 0x100 + b == c * 0x100 + d <==> a == c && b == d
  {
  }

  lemma SameWords(a: byte, b: byte, c: byte, d: byte)
    ensures Word(a, b) == Word(c, d) <==> a == c && b == d
  {
    ByteFits(b);
    ByteFits(d);
    SameParts(a as int, b as int, c as int, d as int);
    Ordered8(a, c);
    Ordered8(b, d);
  }

  lemma HeadIs(t: TableSet, a: Section, b: Section)
    requires |a| >= 8 && |b| >= 8 && HeadedBy(t, a)
    ensures HeadedBy(t, b) <==> SameHeader(a, b)
  {
    hide Word;
    SameWords(a[3], a[4], b[3], b[4]);
    Ordered8(a[7], b[7]);
    assert a[3..5] == [a[3], a[4]] && b[3..5] == [b[3], b[4]];
  }

  /** The k-th section is in the table: no later one that counts has its number or another header. */
  predicate Stays(sections: seq<Section>, k: nat)
    requires k < |sections|
  {
    && Counts(sections[k])
    && forall l | k < l < |sections| && Counts(sections[l]) :: SameHeader(sections[k], sections[l]) && sections[l][6] != sections[k][6]
  }

  predicate NumberIs(s: Section, number: nat) {
    |s| >= 8 && s[6] as nat == number
  }

  ghost predicate HeldAs(sections: seq<Section>, number: nat, s: Section) {
    exists k | 0 <= k < |sections| :: HeldAt(sections, k, number, s)
  }

  predicate HeldAt(sections: seq<Section>, k: nat, number: nat, s: Section)
    requires k < |sections|
  {
    sections[k] == s && Stays(sections, k) && NumberIs(s, number)
  }

  predicate Holds(t: TableSet, number: nat, s: Section) {
    number in t.sections && t.sections[number] == s
  }

  lemma AddNext(t: TableSet, s: Section)
    ensures Add(t, s).next ==
            if !Counts(s) then t
            else
              var number, base := s[6] as nat, if HeadedBy(t, s) then t.sections else map[];
              TableSet(true, Word(s[3], s[4]), (s[5] >> 1) & 0x1f, s[7] as nat, base[number := s])
  {
    hide Word, LengthField;
    CountsExactly(s);
  }

  lemma StaysMore(sections: seq<Section>, s: Section, k: nat)
    requires k < |sections|
    ensures Stays(sections + [s], k) <==> Stays(sections, k) && (Counts(s) ==> SameHeader(sections[k], s) && s[6] != sections[k][6])
  {
    hide Counts, SameHeader;
    var more := sections + [s];
    assert more[|sections|] == s && forall l | 0 <= l < |sections| :: more[l] == sections[l];
  }

  /** Whatever stays has the header of the table. */
  lemma {:induction false} StayingHeads(sections: seq<Section>, k: nat)
    requires k < |sections| && Stays(sections, k)
    ensures |sections[k]| >= 8 && HeadedBy(AddAll(EMPTY_TABLE, sections), sections[k])
    decreases |sections|
  {
    hide Counts, HeadedBy, SameHeader, Add;
    IsLong(sections[k]);
    var before, s := sections[..|sections| - 1], sections[|sections| - 1];
    var t := AddAll(EMPTY_TABLE, before);
    assert before + [s] == sections;
    AddNext(t, s);
    if Counts(s) {
      IsLong(s);
      HeadsItself(t, s);
      if k < |before| {
        assert SameHeader(sections[k], s);
        SameBack(sections[k], s);
        HeadIs(Add(t, s).next, s, sections[k]);
      }
    } else {
      StaysMore(before, s, k);
      StayingHeads(before, k);
    }
  }

  lemma IsLong(s: Section)
    requires Counts(s)
    ensures |s| >= 8
  {
  }

  lemma HeadsItself(t: TableSet, s: Section)
    requires Counts(s)
    ensures HeadedBy(Add(t, s).next, s)
  {
    hide Word, LengthField;
    AddNext(t, s);
  }

  lemma SameBack(a: Section, b: Section)
    requires |a| >= 8 && |b| >= 8
    ensures SameHeader(a, b) <==> SameHeader(b, a)
  {
  }

  /** What one more section that counts leaves of the others. */
  lemma OneMoreCounts(before: seq<Section>, s: Section, number: nat, x: Section)
    requires Counts(s)
    ensures |s| >= 8
    ensures HeldAs(before + [s], number, x) <==>
              if number == s[6] as nat then x == s else HeldAs(before, number, x) && HeadedBy(AddAll(EMPTY_TABLE, before), s)
  {
    hide Counts, HeadedBy, SameHeader, AddAll;
    IsLong(s);
    var t, all := AddAll(EMPTY_TABLE, before), before + [s];
    assert Stays(all, |before|) && all[|before|] == s;
    forall k | 0 <= k < |before|
      ensures Stays(all, k) <==> Stays(before, k) && HeadedBy(t, s) && OtherNumber(s, before[k])
    {
      StaysMore(before, s, k);
      if Stays(before, k) {
        StayingHeads(before, k);
        HeadIs(t, before[k], s);
        Ordered8(s[6], before[k][6]);
      }
    }
    MovesOn(before, s, number, x);
  }

  predicate OtherNumber(a: Section, b: Section) {
    |a| >= 8 && |b| >= 8 && a[6] as nat != b[6] as nat
  }

  lemma MovesOn(before: seq<Section>, s: Section, number: nat, x: Section)
    requires |s| >= 8 && Stays(before + [s], |before|)
    requires forall k | 0 <= k < |before| :: Stays(before + [s], k) <==>
               Stays(before, k) && HeadedBy(AddAll(EMPTY_TABLE, before), s) && OtherNumber(s, before[k])
    ensures HeldAs(before + [s], number, x) <==>
              if number == s[6] as nat then x == s else HeldAs(before, number, x) && HeadedBy(AddAll(EMPTY_TABLE, before), s)
  {
    hide Counts, HeadedBy, SameHeader, AddAll, Stays;
    var all := before + [s];
    assert all[|before|] == s && HeldAt(all, |before|, number, x) <==> x == s && number == s[6] as nat;
    forall k | 0 <= k < |before|
      ensures HeldAt(all, k, number, x) <==>
                number != s[6] as nat && HeldAt(before, k, number, x) && HeadedBy(AddAll(EMPTY_TABLE, before), s)
    {
      assert all[k] == before[k];
    }
    hide HeldAt;
    if HeldAs(before, number, x) {
      var k :| 0 <= k < |before| && HeldAt(before, k, number, x);
      assert HeldAt(all, k, number, x) || number == s[6] as nat || !HeadedBy(AddAll(EMPTY_TABLE, before), s);
    }
    if x == s && number == s[6] as nat { assert HeldAt(all, |before|, number, x); }
  }

  /**
   After any sections have come, a table has under a number exactly the last of them that
   counted with this number, as long as none with another id, version or last number
   has counted since.
   */
  lemma {:induction false} CollectsExactly(sections: seq<Section>, number: nat, x: Section)
    ensures Holds(AddAll(EMPTY_TABLE, sections), number, x) <==> HeldAs(sections, number, x)
    decreases |sections|
  {
    hide Counts, HeadedBy, Stays, Add;
    if sections != [] {
      var before, s := sections[..|sections| - 1], sections[|sections| - 1];
      assert before + [s] == sections;
      CollectsExactly(before, number, x);
      AddNext(AddAll(EMPTY_TABLE, before), s);
      if Counts(s) {
        IsLong(s);
        OneMoreCounts(before, s, number, x);
      } else {
        NotCounted(before, s, number, x);
      }
    }
  }

  lemma NotCounted(before: seq<Section>, s: Section, number: nat, x: Section)
    requires !Counts(s)
    ensures HeldAs(before + [s], number, x) <==> HeldAs(before, number, x)
  {
    hide Counts, SameHeader;
    var all := before + [s];
    forall k | 0 <= k < |before|
      ensures HeldAt(all, k, number, x) <==> HeldAt(before, k, number, x)
    {
      assert all[k] == before[k];
      StaysMore(before, s, k);
    }
    assert !HeldAt(all, |before|, number, x) by { assert all[|before|] == s; }
    if HeldAs(before, number, x) {
      var k :| 0 <= k < |before| && HeldAt(before, k, number, x);
      assert HeldAt(all, k, number, x);
    }
  }

  lemma {:induction false} AddAllKeeps(sections: seq<Section>)
    ensures ServiceView.TableOk(AddAll(EMPTY_TABLE, sections))
    decreases |sections|
  {
    hide Add, ServiceView.SectionOk;
    if sections != [] {
      AddAllKeeps(sections[..|sections| - 1]);
      ServiceView.AddKeepsTable(AddAll(EMPTY_TABLE, sections[..|sections| - 1]), sections[|sections| - 1]);
    }
  }

  /** A section completes the table exactly if it counts and then every number up to its last is there. */
  lemma CompletesExactly(before: seq<Section>, s: Section)
    ensures Add(AddAll(EMPTY_TABLE, before), s).ready <==>
              Counts(s) && forall number | 0 <= number <= s[7] as nat :: InHand(before + [s], number)
  {
    hide Word, LengthField, Counts, InHand, IsComplete, Holds, Countable;
    var t := AddAll(EMPTY_TABLE, before);
    var all := before + [s];
    assert all[..|before|] == before;
    assert AddAll(EMPTY_TABLE, all) == Add(t, s).next by { AllOfMore(before, s); }
    AddNext(t, s);
    CountsExactly(s);
    if Counts(s) {
      IsLong(s);
      AddAllKeeps(all);
      var next := Add(t, s).next;
      ServiceView.ReadyExactly(next);
      forall number | 0 <= number <= s[7] as nat
        ensures number in next.sections <==> InHand(all, number)
      {
        InTable(all, number);
      }
    }
  }

  lemma AllOfMore(before: seq<Section>, s: Section)
    ensures AddAll(EMPTY_TABLE, before + [s]) == Add(AddAll(EMPTY_TABLE, before), s).next
  {
    hide Add;
    assert (before + [s])[..|before|] == before;
  }

  ghost predicate InHand(sections: seq<Section>, number: nat) {
    exists x :: HeldAs(sections, number, x)
  }

  lemma InTable(sections: seq<Section>, number: nat)
    ensures number in AddAll(EMPTY_TABLE, sections).sections <==> InHand(sections, number)
  {
    hide AddAll, HeldAs;
    var t := AddAll(EMPTY_TABLE, sections);
    if number in t.sections {
      CollectsExactly(sections, number, t.sections[number]);
    }
    if InHand(sections, number) {
      var x :| HeldAs(sections, number, x);
      CollectsExactly(sections, number, x);
    }
  }

  // ----- what a table lists -----

  /** Of the sections, the last that lists the program lists it at this PID. */
  ghost predicate LastLists(sections: seq<Section>, program: uint16, pid: uint16) {
    exists k | 0 <= k < |sections| ::
      && Parse(sections[k]).Ok? && program in Parse(sections[k]).value.programs && Parse(sections[k]).value.programs[program] == pid
      && forall l | k < l < |sections| :: Parse(sections[l]).Ok? ==> program !in Parse(sections[l]).value.programs
  }

  predicate ListedAt(programs: map<uint16, uint16>, program: uint16, pid: uint16) {
    program in programs && programs[program] == pid
  }

  lemma LastListsFirst(sections: seq<Section>, program: uint16, pid: uint16)
    requires sections != [] && Parse(sections[0]).Ok?
    ensures LastLists(sections, program, pid) <==>
              || LastLists(sections[1..], program, pid)
              || (ListedAt(Parse(sections[0]).value.programs, program, pid) && Silent(sections[1..], program))
    ensures Silent(sections, program) <==> program !in Parse(sections[0]).value.programs && Silent(sections[1..], program)
  {
    hide Parse;
    var rest := sections[1..];
    assert forall l | 0 <= l < |rest| :: rest[l] == sections[l + 1];
    if LastLists(rest, program, pid) {
      var k :| 0 <= k < |rest| && Parse(rest[k]).Ok? && ListedAt(Parse(rest[k]).value.programs, program, pid)
               && forall l | k < l < |rest| :: Parse(rest[l]).Ok? ==> program !in Parse(rest[l]).value.programs;
      assert sections[k + 1] == rest[k] && forall l | k + 1 < l < |sections| :: sections[l] == rest[l - 1];
    }
    if LastLists(sections, program, pid) {
      var k :| 0 <= k < |sections| && Parse(sections[k]).Ok? && ListedAt(Parse(sections[k]).value.programs, program, pid)
               && forall l | k < l < |sections| :: Parse(sections[l]).Ok? ==> program !in Parse(sections[l]).value.programs;
      if k > 0 { assert rest[k - 1] == sections[k]; }
    }
  }

  /** No section lists the program. */
  predicate Silent(sections: seq<Section>, program: uint16) {
    forall l | 0 <= l < |sections| :: Parse(sections[l]).Ok? ==> program !in Parse(sections[l]).value.programs
  }

  lemma {:induction false} CombineFrom(start: Pat, sections: seq<Section>, program: uint16, pid: uint16)
    ensures Combine(start, sections).Ok? <==> forall k | 0 <= k < |sections| :: Parse(sections[k]).Ok?
    ensures Combine(start, sections).Ok? ==>
              (ListedAt(Combine(start, sections).value.programs, program, pid) <==>
                 LastLists(sections, program, pid) || (Silent(sections, program) && ListedAt(start.programs, program, pid)))
    ensures Combine(start, sections).Ok? && sections != [] ==>
              var last := Parse(sections[|sections| - 1]).value;
              var all := Combine(start, sections).value;
              all.streamId == last.streamId && all.version == last.version && all.networkPid == last.networkPid
    decreases |sections|
  {
    hide Parse, LastLists, Silent;
    if sections == [] {
      NothingListed(program, pid);
    } else if Parse(sections[0]).Ok? {
      var rest := sections[1..];
      LastListsFirst(sections, program, pid);
      CombineFrom(Merge(start, Parse(sections[0]).value), rest, program, pid);
      assert forall k | 0 < k < |sections| :: sections[k] == rest[k - 1];
    }
  }

  lemma NothingListed(program: uint16, pid: uint16)
    ensures Silent([], program) && !LastLists([], program, pid)
  {
  }

  /**
   A complete table is taken exactly if all its sections parse; it lists a program at the
   PID that the last section with this program gives.
   */
  lemma CombinesExactly(sections: seq<Section>, program: uint16, pid: uint16)
    ensures Combine(EMPTY_PAT, sections).Ok? <==> forall k | 0 <= k < |sections| :: Parse(sections[k]).Ok?
    ensures Combine(EMPTY_PAT, sections).Ok? ==>
              (ListedAt(Combine(EMPTY_PAT, sections).value.programs, program, pid) <==> LastLists(sections, program, pid))
  {
    hide Parse, LastLists, Silent, Combine;
    CombineFrom(EMPTY_PAT, sections, program, pid);
  }
}
