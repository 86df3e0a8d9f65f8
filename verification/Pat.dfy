/** The program association table of ts/pat.go: building and parsing are inverse. */
module Pat {
  import opened Crc
  import opened Packets
  import opened Sections
  import opened SectionAssembly

  datatype Pat = Pat(streamId: uint16, version: byte, networkPid: uint16, programs: map<uint16, uint16>)

  datatype Result<T> = Ok(value: T) | Err

  const TABLE_ID: byte := 0

  function Version(b: byte): byte {
    (b >> 1) & 0x1f
  }

  predicate CurrentNext(b: byte) {
    b & 0x01 != 0
  }

  // ----- parsing -----

  function WithEntry(pat: Pat, program: uint16, pid: uint16): Pat {
    if program == 0 then pat.(networkPid := pid) else pat.(programs := pat.programs[program := pid])
  }

  /** The loop of ParsePAT from off on. */
  function Entries(pat: Pat, s: Section, off: nat, end: int): Pat
    requires end <= |s|
    decreases end - off
  {
    if off + 4 > end then pat
    else Entries(WithEntry(pat, Word(s[off], s[off + 1]), PidWord(s[off + 2], s[off + 3])), s, off + 4, end)
  }

  /** ParsePAT */
  function Parse(s: Section): Result<Pat> {
    if |s| < 12 || s[0] != TABLE_ID || Total(s) > |s| || !ValidCrc(s) then Err
    else Ok(Entries(Pat(Word(s[3], s[4]), Version(s[5]), 0, map[]), s, 8, Total(s) - 4))
  }

  // ----- building -----

  function Body(streamId: uint16, service: uint16, pid: uint16, version: byte): seq<byte> {
    [TABLE_ID, 0xb0, 13, High(streamId), Low(streamId), 0xc1 | ((version & 0x1f) << 1), 0, 0,
     High(service), Low(service), 0xe0 | High(pid), Low(pid)]
  }

  /** BuildPATSection */
  function Build(streamId: uint16, service: uint16, pid: uint16, version: byte): Result<Section> {
    if pid > MAX_PID then Err
    else
      var body := Body(streamId, service, pid, version);
      Ok(body + BigEndian(TableCrc(INITIAL, body)))
  }

  // ----- round trip -----

  lemma PidOfBytes(w: uint16)
    requires w <= MAX_PID
    ensures PidWord(0xe0 | High(w), Low(w)) == w
  {
    hide Low;
    ByteOf(w / 0x100);
    FiveBits(High(w));
    WordOfBytes(w);
  }

  lemma VersionOfByte(version: byte)
    ensures Version(0xc1 | ((version & 0x1f) << 1)) == version & 0x1f
    ensures CurrentNext(0xc1 | ((version & 0x1f) << 1))
  {
  }

  lemma LengthOfBody()
    ensures LengthField(0xb0, 13) == 13
  {
    var b1: byte, b2: byte := 0xb0, 13;
    assert ((b1 & 0x0f) as bv16 << 8) | b2 as bv16 == 13;
  }

  lemma BuiltShape(streamId: uint16, service: uint16, pid: uint16, version: byte)
    requires pid <= MAX_PID
    ensures var s := Build(streamId, service, pid, version).value;
            && |s| == 16 && s[..12] == Body(streamId, service, pid, version)
            && Total(s) == 16 && ValidCrc(s) && WellFormed(s) && Delivered(s) == [s]
  {
    hide TableCrc, LengthField, High, Low;
    var body := Body(streamId, service, pid, version);
    LengthOfBody();
    ResidueIsZero(body);
    var s := Build(streamId, service, pid, version).value;
    assert s[1] == 0xb0 && s[2] == 13 && s[0] == 0;
    assert s[..16] == s;
  }

  /** What a one-program PAT lists: program 0 names the network PID instead. */
  function Single(streamId: uint16, service: uint16, pid: uint16, version: byte): Pat {
    Pat(streamId, version & 0x1f, if service == 0 then pid else 0, if service == 0 then map[] else map[service := pid])
  }

  /** Building a PAT section and parsing it gives back every field, for all inputs the builder takes. */
  lemma BuildThenParse(streamId: uint16, service: uint16, pid: uint16, version: byte)
    ensures Build(streamId, service, pid, version).Ok? <==> pid <= MAX_PID
    ensures pid <= MAX_PID ==> Parse(Build(streamId, service, pid, version).value) == Ok(Single(streamId, service, pid, version))
  {
    hide Word, PidWord, High, Low, Version, ValidCrc, Entries, Body;
    if pid <= MAX_PID {
      BuiltShape(streamId, service, pid, version);
      var s := Build(streamId, service, pid, version).value;
      BuiltFields(s, streamId, service, pid, version);
      OneEntry(s, Pat(Word(s[3], s[4]), Version(s[5]), 0, map[]));
    }
  }

  lemma BuiltFields(s: Section, streamId: uint16, service: uint16, pid: uint16, version: byte)
    requires |s| == 16 && s[..12] == Body(streamId, service, pid, version) && pid <= MAX_PID
    ensures s[0] == TABLE_ID && Word(s[3], s[4]) == streamId && Version(s[5]) == version & 0x1f && CurrentNext(s[5])
    ensures Word(s[8], s[9]) == service && PidWord(s[10], s[11]) == pid
  {
    hide Word, PidWord, High, Low, Version, CurrentNext;
    var body := s[..12];
    assert s[3] == body[3] && s[4] == body[4] && s[5] == body[5] && s[8] == body[8];
    assert s[9] == body[9] && s[10] == body[10] && s[11] == body[11] && s[0] == body[0];
    WordOfBytes(streamId);
    WordOfBytes(service);
    PidOfBytes(pid);
    VersionOfByte(version);
  }

  lemma OneEntry(s: Section, pat: Pat)
    requires |s| == 16
    ensures Entries(pat, s, 8, 12) == WithEntry(pat, Word(s[8], s[9]), PidWord(s[10], s[11]))
  {
    hide Word, PidWord;
    assert Entries(pat, s, 8, 12) == Entries(WithEntry(pat, Word(s[8], s[9]), PidWord(s[10], s[11])), s, 12, 12);
  }

  // ----- every parsed PID fits into 13 bits -----

  predicate PidsFit(pat: Pat) {
    pat.networkPid <= MAX_PID && forall program | program in pat.programs :: program != 0 && pat.programs[program] <= MAX_PID
  }

  lemma EntryFits(pat: Pat, program: uint16, pid: uint16)
    requires PidsFit(pat) && pid <= MAX_PID
    ensures PidsFit(WithEntry(pat, program, pid))
    ensures WithEntry(pat, program, pid).streamId == pat.streamId && WithEntry(pat, program, pid).version == pat.version
  {
    var more := WithEntry(pat, program, pid);
    forall q | q in more.programs
      ensures q != 0 && more.programs[q] <= MAX_PID
    {
      if q == program && program != 0 {
        assert more.programs[q] == pid;
      } else {
        assert q in pat.programs && more.programs[q] == pat.programs[q];
      }
    }
  }

  lemma {:induction false} EntriesFit(pat: Pat, s: Section, off: nat, end: int)
    requires end <= |s| && PidsFit(pat)
    ensures PidsFit(Entries(pat, s, off, end))
    ensures Entries(pat, s, off, end).streamId == pat.streamId && Entries(pat, s, off, end).version == pat.version
    decreases end - off
  {
    hide Word, PidWord;
    if off + 4 <= end {
      PidFits(s[off + 2], s[off + 3]);
      EntryFits(pat, Word(s[off], s[off + 1]), PidWord(s[off + 2], s[off + 3]));
      EntriesFit(WithEntry(pat, Word(s[off], s[off + 1]), PidWord(s[off + 2], s[off + 3])), s, off + 4, end);
    }
  }

  /** So rebuilding a PAT from a parsed one never meets BuildPATSection's error. */
  lemma ParsedPidsFit(s: Section)
    ensures Parse(s).Ok? ==> PidsFit(Parse(s).value)
  {
    hide Word, Version, ValidCrc, Entries;
    if Parse(s).Ok? { EntriesFit(Pat(Word(s[3], s[4]), Version(s[5]), 0, map[]), s, 8, Total(s) - 4); }
  }

  // ----- the loops -----

  method ParsePat(table: array<bv32>, s: Section) returns (r: Result<Pat>)
    requires IsTable(table[..])
    ensures r == Parse(s)
  {
    hide IsTable, ValidCrc, LengthField, Word, Version;
    if |s| < 12 || s[0] != TABLE_ID || Total(s) > |s| {
      return Err;
    }
    var ok := ValidateCrc(table, s);
    if !ok {
      return Err;
    }
    var pat := ParseEntries(s, Pat(Word(s[3], s[4]), Version(s[5]), 0, map[]));
    r := Ok(pat);
  }

  method ParseEntries(s: Section, empty: Pat) returns (pat: Pat)
    requires |s| >= 3 && Total(s) <= |s|
    ensures pat == Entries(empty, s, 8, Total(s) - 4)
  {
    hide LengthField, Word, PidWord;
    pat := empty;
    var end := Total(s) - 4;
    var off := 8;
    while off + 4 <= end
      invariant Entries(pat, s, off, end) == Entries(empty, s, 8, end)
    {
      var program, pid := Word(s[off], s[off + 1]), PidWord(s[off + 2], s[off + 3]);
      if program == 0 {
        pat := pat.(networkPid := pid);
      } else {
        pat := pat.(programs := pat.programs[program := pid]);
      }
      off := off + 4;
    }
  }

  method BuildPatSection(table: array<bv32>, streamId: uint16, service: uint16, pid: uint16, version: byte)
    returns (r: Result<Section>)
    requires IsTable(table[..])
    ensures r == Build(streamId, service, pid, version)
  {
    hide IsTable, High, Low, Register, TableCrc, BigEndian, Body;
    if pid > MAX_PID {
      return Err;
    }
    var s := new byte[16];
    FillBody(s, streamId, service, pid, version);
    var crc := Crc32(table, s[..s.Length - 4]);
    TableCrcIsRegister(INITIAL, s[..12]);
    FillCrc(s, crc);
    assert s[..] == s[..12] + s[12..];
    r := Ok(s[..]);
  }

  method FillBody(s: array<byte>, streamId: uint16, service: uint16, pid: uint16, version: byte)
    requires s.Length == 16 && pid <= MAX_PID
    modifies s
    ensures s[..12] == Body(streamId, service, pid, version)
  {
    hide High, Low;
    s[0], s[1], s[2], s[3] := TABLE_ID, 0xb0, 13, High(streamId);
    s[4], s[5], s[6], s[7] := Low(streamId), 0xc1 | ((version & 0x1f) << 1), 0, 0;
    s[8], s[9], s[10], s[11] := High(service), Low(service), 0xe0 | High(pid), Low(pid);
  }

  method FillCrc(s: array<byte>, crc: bv32)
    requires s.Length == 16
    modifies s
    ensures s[..12] == old(s[..12]) && s[12..] == BigEndian(crc)
  {
    s[s.Length - 4] := (crc >> 24) as byte;
    s[s.Length - 3] := ((crc >> 16) & 0xff) as byte;
    s[s.Length - 2] := ((crc >> 8) & 0xff) as byte;
    s[s.Length - 1] := (crc & 0xff) as byte;
  }
}
