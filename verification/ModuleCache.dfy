/**
 The module cache of internal/stream/databroadcast/module_cache.go: a map with use marks
 and a byte counter behaves like a list in the order of last use.
 */
module ModuleCache {
  type uint32 = w: int | 0 <= w < 0x1_0000_0000
  type byte = b: int | 0 <= b < 0x100

  /** The parts of a module's URL; the size belongs to the cache key, but not to the URL. */
  datatype VersionKey = VersionKey(channelType: string, channelId: string, service: int, componentTag: int,
                                   downloadId: int, moduleId: int, version: int)

  datatype Key = Key(url: VersionKey, size: uint32)

  datatype Module = Module(size: uint32, info: seq<byte>, data: seq<byte>)

  datatype Slot = Slot(key: Key, content: Module)

  datatype Option<T> = None | Some(value: T)

  // ----- the list in the order of last use, the latest at the end -----

  function Bytes(slots: seq<Slot>): nat
    decreases |slots|
  {
    if slots == [] then 0 else |slots[0].content.data| + Bytes(slots[1..])
  }

  function Without(slots: seq<Slot>, key: Key): seq<Slot>
    decreases |slots|
  {
    if slots == [] then []
    else if slots[0].key == key then slots[1..]
    else [slots[0]] + Without(slots[1..], key)
  }

  predicate Holds(slots: seq<Slot>, key: Key) {
    exists i | 0 <= i < |slots| :: slots[i].key == key
  }

  function Find(slots: seq<Slot>, key: Key): Option<Module>
    decreases |slots|
  {
    if slots == [] then None
    else if slots[0].key == key then Some(slots[0].content)
    else Find(slots[1..], key)
  }

  /** A use moves the entry to the end. */
  function Touch(slots: seq<Slot>, key: Key): seq<Slot> {
    match Find(slots, key)
    case None => slots
    case Some(content) => Without(slots, key) + [Slot(key, content)]
  }

  /** The least recently used go first, as many as need be. */
  function DropOldest(slots: seq<Slot>, maxBytes: nat): seq<Slot>
    decreases |slots|
  {
    if Bytes(slots) <= maxBytes then slots else DropOldest(slots[1..], maxBytes)
  }

  function Put(slots: seq<Slot>, key: Key, content: Module, maxBytes: nat): seq<Slot> {
    if |content.data| > maxBytes then slots else DropOldest(Without(slots, key) + [Slot(key, content)], maxBytes)
  }

  predicate Distinct(slots: seq<Slot>) {
    forall a, b | 0 <= a < b < |slots| :: slots[a].key != slots[b].key
  }

  // ----- what the list keeps -----

  lemma {:induction false} BytesAppend(a: seq<Slot>, b: seq<Slot>)
    ensures Bytes(a + b) == Bytes(a) + Bytes(b)
    decreases |a|
  {
    if a == [] {
      assert a + b == b;
    } else {
      assert (a + b)[1..] == a[1..] + b;
      BytesAppend(a[1..], b);
    }
  }

  lemma {:induction false} WithoutIs(slots: seq<Slot>, key: Key)
    requires Distinct(slots)
    ensures Distinct(Without(slots, key)) && !Holds(Without(slots, key), key)
    ensures forall s :: s in Without(slots, key) <==> s in slots && s.key != key
    decreases |slots|
  {
    if slots != [] {
      var rest := slots[1..];
      assert forall s :: s in slots <==> s == slots[0] || s in rest;
      assert forall s | s in rest :: s.key != slots[0].key;
      if slots[0].key == key {
        NotFound(rest, key);
      } else {
        WithoutIs(rest, key);
        var less := Without(rest, key);
        assert forall s | s in less :: s in rest;
        assert Without(slots, key)[1..] == less;
      }
    }
  }

  lemma {:induction false} WithoutBytes(slots: seq<Slot>, key: Key)
    ensures Bytes(Without(slots, key)) + (if Find(slots, key).Some? then |Find(slots, key).value.data| else 0) == Bytes(slots)
    decreases |slots|
  {
    if slots != [] && slots[0].key != key {
      WithoutBytes(slots[1..], key);
      assert Without(slots, key)[1..] == Without(slots[1..], key);
    }
  }

  lemma {:induction false} NotFound(slots: seq<Slot>, key: Key)
    requires forall s | s in slots :: s.key != key
    ensures Find(slots, key).None? && Without(slots, key) == slots
    decreases |slots|
  {
    if slots != [] {
      NotFound(slots[1..], key);
      assert [slots[0]] + slots[1..] == slots;
    }
  }

  lemma {:induction false} FindIs(slots: seq<Slot>, key: Key)
    requires Distinct(slots)
    ensures Find(slots, key).Some? <==> Holds(slots, key)
    ensures forall s | s in slots && s.key == key :: Find(slots, key) == Some(s.content)
    ensures Find(slots, key).Some? ==> Slot(key, Find(slots, key).value) in slots
    decreases |slots|
  {
    if slots != [] {
      var rest := slots[1..];
      assert forall s :: s in slots <==> s == slots[0] || s in rest;
      FindIs(rest, key);
      if Holds(rest, key) {
        var i :| 0 <= i < |rest| && rest[i].key == key;
        assert slots[i + 1].key == key;
      }
    }
  }

  /** Dropping leaves the most recently used part, as long as it can be. */
  lemma {:induction false} DropIsSuffix(slots: seq<Slot>, maxBytes: nat) returns (n: nat)
    ensures n <= |slots| && DropOldest(slots, maxBytes) == slots[n..]
    ensures Bytes(slots[n..]) <= maxBytes && (n > 0 ==> Bytes(slots[n - 1..]) > maxBytes)
    decreases |slots|
  {
    if Bytes(slots) <= maxBytes {
      n := 0;
      assert slots[0..] == slots;
    } else {
      var m := DropIsSuffix(slots[1..], maxBytes);
      n := m + 1;
      assert slots[1..][m..] == slots[n..];
      if m > 0 { assert slots[1..][m - 1..] == slots[n - 1..]; } else { assert slots[0..] == slots; }
    }
  }

  /** The entry just put stays, whatever has to go. */
  lemma PutStays(slots: seq<Slot>, key: Key, content: Module, maxBytes: nat)
    requires Distinct(slots) && |content.data| <= maxBytes
    ensures var after := Put(slots, key, content, maxBytes);
            && after != [] && after[|after| - 1] == Slot(key, content)
            && Distinct(after) && Bytes(after) <= maxBytes && Find(after, key) == Some(content)
  {
    WithoutIs(slots, key);
    var others, slot := Without(slots, key), Slot(key, content);
    var n := DropIsSuffix(others + [slot], maxBytes);
    assert (others + [slot])[|others|..] == [slot];
    FindIs((others + [slot])[n..], key);
  }

  // ----- versions -----

  predicate OneSize(slots: seq<Slot>, url: VersionKey) {
    forall a, b | a in slots && b in slots && a.key.url == url && b.key.url == url :: a.content.size == b.content.size
  }

  /** The size in the key is the module's own, as the carousel's callers have it. */
  predicate Sized(slots: seq<Slot>) {
    forall s | s in slots :: s.key.size == s.content.size
  }

  /** When keys have their modules' sizes, a URL is unambiguous exactly if it has at most one entry. */
  lemma OneSizeIsOneEntry(slots: seq<Slot>, url: VersionKey)
    requires Distinct(slots) && Sized(slots)
    ensures OneSize(slots, url) <==> OneEntry(slots, url)
  {
    forall a, b | OneSize(slots, url) && a in slots && b in slots && a.key.url == url && b.key.url == url
      ensures a == b
    {
      assert a.key == b.key;
    }
  }

  predicate OneEntry(slots: seq<Slot>, url: VersionKey) {
    forall a, b | a in slots && b in slots && a.key.url == url && b.key.url == url :: a == b
  }

  /** The order in which a loop over the map meets its keys. */
  ghost predicate IsWalk(slots: seq<Slot>, walk: seq<Key>) {
    && (forall i, j | 0 <= i < j < |walk| :: walk[i] != walk[j])
    && (forall key: Key :: key in walk <==> Holds(slots, key))
  }

  /** What GetVersion's first loop is left with: it returns the entry of this key. */
  function LastOfUrl(walk: seq<Key>, url: VersionKey): Option<Key>
    decreases |walk|
  {
    if walk == [] then None
    else if walk[|walk| - 1].url == url then Some(walk[|walk| - 1])
    else LastOfUrl(walk[..|walk| - 1], url)
  }

  /** What its second loop meets first, all sizes being equal: it touches the entry of this key. */
  function FirstOfUrl(walk: seq<Key>, url: VersionKey): Option<Key>
    decreases |walk|
  {
    if walk == [] then None
    else if walk[0].url == url then Some(walk[0])
    else FirstOfUrl(walk[1..], url)
  }

  lemma {:induction false} LastIsLast(walk: seq<Key>, url: VersionKey)
    ensures LastOfUrl(walk, url).None? ==> forall i | 0 <= i < |walk| :: walk[i].url != url
    ensures LastOfUrl(walk, url).Some? ==>
              exists i | 0 <= i < |walk| :: walk[i] == LastOfUrl(walk, url).value && walk[i].url == url
                                            && forall j | i < j < |walk| :: walk[j].url != url
    decreases |walk|
  {
    if walk != [] && walk[|walk| - 1].url != url {
      var rest := walk[..|walk| - 1];
      LastIsLast(rest, url);
      if LastOfUrl(rest, url).Some? {
        var i :| 0 <= i < |rest| && rest[i] == LastOfUrl(rest, url).value && rest[i].url == url && forall j | i < j < |rest| :: rest[j].url != url;
        forall j | i < j < |walk|
          ensures walk[j].url != url
        {
          assert j < |rest| ==> rest[j] == walk[j];
        }
        assert walk[i] == rest[i];
      } else {
        assert forall i | 0 <= i < |rest| :: walk[i] == rest[i];
      }
    }
  }

  lemma {:induction false} FirstIsFirst(walk: seq<Key>, url: VersionKey)
    ensures FirstOfUrl(walk, url).None? ==> forall i | 0 <= i < |walk| :: walk[i].url != url
    ensures FirstOfUrl(walk, url).Some? ==>
              exists i | 0 <= i < |walk| :: walk[i] == FirstOfUrl(walk, url).value && walk[i].url == url
                                            && forall j | 0 <= j < i :: walk[j].url != url
    decreases |walk|
  {
    if walk != [] && walk[0].url != url {
      var rest := walk[1..];
      FirstIsFirst(rest, url);
      assert forall i | 1 <= i < |walk| :: walk[i] == rest[i - 1];
      if FirstOfUrl(rest, url).Some? {
        var i :| 0 <= i < |rest| && rest[i] == FirstOfUrl(rest, url).value && rest[i].url == url && forall j | 0 <= j < i :: rest[j].url != url;
        forall j | 0 <= j < i + 1
          ensures walk[j].url != url
        {
          assert j > 0 ==> walk[j] == rest[j - 1];
        }
        assert walk[i + 1] == rest[i];
      }
    }
  }

  /** The entry that GetVersion returns is the one that it touches, whatever the loops' orders. */
  ghost predicate TouchesWhatItReturns(slots: seq<Slot>, url: VersionKey) {
    forall first, second | IsWalk(slots, first) && IsWalk(slots, second) :: LastOfUrl(first, url) == FirstOfUrl(second, url)
  }

  function Keys(slots: seq<Slot>): seq<Key> {
    seq(|slots|, i requires 0 <= i < |slots| => slots[i].key)
  }

  lemma KeysAreWalk(slots: seq<Slot>)
    requires Distinct(slots)
    ensures IsWalk(slots, Keys(slots))
  {
    forall key: Key
      ensures key in Keys(slots) <==> Holds(slots, key)
    {
      if Holds(slots, key) {
        var i :| 0 <= i < |slots| && slots[i].key == key;
        assert Keys(slots)[i] == key;
      }
    }
  }

  /** The second loop is sure to touch the entry that is returned exactly if the URL has no other. */
  lemma TouchesExactly(slots: seq<Slot>, url: VersionKey)
    requires Distinct(slots)
    ensures TouchesWhatItReturns(slots, url) <==> OneEntry(slots, url)
  {
    if OneEntry(slots, url) {
      forall first, second | IsWalk(slots, first) && IsWalk(slots, second)
        ensures LastOfUrl(first, url) == FirstOfUrl(second, url)
      {
        SameOnly(slots, first, second, url);
      }
    }
    if TouchesWhatItReturns(slots, url) {
      KeysAreWalk(slots);
      FirstIsLast(slots, url);
    }
  }

  lemma SameOnly(slots: seq<Slot>, first: seq<Key>, second: seq<Key>, url: VersionKey)
    requires OneEntry(slots, url) && IsWalk(slots, first) && IsWalk(slots, second)
    ensures LastOfUrl(first, url) == FirstOfUrl(second, url)
  {
    LastIsLast(first, url);
    FirstIsFirst(second, url);
    var a, b := LastOfUrl(first, url), FirstOfUrl(second, url);
    if a.Some? {
      assert Holds(slots, a.value) && a.value in second;
    }
    if b.Some? {
      assert Holds(slots, b.value) && b.value in first;
    }
    if a.Some? && b.Some? {
      var i :| 0 <= i < |slots| && slots[i].key == a.value;
      var j :| 0 <= j < |slots| && slots[j].key == b.value;
      assert slots[i] in slots && slots[j] in slots;
    }
  }

  /** In the list's own order, the first entry of the URL is the last. */
  lemma FirstIsLast(slots: seq<Slot>, url: VersionKey)
    requires Distinct(slots) && LastOfUrl(Keys(slots), url) == FirstOfUrl(Keys(slots), url)
    ensures OneEntry(slots, url)
  {
    var walk := Keys(slots);
    LastIsLast(walk, url);
    FirstIsFirst(walk, url);
    forall a, b | a in slots && b in slots && a.key.url == url && b.key.url == url
      ensures a == b
    {
      var i :| 0 <= i < |slots| && slots[i] == a;
      var j :| 0 <= j < |slots| && slots[j] == b;
      assert walk[i] == a.key && walk[j] == b.key;
    }
  }

  /** Two entries of one URL whose keys differ in size though their modules do not: one is returned, the other touched. */
  lemma CanTouchAnother(url: VersionKey, a: uint32, b: uint32, m: Module, n: Module, maxBytes: nat)
    requires a != b && m.size == n.size && |m.data| + |n.data| <= maxBytes
    ensures var slots := Run([Puts(Key(url, a), m), Puts(Key(url, b), n)], maxBytes);
            && slots == [Slot(Key(url, a), m), Slot(Key(url, b), n)] && OneSize(slots, url)
            && IsWalk(slots, [Key(url, a), Key(url, b)])
            && LastOfUrl([Key(url, a), Key(url, b)], url) == Some(Key(url, b))
            && FirstOfUrl([Key(url, a), Key(url, b)], url) == Some(Key(url, a))
  {
    var first, second := Puts(Key(url, a), m), Puts(Key(url, b), n);
    assert [first, second][..1] == [first] && [first][..0] == [];
    var one, two := [Slot(Key(url, a), m)], [Slot(Key(url, a), m), Slot(Key(url, b), n)];
    assert Without([], Key(url, a)) == [];
    assert one[1..] == [] && two[1..] == [Slot(Key(url, b), n)] && two[1..][1..] == [];
    assert Bytes(one) == |m.data| && Bytes(two[1..]) == |n.data| && Bytes(two) == |m.data| + |n.data|;
    assert Run([], maxBytes) == [] && [] + one == one;
    assert Run([first], maxBytes) == Put([], Key(url, a), m, maxBytes) == one;
    assert Without(one, Key(url, b)) == one && one + [Slot(Key(url, b), n)] == two;
    KeysAreWalk(two);
    assert Keys(two) == [Key(url, a), Key(url, b)];
  }

  // ----- every run: a hit is the last put -----

  /** GetVersion touches an entry of the URL, whichever its second loop meets first. */
  datatype Op = Gets(key: Key) | Puts(key: Key, content: Module) | GetsVersion(url: VersionKey, touched: Key)

  function Apply(slots: seq<Slot>, op: Op, maxBytes: nat): seq<Slot> {
    match op
    case Gets(key) => Touch(slots, key)
    case Puts(key, content) => Put(slots, key, content, maxBytes)
    case GetsVersion(url, touched) => if touched.url == url && OneSize(slots, url) then Touch(slots, touched) else slots
  }

  /** The operation uses this key; an entry of its URL is only used while all of them have one size. */
  predicate Uses(slots: seq<Slot>, op: Op, key: Key, maxBytes: nat) {
    match op
    case Gets(k) => k == key
    case Puts(k, content) => k == key && |content.data| <= maxBytes
    case GetsVersion(url, touched) => touched == key && touched.url == url && OneSize(slots, url)
  }

  function Run(ops: seq<Op>, maxBytes: nat): seq<Slot>
    decreases |ops|
  {
    if ops == [] then [] else Apply(Run(ops[..|ops| - 1], maxBytes), ops[|ops| - 1], maxBytes)
  }

  /** The last content that was put under the key and was not too big. */
  function LastPut(ops: seq<Op>, key: Key, maxBytes: nat): Option<Module>
    decreases |ops|
  {
    if ops == [] then None
    else
      var op := ops[|ops| - 1];
      if op.Puts? && op.key == key && |op.content.data| <= maxBytes then Some(op.content)
      else LastPut(ops[..|ops| - 1], key, maxBytes)
  }

  ghost predicate OnlyLast(slots: seq<Slot>, ops: seq<Op>, maxBytes: nat) {
    forall s | s in slots :: LastPut(ops, s.key, maxBytes) == Some(s.content)
  }

  lemma TouchIs(slots: seq<Slot>, key: Key)
    requires Distinct(slots)
    ensures Distinct(Touch(slots, key)) && Bytes(Touch(slots, key)) == Bytes(slots)
    ensures forall s :: s in Touch(slots, key) <==> s in slots
  {
    FindIs(slots, key);
    WithoutIs(slots, key);
    WithoutBytes(slots, key);
    match Find(slots, key) {
      case None =>
      case Some(content) =>
        BytesAppend(Without(slots, key), [Slot(key, content)]);
        assert Bytes([Slot(key, content)]) == |content.data|;
    }
  }

  /** After every run, a hit gives the last content that was put, and the bytes stay within the limit. */
  lemma {:induction false} LastPutOrMiss(ops: seq<Op>, maxBytes: nat)
    ensures Distinct(Run(ops, maxBytes)) && Bytes(Run(ops, maxBytes)) <= maxBytes
    ensures OnlyLast(Run(ops, maxBytes), ops, maxBytes)
    ensures forall key: Key :: Find(Run(ops, maxBytes), key).None? || Find(Run(ops, maxBytes), key) == LastPut(ops, key, maxBytes)
    decreases |ops|
  {
    if ops != [] {
      var before, op := ops[..|ops| - 1], ops[|ops| - 1];
      var slots := Run(before, maxBytes);
      LastPutOrMiss(before, maxBytes);
      match op {
        case Gets(key) => TouchIs(slots, key);
        case GetsVersion(_, touched) => TouchIs(slots, touched);
        case Puts(key, content) =>
          if |content.data| <= maxBytes {
            PutStays(slots, key, content, maxBytes);
            PutKeepsOthers(slots, key, content, maxBytes);
          }
      }
    }
    forall key: Key
      ensures Find(Run(ops, maxBytes), key).None? || Find(Run(ops, maxBytes), key) == LastPut(ops, key, maxBytes)
    {
      FindIs(Run(ops, maxBytes), key);
    }
  }

  lemma PutKeepsOthers(slots: seq<Slot>, key: Key, content: Module, maxBytes: nat)
    requires Distinct(slots) && |content.data| <= maxBytes
    ensures forall s | s in Put(slots, key, content, maxBytes) :: s == Slot(key, content) || (s in slots && s.key != key)
  {
    WithoutIs(slots, key);
    var n := DropIsSuffix(Without(slots, key) + [Slot(key, content)], maxBytes);
  }

  /** When the key was last used: the number of the last operation that used it. */
  function LastUse(ops: seq<Op>, key: Key, maxBytes: nat): nat
    decreases |ops|
  {
    if ops == [] then 0
    else if Uses(Run(ops[..|ops| - 1], maxBytes), ops[|ops| - 1], key, maxBytes) then |ops|
    else LastUse(ops[..|ops| - 1], key, maxBytes)
  }

  lemma {:induction false} UseIsPast(ops: seq<Op>, key: Key, maxBytes: nat)
    ensures LastUse(ops, key, maxBytes) <= |ops|
    decreases |ops|
  {
    if ops != [] { UseIsPast(ops[..|ops| - 1], key, maxBytes); }
  }

  ghost predicate InOrderOfUse(slots: seq<Slot>, ops: seq<Op>, maxBytes: nat) {
    forall a, b | 0 <= a < b < |slots| :: LastUse(ops, slots[a].key, maxBytes) < LastUse(ops, slots[b].key, maxBytes)
  }

  /** Without keeps the order of what stays. */
  lemma {:induction false} WithoutKeepsOrder(slots: seq<Slot>, key: Key, ops: seq<Op>, maxBytes: nat)
    requires InOrderOfUse(slots, ops, maxBytes)
    ensures InOrderOfUse(Without(slots, key), ops, maxBytes)
    decreases |slots|
  {
    if slots != [] && slots[0].key != key {
      var rest := Without(slots[1..], key);
      WithoutKeepsOrder(slots[1..], key, ops, maxBytes);
      forall b | 0 <= b < |rest|
        ensures LastUse(ops, slots[0].key, maxBytes) < LastUse(ops, rest[b].key, maxBytes)
      {
        WithoutIsPart(slots[1..], key, rest[b]);
      }
    }
  }

  lemma {:induction false} WithoutIsPart(slots: seq<Slot>, key: Key, s: Slot)
    requires s in Without(slots, key)
    ensures s in slots
    decreases |slots|
  {
    if slots[0].key != key && s != slots[0] { WithoutIsPart(slots[1..], key, s); }
  }

  /** One operation more: the key it uses was used last, the others when they were. */
  lemma UseMore(ops: seq<Op>, op: Op, key: Key, maxBytes: nat)
    ensures LastUse(ops + [op], key, maxBytes)
         == if Uses(Run(ops, maxBytes), op, key, maxBytes) then |ops| + 1 else LastUse(ops, key, maxBytes)
    ensures LastUse(ops, key, maxBytes) <= |ops|
  {
    hide Uses, Run;
    assert (ops + [op])[..|ops|] == ops;
    UseIsPast(ops, key, maxBytes);
  }

  /** The key that was used last goes behind all others. */
  lemma UsedLast(slots: seq<Slot>, slot: Slot, ops: seq<Op>, op: Op, maxBytes: nat)
    requires Distinct(slots) && InOrderOfUse(slots, ops, maxBytes) && Uses(Run(ops, maxBytes), op, slot.key, maxBytes)
    ensures InOrderOfUse(Without(slots, slot.key) + [slot], ops + [op], maxBytes)
  {
    hide LastUse, Run, Without, OneSize;
    WithoutIs(slots, slot.key);
    WithoutKeepsOrder(slots, slot.key, ops, maxBytes);
    var less := Without(slots, slot.key);
    UseMore(ops, op, slot.key, maxBytes);
    forall a | 0 <= a < |less|
      ensures LastUse(ops + [op], less[a].key, maxBytes) == LastUse(ops, less[a].key, maxBytes) <= |ops|
    {
      assert less[a] in less;
      UseMore(ops, op, less[a].key, maxBytes);
    }
  }

  lemma NotUsed(slots: seq<Slot>, ops: seq<Op>, op: Op, maxBytes: nat)
    requires InOrderOfUse(slots, ops, maxBytes)
    requires forall s | s in slots :: !Uses(Run(ops, maxBytes), op, s.key, maxBytes)
    ensures InOrderOfUse(slots, ops + [op], maxBytes)
  {
    hide LastUse, Run, Uses;
    forall a | 0 <= a < |slots|
      ensures LastUse(ops + [op], slots[a].key, maxBytes) == LastUse(ops, slots[a].key, maxBytes)
    {
      UseMore(ops, op, slots[a].key, maxBytes);
    }
  }

  /** A use of a key by Get or GetVersion. */
  lemma TouchInOrder(slots: seq<Slot>, key: Key, ops: seq<Op>, op: Op, maxBytes: nat)
    requires slots == Run(ops, maxBytes) && Distinct(slots) && InOrderOfUse(slots, ops, maxBytes)
    requires forall k: Key :: Uses(slots, op, k, maxBytes) <==> k == key
    ensures InOrderOfUse(Touch(slots, key), ops + [op], maxBytes)
  {
    hide Uses, Run, InOrderOfUse;
    FindIs(slots, key);
    if Find(slots, key).Some? { UsedLast(slots, Slot(key, Find(slots, key).value), ops, op, maxBytes); } else { NotUsed(slots, ops, op, maxBytes); }
  }

  /** After every run the list is in the order of last use, so what eviction takes first was not used for longest. */
  lemma {:induction false} LeastRecentlyUsedFirst(ops: seq<Op>, maxBytes: nat)
    ensures InOrderOfUse(Run(ops, maxBytes), ops, maxBytes)
    decreases |ops|
  {
    hide LastUse, OneSize, Touch;
    if ops != [] {
      var before, op := ops[..|ops| - 1], ops[|ops| - 1];
      var slots := Run(before, maxBytes);
      LeastRecentlyUsedFirst(before, maxBytes);
      LastPutOrMiss(before, maxBytes);
      assert before + [op] == ops;
      match op {
        case Gets(key) => TouchInOrder(slots, key, before, op, maxBytes);
        case GetsVersion(url, touched) =>
          if touched.url == url && OneSize(slots, url) { TouchInOrder(slots, touched, before, op, maxBytes); } else { NotUsed(slots, before, op, maxBytes); }
        case Puts(key, content) =>
          if |content.data| <= maxBytes {
            UsedLast(slots, Slot(key, content), before, op, maxBytes);
            var n := DropIsSuffix(Without(slots, key) + [Slot(key, content)], maxBytes);
          } else {
            NotUsed(slots, before, op, maxBytes);
          }
      }
    }
  }
}
