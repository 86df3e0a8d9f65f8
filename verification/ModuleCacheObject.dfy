/** The ModuleCache object: its map, byte counter and use marks against the list in ModuleCache. */
module ModuleCacheObject {
  import opened ModuleCache
  import L = ModuleCache

  datatype Entry = Entry(content: Module, used: nat)

  type Entries = map<Key, Entry>

  predicate SlotOk(entries: Entries, generation: nat, s: Slot) {
    s.key in entries && entries[s.key].content == s.content && entries[s.key].used <= generation
  }

  function Used(entries: Entries, key: Key): nat {
    if key in entries then entries[key].used else 0
  }

  ghost predicate ByUse(entries: Entries, order: seq<Slot>) {
    forall a, b | 0 <= a < b < |order| :: Used(entries, order[a].key) < Used(entries, order[b].key)
  }

  ghost predicate AllSlotsOk(entries: Entries, generation: nat, order: seq<Slot>) {
    forall i | 0 <= i < |order| :: SlotOk(entries, generation, order[i])
  }

  /** The list has exactly the map's entries, ordered by their use marks. */
  ghost predicate Represents(entries: Entries, generation: nat, order: seq<Slot>) {
    && AllSlotsOk(entries, generation, order)
    && (forall key | key in entries :: Slot(key, entries[key].content) in order)
    && Distinct(order) && ByUse(entries, order)
  }

  lemma SlotOf(entries: Entries, generation: nat, order: seq<Slot>, s: Slot)
    requires AllSlotsOk(entries, generation, order) && s in order
    ensures SlotOk(entries, generation, s)
  {
  }

  lemma {:induction false} WithoutKeepsOrder(order: seq<Slot>, key: Key, a: nat, b: nat) returns (i: nat, j: nat)
    requires a < b < |Without(order, key)|
    ensures i < j < |order| && order[i] == Without(order, key)[a] && order[j] == Without(order, key)[b]
    decreases |order|
  {
    if order[0].key == key {
      i, j := a + 1, b + 1;
    } else if a == 0 {
      i := 0;
      j := FindBehind(order, key, b);
    } else {
      i, j := WithoutKeepsOrder(order[1..], key, a - 1, b - 1);
      i, j := i + 1, j + 1;
    }
  }

  lemma {:induction false} FindBehind(order: seq<Slot>, key: Key, b: nat) returns (j: nat)
    requires 0 < b < |Without(order, key)| && order != [] && order[0].key != key
    ensures 0 < j < |order| && order[j] == Without(order, key)[b]
    decreases |order|
  {
    var rest := order[1..];
    assert Without(order, key)[b] == Without(rest, key)[b - 1];
    if b == 1 {
      j := FirstOf(rest, key);
      j := j + 1;
    } else if rest[0].key == key {
      j := b + 1;
    } else {
      j := FindBehind(rest, key, b - 1);
      j := j + 1;
    }
  }

  lemma FirstOf(order: seq<Slot>, key: Key) returns (j: nat)
    requires Without(order, key) != []
    ensures j < |order| && order[j] == Without(order, key)[0]
  {
    j := if order[0].key == key then 1 else 0;
  }

  lemma MarkedSlots(entries: Entries, generation: nat, order: seq<Slot>, key: Key, content: Module)
    requires Represents(entries, generation, order)
    ensures AllSlotsOk(entries[key := Entry(content, generation + 1)], generation + 1, Without(order, key) + [Slot(key, content)])
  {
    WithoutIs(order, key);
    var less := Without(order, key);
    forall i | 0 <= i < |less|
      ensures SlotOk(entries[key := Entry(content, generation + 1)], generation + 1, less[i])
    {
      assert less[i] in less;
      SlotOf(entries, generation, order, less[i]);
    }
  }

  lemma MarkedByUse(entries: Entries, generation: nat, order: seq<Slot>, key: Key, content: Module)
    requires Represents(entries, generation, order)
    ensures var next := Without(order, key) + [Slot(key, content)];
            ByUse(entries[key := Entry(content, generation + 1)], next) && Distinct(next)
  {
    WithoutIs(order, key);
    var less := Without(order, key);
    var more := entries[key := Entry(content, generation + 1)];
    var next := less + [Slot(key, content)];
    hide Represents, Distinct, Without;
    assert AllSlotsOk(entries, generation, order) && ByUse(entries, order) by { Parts(entries, generation, order); }
    forall a, b | 0 <= a < b < |next|
      ensures Used(more, next[a].key) < Used(more, next[b].key)
    {
      assert next[a] in less;
      SlotOf(entries, generation, order, next[a]);
      if b < |less| {
        assert next[b] in less;
        var i, j := WithoutKeepsOrder(order, key, a, b);
      }
    }
  }

  lemma Parts(entries: Entries, generation: nat, order: seq<Slot>)
    requires Represents(entries, generation, order)
    ensures AllSlotsOk(entries, generation, order) && ByUse(entries, order)
  {
  }

  /** A new mark for one key moves its slot to the end. */
  lemma MarkedLast(entries: Entries, generation: nat, order: seq<Slot>, key: Key, content: Module)
    requires Represents(entries, generation, order)
    ensures Represents(entries[key := Entry(content, generation + 1)], generation + 1, Without(order, key) + [Slot(key, content)])
  {
    MarkedSlots(entries, generation, order, key, content);
    MarkedByUse(entries, generation, order, key, content);
    WithoutIs(order, key);
    hide AllSlotsOk, ByUse, Distinct, Without;
    var more := entries[key := Entry(content, generation + 1)];
    var next := Without(order, key) + [Slot(key, content)];
    forall k | k in more
      ensures Slot(k, more[k].content) in next
    {
      if k != key { assert Slot(k, entries[k].content) in order; }
    }
  }

  lemma DroppedFirst(entries: Entries, generation: nat, order: seq<Slot>)
    requires Represents(entries, generation, order) && order != []
    ensures Represents(entries - {order[0].key}, generation, order[1..])
  {
    var less, rest := order[1..], entries - {order[0].key};
    forall i | 0 <= i < |less|
      ensures SlotOk(rest, generation, less[i]) && Used(rest, less[i].key) == Used(entries, order[i + 1].key)
    {
      assert less[i] == order[i + 1] && order[0].key != order[i + 1].key;
      SlotOf(entries, generation, order, order[i + 1]);
    }
    forall k | k in rest
      ensures Slot(k, rest[k].content) in less
    {
      assert Slot(k, entries[k].content) in order;
    }
  }

  /** The entry with the least mark is the first of the list. */
  lemma OldestIsFirst(entries: Entries, generation: nat, order: seq<Slot>, key: Key)
    requires Represents(entries, generation, order) && key in entries
    requires forall k | k in entries :: entries[key].used <= entries[k].used
    ensures order != [] && order[0].key == key && order[0].content == entries[key].content
  {
    var i :| 0 <= i < |order| && order[i] == Slot(key, entries[key].content);
    SlotOf(entries, generation, order, order[0]);
    assert forall b | 0 < b < |order| :: Used(entries, order[0].key) < Used(entries, order[b].key);
  }

  class Cache {
    const maxBytes: nat
    var bytes: nat
    var generation: nat
    var entries: Entries
    ghost var order: seq<Slot>

    ghost predicate Ordered()
      reads this
    {
      Represents(entries, generation, order) && bytes == Bytes(order)
    }

    ghost predicate Valid()
      reads this
    {
      Ordered() && bytes <= maxBytes
    }

    constructor (maxBytes: nat)
      ensures Valid() && order == [] && this.maxBytes == if maxBytes == 0 then 0x800_0000 else maxBytes
    {
      this.maxBytes := if maxBytes == 0 then 0x800_0000 else maxBytes;
      bytes, generation, entries, order := 0, 0, map[], [];
    }

    method Get(key: Key) returns (hit: Option<Module>)
      requires Valid()
      modifies this
      ensures Valid() && order == Touch(old(order), key) && hit == Find(old(order), key)
    {
      hide Represents;
      Lookup(entries, generation, order, key);
      if key !in entries {
        return None;
      }
      var content := entries[key].content;
      MarkedLast(entries, generation, order, key, content);
      TouchBytes(entries, generation, order, key);
      generation := generation + 1;
      entries := entries[key := Entry(content, generation)];
      order := Touch(order, key);
      hit := Some(content);
    }

    /** Put's loop over the map for the least use mark. */
    method FindOldest() returns (oldest: Option<Key>)
      requires Ordered()
      ensures oldest.None? <==> order == []
      ensures oldest.Some? ==> oldest.value in entries && order[0] == Slot(oldest.value, entries[oldest.value].content)
    {
      hide Represents;
      oldest := None;
      var todo := entries.Keys;
      while todo != {}
        invariant todo <= entries.Keys
        invariant oldest.None? ==> todo == entries.Keys
        invariant oldest.Some? ==> oldest.value in entries && forall k | k in entries && k !in todo :: entries[oldest.value].used <= entries[k].used
        decreases |todo|
      {
        var key :| key in todo;
        if oldest.None? || entries[key].used < entries[oldest.value].used {
          oldest := Some(key);
        }
        todo := todo - {key};
      }
      if oldest.Some? {
        OldestIsFirst(entries, generation, order, oldest.value);
      } else {
        NothingThere(entries, generation, order);
      }
    }

    /** The eviction loop of Put. */
    method Evict()
      requires Ordered()
      modifies this
      ensures Valid() && order == DropOldest(old(order), maxBytes)
    {
      hide Represents;
      while bytes > maxBytes
        invariant Ordered() && DropOldest(order, maxBytes) == DropOldest(old(order), maxBytes)
        decreases |order|
      {
        var oldest := FindOldest();
        if oldest.None? {
          break;
        }
        DroppedFirst(entries, generation, order);
        bytes := bytes - |entries[oldest.value].content.data|;
        entries := entries - {oldest.value};
        order := order[1..];
      }
    }

    method Put(key: Key, content: Module) returns (kept: bool)
      requires Valid()
      modifies this
      ensures Valid() && order == L.Put(old(order), key, content, maxBytes)
      ensures kept <==> |content.data| <= maxBytes
    {
      hide Represents, DropOldest;
      if |content.data| > maxBytes {
        return false;
      }
      Lookup(entries, generation, order, key);
      WithoutBytes(order, key);
      if key in entries {
        bytes := bytes - |entries[key].content.data|;
      }
      MarkedLast(entries, generation, order, key, content);
      BytesAppend(Without(order, key), [Slot(key, content)]);
      generation := generation + 1;
      entries := entries[key := Entry(content, generation)];
      order := Without(order, key) + [Slot(key, content)];
      bytes := bytes + |content.data|;
      Evict();
      kept := true;
    }

    /** GetVersion's first loop, over the map in any order. */
    method FindVersion(url: VersionKey) returns (found: Option<Key>, ghost walk: seq<Key>)
      requires Ordered()
      ensures found.None? <==> !OneSize(order, url) || forall s | s in order :: s.key.url != url
      ensures found.Some? ==> found.value in entries && found.value.url == url
      ensures found.Some? ==> IsWalk(order, walk) && LastOfUrl(walk, url) == found
    {
      hide Represents, OneSize, IsWalk;
      found, walk := None, [];
      var todo := entries.Keys;
      while todo != {}
        invariant todo <= entries.Keys && Met(entries, todo, walk) && LastOfUrl(walk, url) == found
        invariant found.None? ==> forall k | k in entries && k !in todo :: k.url != url
        invariant found.Some? ==> found.value in entries && found.value !in todo && found.value.url == url
        invariant found.Some? ==>
          forall k | k in entries && k !in todo && k.url == url :: entries[k].content.size == entries[found.value].content.size
        decreases |todo|
      {
        var key :| key in todo;
        assert (walk + [key])[..|walk|] == walk;
        walk := walk + [key];
        if key.url == url {
          if found.Some? && entries[key].content.size != entries[found.value].content.size {
            Ambiguous(entries, generation, order, url, key, found.value);
            return None, walk;
          }
          found := Some(key);
        }
        todo := todo - {key};
      }
      MetAll(entries, generation, order, walk);
      Unambiguous(entries, generation, order, url, found);
    }

    /** The second loop: the first entry of the URL with that size, in whatever order the map comes. */
    method PickVersion(url: VersionKey, size: uint32, known: Key) returns (key: Key, ghost walk: seq<Key>)
      requires Ordered() && known in entries && known.url == url
      requires forall k | k in entries && k.url == url :: entries[k].content.size == size
      ensures key in entries && key.url == url && IsWalk(order, walk) && FirstOfUrl(walk, url) == Some(key)
    {
      walk := [];
      var todo := entries.Keys;
      while true
        invariant todo <= entries.Keys && known in todo && Met(entries, todo, walk)
        invariant forall i | 0 <= i < |walk| :: walk[i].url != url
        decreases |todo|
      {
        key :| key in todo;
        if key.url == url && entries[key].content.size == size {
          walk := Finished(entries, todo, walk, url, key);
          MetAll(entries, generation, order, walk);
          return;
        }
        walk := walk + [key];
        todo := todo - {key};
      }
    }

    /** Returns what the first loop is left with, and marks what the second one meets first. */
    method GetVersion(url: VersionKey) returns (hit: Option<Module>)
      requires Valid()
      modifies this
      ensures Valid()
      ensures hit.None? <==> !OneSize(old(order), url) || forall s | s in old(order) :: s.key.url != url
      ensures hit.None? ==> order == old(order)
      ensures hit.Some? ==> exists first, second ::
                && IsWalk(old(order), first) && IsWalk(old(order), second)
                && LastOfUrl(first, url).Some? && hit == Find(old(order), LastOfUrl(first, url).value)
                && FirstOfUrl(second, url).Some? && order == Touch(old(order), FirstOfUrl(second, url).value)
                && order == L.Apply(old(order), GetsVersion(url, FirstOfUrl(second, url).value), maxBytes)
                && (Sized(old(order)) ==> OneEntry(old(order), url) && LastOfUrl(first, url) == FirstOfUrl(second, url))
    {
      hide Represents, OneSize, Sized, OneEntry, Distinct, IsWalk, LastOfUrl, FirstOfUrl;
      var found, first := FindVersion(url);
      if found.None? {
        return None;
      }
      var content := entries[found.value].content;
      ghost var before := order;
      Lookup(entries, generation, order, found.value);
      SizesAgree(entries, generation, order, url, found.value);
      var touched, second := PickVersion(url, content.size, found.value);
      Lookup(entries, generation, order, touched);
      DistinctOf(entries, generation, order);
      if Sized(order) {
        OneSizeIsOneEntry(order, url);
        TouchesExactly(order, url);
      }
      MarkedLast(entries, generation, order, touched, entries[touched].content);
      TouchBytes(entries, generation, order, touched);
      generation := generation + 1;
      entries := entries[touched := Entry(entries[touched].content, generation)];
      order := Touch(order, touched);
      hit := Some(content);
      assert Find(before, LastOfUrl(first, url).value) == hit;
      assert order == L.Apply(before, GetsVersion(url, FirstOfUrl(second, url).value), maxBytes);
    }
  }

  /** The keys that a loop over the map has met, in its order. */
  ghost predicate Met(entries: Entries, todo: set<Key>, walk: seq<Key>) {
    && (forall i, j | 0 <= i < j < |walk| :: walk[i] != walk[j])
    && (forall key: Key :: key in walk <==> key in entries && key !in todo)
  }

  lemma MetAll(entries: Entries, generation: nat, order: seq<Slot>, walk: seq<Key>)
    requires Represents(entries, generation, order) && Met(entries, {}, walk)
    ensures IsWalk(order, walk)
  {
    hide Represents;
    forall key: Key
      ensures key in walk <==> Holds(order, key)
    {
      Lookup(entries, generation, order, key);
      DistinctOf(entries, generation, order);
      FindIs(order, key);
    }
  }

  /** However the loop would have gone on, the key it has met first stays the first. */
  lemma {:induction false} Finished(entries: Entries, todo: set<Key>, walk: seq<Key>, url: VersionKey, key: Key) returns (all: seq<Key>)
    requires Met(entries, todo, walk) && todo <= entries.Keys && key in todo && key.url == url
    requires forall i | 0 <= i < |walk| :: walk[i].url != url
    ensures Met(entries, {}, all) && FirstOfUrl(all, url) == Some(key)
  {
    FirstFound(walk, url, key, []);
    assert walk + [key] + [] == walk + [key];
    all := MeetRest(entries, todo - {key}, walk + [key], walk, url, key);
  }

  lemma {:induction false} FirstFound(walk: seq<Key>, url: VersionKey, key: Key, more: seq<Key>)
    requires key.url == url && forall i | 0 <= i < |walk| :: walk[i].url != url
    ensures FirstOfUrl(walk + [key] + more, url) == Some(key)
    decreases |walk|
  {
    if walk != [] {
      assert (walk + [key] + more)[1..] == walk[1..] + [key] + more;
      FirstFound(walk[1..], url, key, more);
    }
  }

  lemma {:induction false} MeetRest(entries: Entries, todo: set<Key>, met: seq<Key>, walk: seq<Key>, url: VersionKey, key: Key)
    returns (all: seq<Key>)
    requires Met(entries, todo, met) && todo <= entries.Keys && key.url == url && forall i | 0 <= i < |walk| :: walk[i].url != url
    requires walk + [key] <= met
    ensures Met(entries, {}, all) && FirstOfUrl(all, url) == Some(key)
    decreases todo
  {
    if todo == {} {
      all := met;
      FirstFound(walk, url, key, met[|walk| + 1..]);
      assert walk + [key] + met[|walk| + 1..] == met;
    } else {
      var next :| next in todo;
      all := MeetRest(entries, todo - {next}, met + [next], walk, url, key);
    }
  }

  lemma Ambiguous(entries: Entries, generation: nat, order: seq<Slot>, url: VersionKey, a: Key, b: Key)
    requires Represents(entries, generation, order) && a in entries && b in entries && a.url == url && b.url == url
    requires entries[a].content.size != entries[b].content.size
    ensures !OneSize(order, url)
  {
    assert Slot(a, entries[a].content) in order && Slot(b, entries[b].content) in order;
  }

  lemma Unambiguous(entries: Entries, generation: nat, order: seq<Slot>, url: VersionKey, found: Option<Key>)
    requires Represents(entries, generation, order)
    requires found.None? ==> forall k | k in entries :: k.url != url
    requires found.Some? ==> found.value in entries && found.value.url == url
    requires found.Some? ==> forall k | k in entries && k.url == url :: entries[k].content.size == entries[found.value].content.size
    ensures OneSize(order, url) && (found.None? <==> forall s | s in order :: s.key.url != url)
  {
    forall s | s in order
      ensures s.key in entries && entries[s.key].content == s.content
    {
      SlotOf(entries, generation, order, s);
    }
    if found.Some? { assert Slot(found.value, entries[found.value].content) in order; }
  }

  lemma SizesAgree(entries: Entries, generation: nat, order: seq<Slot>, url: VersionKey, found: Key)
    requires Represents(entries, generation, order) && OneSize(order, url) && found in entries && found.url == url
    ensures forall k | k in entries && k.url == url :: entries[k].content.size == entries[found].content.size
  {
    forall k | k in entries && k.url == url
      ensures entries[k].content.size == entries[found].content.size
    {
      assert Slot(k, entries[k].content) in order && Slot(found, entries[found].content) in order;
    }
  }

  lemma Lookup(entries: Entries, generation: nat, order: seq<Slot>, key: Key)
    requires Represents(entries, generation, order)
    ensures Find(order, key) == if key in entries then Some(entries[key].content) else None
  {
    FindIs(order, key);
    if Find(order, key).Some? { SlotOf(entries, generation, order, Slot(key, Find(order, key).value)); }
  }

  lemma TouchBytes(entries: Entries, generation: nat, order: seq<Slot>, key: Key)
    requires Represents(entries, generation, order)
    ensures Bytes(Touch(order, key)) == Bytes(order)
  {
    TouchIs(order, key);
  }

  lemma DistinctOf(entries: Entries, generation: nat, order: seq<Slot>)
    requires Represents(entries, generation, order)
    ensures Distinct(order)
  {
  }

  lemma NothingThere(entries: Entries, generation: nat, order: seq<Slot>)
    requires Represents(entries, generation, order) && entries == map[]
    ensures order == []
  {
    assert |order| > 0 ==> SlotOk(entries, generation, order[0]);
  }
}
