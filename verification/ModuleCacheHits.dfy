/** When the module cache misses: never put, or evicted since, and what exactly evicts an entry. */
module ModuleCacheHits {
  import opened ModuleCache

  /** With this content and all entries used after it, the entry does not fit any more. */
  predicate PushesOut(slots: seq<Slot>, i: nat, key: Key, content: Module, maxBytes: nat)
    requires i < |slots|
  {
    |content.data| <= maxBytes && Bytes(Without(slots[i..], key)) + |content.data| > maxBytes
  }

  /** The operation evicts the entry of this key. */
  predicate Evicts(slots: seq<Slot>, op: Op, key: Key, maxBytes: nat) {
    op.Puts? && op.key != key
    && exists i | 0 <= i < |slots| :: slots[i].key == key && PushesOut(slots, i, op.key, op.content, maxBytes)
  }

  lemma {:induction false} WithoutFrom(slots: seq<Slot>, key: Key, i: nat) returns (j: nat)
    requires Distinct(slots) && i < |slots| && slots[i].key != key
    ensures j < |Without(slots, key)| && Without(slots, key)[j] == slots[i]
    ensures Without(slots, key)[j..] == Without(slots[i..], key)
    decreases |slots|
  {
    if i == 0 {
      j := 0;
      assert slots[0..] == slots && Without(slots, key)[0..] == Without(slots, key);
    } else {
      var rest := slots[1..];
      assert rest[i - 1..] == slots[i..];
      if slots[0].key == key {
        j := i - 1;
        assert forall s | s in slots[i..] :: s.key != key;
        NotFound(slots[i..], key);
      } else {
        var k := WithoutFrom(rest, key, i - 1);
        j := k + 1;
        assert Without(slots, key)[1..] == Without(rest, key);
        assert Without(slots, key)[j..] == Without(rest, key)[k..];
      }
    }
  }

  lemma BytesShrink(slots: seq<Slot>, i: nat, j: nat)
    requires i <= j <= |slots|
    ensures Bytes(slots[j..]) <= Bytes(slots[i..])
  {
    assert slots[i..] == slots[i..j] + slots[j..];
    BytesAppend(slots[i..j], slots[j..]);
  }

  predicate KeyIn(slots: seq<Slot>, key: Key) {
    exists s :: s in slots && s.key == key
  }

  /** Dropping keeps exactly the entries that fit together with all behind them. */
  lemma DropKeeps(slots: seq<Slot>, maxBytes: nat, j: nat)
    requires Distinct(slots) && j < |slots|
    ensures slots[j] in DropOldest(slots, maxBytes) <==> Bytes(slots[j..]) <= maxBytes
  {
    var n := DropIsSuffix(slots, maxBytes);
    if j >= n {
      BytesShrink(slots, n, j);
      assert slots[n..][j - n] == slots[j];
    } else {
      BytesShrink(slots, j, n - 1);
      assert forall k | n <= k < |slots| :: slots[k] != slots[j];
    }
  }

  lemma PutEvicts(slots: seq<Slot>, key: Key, content: Module, maxBytes: nat, i: nat)
    requires Distinct(slots) && i < |slots| && slots[i].key != key && |content.data| <= maxBytes
    ensures slots[i] in Put(slots, key, content, maxBytes) <==> !PushesOut(slots, i, key, content, maxBytes)
  {
    hide Distinct;
    WithoutIs(slots, key);
    var others, slot := Without(slots, key), Slot(key, content);
    var j := WithoutFrom(slots, key, i);
    var all := others + [slot];
    AllDistinct(others, slot);
    DropKeeps(all, maxBytes, j);
    assert all[j..] == others[j..] + [slot];
    BytesAppend(others[j..], [slot]);
    assert Bytes([slot]) == |content.data|;
  }

  lemma AllDistinct(slots: seq<Slot>, slot: Slot)
    requires Distinct(slots) && !Holds(slots, slot.key)
    ensures Distinct(slots + [slot])
  {
  }

  /** One operation and one key: put there, or there before and not evicted. */
  lemma StaysExactly(slots: seq<Slot>, op: Op, key: Key, maxBytes: nat)
    requires Distinct(slots)
    ensures KeyIn(Apply(slots, op, maxBytes), key) <==>
              || (op.Puts? && op.key == key && |op.content.data| <= maxBytes)
              || (KeyIn(slots, key) && !Evicts(slots, op, key, maxBytes))
  {
    hide OneSize, Bytes;
    match op {
      case Gets(k) => TouchIs(slots, k);
      case GetsVersion(_, touched) => TouchIs(slots, touched);
      case Puts(k, content) =>
        if |content.data| <= maxBytes {
          PutStays(slots, k, content, maxBytes);
          PutKeepsOthers(slots, k, content, maxBytes);
          hide Put, PushesOut;
          var after := Put(slots, k, content, maxBytes);
          assert after[|after| - 1] in after;
          if KeyIn(slots, key) && k != key {
            var s :| s in slots && s.key == key;
            var i :| 0 <= i < |slots| && slots[i] == s;
            PutEvicts(slots, k, content, maxBytes, i);
            OneIndex(slots, key, i);
          }
        }
    }
  }

  lemma OneIndex(slots: seq<Slot>, key: Key, i: nat)
    requires Distinct(slots) && i < |slots| && slots[i].key == key
    ensures forall j | 0 <= j < |slots| && slots[j].key == key :: j == i
    ensures forall s | s in slots && s.key == key :: s == slots[i]
  {
  }

  predicate IsFittingPut(op: Op, key: Key, maxBytes: nat) {
    op.Puts? && op.key == key && |op.content.data| <= maxBytes
  }

  /** The key was put and has not been evicted since. */
  ghost predicate PutAndKept(ops: seq<Op>, key: Key, maxBytes: nat) {
    exists k | 0 <= k < |ops| ::
      IsFittingPut(ops[k], key, maxBytes) && forall l | k < l < |ops| :: !Evicts(Run(ops[..l], maxBytes), ops[l], key, maxBytes)
  }

  lemma KeptOn(before: seq<Op>, op: Op, key: Key, maxBytes: nat)
    ensures PutAndKept(before + [op], key, maxBytes) <==>
              IsFittingPut(op, key, maxBytes) || (PutAndKept(before, key, maxBytes) && !Evicts(Run(before, maxBytes), op, key, maxBytes))
  {
    hide Run, Evicts, IsFittingPut;
    var ops := before + [op];
    assert ops[|before|] == op && ops[..|before|] == before;
    assert forall l | 0 <= l < |before| :: ops[l] == before[l] && ops[..l] == before[..l];
    if PutAndKept(before, key, maxBytes) && !Evicts(Run(before, maxBytes), op, key, maxBytes) {
      var k :| 0 <= k < |before| && IsFittingPut(before[k], key, maxBytes)
               && forall l | k < l < |before| :: !Evicts(Run(before[..l], maxBytes), before[l], key, maxBytes);
      assert IsFittingPut(ops[k], key, maxBytes);
    }
    if PutAndKept(ops, key, maxBytes) && !IsFittingPut(op, key, maxBytes) {
      var k :| 0 <= k < |ops| && IsFittingPut(ops[k], key, maxBytes)
               && forall l | k < l < |ops| :: !Evicts(Run(ops[..l], maxBytes), ops[l], key, maxBytes);
      assert k < |before| && IsFittingPut(before[k], key, maxBytes);
      assert !Evicts(Run(ops[..|before|], maxBytes), ops[|before|], key, maxBytes);
    }
  }

  /**
   In every run, Get hits exactly if the key was put with content that fits and nothing has
   evicted it since, and then with the last content that was put.
   */
  lemma {:induction false} HitsExactly(ops: seq<Op>, key: Key, maxBytes: nat)
    ensures Find(Run(ops, maxBytes), key) == if PutAndKept(ops, key, maxBytes) then LastPut(ops, key, maxBytes) else None
    decreases |ops|
  {
    hide Apply, Evicts, LastPut, PutAndKept, Distinct, IsFittingPut;
    LastPutOrMiss(ops, maxBytes);
    FindIs(Run(ops, maxBytes), key);
    KeyIs(Run(ops, maxBytes), key);
    KeysAreKept(ops, key, maxBytes);
  }

  lemma KeyIs(slots: seq<Slot>, key: Key)
    ensures KeyIn(slots, key) <==> Holds(slots, key)
  {
    if KeyIn(slots, key) {
      var s :| s in slots && s.key == key;
      var i :| 0 <= i < |slots| && slots[i] == s;
    }
  }

  lemma {:induction false} KeysAreKept(ops: seq<Op>, key: Key, maxBytes: nat)
    ensures KeyIn(Run(ops, maxBytes), key) <==> PutAndKept(ops, key, maxBytes)
    decreases |ops|
  {
    hide Apply, Evicts, PutAndKept, Distinct;
    if ops == [] {
      NothingKept(key, maxBytes);
    } else {
      var before, op := ops[..|ops| - 1], ops[|ops| - 1];
      assert before + [op] == ops;
      KeysAreKept(before, key, maxBytes);
      LastPutOrMiss(before, maxBytes);
      StaysExactly(Run(before, maxBytes), op, key, maxBytes);
      KeptOn(before, op, key, maxBytes);
    }
  }

  lemma NothingKept(key: Key, maxBytes: nat)
    ensures !PutAndKept([], key, maxBytes)
  {
  }
}
