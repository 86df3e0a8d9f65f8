/**
 The peer groups of internal/epg/program_merge.go: a union-find with path compression
 over program keys, against the equivalence that the "shared" links generate.
 */
module SharedPeers {
  type uint16 = w: int | 0 <= w < 0x1_0000

  datatype Key = Key(network: uint16, service: uint16, event: uint16)

  datatype Link = Link(a: Key, b: Key)

  // ----- the equivalence that links generate -----

  predicate Joins(links: seq<Link>, a: Key, b: Key) {
    Link(a, b) in links || Link(b, a) in links
  }

  predicate IsPath(links: seq<Link>, path: seq<Key>) {
    forall i | 0 < i < |path| :: Joins(links, path[i - 1], path[i])
  }

  /** Linked in some number of steps, in either direction. */
  ghost predicate Connected(links: seq<Link>, a: Key, b: Key) {
    exists path: seq<Key> :: path != [] && path[0] == a && path[|path| - 1] == b && IsPath(links, path)
  }

  lemma ConnectedSelf(links: seq<Link>, a: Key)
    ensures Connected(links, a, a)
  {
    assert IsPath(links, [a]);
  }

  lemma ConnectedLink(links: seq<Link>, a: Key, b: Key)
    requires Joins(links, a, b)
    ensures Connected(links, a, b)
  {
    assert IsPath(links, [a, b]);
  }

  function Reversed(path: seq<Key>): seq<Key> {
    seq(|path|, i requires 0 <= i < |path| => path[|path| - 1 - i])
  }

  lemma ConnectedBack(links: seq<Link>, a: Key, b: Key)
    requires Connected(links, a, b)
    ensures Connected(links, b, a)
  {
    var path :| path != [] && path[0] == a && path[|path| - 1] == b && IsPath(links, path);
    var back := Reversed(path);
    forall i | 0 < i < |back|
      ensures Joins(links, back[i - 1], back[i])
    {
      assert Joins(links, path[|path| - 1 - i], path[|path| - i]);
    }
    assert back[0] == b && back[|back| - 1] == a && IsPath(links, back);
  }

  lemma ConnectedOn(links: seq<Link>, a: Key, b: Key, c: Key)
    requires Connected(links, a, b) && Connected(links, b, c)
    ensures Connected(links, a, c)
  {
    var p :| p != [] && p[0] == a && p[|p| - 1] == b && IsPath(links, p);
    var q :| q != [] && q[0] == b && q[|q| - 1] == c && IsPath(links, q);
    var path := p + q[1..];
    forall i | 0 < i < |path|
      ensures Joins(links, path[i - 1], path[i])
    {
      if i >= |p| { assert Joins(links, q[i - |p|], q[i - |p| + 1]); }
    }
    assert path[0] == a && path[|path| - 1] == c && IsPath(links, path);
  }

  lemma ConnectedMore(links: seq<Link>, more: seq<Link>, a: Key, b: Key)
    requires Connected(links, a, b)
    ensures Connected(links + more, a, b)
  {
    var path :| path != [] && path[0] == a && path[|path| - 1] == b && IsPath(links, path);
    forall i | 0 < i < |path|
      ensures Joins(links + more, path[i - 1], path[i])
    {
      assert Joins(links, path[i - 1], path[i]);
    }
    assert IsPath(links + more, path);
  }

  // ----- the partition as a map from keys to representatives -----

  type Reps = map<Key, Key>

  /** find on a key that is not there yet makes it a class of its own. */
  function WithKey(reps: Reps, k: Key): Reps {
    if k in reps then reps else reps[k := k]
  }

  function Merged(reps: Reps, a: Key, b: Key): Reps
    requires a in reps && b in reps
  {
    map k | k in reps :: if reps[k] == reps[b] then reps[a] else reps[k]
  }

  function WithLink(reps: Reps, link: Link): Reps {
    var more := WithKey(WithKey(reps, link.a), link.b);
    Merged(more, link.a, link.b)
  }

  /** Representatives stand for themselves, and classes are exactly the connected keys. */
  ghost predicate Partitions(reps: Reps, links: seq<Link>) {
    && (forall link | link in links :: link.a in reps && link.b in reps && reps[link.a] == reps[link.b])
    && (forall k | k in reps :: reps[k] in reps && reps[reps[k]] == reps[k])
    && (forall k | k in reps :: Connected(links, k, reps[k]))
  }

  /** Two keys share a representative exactly if links connect them. */
  lemma SameClassExactly(reps: Reps, links: seq<Link>, a: Key, b: Key)
    requires Partitions(reps, links) && a in reps && b in reps
    ensures reps[a] == reps[b] <==> Connected(links, a, b)
  {
    if reps[a] == reps[b] {
      ConnectedBack(links, b, reps[b]);
      ConnectedOn(links, a, reps[a], b);
    }
    if Connected(links, a, b) {
      var path :| path != [] && path[0] == a && path[|path| - 1] == b && IsPath(links, path);
      AlongPath(reps, links, path);
    }
  }

  lemma {:induction false} AlongPath(reps: Reps, links: seq<Link>, path: seq<Key>)
    requires Partitions(reps, links) && path != [] && path[0] in reps && IsPath(links, path)
    ensures path[|path| - 1] in reps && reps[path[|path| - 1]] == reps[path[0]]
    decreases |path|
  {
    if |path| > 1 {
      assert Joins(links, path[0], path[1]);
      assert IsPath(links, path[1..]) by {
        forall i | 0 < i < |path[1..]|
          ensures Joins(links, path[1..][i - 1], path[1..][i])
        {
          assert Joins(links, path[i], path[i + 1]);
        }
      }
      AlongPath(reps, links, path[1..]);
    }
  }

  lemma NoLinks()
    ensures Partitions(map[], [])
  {
  }

  lemma KeyPartitions(reps: Reps, links: seq<Link>, k: Key)
    requires Partitions(reps, links)
    ensures Partitions(WithKey(reps, k), links)
  {
    hide Connected;
    ConnectedSelf(links, k);
  }

  lemma LinkPartitions(reps: Reps, links: seq<Link>, link: Link)
    requires Partitions(reps, links)
    ensures Partitions(WithLink(reps, link), links + [link])
  {
    hide Connected, WithKey;
    KeyPartitions(reps, links, link.a);
    KeyPartitions(WithKey(reps, link.a), links, link.b);
    KeyAdded(reps, link.a);
    KeyAdded(WithKey(reps, link.a), link.b);
    MergePartitions(WithKey(WithKey(reps, link.a), link.b), links, link);
  }

  lemma KeyAdded(reps: Reps, k: Key)
    ensures WithKey(reps, k).Keys == reps.Keys + {k}
  {
  }

  lemma MergePartitions(reps: Reps, links: seq<Link>, link: Link)
    requires Partitions(reps, links) && link.a in reps && link.b in reps
    ensures Partitions(Merged(reps, link.a, link.b), links + [link])
  {
    hide Connected;
    var merged, all := Merged(reps, link.a, link.b), links + [link];
    assert link in all && forall l | l in links :: l in all;
    forall k | k in merged
      ensures Connected(all, k, merged[k])
    {
      ConnectedMore(links, [link], k, reps[k]);
      if reps[k] == reps[link.b] {
        ConnectedMore(links, [link], link.b, reps[link.b]);
        ConnectedBack(all, link.b, reps[link.b]);
        ConnectedOn(all, k, reps[k], link.b);
        ConnectedLink(all, link.b, link.a);
        ConnectedOn(all, k, link.b, link.a);
        ConnectedMore(links, [link], link.a, reps[link.a]);
        ConnectedOn(all, k, link.a, reps[link.a]);
      }
    }
  }

  // ----- programs and their links -----

  datatype RelatedType = Shared | Relay | Movement

  datatype Option<T> = None | Some(value: T)

  datatype Related = Related(type_: RelatedType, network: Option<uint16>, service: uint16, event: uint16)

  predicate IsLink(r: Related) {
    r.type_.Shared? && r.service != 0 && r.event != 0
  }

  function LinkOf(key: Key, r: Related): Link {
    Link(key, Key(if r.network.Some? then r.network.value else key.network, r.service, r.event))
  }

  function LinksOf(key: Key, related: seq<Related>): seq<Link>
    decreases |related|
  {
    if related == [] then []
    else LinksOf(key, related[..|related| - 1]) +
         if IsLink(related[|related| - 1]) then [LinkOf(key, related[|related| - 1])] else []
  }

  /** The classes after all of a program's links. */
  function RepsOf(reps: Reps, key: Key, related: seq<Related>): Reps
    decreases |related|
  {
    if related == [] then WithKey(reps, key)
    else
      var before := RepsOf(reps, key, related[..|related| - 1]);
      if IsLink(related[|related| - 1]) then WithLink(before, LinkOf(key, related[|related| - 1])) else before
  }

  datatype Program = Program(key: Key, related: seq<Related>)

  function AllLinks(programs: seq<Program>): seq<Link>
    decreases |programs|
  {
    if programs == [] then []
    else AllLinks(programs[..|programs| - 1]) + LinksOf(programs[|programs| - 1].key, programs[|programs| - 1].related)
  }

  function AllReps(programs: seq<Program>): Reps
    decreases |programs|
  {
    if programs == [] then map[]
    else RepsOf(AllReps(programs[..|programs| - 1]), programs[|programs| - 1].key, programs[|programs| - 1].related)
  }

  lemma {:induction false} ProgramPartitions(reps: Reps, links: seq<Link>, key: Key, related: seq<Related>)
    requires Partitions(reps, links)
    ensures Partitions(RepsOf(reps, key, related), links + LinksOf(key, related))
    ensures key in RepsOf(reps, key, related) && reps.Keys <= RepsOf(reps, key, related).Keys
    decreases |related|
  {
    hide Partitions;
    if related == [] {
      assert links + [] == links;
      KeyPartitions(reps, links, key);
    } else {
      var last := related[|related| - 1];
      ProgramPartitions(reps, links, key, related[..|related| - 1]);
      var before := links + LinksOf(key, related[..|related| - 1]);
      if IsLink(last) {
        LinkPartitions(RepsOf(reps, key, related[..|related| - 1]), before, LinkOf(key, last));
        assert before + [LinkOf(key, last)] == links + LinksOf(key, related);
      } else {
        assert LinksOf(key, related) == LinksOf(key, related[..|related| - 1]);
      }
    }
  }

  lemma {:induction false} AllPartitions(programs: seq<Program>)
    ensures Partitions(AllReps(programs), AllLinks(programs))
    ensures forall i | 0 <= i < |programs| :: programs[i].key in AllReps(programs)
    decreases |programs|
  {
    hide Partitions;
    if programs == [] {
      NoLinks();
    } else {
      var last := programs[|programs| - 1];
      AllPartitions(programs[..|programs| - 1]);
      ProgramPartitions(AllReps(programs[..|programs| - 1]), AllLinks(programs[..|programs| - 1]), last.key, last.related);
    }
  }

  /** Two programs land in the same peer group exactly if shared links connect their keys. */
  lemma SameGroupExactly(programs: seq<Program>, i: nat, j: nat)
    requires i < |programs| && j < |programs|
    ensures var reps := AllReps(programs);
            && programs[i].key in reps && programs[j].key in reps
            && (reps[programs[i].key] == reps[programs[j].key] <==> Connected(AllLinks(programs), programs[i].key, programs[j].key))
  {
    hide Partitions;
    AllPartitions(programs);
    SameClassExactly(AllReps(programs), AllLinks(programs), programs[i].key, programs[j].key);
  }

  /** Some program with key a names b as shared: with a service and an event, and on its own network unless it names another. */
  predicate NamesShared(programs: seq<Program>, a: Key, b: Key) {
    exists i, j | 0 <= i < |programs| && 0 <= j < |programs[i].related| ::
      NamesAt(programs[i].key, programs[i].related[j], a, b)
  }

  predicate NamesAt(key: Key, r: Related, a: Key, b: Key) {
    && key == a && r.type_ == Shared && r.service != 0 && r.event != 0
    && b.service == r.service && b.event == r.event
    && b.network == (match r.network case None => key.network case Some(network) => network)
  }

  predicate SomeNames(key: Key, related: seq<Related>, a: Key, b: Key) {
    exists j | 0 <= j < |related| :: NamesAt(key, related[j], a, b)
  }

  lemma {:induction false} LinksExactly(key: Key, related: seq<Related>, a: Key, b: Key)
    ensures Link(a, b) in LinksOf(key, related) <==> SomeNames(key, related, a, b)
    decreases |related|
  {
    if related != [] {
      var before, r := related[..|related| - 1], related[|related| - 1];
      LinksExactly(key, before, a, b);
      assert forall j | 0 <= j < |before| :: before[j] == related[j];
      if SomeNames(key, before, a, b) {
        var j :| 0 <= j < |before| && NamesAt(key, before[j], a, b);
        assert NamesAt(key, related[j], a, b);
      }
      assert NamesAt(key, r, a, b) <==> IsLink(r) && LinkOf(key, r) == Link(a, b);
      if NamesAt(key, r, a, b) { assert NamesAt(key, related[|related| - 1], a, b); }
    }
  }

  lemma {:induction false} AllLinksExactly(programs: seq<Program>, a: Key, b: Key)
    ensures Link(a, b) in AllLinks(programs) <==> NamesShared(programs, a, b)
    decreases |programs|
  {
    hide NamesAt, LinksOf;
    if programs != [] {
      var before, p := programs[..|programs| - 1], programs[|programs| - 1];
      AllLinksExactly(before, a, b);
      LinksExactly(p.key, p.related, a, b);
      assert forall i | 0 <= i < |before| :: before[i] == programs[i];
      if NamesShared(before, a, b) {
        var i, j :| 0 <= i < |before| && 0 <= j < |before[i].related| && NamesAt(before[i].key, before[i].related[j], a, b);
        assert NamesAt(programs[i].key, programs[i].related[j], a, b);
      }
      if SomeNames(p.key, p.related, a, b) {
        var j :| 0 <= j < |p.related| && NamesAt(p.key, p.related[j], a, b);
        assert NamesAt(programs[|programs| - 1].key, programs[|programs| - 1].related[j], a, b);
      }
    }
  }

  /** Along the path, each key is named as shared by a program of the one before it, or the other way round. */
  predicate SharedPath(programs: seq<Program>, path: seq<Key>) {
    forall i | 0 < i < |path| :: NamesShared(programs, path[i - 1], path[i]) || NamesShared(programs, path[i], path[i - 1])
  }

  /** Two programs land in one peer group exactly if a path of "shared" relations, in either direction, leads from one to the other. */
  lemma GroupedExactly(programs: seq<Program>, i: nat, j: nat)
    requires i < |programs| && j < |programs|
    ensures programs[i].key in AllReps(programs) && programs[j].key in AllReps(programs)
    ensures AllReps(programs)[programs[i].key] == AllReps(programs)[programs[j].key] <==>
              exists path: seq<Key> :: path != [] && path[0] == programs[i].key && path[|path| - 1] == programs[j].key
                                       && SharedPath(programs, path)
  {
    hide AllReps, AllLinks, NamesShared;
    SameGroupExactly(programs, i, j);
    forall path: seq<Key>
      ensures IsPath(AllLinks(programs), path) <==> SharedPath(programs, path)
    {
      forall k | 0 < k < |path|
        ensures Joins(AllLinks(programs), path[k - 1], path[k])
           <==> NamesShared(programs, path[k - 1], path[k]) || NamesShared(programs, path[k], path[k - 1])
      {
        AllLinksExactly(programs, path[k - 1], path[k]);
        AllLinksExactly(programs, path[k], path[k - 1]);
      }
    }
  }

  // ----- the forest -----

  /** The parent map of the source with what proofs need beside it: classes, and ranks that grow towards the roots. */
  datatype Tree = Tree(parent: map<Key, Key>, reps: Reps, rank: map<Key, nat>, top: nat)

  predicate NodeOk(t: Tree, k: Key)
    requires t.parent.Keys == t.reps.Keys == t.rank.Keys && k in t.parent
  {
    var p, r := t.parent[k], t.reps[k];
    && p in t.parent && t.reps[p] == r
    && r in t.parent && t.parent[r] == r && t.reps[r] == r
    && (p == k ==> r == k)
    && (p != k ==> t.rank[k] < t.rank[p])
    && t.rank[k] <= t.rank[r] && t.rank[k] <= t.top
  }

  ghost predicate TreeOk(t: Tree) {
    && t.parent.Keys == t.reps.Keys == t.rank.Keys
    && forall k {:trigger NodeOk(t, k)} | k in t.parent :: NodeOk(t, k)
  }

  function AddRoot(t: Tree, k: Key): Tree {
    Tree(t.parent[k := k], t.reps[k := k], t.rank[k := 0], t.top)
  }

  lemma AddRootOk(t: Tree, key: Key)
    requires TreeOk(t) && key !in t.parent
    ensures TreeOk(AddRoot(t, key))
  {
    var u := AddRoot(t, key);
    forall k | k in u.parent
      ensures NodeOk(u, k)
    {
      if k != key { assert NodeOk(t, k); }
    }
  }

  /** Path compression: a key may point straight at its root. */
  lemma CompressOk(t: Tree, key: Key)
    requires TreeOk(t) && key in t.parent && t.parent[key] != key
    ensures TreeOk(t.(parent := t.parent[key := t.reps[key]]))
  {
    assert NodeOk(t, key);
    var root := t.reps[key];
    assert NodeOk(t, t.parent[key]);
    assert root != key;
    var u := t.(parent := t.parent[key := root]);
    forall k | k in u.parent
      ensures NodeOk(u, k)
    {
      assert NodeOk(t, k);
    }
  }

  function Attached(t: Tree, a: Key, b: Key): Tree
    requires t.parent.Keys == t.reps.Keys == t.rank.Keys && a in t.parent && b in t.parent
    requires t.reps[a] in t.parent && t.reps[b] in t.parent
  {
    var rootA, rootB := t.reps[a], t.reps[b];
    var height := t.rank[rootA] + t.rank[rootB] + 1;
    Tree(t.parent[rootB := rootA], Merged(t.reps, a, b), t.rank[rootA := height], t.top + height)
  }

  lemma AttachNode(t: Tree, a: Key, b: Key, k: Key)
    requires t.parent.Keys == t.reps.Keys == t.rank.Keys && a in t.parent && b in t.parent && k in t.parent
    requires t.reps[a] != t.reps[b] && t.reps[a] in t.parent && t.reps[b] in t.parent
    requires NodeOk(t, t.reps[a]) && NodeOk(t, t.reps[b]) && NodeOk(t, k)
    requires t.reps[t.reps[a]] == t.reps[a] && t.reps[t.reps[b]] == t.reps[b]
    ensures Attached(t, a, b).parent.Keys == Attached(t, a, b).reps.Keys == Attached(t, a, b).rank.Keys
    ensures NodeOk(Attached(t, a, b), k)
  {
  }

  /** Hanging one root below another keeps the forest acyclic. */
  lemma AttachOk(t: Tree, a: Key, b: Key)
    requires TreeOk(t) && a in t.parent && b in t.parent && t.reps[a] != t.reps[b]
    ensures t.reps[a] in t.parent && t.reps[b] in t.parent && TreeOk(Attached(t, a, b))
  {
    hide NodeOk;
    NodeRoot(t, a);
    NodeRoot(t, b);
    forall k | k in t.parent
      ensures NodeOk(t, k) ==> Attached(t, a, b).parent.Keys == Attached(t, a, b).reps.Keys == Attached(t, a, b).rank.Keys
      ensures NodeOk(t, k) ==> NodeOk(Attached(t, a, b), k)
    {
      assert NodeOk(t, k);
      AttachNode(t, a, b, k);
    }
  }

  lemma NodeRoot(t: Tree, k: Key)
    requires TreeOk(t) && k in t.parent
    ensures t.reps[k] in t.parent && NodeOk(t, t.reps[k]) && t.reps[t.reps[k]] == t.reps[k]
  {
    assert NodeOk(t, k);
  }

  class Forest {
    var parent: map<Key, Key>
    ghost var reps: Reps
    ghost var rank: map<Key, nat>
    ghost var top: nat

    ghost function State(): Tree
      reads this
    {
      Tree(parent, reps, rank, top)
    }

    ghost predicate Valid()
      reads this
    {
      TreeOk(State())
    }

    constructor ()
      ensures Valid() && reps == map[]
    {
      parent, reps, rank, top := map[], map[], map[], 0;
    }

    /** How far up the key can still go. */
    ghost function Height(key: Key): nat
      requires Valid()
      reads this
    {
      if key in parent then assert NodeOk(State(), key); top - rank[key] + 1 else 0
    }

    /** Terminates because every step up raises the rank, and compresses the path on the way back. */
    method Find(key: Key) returns (root: Key)
      requires Valid()
      modifies this
      ensures Valid() && reps == WithKey(old(reps), key) && root == reps[key]
      ensures key in old(parent) ==> State() == old(State()).(parent := parent)
      decreases Height(key)
    {
      hide TreeOk;
      if key !in parent {
        SameKeys(State());
        AddRootOk(State(), key);
        parent, reps, rank := parent[key := key], reps[key := key], rank[key := 0];
        SameKeys(State());
        return key;
      }
      NodeFacts(State(), key);
      var current := parent[key];
      if current == key {
        return key;
      }
      NodeFacts(State(), current);
      root := Find(current);
      SameKeys(State());
      if parent[key] != key {
        CompressOk(State(), key);
      } else {
        NodeFacts(State(), key);
      }
      parent := parent[key := root];
    }

    method Union(a: Key, b: Key)
      requires Valid()
      modifies this
      ensures Valid() && reps == WithLink(old(reps), Link(a, b))
    {
      hide TreeOk;
      var rootA := Find(a);
      SameKeys(State());
      var rootB := Find(b);
      SameKeys(State());
      if rootA == rootB {
        assert Merged(reps, a, b) == reps;
        return;
      }
      Attach(rootA, rootB, a, b);
    }

    method Attach(rootA: Key, rootB: Key, ghost a: Key, ghost b: Key)
      requires Valid() && a in reps && b in reps && rootA == reps[a] && rootB == reps[b] && rootA != rootB
      modifies this
      ensures Valid() && reps == Merged(old(reps), a, b)
    {
      hide TreeOk, Merged;
      SameKeys(State());
      AttachOk(State(), a, b);
      ghost var next := Attached(State(), a, b);
      parent, reps, rank, top := parent[rootB := rootA], next.reps, next.rank, next.top;
    }
  }

  lemma SameKeys(t: Tree)
    requires TreeOk(t)
    ensures t.parent.Keys == t.reps.Keys == t.rank.Keys
  {
  }

  lemma NodeFacts(t: Tree, k: Key)
    requires TreeOk(t) && k in t.parent
    ensures t.parent.Keys == t.reps.Keys == t.rank.Keys && NodeOk(t, k)
  {
  }
}
