/**
 Filling blank program fields from peers, internal/epg/program_merge.go: in place and
 in whatever order the groups come, every blank field becomes that of the first member
 of the group that originally had one.
 */
module PeerFilling {
  import opened SharedPeers

  /** The contents of genres, videos, audios and series are only copied. */
  type Genre = int
  type Video = int
  type Audio = int
  type Series = int

  datatype Fields = Fields(
    name: string, description: string, genres: seq<Genre>, video: Option<Video>,
    audios: seq<Audio>, extended: map<string, string>, series: Option<Series>)

  const BLANK := Fields("", "", [], None, [], map[], None)

  datatype Field = Name | Description | Genres | Video | Audios | Extended | Series

  predicate Has(f: Fields, which: Field) {
    match which
    case Name => f.name != ""
    case Description => f.description != ""
    case Genres => f.genres != []
    case Video => f.video.Some?
    case Audios => f.audios != []
    case Extended => f.extended != map[]
    case Series => f.series.Some?
  }

  predicate Same(a: Fields, b: Fields, which: Field) {
    match which
    case Name => a.name == b.name
    case Description => a.description == b.description
    case Genres => a.genres == b.genres
    case Video => a.video == b.video
    case Audios => a.audios == b.audios
    case Extended => a.extended == b.extended
    case Series => a.series == b.series
  }

  /** a with its blank fields taken from b. */
  function Or(a: Fields, b: Fields): Fields {
    Fields(
      if a.name == "" then b.name else a.name,
      if a.description == "" then b.description else a.description,
      if a.genres == [] then b.genres else a.genres,
      if a.video.None? then b.video else a.video,
      if a.audios == [] then b.audios else a.audios,
      if a.extended == map[] then b.extended else a.extended,
      if a.series.None? then b.series else a.series)
  }

  lemma OrLaws(a: Fields, b: Fields, c: Fields)
    ensures Or(Or(a, b), c) == Or(a, Or(b, c))
    ensures Or(Or(a, b), a) == Or(a, b) && Or(a, a) == a
    ensures Or(BLANK, a) == a && Or(a, BLANK) == a
  {
  }

  /** All members of a group over each other, the first on top. */
  function OrAll(group: seq<Fields>): Fields
    decreases |group|
  {
    if group == [] then BLANK else Or(OrAll(group[..|group| - 1]), group[|group| - 1])
  }

  predicate NoneHas(group: seq<Fields>, which: Field) {
    forall i | 0 <= i < |group| :: !Has(group[i], which)
  }

  /** What the group has for a field: the value of its first member that has one. */
  lemma {:induction false} FirstHolder(group: seq<Fields>, which: Field) returns (i: nat)
    ensures NoneHas(group, which) ==> !Has(OrAll(group), which)
    ensures !NoneHas(group, which) ==> i < |group| && IsFirst(group, which, i) && Same(OrAll(group), group[i], which)
    decreases |group|
  {
    hide Or, Has, Same;
    i := 0;
    if group == [] {
      BlankHasNothing(which);
    } else {
      var rest, last := group[..|group| - 1], |group| - 1;
      i := FirstHolder(rest, which);
      OrField(OrAll(rest), group[last], which);
      if !NoneHas(rest, which) {
        assert IsFirst(group, which, i);
        FirstHas(rest, which, i);
        SameTwice(OrAll(group), OrAll(rest), group[i], which);
      } else {
        i := last;
        if Has(group[last], which) {
          assert forall j | 0 <= j < last :: group[j] == rest[j];
          assert IsFirst(group, which, last);
        }
      }
    }
  }

  lemma BlankHasNothing(which: Field)
    ensures !Has(BLANK, which)
  {
  }

  predicate IsFirst(group: seq<Fields>, which: Field, i: nat)
    requires i < |group|
  {
    Has(group[i], which) && forall j | 0 <= j < i :: !Has(group[j], which)
  }

  lemma FirstHas(rest: seq<Fields>, which: Field, i: nat)
    requires i < |rest| && IsFirst(rest, which, i) && Same(OrAll(rest), rest[i], which)
    ensures Has(OrAll(rest), which)
  {
    hide OrAll;
  }

  lemma SameTwice(a: Fields, b: Fields, c: Fields, which: Field)
    requires Same(a, b, which) && Same(b, c, which)
    ensures Same(a, c, which)
  {
  }

  lemma OrField(a: Fields, b: Fields, which: Field)
    ensures Has(Or(a, b), which) <==> Has(a, which) || Has(b, which)
    ensures Same(Or(a, b), if Has(a, which) then a else b, which)
  {
  }

  /** What filling makes of one member of a group. */
  function Filled(f: Fields, group: seq<Fields>): Fields {
    Or(f, OrAll(group))
  }

  function FilledAll(group: seq<Fields>): seq<Fields> {
    seq(|group|, i requires 0 <= i < |group| => Filled(group[i], group))
  }

  /** Non-blank fields never change; a blank one takes the first value in the group, if there is any. */
  lemma FilledExactly(group: seq<Fields>, k: nat, which: Field)
    requires k < |group|
    ensures Has(group[k], which) ==> Same(Filled(group[k], group), group[k], which)
    ensures !Has(group[k], which) && !NoneHas(group, which) ==>
              exists i | 0 <= i < |group| :: IsFirst(group, which, i) && Same(Filled(group[k], group), group[i], which)
    ensures NoneHas(group, which) ==> !Has(Filled(group[k], group), which)
  {
    hide Or, OrAll, Has, Same, IsFirst, NoneHas;
    var i := FirstHolder(group, which);
    OrField(group[k], OrAll(group), which);
    if NoneHas(group, which) {
      MemberHasNothing(group, which, k);
    } else if !Has(group[k], which) {
      SameTwice(Filled(group[k], group), OrAll(group), group[i], which);
    }
  }

  lemma MemberHasNothing(group: seq<Fields>, which: Field, k: nat)
    requires NoneHas(group, which) && k < |group|
    ensures !Has(group[k], which)
  {
  }

  // ----- a group in which some members are filled already -----

  lemma {:induction false} Absorbs(group: seq<Fields>, k: nat)
    requires k <= |group|
    ensures Or(OrAll(group[..k]), OrAll(group)) == OrAll(group)
    decreases |group|
  {
    hide Or;
    if k == |group| {
      assert group[..k] == group;
      OrLaws(OrAll(group), BLANK, BLANK);
    } else {
      var rest := group[..|group| - 1];
      Absorbs(rest, k);
      assert rest[..k] == group[..k];
      OrLaws(OrAll(rest[..k]), OrAll(rest), group[|group| - 1]);
    }
  }

  /** Every member is as it was, or filled. */
  predicate PartlyFilled(now: seq<Fields>, group: seq<Fields>) {
    |now| == |group| && forall i | 0 <= i < |now| :: now[i] == group[i] || now[i] == Filled(group[i], group)
  }

  lemma {:induction false} PrefixOrAll(now: seq<Fields>, group: seq<Fields>, k: nat)
    requires PartlyFilled(now, group) && k <= |group|
    ensures OrAll(now[..k]) == OrAll(group[..k]) || OrAll(now[..k]) == OrAll(group)
    decreases k
  {
    hide Or;
    if k > 0 {
      var all, before := OrAll(group), OrAll(group[..k - 1]);
      PrefixOrAll(now, group, k - 1);
      assert now[..k][..k - 1] == now[..k - 1] && group[..k][..k - 1] == group[..k - 1];
      Absorbs(group, k);
      Absorbs(group, k - 1);
      OrLaws(before, group[k - 1], all);
      OrLaws(all, group[k - 1], all);
      OrLaws(all, Or(group[k - 1], all), all);
      if OrAll(now[..k - 1]) == all { AllAbsorbs(group, k - 1); }
    }
  }

  lemma {:induction false} AllAbsorbs(group: seq<Fields>, i: nat)
    requires i < |group|
    ensures Or(OrAll(group), group[i]) == OrAll(group)
    decreases |group|
  {
    hide Or;
    var rest, last := group[..|group| - 1], group[|group| - 1];
    if i < |rest| {
      AllAbsorbs(rest, i);
      Commutes(OrAll(rest), last, group[i]);
    } else {
      OrLaws(OrAll(rest), last, last);
      OrLaws(last, last, last);
    }
  }

  lemma Commutes(a: Fields, b: Fields, c: Fields)
    requires Or(a, c) == a
    ensures Or(Or(a, b), c) == Or(a, b)
  {
  }

  /** A partly filled group has the same to give as at the beginning. */
  lemma SameToGive(now: seq<Fields>, group: seq<Fields>)
    requires PartlyFilled(now, group)
    ensures OrAll(now) == OrAll(group)
  {
    PrefixOrAll(now, group, |group|);
    assert now[..|now|] == now && group[..|group|] == group;
  }

  lemma FilledTwice(f: Fields, group: seq<Fields>, now: seq<Fields>)
    requires PartlyFilled(now, group)
    ensures Filled(Filled(f, group), now) == Filled(f, group)
  {
    hide Or;
    SameToGive(now, group);
    OrLaws(f, OrAll(group), OrAll(group));
    OrLaws(OrAll(group), BLANK, BLANK);
  }

  lemma AllAreFilled(group: seq<Fields>)
    ensures PartlyFilled(FilledAll(group), group)
  {
    hide Filled;
  }

  // ----- the program objects -----

  class Item {
    const key: Key
    const related: seq<Related>
    var name: string
    var description: string
    var genres: seq<Genre>
    var video: Option<Video>
    var audios: seq<Audio>
    var extended: map<string, string>
    var series: Option<Series>

    constructor (key: Key, related: seq<Related>, f: Fields)
      ensures this.key == key && this.related == related && Data() == f
    {
      this.key, this.related := key, related;
      name, description, genres, video := f.name, f.description, f.genres, f.video;
      audios, extended, series := f.audios, f.extended, f.series;
    }

    ghost function Data(): Fields
      reads this
    {
      Fields(name, description, genres, video, audios, extended, series)
    }

    method TakeText(peer: Item)
      modifies this`name, this`description, this`genres
      ensures name == (if old(name) == "" then old(peer.name) else old(name))
      ensures description == (if old(description) == "" then old(peer.description) else old(description))
      ensures genres == (if old(genres) == [] then old(peer.genres) else old(genres))
    {
      if name == "" && peer.name != "" {
        name := peer.name;
      }
      if description == "" && peer.description != "" {
        description := peer.description;
      }
      if |genres| == 0 && |peer.genres| > 0 {
        genres := peer.genres;
      }
    }

    method TakeMedia(peer: Item)
      modifies this`video, this`audios, this`extended, this`series
      ensures video == (if old(video).None? then old(peer.video) else old(video))
      ensures audios == (if old(audios) == [] then old(peer.audios) else old(audios))
      ensures extended == (if old(extended) == map[] then old(peer.extended) else old(extended))
      ensures series == (if old(series).None? then old(peer.series) else old(series))
    {
      if video.None? && peer.video.Some? {
        video := peer.video;
      }
      if |audios| == 0 && |peer.audios| > 0 {
        audios := peer.audios;
      }
      if |extended| == 0 && |peer.extended| > 0 {
        extended := peer.extended;
      }
      if series.None? && peer.series.Some? {
        series := peer.series;
      }
    }

    /** One turn of fillProgramFromPeers. */
    method TakeFrom(peer: Item)
      requires peer != this
      modifies this
      ensures Data() == Or(old(Data()), old(peer.Data()))
    {
      TakeText(peer);
      TakeMedia(peer);
    }
  }

  ghost function DataOf(items: seq<Item>): seq<Fields>
    reads items
  {
    seq(|items|, i requires 0 <= i < |items| reads items => items[i].Data())
  }

  /** fillProgramFromPeers */
  method FillFromPeers(item: Item, peers: seq<Item>)
    modifies item
    ensures item.Data() == Filled(old(item.Data()), old(DataOf(peers)))
  {
    hide Or;
    ghost var mine, theirs := item.Data(), DataOf(peers);
    OrLaws(mine, BLANK, BLANK);
    for i := 0 to |peers|
      invariant item.Data() == Or(mine, OrAll(theirs[..i]))
    {
      var peer := peers[i];
      assert theirs[..i + 1][..i] == theirs[..i] && theirs[..i + 1][i] == theirs[i];
      OrLaws(mine, OrAll(theirs[..i]), theirs[i]);
      if peer == item {
        Commutes(mine, OrAll(theirs[..i]), theirs[i]) by { OrLaws(mine, mine, mine); }
      } else {
        item.TakeFrom(peer);
      }
    }
    assert theirs[..|peers|] == theirs;
  }

  /** One group, member by member; later members see earlier ones already filled. */
  method FillGroup(group: seq<Item>)
    modifies group
    ensures forall o | o in group :: o.Data() == Filled(old(o.Data()), old(DataOf(group)))
  {
    hide Filled;
    ghost var first := DataOf(group);
    for i := 0 to |group|
      invariant forall o | o in group ::
        o.Data() == if o in group[..i] then Filled(old(o.Data()), first) else old(o.Data())
    {
      var item := group[i];
      assert PartlyFilled(DataOf(group), first) by {
        forall k | 0 <= k < |group|
          ensures DataOf(group)[k] == first[k] || DataOf(group)[k] == Filled(first[k], first)
        {
          assert group[k] in group && first[k] == old(group[k].Data());
        }
      }
      FilledAgain(item.Data(), old(item.Data()), DataOf(group), first);
      assert group[..i + 1] == group[..i] + [item];
      FillFromPeers(item, group);
    }
    assert group[..|group|] == group;
  }

  lemma FilledAgain(f: Fields, was: Fields, now: seq<Fields>, group: seq<Fields>)
    requires PartlyFilled(now, group) && (f == was || f == Filled(was, group))
    ensures Filled(f, now) == Filled(was, group)
  {
    hide Or;
    SameToGive(now, group);
    FilledTwice(was, group, now);
  }

  // ----- all groups -----

  /** The loops skip programs that are nil. */
  function Present(programs: seq<Item?>): (r: seq<Item>)
    ensures forall o | o in r :: o in programs
    ensures forall o | o in programs && o != null :: o in r
    decreases |programs|
  {
    if programs == [] then []
    else
      var last := programs[|programs| - 1];
      Present(programs[..|programs| - 1]) + if last == null then [] else [last as Item]
  }

  function Keyed(items: seq<Item>): seq<Program> {
    seq(|items|, i requires 0 <= i < |items| => Program(items[i].key, items[i].related))
  }

  /** The items of one class, in list order. */
  function Group(items: seq<Item>, reps: Reps, root: Key): (r: seq<Item>)
    ensures forall o | o in r :: o in items && o.key in reps && reps[o.key] == root
    ensures forall o | o in items && o.key in reps && reps[o.key] == root :: o in r
    decreases |items|
  {
    if items == [] then []
    else
      var last := items[|items| - 1];
      Group(items[..|items| - 1], reps, root) + if last.key in reps && reps[last.key] == root then [last] else []
  }

  method LinkPrograms(forest: Forest, items: seq<Item>)
    requires forest.Valid() && forest.reps == map[]
    modifies forest
    ensures forest.Valid() && forest.reps == AllReps(Keyed(items))
  {
    hide RepsOf;
    for i := 0 to |items|
      invariant forest.Valid() && forest.reps == AllReps(Keyed(items)[..i])
    {
      assert Keyed(items)[..i + 1][..i] == Keyed(items)[..i];
      LinkProgram(forest, items[i]);
    }
    assert Keyed(items)[..|items|] == Keyed(items);
  }

  method LinkProgram(forest: Forest, item: Item)
    requires forest.Valid()
    modifies forest
    ensures forest.Valid() && forest.reps == RepsOf(old(forest.reps), item.key, item.related)
  {
    hide WithKey, WithLink;
    var _ := forest.Find(item.key);
    ghost var before := old(forest.reps);
    for i := 0 to |item.related|
      invariant forest.Valid() && forest.reps == RepsOf(before, item.key, item.related[..i])
    {
      var related := item.related[i];
      assert item.related[..i + 1][..i] == item.related[..i];
      if IsLink(related) {
        var link := LinkOf(item.key, related);
        forest.Union(link.a, link.b);
      }
    }
    assert item.related[..|item.related|] == item.related;
  }

  lemma KeysKnown(items: seq<Item>)
    ensures forall o | o in items :: o.key in AllReps(Keyed(items))
  {
    hide Partitions;
    AllPartitions(Keyed(items));
    forall o | o in items
      ensures o.key in AllReps(Keyed(items))
    {
      var i :| 0 <= i < |items| && items[i] == o;
      assert Keyed(items)[i].key == o.key;
    }
  }

  method GroupPrograms(forest: Forest, items: seq<Item>) returns (peers: map<Key, seq<Item>>)
    requires forest.Valid() && forall o | o in items :: o.key in forest.reps
    modifies forest
    ensures forest.Valid() && forest.reps == old(forest.reps)
    ensures forall root | root in peers :: peers[root] == Group(items, forest.reps, root)
    ensures forall o | o in items :: forest.reps[o.key] in peers
  {
    peers := map[];
    for i := 0 to |items|
      invariant forest.Valid() && forest.reps == old(forest.reps)
      invariant forall root | root in peers :: peers[root] == Group(items[..i], forest.reps, root)
      invariant forall root | root !in peers :: Group(items[..i], forest.reps, root) == []
      invariant forall o | o in items[..i] :: forest.reps[o.key] in peers
    {
      var item := items[i];
      assert items[..i + 1][..i] == items[..i];
      assert items[..i + 1] == items[..i] + [item];
      var root := forest.Find(item.key);
      peers := peers[root := (if root in peers then peers[root] else []) + [item]];
    }
    assert items[..|items|] == items;
  }

  /** The values that the items of a group had. */
  ghost function Values(was: map<Item, Fields>, group: seq<Item>): seq<Fields>
    requires forall o | o in group :: o in was
  {
    seq(|group|, i requires 0 <= i < |group| => was[group[i]])
  }

  /** What the item is to become. */
  ghost function Target(was: map<Item, Fields>, items: seq<Item>, reps: Reps, o: Item): Fields
    requires (forall p | p in items :: p in was) && o in items && o.key in reps
  {
    Filled(was[o], Values(was, Group(items, reps, reps[o.key])))
  }

  /** What a whole call makes of the items' values. */
  ghost function AllTargets(was: map<Item, Fields>, items: seq<Item>): map<Item, Fields>
    requires forall o | o in items :: o in was && o.key in AllReps(Keyed(items))
  {
    map o | o in items :: Target(was, items, AllReps(Keyed(items)), o)
  }

  /** A second call changes nothing: filling does not change the groups, and they have the same to give. */
  lemma FillingTwiceIsOnce(was: map<Item, Fields>, items: seq<Item>)
    requires forall o | o in items :: o in was
    ensures forall o | o in items :: o.key in AllReps(Keyed(items))
    ensures AllTargets(AllTargets(was, items), items) == AllTargets(was, items)
  {
    hide Filled, AllReps, Keyed, Group;
    KeysKnown(items);
    var reps := AllReps(Keyed(items));
    var now := AllTargets(was, items);
    forall o | o in items
      ensures Target(now, items, reps, o) == now[o]
    {
      var group := Group(items, reps, reps[o.key]);
      var values := Values(was, group);
      forall i | 0 <= i < |group|
        ensures now[group[i]] == Filled(values[i], values)
      {
        assert group[i] in group;
      }
      assert Values(now, group) == FilledAll(values);
      AllAreFilled(values);
      FilledTwice(was[o], values, FilledAll(values));
    }
  }

  /** The groups in any order: they share no item, so the order does not matter. */
  method FillGroups(peers: map<Key, seq<Item>>, ghost reps: Reps, ghost items: seq<Item>, ghost was: map<Item, Fields>)
    requires forall root | root in peers :: peers[root] == Group(items, reps, root)
    requires forall o | o in items :: o in was && o.Data() == was[o]
    requires forall o | o in items :: o.key in reps && reps[o.key] in peers
    modifies items
    ensures forall o | o in items :: o.Data() == Target(was, items, reps, o)
  {
    hide Target;
    var todo := peers.Keys;
    while todo != {}
      invariant todo <= peers.Keys
      invariant forall o | o in items :: o.Data() == if reps[o.key] in todo then was[o] else Target(was, items, reps, o)
      decreases |todo|
    {
      var root :| root in todo;
      FillOneGroup(peers[root], root, reps, items, was);
      todo := todo - {root};
    }
  }

  method FillOneGroup(group: seq<Item>, ghost root: Key, ghost reps: Reps, ghost items: seq<Item>, ghost was: map<Item, Fields>)
    requires group == Group(items, reps, root)
    requires forall o | o in items :: o in was && o.key in reps
    requires forall o | o in items && reps[o.key] == root :: o.Data() == was[o]
    modifies set o | o in items && o.key in reps && reps[o.key] == root
    ensures forall o | o in items && reps[o.key] == root :: o.Data() == Target(was, items, reps, o)
  {
    hide Filled;
    assert DataOf(group) == Values(was, group);
    FillGroup(group);
  }

  /** The peer groups of the items, through a forest of its own. */
  method PeerGroups(items: seq<Item>) returns (peers: map<Key, seq<Item>>)
    ensures forall root | root in peers :: peers[root] == Group(items, AllReps(Keyed(items)), root)
    ensures forall o | o in items :: o.key in AllReps(Keyed(items)) && AllReps(Keyed(items))[o.key] in peers
  {
    hide AllReps, Keyed, Group;
    var forest := new Forest();
    LinkPrograms(forest, items);
    KeysKnown(items);
    peers := GroupPrograms(forest, items);
  }

  /** All programs that are there. */
  method FillItems(items: seq<Item>)
    modifies items
    ensures var reps := AllReps(Keyed(items));
            forall o | o in items ::
              o.key in reps && o.Data() == Filled(old(o.Data()), old(DataOf(Group(items, reps, reps[o.key]))))
  {
    hide Filled, AllReps, Keyed, Group;
    ghost var was := map o | o in items :: o.Data();
    var peers := PeerGroups(items);
    ghost var reps := AllReps(Keyed(items));
    FillGroups(peers, reps, items, was);
    forall o | o in items
      ensures o.Data() == Filled(old(o.Data()), old(DataOf(Group(items, reps, reps[o.key]))))
    {
      assert old(DataOf(Group(items, reps, reps[o.key]))) == Values(was, Group(items, reps, reps[o.key]));
    }
  }

  /**
   fillProgramsFromSharedPeers: every program takes its blank fields from the first
   member, in list order, of the group that shared links connect it to.
   */
  method FillProgramsFromSharedPeers(programs: seq<Item?>)
    modifies Present(programs)
    ensures var items := Present(programs);
            var reps := AllReps(Keyed(items));
            forall o | o in items ::
              o.key in reps && o.Data() == Filled(old(o.Data()), old(DataOf(Group(items, reps, reps[o.key]))))
  {
    hide Filled, AllReps, Keyed, Group, DataOf;
    FillItems(Present(programs));
  }
}
