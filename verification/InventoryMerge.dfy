/** One discovery pass into the inventory, and what passes after passes keep. */
module InventoryMerge {
  import opened Common
  import opened DriveLocation

  type Id = nat

  /** A path is numbered by its place in the byte order of paths. `at` is
      where this pass found the drive. */
  datatype Observed = Observed(path: nat, id: Id, at: Location)

  datatype Activity = Idle | Missing | Other

  datatype Drive = Drive(paths: seq<nat>, location: Location, activity: Activity, inPlaceOf: Option<Id>, lastSeen: nat)

  type Drives = map<Id, Drive>

  type Group = (Id, seq<Observed>)

  // ------------------------------------------------ grouping

  ghost predicate DistinctPaths(obs: seq<Observed>) {
    forall i, j :: 0 <= i < j < |obs| ==> obs[i].path != obs[j].path
  }

  ghost predicate ByPath(obs: seq<Observed>) {
    forall i, j :: 0 <= i < j < |obs| ==> obs[i].path < obs[j].path
  }

  /** The observations of each drive together, by path; the groups by their
      first path. */
  ghost predicate Grouped(obs: seq<Observed>, groups: seq<Group>) {
    && (forall g :: g in groups ==> GroupOf(obs, g))
    && (forall o :: o in obs ==> exists g :: g in groups && g.0 == o.id)
    && (forall i, j :: 0 <= i < j < |groups| ==> First(groups[i]) < First(groups[j]))
  }

  ghost predicate GroupOf(obs: seq<Observed>, g: Group) {
    g.1 != [] && ByPath(g.1) && forall o :: o in g.1 <==> o in obs && o.id == g.0
  }

  function First(g: Group): nat { if g.1 == [] then 0 else g.1[0].path }

  lemma {:induction false} SomethingIn<T>(s: seq<T>)
    ensures s != [] ==> exists x :: x in s
  {
    if s != [] { assert s[0] in s; }
  }

  /** Sorted without repeats, a list is settled by what is in it. */
  lemma {:induction false} SameSorted(a: seq<Observed>, b: seq<Observed>)
    requires ByPath(a) && ByPath(b) && forall o :: o in a <==> o in b
    ensures a == b
    decreases |a|
  {
    if a == [] {
      SomethingIn(b);
    } else {
      assert a[0] in b && b != [];
      assert b[0] in a;
      assert a[0] == b[0];
      forall o ensures o in a[1..] <==> o in b[1..] {
        if o in a[1..] { assert o in a; }
        if o in b[1..] { assert o in b; }
      }
      SameSorted(a[1..], b[1..]);
    }
  }

  lemma {:induction false} SameSortedGroups(a: seq<Group>, b: seq<Group>)
    requires forall i, j :: 0 <= i < j < |a| ==> First(a[i]) < First(a[j])
    requires forall i, j :: 0 <= i < j < |b| ==> First(b[i]) < First(b[j])
    requires forall g :: g in a <==> g in b
    ensures a == b
    decreases |a|
  {
    hide First;
    if a == [] {
      SomethingIn(b);
    } else {
      assert a[0] in b && b != [];
      assert b[0] in a;
      assert a[0] == b[0];
      forall g ensures g in a[1..] <==> g in b[1..] {
        if g in a[1..] { assert g in a; }
        if g in b[1..] { assert g in b; }
      }
      SameSortedGroups(a[1..], b[1..]);
    }
  }

  lemma {:induction false} GroupIn(obs: seq<Observed>, other: seq<Observed>, a: seq<Group>, b: seq<Group>, g: Group)
    requires Grouped(obs, a) && Grouped(other, b) && (forall o :: o in obs <==> o in other) && g in a
    ensures g in b
  {
    assert GroupOf(obs, g);
    var o := g.1[0];
    assert o in g.1;
    assert o in other && o.id == g.0;
    var h :| h in b && h.0 == o.id;
    assert GroupOf(other, h);
    SameSorted(g.1, h.1);
  }

  /** The groups depend on what was observed, not on the order it came in. */
  lemma {:induction false} GroupingOrderFree(obs: seq<Observed>, other: seq<Observed>, a: seq<Group>, b: seq<Group>)
    requires Grouped(obs, a) && Grouped(other, b) && multiset(obs) == multiset(other)
    ensures a == b
  {
    forall o ensures o in obs <==> o in other {
      assert o in multiset(obs) <==> o in multiset(other);
    }
    forall g ensures g in a <==> g in b {
      if g in a { GroupIn(obs, other, a, b, g); }
      if g in b { GroupIn(other, obs, b, a, g); }
    }
    SameSortedGroups(a, b);
  }

  ghost predicate HoldsAlone(groups: seq<Group>, i: nat, o: Observed)
    requires i < |groups|
  {
    && groups[i].0 == o.id && o in groups[i].1 && First(groups[i]) <= o.path
    && forall j :: 0 <= j < |groups| && groups[j].0 == o.id ==> j == i
  }

  /** Each drive is in one group, and its primary path is its least. */
  lemma {:induction false} OneGroupEach(obs: seq<Observed>, groups: seq<Group>, o: Observed)
    requires Grouped(obs, groups) && o in obs
    ensures exists i :: 0 <= i < |groups| && HoldsAlone(groups, i, o)
  {
    var g :| g in groups && g.0 == o.id;
    var i :| 0 <= i < |groups| && groups[i] == g;
    assert GroupOf(obs, g);
    assert o in g.1;
    forall j | 0 <= j < |groups| && groups[j].0 == o.id ensures j == i {
      assert GroupOf(obs, groups[j]);
      SameSorted(groups[j].1, g.1);
    }
    var k :| 0 <= k < |g.1| && g.1[k] == o;
    assert First(groups[i]) <= o.path by { if k > 0 { assert g.1[0].path < g.1[k].path; } }
    assert HoldsAlone(groups, i, o);
  }

  // the sorting

  function Insert(s: seq<Observed>, o: Observed): seq<Observed> {
    if s == [] || o.path < s[0].path then [o] + s else [s[0]] + Insert(s[1..], o)
  }

  lemma {:induction false} InsertMeans(s: seq<Observed>, o: Observed)
    requires ByPath(s) && forall x :: x in s ==> x.path != o.path
    ensures ByPath(Insert(s, o)) && forall x :: x in Insert(s, o) <==> x in s || x == o
    decreases |s|
  {
    if s == [] || o.path < s[0].path {
      assert Insert(s, o) == [o] + s;
      assert forall x :: x in [o] + s <==> x in s || x == o;
    } else {
      InsertMeans(s[1..], o);
      var r := Insert(s[1..], o);
      forall x ensures x in Insert(s, o) <==> x in s || x == o {
        assert x in s <==> x == s[0] || x in s[1..];
        assert x in [s[0]] + r <==> x == s[0] || x in r;
      }
      forall k | 0 <= k < |r| ensures s[0].path < r[k].path {
        assert r[k] in r;
        if r[k] in s[1..] { var j :| 1 <= j < |s| && s[j] == r[k]; }
        assert s[0] in s;
      }
    }
  }

  function InsertGroup(s: seq<Group>, g: Group): seq<Group> {
    if s == [] || First(g) < First(s[0]) then [g] + s else [s[0]] + InsertGroup(s[1..], g)
  }

  lemma {:induction false} InsertGroupMeans(s: seq<Group>, g: Group)
    requires (forall i, j :: 0 <= i < j < |s| ==> First(s[i]) < First(s[j])) && forall x :: x in s ==> First(x) != First(g)
    ensures var r := InsertGroup(s, g);
      (forall i, j :: 0 <= i < j < |r| ==> First(r[i]) < First(r[j])) && forall x :: x in r <==> x in s || x == g
    decreases |s|
  {
    hide First;
    if s == [] || First(g) < First(s[0]) {
      assert InsertGroup(s, g) == [g] + s;
      assert forall x :: x in [g] + s <==> x in s || x == g;
    } else {
      InsertGroupMeans(s[1..], g);
      var r := InsertGroup(s[1..], g);
      forall x ensures x in InsertGroup(s, g) <==> x in s || x == g {
        assert x in s <==> x == s[0] || x in s[1..];
        assert x in [s[0]] + r <==> x == s[0] || x in r;
      }
      forall k | 0 <= k < |r| ensures First(s[0]) < First(r[k]) {
        assert r[k] in r;
        if r[k] in s[1..] { var j :| 1 <= j < |s| && s[j] == r[k]; }
        assert s[0] in s;
      }
    }
  }

  /** The map of groups so far. */
  ghost predicate Collected(obs: seq<Observed>, groups: map<Id, seq<Observed>>) {
    && (forall id :: id in groups ==> GroupOf(obs, (id, groups[id])))
    && (forall o :: o in obs ==> o.id in groups)
  }

  lemma {:induction false} CollectedMore(obs: seq<Observed>, groups: map<Id, seq<Observed>>, o: Observed)
    requires Collected(obs, groups) && forall x :: x in obs ==> x.path != o.path
    ensures Collected(obs + [o], groups[o.id := Insert(if o.id in groups then groups[o.id] else [], o)])
  {
    hide Insert;
    var was := if o.id in groups then groups[o.id] else [];
    if o.id in groups { assert GroupOf(obs, (o.id, was)); }
    InsertMeans(was, o);
    var now := groups[o.id := Insert(was, o)];
    assert Insert(was, o) != [] by { assert o in Insert(was, o); }
    forall id | id in now ensures GroupOf(obs + [o], (id, now[id])) {
      if id != o.id { assert GroupOf(obs, (id, groups[id])); }
    }
  }

  method GroupObserved(observed: seq<Observed>) returns (out: seq<Group>)
    requires DistinctPaths(observed)
    ensures Grouped(observed, out)
  {
    hide Insert, InsertGroup, Collected, Grouped, GroupOf;
    var groups: map<Id, seq<Observed>> := map[];
    assert Collected(observed[..0], groups) by { NothingCollected(); }
    for i := 0 to |observed|
      invariant Collected(observed[..i], groups)
    {
      var o := observed[i];
      CollectedMore(observed[..i], groups, o);
      assert observed[..i + 1] == observed[..i] + [o];
      groups := groups[o.id := Insert(if o.id in groups then groups[o.id] else [], o)];
    }
    assert observed[..|observed|] == observed;
    out := [];
    var left := groups.Keys;
    assert SortedSome(observed, groups, {}, out);
    while left != {}
      invariant left <= groups.Keys
      invariant SortedSome(observed, groups, groups.Keys - left, out)
      decreases |left|
    {
      var id :| id in left;
      SortedMore(observed, groups, groups.Keys - left, out, id);
      assert groups.Keys - (left - {id}) == groups.Keys - left + {id};
      out := InsertGroup(out, (id, groups[id]));
      left := left - {id};
    }
    SortedAll(observed, groups, out);
  }

  lemma {:induction false} NothingCollected()
    ensures Collected([], map[])
  {
  }

  ghost predicate SortedSome(obs: seq<Observed>, groups: map<Id, seq<Observed>>, done: set<Id>, out: seq<Group>) {
    && done <= groups.Keys
    && (forall i, j :: 0 <= i < j < |out| ==> First(out[i]) < First(out[j]))
    && (forall g: Group :: g in out <==> g.0 in done && g.1 == groups[g.0])
  }

  lemma {:induction false} FirstsDiffer(obs: seq<Observed>, groups: map<Id, seq<Observed>>, a: Id, b: Id)
    requires DistinctPaths(obs) && Collected(obs, groups) && a in groups && b in groups && a != b
    ensures First((a, groups[a])) != First((b, groups[b]))
  {
    assert GroupOf(obs, (a, groups[a])) && GroupOf(obs, (b, groups[b]));
    var x, y := groups[a][0], groups[b][0];
    assert x in groups[a] && y in groups[b];
    var i :| 0 <= i < |obs| && obs[i] == x;
    var j :| 0 <= j < |obs| && obs[j] == y;
    assert i != j;
  }

  lemma {:induction false} SortedMore(obs: seq<Observed>, groups: map<Id, seq<Observed>>, done: set<Id>, out: seq<Group>, id: Id)
    requires DistinctPaths(obs) && Collected(obs, groups) && SortedSome(obs, groups, done, out) && id in groups && id !in done
    ensures SortedSome(obs, groups, done + {id}, InsertGroup(out, (id, groups[id])))
  {
    hide InsertGroup, First, Collected, DistinctPaths;
    forall x | x in out ensures First(x) != First((id, groups[id])) {
      FirstsDiffer(obs, groups, x.0, id);
      assert x == (x.0, groups[x.0]);
    }
    InsertGroupMeans(out, (id, groups[id]));
  }

  lemma {:induction false} SortedAll(obs: seq<Observed>, groups: map<Id, seq<Observed>>, out: seq<Group>)
    requires Collected(obs, groups) && SortedSome(obs, groups, groups.Keys, out)
    ensures Grouped(obs, out)
  {
    forall o | o in obs ensures exists g :: g in out && g.0 == o.id {
      assert (o.id, groups[o.id]) in out;
    }
    forall g | g in out ensures GroupOf(obs, g) {
      assert g == (g.0, groups[g.0]);
    }
  }

  // ------------------------------------------------ one pass

  function PathsOf(g: seq<Observed>): (p: seq<nat>)
    ensures |p| == |g|
  {
    seq(|g|, i requires 0 <= i < |g| => g[i].path)
  }

  /** A drive already known, seen again. */
  function SeenAgain(d: Drive, g: seq<Observed>, now: nat): Drive
    requires g != []
  {
    var at := if d.paths != PathsOf(g) then g[0].at else Refreshed(d.location, g[0].at);
    d.(paths := PathsOf(g), location := at, activity := if d.activity == Missing then Idle else d.activity, lastSeen := now)
  }

  /** A drive whose place the newcomer may have taken: gone, in that bay, and
      not already said to be replaced. */
  ghost predicate Left(drives: Drives, at: Location, o: Id) {
    && o in drives && drives[o].activity == Missing && BayKeyOf(at) != NoBay && BayKeyOf(drives[o].location) == BayKeyOf(at)
    && forall d :: d in drives ==> drives[d].inPlaceOf != Some(o)
  }

  /** The one last seen, if there is any. */
  ghost predicate Replaced(drives: Drives, at: Location, r: Option<Id>) {
    if r.Some? then Left(drives, at, r.value) && forall o :: Left(drives, at, o) ==> drives[o].lastSeen <= drives[r.value].lastSeen
    else forall o :: !Left(drives, at, o)
  }

  function Taken(drives: Drives): (taken: set<Id>)
    ensures forall o :: o in taken <==> exists d :: d in drives && drives[d].inPlaceOf == Some(o)
  {
    set d | d in drives && drives[d].inPlaceOf.Some? :: drives[d].inPlaceOf.value
  }

  method ReplacedInBay(drives: Drives, at: Location) returns (r: Option<Id>)
    ensures Replaced(drives, at, r)
  {
    r := None;
    if BayKeyOf(at) == NoBay { return; }
    var taken := Taken(drives);
    var left := drives.Keys;
    while left != {}
      invariant left <= drives.Keys
      invariant r.Some? ==> Left(drives, at, r.value)
      invariant forall o :: o in drives.Keys - left && Left(drives, at, o) ==> r.Some? && drives[o].lastSeen <= drives[r.value].lastSeen
      decreases |left|
    {
      var o :| o in left;
      left := left - {o};
      var d := drives[o];
      if d.activity == Missing && o !in taken && BayKeyOf(d.location) == BayKeyOf(at) {
        assert Left(drives, at, o);
        if r.None? || d.lastSeen >= drives[r.value].lastSeen { r := Some(o); }
      } else {
        assert !Left(drives, at, o);
      }
    }
  }

  ghost predicate Injective(drives: Drives) {
    forall a, b :: a in drives && b in drives && a != b && drives[a].inPlaceOf.Some? ==> drives[a].inPlaceOf != drives[b].inPlaceOf
  }

  function Ids(groups: seq<Group>): set<Id> { set g | g in groups :: g.0 }

  /** A newcomer stands in for nobody, or for a drive that was missing from
      that bay when the pass began. */
  ghost predicate NewDrive(before: Drives, g: Group, now: nat, d: Drive)
    requires g.1 != []
  {
    && d == Drive(PathsOf(g.1), g.1[0].at, Idle, d.inPlaceOf, now)
    && (d.inPlaceOf.Some? ==>
          var o := d.inPlaceOf.value;
          o in before && before[o].activity == Missing && BayKeyOf(before[o].location) == BayKeyOf(g.1[0].at) != NoBay)
  }

  /** What a group makes of its drive. */
  ghost predicate Becomes(before: Drives, g: Group, now: nat, d: Drive) {
    g.1 != [] && if g.0 in before then d == SeenAgain(before[g.0], g.1, now) else NewDrive(before, g, now, d)
  }

  /** One group merged: a drive known is updated, a new one entered with the
      drive it replaces at that moment. Ties may be settled either way. */
  ghost predicate Merges(drives: Drives, g: Group, now: nat, next: Drives) {
    && g.1 != []
    && if g.0 in drives then next == drives[g.0 := SeenAgain(drives[g.0], g.1, now)]
       else exists r :: Enters(drives, g, now, r, next)
  }

  ghost predicate Enters(drives: Drives, g: Group, now: nat, r: Option<Id>, next: Drives)
    requires g.1 != []
  {
    Replaced(drives, g.1[0].at, r) && next == drives[g.0 := Drive(PathsOf(g.1), g.1[0].at, Idle, r, now)]
  }

  /** All that were not seen, marked. */
  function Marked(drives: Drives, seen: set<Id>): Drives {
    map id | id in drives :: if id in seen then drives[id] else drives[id].(activity := Missing)
  }

  /** The inventory before the first group, and after each. */
  ghost predicate Through(before: Drives, groups: seq<Group>, now: nat, mids: seq<Drives>) {
    && |mids| == |groups| + 1 && mids[0] == before
    && forall i :: 0 <= i < |groups| ==> Merges(mids[i], groups[i], now, mids[i + 1])
  }

  /** A pass: one group after another, then all others marked missing. */
  ghost predicate Pass(before: Drives, groups: seq<Group>, now: nat, after: Drives) {
    IdsDiffer(groups) && exists mids :: Through(before, groups, now, mids) && after == Marked(mids[|groups|], Ids(groups))
  }

  /** The groups up to some point merged, the rest still to come. */
  ghost predicate Merging(before: Drives, groups: seq<Group>, i: nat, now: nat, drives: Drives)
    requires i <= |groups|
  {
    && drives.Keys == before.Keys + Ids(groups[..i])
    && (forall id :: id in before && id !in Ids(groups[..i]) ==> drives[id] == before[id])
    && (forall k :: 0 <= k < i ==> groups[k].0 in drives && Becomes(before, groups[k], now, drives[groups[k].0]))
    && (Injective(before) ==> Injective(drives))
  }

  ghost predicate IdsDiffer(groups: seq<Group>) { forall i, j :: 0 <= i < j < |groups| ==> groups[i].0 != groups[j].0 }

  lemma {:induction false} IdsGrow(groups: seq<Group>, i: nat)
    requires i < |groups| && IdsDiffer(groups)
    ensures Ids(groups[..i + 1]) == Ids(groups[..i]) + {groups[i].0} && groups[i].0 !in Ids(groups[..i])
  {
    var a, b := groups[..i], groups[..i + 1];
    assert b == a + [groups[i]];
    forall x ensures x in Ids(b) <==> x in Ids(a) + {groups[i].0} {
      if x in Ids(a) { var g :| g in a && g.0 == x; assert g in b; }
      if x == groups[i].0 { assert groups[i] in b; }
    }
  }

  lemma {:induction false} KeptByUpdate(drives: Drives, id: Id, d: Drive)
    requires Injective(drives)
    requires id in drives && d.inPlaceOf == drives[id].inPlaceOf
    ensures Injective(drives[id := d])
  {
  }

  lemma {:induction false} KeptByNew(drives: Drives, at: Location, id: Id, d: Drive)
    requires Injective(drives) && id !in drives && Replaced(drives, at, d.inPlaceOf)
    ensures Injective(drives[id := d])
  {
    if d.inPlaceOf.Some? { assert Left(drives, at, d.inPlaceOf.value); }
  }

  /** One group more, its drive written. */
  lemma {:induction false} MergeOne(before: Drives, groups: seq<Group>, i: nat, now: nat, drives: Drives, d: Drive)
    requires i < |groups| && IdsDiffer(groups) && Merging(before, groups, i, now, drives)
    requires Becomes(before, groups[i], now, d) && (Injective(drives) ==> Injective(drives[groups[i].0 := d]))
    ensures Merging(before, groups, i + 1, now, drives[groups[i].0 := d])
  {
    IdsGrow(groups, i);
    hide Becomes, Injective, Ids;
    var next := drives[groups[i].0 := d];
    forall k | 0 <= k < i + 1 ensures groups[k].0 in next && Becomes(before, groups[k], now, next[groups[k].0]) {
      if k < i { assert groups[k].0 != groups[i].0; }
    }
  }

  lemma {:induction false} MergeSeen(before: Drives, groups: seq<Group>, i: nat, now: nat, drives: Drives)
    requires i < |groups| && IdsDiffer(groups) && Merging(before, groups, i, now, drives) && groups[i].1 != [] && groups[i].0 in before
    ensures groups[i].0 in drives
    ensures Merging(before, groups, i + 1, now, drives[groups[i].0 := SeenAgain(drives[groups[i].0], groups[i].1, now)])
  {
    IdsGrow(groups, i);
    var d := SeenAgain(drives[groups[i].0], groups[i].1, now);
    if Injective(drives) { KeptByUpdate(drives, groups[i].0, d); }
    assert Becomes(before, groups[i], now, d);
    hide Injective, Ids, Merging, IdsDiffer, Becomes, SeenAgain;
    MergeOne(before, groups, i, now, drives, d);
  }

  lemma {:induction false} MergeNew(before: Drives, groups: seq<Group>, i: nat, now: nat, drives: Drives, r: Option<Id>)
    requires i < |groups| && IdsDiffer(groups) && Merging(before, groups, i, now, drives) && groups[i].1 != [] && groups[i].0 !in drives
    requires Replaced(drives, groups[i].1[0].at, r)
    ensures Merging(before, groups, i + 1, now, drives[groups[i].0 := Drive(PathsOf(groups[i].1), groups[i].1[0].at, Idle, r, now)])
  {
    var d := Drive(PathsOf(groups[i].1), groups[i].1[0].at, Idle, r, now);
    assert groups[i].0 !in before;
    if r.Some? { LeftBefore(before, groups, i, now, drives, groups[i].1[0].at, r.value); }
    if Injective(drives) { KeptByNew(drives, groups[i].1[0].at, groups[i].0, d); }
    assert Becomes(before, groups[i], now, d);
    hide Injective, Ids, Merging, IdsDiffer, Becomes, Replaced;
    MergeOne(before, groups, i, now, drives, d);
  }

  lemma {:induction false} MergedIsHere(before: Drives, groups: seq<Group>, i: nat, now: nat, drives: Drives, o: Id)
    requires i <= |groups| && Merging(before, groups, i, now, drives)
    ensures o in Ids(groups[..i]) ==> drives[o].activity != Missing
  {
    if o in Ids(groups[..i]) {
      var g :| g in groups[..i] && g.0 == o;
      var k :| 0 <= k < i && groups[k] == g;
    }
  }

  /** A drive still missing in the middle of a pass was missing before it. */
  lemma {:induction false} LeftBefore(before: Drives, groups: seq<Group>, i: nat, now: nat, drives: Drives, at: Location, o: Id)
    requires i <= |groups| && Merging(before, groups, i, now, drives) && Left(drives, at, o)
    ensures o in before && before[o].activity == Missing && BayKeyOf(before[o].location) == BayKeyOf(at) != NoBay
  {
    MergedIsHere(before, groups, i, now, drives, o);
  }

  class Inventory {
    var drives: Drives

    constructor ()
      ensures drives == map[]
    {
      drives := map[];
    }

    method MergeObserved(observed: seq<Observed>, now: nat) returns (groups: seq<Group>)
      requires DistinctPaths(observed)
      modifies this
      ensures Grouped(observed, groups) && Pass(old(drives), groups, now, drives)
    {
      groups := GroupObserved(observed);
      GroupsDiffer(observed, groups);
      ghost var mids := [drives];
      hide Grouped, IdsDiffer, Ids, Merges;
      for i := 0 to |groups|
        invariant |mids| == i + 1 && mids[0] == old(drives) && mids[i] == drives
        invariant forall k :: 0 <= k < i ==> Merges(mids[k], groups[k], now, mids[k + 1])
      {
        var id, g := groups[i].0, groups[i].1;
        GroupThere(observed, groups, i);
        ghost var was := drives;
        if id in drives {
          drives := drives[id := SeenAgain(drives[id], g, now)];
        } else {
          var r := ReplacedInBay(drives, g[0].at);
          drives := drives[id := Drive(PathsOf(g), g[0].at, Idle, r, now)];
          assert Enters(was, groups[i], now, r, drives);
        }
        MergesHere(was, groups[i], now, drives);
        mids := mids + [drives];
      }
      drives := Marked(drives, Seen(groups));
      assert Through(old(drives), groups, now, mids);
    }
  }

  lemma {:induction false} MergesHere(drives: Drives, g: Group, now: nat, next: Drives)
    requires g.1 != []
    requires if g.0 in drives then next == drives[g.0 := SeenAgain(drives[g.0], g.1, now)] else exists r :: Enters(drives, g, now, r, next)
    ensures Merges(drives, g, now, next)
  {
  }

  function Seen(groups: seq<Group>): (s: set<Id>)
    ensures s == Ids(groups)
  {
    set g | g in groups :: g.0
  }

  lemma {:induction false} NothingMerged(before: Drives, groups: seq<Group>, now: nat)
    ensures Merging(before, groups, 0, now, before)
  {
  }

  lemma {:induction false} SameIdSameFirst(obs: seq<Observed>, a: Group, b: Group)
    requires GroupOf(obs, a) && GroupOf(obs, b)
    ensures a.0 == b.0 ==> First(a) == First(b)
  {
    if a.0 == b.0 { SameSorted(a.1, b.1); }
  }

  lemma {:induction false} GroupsDiffer(obs: seq<Observed>, groups: seq<Group>)
    requires Grouped(obs, groups)
    ensures IdsDiffer(groups)
  {
    forall i, j | 0 <= i < j < |groups| ensures groups[i].0 != groups[j].0 {
      assert GroupOf(obs, groups[i]) && GroupOf(obs, groups[j]);
      SameIdSameFirst(obs, groups[i], groups[j]);
    }
  }

  lemma {:induction false} GroupThere(obs: seq<Observed>, groups: seq<Group>, i: nat)
    requires Grouped(obs, groups) && i < |groups|
    ensures groups[i].1 != []
  {
    assert GroupOf(obs, groups[i]);
  }

  lemma {:induction false} KnownOrNew(before: Drives, groups: seq<Group>, i: nat, now: nat, drives: Drives)
    requires i < |groups| && IdsDiffer(groups) && Merging(before, groups, i, now, drives)
    ensures groups[i].0 in drives <==> groups[i].0 in before
  {
    IdsGrow(groups, i);
  }

  lemma {:induction false} MarkedInjective(drives: Drives, seen: set<Id>)
    requires Injective(drives)
    ensures Injective(Marked(drives, seen))
  {
    var after := Marked(drives, seen);
    assert forall id :: id in after ==> id in drives && after[id].inPlaceOf == drives[id].inPlaceOf;
  }

  lemma {:induction false} MergedSoFar(before: Drives, groups: seq<Group>, now: nat, mids: seq<Drives>, i: nat)
    requires IdsDiffer(groups) && Through(before, groups, now, mids) && i <= |groups|
    ensures Merging(before, groups, i, now, mids[i])
    decreases i
  {
    hide Merges, Merging, IdsDiffer;
    if i == 0 {
      NothingMerged(before, groups, now);
    } else {
      MergedSoFar(before, groups, now, mids, i - 1);
      MergeNext(before, groups, i - 1, now, mids[i - 1], mids[i]);
    }
  }

  lemma {:induction false} MergeNext(before: Drives, groups: seq<Group>, i: nat, now: nat, drives: Drives, next: Drives)
    requires i < |groups| && IdsDiffer(groups) && Merging(before, groups, i, now, drives) && Merges(drives, groups[i], now, next)
    ensures Merging(before, groups, i + 1, now, next)
  {
    hide Merging, IdsDiffer, SeenAgain, Replaced;
    KnownOrNew(before, groups, i, now, drives);
    if groups[i].0 in drives {
      MergeSeen(before, groups, i, now, drives);
    } else {
      var r :| Enters(drives, groups[i], now, r, next);
      MergeNew(before, groups, i, now, drives, r);
    }
  }

  /** What a pass makes of the inventory, whatever order the groups came in. */
  lemma {:induction false} PassGives(before: Drives, groups: seq<Group>, now: nat, after: Drives)
    requires Pass(before, groups, now, after)
    ensures after.Keys == before.Keys + Ids(groups)
    ensures forall id :: id in before && id !in Ids(groups) ==> after[id] == before[id].(activity := Missing)
    ensures forall g :: g in groups ==> g.0 in after && Becomes(before, g, now, after[g.0])
    ensures Injective(before) ==> Injective(after)
  {
    hide Becomes, Injective, Merges, IdsDiffer;
    var mids :| Through(before, groups, now, mids) && after == Marked(mids[|groups|], Ids(groups));
    var drives: Drives := mids[|groups|];
    MergedSoFar(before, groups, now, mids, |groups|);
    assert groups[..|groups|] == groups;
    assert after.Keys == drives.Keys;
    if Injective(drives) { MarkedInjective(drives, Ids(groups)); }
    forall g | g in groups ensures g.0 in after && Becomes(before, g, now, after[g.0]) {
      assert g.0 in Ids(groups);
      var k :| 0 <= k < |groups| && groups[k] == g;
      assert after[g.0] == drives[g.0];
    }
  }

  /** What a newcomer finds: missing from its bay before the pass, replaced by
      nobody, and not seen by the pass before the newcomer. */
  ghost predicate Free(before: Drives, groups: seq<Group>, i: nat, o: Id)
    requires i < |groups| && groups[i].1 != []
  {
    Left(before, groups[i].1[0].at, o) && o !in Ids(groups[..i])
  }

  /** The group is of a new drive, the first in its bay. */
  ghost predicate FirstInBay(before: Drives, groups: seq<Group>, i: nat)
    requires i < |groups| && forall g :: g in groups ==> g.1 != []
  {
    && groups[i].0 !in before
    && forall k :: 0 <= k < i && groups[k].0 !in before ==>
         BayKeyOf(groups[k].1[0].at) != BayKeyOf(groups[i].1[0].at)
  }

  lemma {:induction false} FreeIsLeft(before: Drives, groups: seq<Group>, i: nat, now: nat, drives: Drives, o: Id)
    requires i < |groups| && (forall g :: g in groups ==> g.1 != []) && FirstInBay(before, groups, i)
    requires Merging(before, groups, i, now, drives)
    ensures Left(drives, groups[i].1[0].at, o) <==> Free(before, groups, i, o)
    ensures Free(before, groups, i, o) ==> o in drives && o in before && drives[o] == before[o]
  {
    var at := groups[i].1[0].at;
    MergedIsHere(before, groups, i, now, drives, o);
    if Left(drives, at, o) {
      forall d | d in before ensures before[d].inPlaceOf != Some(o) { MergedKeeps(before, groups, i, now, drives, d); }
    }
    if Free(before, groups, i, o) {
      forall d | d in drives ensures drives[d].inPlaceOf != Some(o) {
        if d in before {
          MergedKeeps(before, groups, i, now, drives, d);
        } else {
          var g :| g in groups[..i] && g.0 == d;
          var k :| 0 <= k < i && groups[k] == g;
          assert Becomes(before, groups[k], now, drives[d]);
        }
      }
    }
  }

  lemma {:induction false} MergedKeeps(before: Drives, groups: seq<Group>, i: nat, now: nat, drives: Drives, d: Id)
    requires i <= |groups| && Merging(before, groups, i, now, drives) && d in before
    ensures d in drives && drives[d].inPlaceOf == before[d].inPlaceOf
  {
    if d in Ids(groups[..i]) {
      var g :| g in groups[..i] && g.0 == d;
      var k :| 0 <= k < i && groups[k] == g;
    }
  }

  lemma {:induction false} OthersStay(drives: Drives, g: Group, now: nat, next: Drives, id: Id)
    requires Merges(drives, g, now, next)
    ensures g.0 in next
    ensures id != g.0 && id in drives ==> id in next && next[id] == drives[id]
  {
    hide SeenAgain, Replaced;
  }

  lemma {:induction false} WrittenOnce(before: Drives, groups: seq<Group>, now: nat, mids: seq<Drives>, i: nat, j: nat)
    requires IdsDiffer(groups) && Through(before, groups, now, mids) && i < j <= |groups|
    ensures groups[i].0 in mids[i + 1] && groups[i].0 in mids[j] && mids[j][groups[i].0] == mids[i + 1][groups[i].0]
    decreases j
  {
    hide Merges;
    OthersStay(mids[j - 1], groups[j - 1], now, mids[j], groups[i].0);
    if j > i + 1 { WrittenOnce(before, groups, now, mids, i, j - 1); }
  }

  /** Whom the first new drive of a bay stands in for: the last seen of the
      drives free when its turn came, and nobody exactly if none was. */
  lemma {:induction false} NewcomerReplaces(before: Drives, groups: seq<Group>, i: nat, now: nat, after: Drives)
    requires Pass(before, groups, now, after)
    requires i < |groups| && (forall g :: g in groups ==> g.1 != []) && FirstInBay(before, groups, i)
    ensures groups[i].0 in after
    ensures var r := after[groups[i].0].inPlaceOf;
      if r.Some? then Free(before, groups, i, r.value) && forall o :: Free(before, groups, i, o) ==> before[o].lastSeen <= before[r.value].lastSeen
      else forall o :: !Free(before, groups, i, o)
  {
    var mids :| Through(before, groups, now, mids) && after == Marked(mids[|groups|], Ids(groups));
    MergedSoFar(before, groups, now, mids, i);
    KnownOrNew(before, groups, i, now, mids[i]);
    assert Merges(mids[i], groups[i], now, mids[i + 1]);
    var r :| Enters(mids[i], groups[i], now, r, mids[i + 1]);
    WrittenOnce(before, groups, now, mids, i, |groups|);
    forall o
      ensures Left(mids[i], groups[i].1[0].at, o) <==> Free(before, groups, i, o)
      ensures Free(before, groups, i, o) ==> o in mids[i] && o in before && mids[i][o] == before[o]
    {
      FreeIsLeft(before, groups, i, now, mids[i], o);
    }
  }

  // ------------------------------------------------ pass after pass

  /** No drive is ever lost, and after a pass a drive is missing exactly when
      the pass did not see it. */
  lemma {:induction false} NoneLostMissingExactly(before: Drives, groups: seq<Group>, now: nat, after: Drives, id: Id)
    requires Pass(before, groups, now, after)
    ensures id in before ==> id in after
    ensures id in after ==> (after[id].activity == Missing <==> id !in Ids(groups))
  {
    PassGives(before, groups, now, after);
    hide Pass;
    if id in Ids(groups) {
      var g :| g in groups && g.0 == id;
      assert Becomes(before, g, now, after[g.0]);
    }
  }

  lemma {:induction false} IdsObserved(observed: seq<Observed>, groups: seq<Group>, id: Id)
    requires Grouped(observed, groups)
    ensures id in Ids(groups) <==> exists o :: o in observed && o.id == id
  {
    if id in Ids(groups) {
      var g :| g in groups && g.0 == id;
      assert GroupOf(observed, g);
      assert g.1[0] in g.1;
    }
  }

  /** The same of what was observed: after a pass a drive is in the inventory
      if it was before or was observed, and is missing exactly when no
      observation was of it. */
  lemma {:induction false} MissingExactlyUnobserved(
      before: Drives, observed: seq<Observed>, groups: seq<Group>, now: nat, after: Drives, id: Id)
    requires Grouped(observed, groups) && Pass(before, groups, now, after)
    ensures id in after <==> id in before || exists o :: o in observed && o.id == id
    ensures id in after ==> (after[id].activity == Missing <==> forall o :: o in observed ==> o.id != id)
  {
    hide Grouped;
    IdsObserved(observed, groups, id);
    PassGives(before, groups, now, after);
    NoneLostMissingExactly(before, groups, now, after, id);
  }

  function Bay(n: nat): Location { Location(None, None, Some(n), None, None, None, None, None, None) }

  /** One drive left bay 4, and one pass finds it in bay 5 and a new one in bay
      4. The new one stands in for it or for nobody, as their paths sort. */
  lemma {:induction false} PathOrderDecides(after: Drives)
    ensures var before: Drives := map[0 := Drive([9], Bay(4), Missing, None, 3)];
      && (Pass(before, [(1, [Observed(10, 1, Bay(4))]), (0, [Observed(11, 0, Bay(5))])], 6, after) ==>
            1 in after && after[1].inPlaceOf == Some(0) && 0 in after && after[0].activity != Missing)
      && (Pass(before, [(0, [Observed(10, 0, Bay(5))]), (1, [Observed(11, 1, Bay(4))])], 6, after) ==>
            1 in after && after[1].inPlaceOf == None && 0 in after && after[0].activity != Missing)
  {
    var before: Drives := map[0 := Drive([9], Bay(4), Missing, None, 3)];
    var first: seq<Group> := [(1, [Observed(10, 1, Bay(4))]), (0, [Observed(11, 0, Bay(5))])];
    var second: seq<Group> := [(0, [Observed(10, 0, Bay(5))]), (1, [Observed(11, 1, Bay(4))])];
    assert (0, [Observed(11, 0, Bay(5))]) in first && (0, [Observed(10, 0, Bay(5))]) in second;
    assert 0 in Ids(first) && 0 in Ids(second);
    assert Ids(second[..1]) == {0} by { assert second[0] in second[..1]; }
    assert Free(before, first, 0, 0) && !Free(before, second, 1, 0);
    hide Pass;
    if Pass(before, first, 6, after) {
      NewcomerReplaces(before, first, 0, 6, after);
      NoneLostMissingExactly(before, first, 6, after, 0);
    }
    if Pass(before, second, 6, after) {
      NewcomerReplaces(before, second, 1, 6, after);
      NoneLostMissingExactly(before, second, 6, after, 0);
    }
  }

  /** A newcomer stands in only for a drive that was missing from its own bay
      before the pass: never for one of the same number in another shelf. */
  lemma {:induction false} StandsInItsOwnBay(before: Drives, groups: seq<Group>, now: nat, after: Drives, g: Group)
    requires Pass(before, groups, now, after) && g in groups && g.0 !in before && g.1 != []
    ensures g.0 in after
    ensures var at, r := g.1[0].at, after[g.0].inPlaceOf;
      r.Some? ==>
        && r.value in before && before[r.value].activity == Missing
        && var was := before[r.value].location;
        && (if was.bay.Some? || at.bay.Some? then was.bay == at.bay && ShelfName(was) == ShelfName(at)
            else at.pcieSlot.Some? && was.pcieSlot == at.pcieSlot)
        && (was.bay.Some? && KeyOf(was.shelf).Some? && KeyOf(at.shelf).Some? ==> KeyOf(was.shelf) == KeyOf(at.shelf))
  {
    PassGives(before, groups, now, after);
    hide Pass;
    assert Becomes(before, g, now, after[g.0]);
    var r := after[g.0].inPlaceOf;
    if r.Some? { SameBayExactly(before[r.value].location, g.1[0].at); }
  }

  /** Exactly the paths a drive was observed on, in order. */
  ghost predicate PathsAre(paths: seq<nat>, observed: seq<Observed>, id: Id) {
    && paths != [] && (forall i, j :: 0 <= i < j < |paths| ==> paths[i] < paths[j])
    && (forall p :: p in paths <==> exists x :: x in observed && x.id == id && x.path == p)
  }

  lemma {:induction false} PathsObserved(observed: seq<Observed>, g: Group)
    requires GroupOf(observed, g)
    ensures PathsAre(PathsOf(g.1), observed, g.0)
  {
    var paths := PathsOf(g.1);
    forall p ensures p in paths <==> exists x :: x in observed && x.id == g.0 && x.path == p {
      if p in paths {
        var i :| 0 <= i < |paths| && paths[i] == p;
        assert g.1[i] in g.1 && g.1[i].path == p;
      }
      if x :| x in observed && x.id == g.0 && x.path == p {
        assert x in g.1;
        var i :| 0 <= i < |g.1| && g.1[i] == x;
        assert paths[i] == p;
      }
    }
  }

  /** Where a drive is after it was found at `at`: there, if its paths changed
      or it is new; else what was not read this time is kept. */
  function PlacedAt(before: Drives, id: Id, paths: seq<nat>, at: Location): Location {
    if id in before && before[id].paths == paths then Refreshed(before[id].location, at) else at
  }

  ghost predicate PrimaryIs(x: Observed, observed: seq<Observed>, id: Id, paths: seq<nat>) {
    x in observed && x.id == id && paths != [] && x.path == paths[0]
  }

  /** What a pass makes of a drive it observed: its paths are those observed,
      its place that of the first of them; it is seen now and no longer
      missing; what else it was doing, and whom it stands in for, stays. */
  lemma {:induction false} ObservedDrive(
      before: Drives, observed: seq<Observed>, groups: seq<Group>, now: nat, after: Drives, o: Observed)
    requires Grouped(observed, groups) && Pass(before, groups, now, after) && o in observed
    ensures o.id in after
    ensures var d := after[o.id];
      && PathsAre(d.paths, observed, o.id) && d.lastSeen == now
      && (exists x :: PrimaryIs(x, observed, o.id, d.paths) && d.location == PlacedAt(before, o.id, d.paths, x.at))
      && (o.id !in before ==> d.activity == Idle)
      && (o.id in before ==>
            && d.inPlaceOf == before[o.id].inPlaceOf
            && d.activity == (if before[o.id].activity == Missing then Idle else before[o.id].activity))
  {
    var g :| g in groups && g.0 == o.id;
    assert GroupOf(observed, g);
    PathsObserved(observed, g);
    PassGives(before, groups, now, after);
    hide Pass, Grouped, PathsAre;
    assert Becomes(before, g, now, after[g.0]);
    assert PrimaryIs(g.1[0], observed, o.id, after[o.id].paths) by { assert g.1[0] in g.1; }
  }

  /** And of one it did not: nothing but that it is missing. */
  lemma {:induction false} UnobservedDrive(
      before: Drives, observed: seq<Observed>, groups: seq<Group>, now: nat, after: Drives, id: Id)
    requires Grouped(observed, groups) && Pass(before, groups, now, after)
    requires id in before && forall o :: o in observed ==> o.id != id
    ensures id in after && after[id] == before[id].(activity := Missing)
  {
    IdsObserved(observed, groups, id);
    PassGives(before, groups, now, after);
  }

  /** An age for every drive, older ones lower, with a drive younger than the
      one it stands in for. */
  ghost predicate Ranked(drives: Drives, rank: map<Id, nat>, top: nat) {
    && drives.Keys <= rank.Keys && (forall id :: id in rank ==> rank[id] < top)
    && (forall id :: id in drives && drives[id].inPlaceOf.Some? ==>
          var o := drives[id].inPlaceOf.value;
          o in rank && rank[o] < rank[id])
  }

  function Aged(rank: map<Id, nat>, ids: set<Id>, top: nat): map<Id, nat> {
    map id | id in rank.Keys + ids :: if id in rank then rank[id] else top
  }

  lemma {:induction false} PassRanked(before: Drives, groups: seq<Group>, now: nat, after: Drives, rank: map<Id, nat>, top: nat)
    requires Pass(before, groups, now, after) && Ranked(before, rank, top) && rank.Keys == before.Keys
    ensures Ranked(after, Aged(rank, Ids(groups), top), top + 1) && Aged(rank, Ids(groups), top).Keys == after.Keys
  {
    PassGives(before, groups, now, after);
    hide Injective, Pass;
    var aged := Aged(rank, Ids(groups), top);
    forall id | id in after && after[id].inPlaceOf.Some?
      ensures var o := after[id].inPlaceOf.value; o in aged && aged[o] < aged[id]
    {
      if id in before {
        SameStandIn(before, groups, now, after, id);
      } else {
        var g :| g in groups && g.0 == id;
        assert Becomes(before, g, now, after[g.0]);
      }
    }
  }

  lemma {:induction false} SameStandIn(before: Drives, groups: seq<Group>, now: nat, after: Drives, id: Id)
    requires Pass(before, groups, now, after) && id in before
    ensures id in after && after[id].inPlaceOf == before[id].inPlaceOf
  {
    PassGives(before, groups, now, after);
    hide Pass;
    if id in Ids(groups) {
      var g :| g in groups && g.0 == id;
      assert Becomes(before, g, now, after[g.0]);
    }
  }

  ghost predicate Follows(before: Drives, after: Drives) { exists groups, now :: Pass(before, groups, now, after) }

  /** Nobody else stands in for the drive. */
  ghost predicate Unreplaced(drives: Drives, o: Id) {
    forall d :: d in drives && d != o ==> drives[d].inPlaceOf != Some(o)
  }

  /** A drive taken out of the inventory, forgotten or found to be on USB. */
  ghost predicate Removes(before: Drives, o: Id, after: Drives) { o in before && after == before - {o} }

  ghost predicate RemovesUnreplaced(before: Drives, after: Drives) {
    exists o :: Removes(before, o, after) && Unreplaced(before, o)
  }

  /** Passes, and removals of drives nobody stands in for, each from what the
      last one left. */
  ghost predicate Passes(states: seq<Drives>) {
    && states != [] && states[0] == map[]
    && forall k :: 0 <= k < |states| - 1 ==> Follows(states[k], states[k + 1]) || RemovesUnreplaced(states[k], states[k + 1])
  }

  ghost predicate Sound(drives: Drives) {
    Injective(drives) && exists rank: map<Id, nat>, top: nat :: rank.Keys == drives.Keys && Ranked(drives, rank, top)
  }

  lemma {:induction false} PassSound(before: Drives, after: Drives)
    requires Sound(before) && Follows(before, after)
    ensures Sound(after)
  {
    var groups, now :| Pass(before, groups, now, after);
    var rank: map<Id, nat>, top: nat :| rank.Keys == before.Keys && Ranked(before, rank, top);
    PassGives(before, groups, now, after);
    PassRanked(before, groups, now, after, rank, top);
    assert Aged(rank, Ids(groups), top).Keys == after.Keys;
  }

  lemma {:induction false} UnreplacedGoes(before: Drives, o: Id, after: Drives)
    requires Sound(before) && Removes(before, o, after) && Unreplaced(before, o)
    ensures Sound(after)
  {
    var rank: map<Id, nat>, top: nat :| rank.Keys == before.Keys && Ranked(before, rank, top);
    var kept := rank - {o};
    assert kept.Keys == after.Keys && Ranked(after, kept, top);
  }

  /** A removal leaves the stand-ins sound exactly when nobody else stands in
      for the drive removed. */
  lemma {:induction false} RemovalSoundExactly(before: Drives, o: Id, after: Drives)
    requires Sound(before) && Removes(before, o, after)
    ensures Sound(after) <==> Unreplaced(before, o)
  {
    if Unreplaced(before, o) {
      UnreplacedGoes(before, o, after);
    } else {
      hide Injective;
      var d :| d in before && d != o && before[d].inPlaceOf == Some(o);
      assert d in after && after[d].inPlaceOf == Some(o);
    }
  }

  lemma {:induction false} StartSound()
    ensures Sound(map[])
  {
    var rank: map<Id, nat> := map[];
    assert Ranked(map[], rank, 0) && rank.Keys == {};
  }

  /** However many passes and such removals there were: no two drives stand in
      for the same one, and nobody, over any chain of replacements, for
      himself. */
  lemma {:induction false} StandInsSound(states: seq<Drives>)
    requires Passes(states)
    ensures Sound(states[|states| - 1])
    decreases |states|
  {
    hide Sound, Follows, RemovesUnreplaced;
    var n := |states| - 1;
    if n == 0 {
      StartSound();
    } else {
      var earlier := states[..n];
      assert Passes(earlier) by {
        forall k | 0 <= k < |earlier| - 1
          ensures Follows(earlier[k], earlier[k + 1]) || RemovesUnreplaced(earlier[k], earlier[k + 1])
        {
          assert earlier[k] == states[k] && earlier[k + 1] == states[k + 1];
        }
      }
      StandInsSound(earlier);
      assert earlier[n - 1] == states[n - 1];
      assert Follows(states[n - 1], states[n - 1 + 1]) || RemovesUnreplaced(states[n - 1], states[n - 1 + 1]);
      StepSound(states[n - 1], states[n]);
    }
  }

  lemma {:induction false} StepSound(before: Drives, after: Drives)
    requires Sound(before) && (Follows(before, after) || RemovesUnreplaced(before, after))
    ensures Sound(after)
  {
    hide Sound, Unreplaced, Removes, Follows;
    if Follows(before, after) {
      PassSound(before, after);
    } else {
      var o :| Removes(before, o, after) && Unreplaced(before, o);
      RemovalSoundExactly(before, o, after);
    }
  }

  /** A chain of drives, each standing in for the next. */
  ghost predicate Chain(drives: Drives, chain: seq<Id>) {
    && |chain| >= 2 && (forall k :: 0 <= k < |chain| - 1 ==> chain[k] in drives && drives[chain[k]].inPlaceOf == Some(chain[k + 1]))
  }

  lemma {:induction false} ChainFalls(drives: Drives, rank: map<Id, nat>, top: nat, chain: seq<Id>)
    requires Chain(drives, chain) && Ranked(drives, rank, top)
    ensures chain[0] in rank && chain[|chain| - 1] in rank && rank[chain[|chain| - 1]] < rank[chain[0]]
    decreases |chain|
  {
    assert drives[chain[0]].inPlaceOf == Some(chain[1]);
    if |chain| > 2 { ChainFalls(drives, rank, top, chain[1..]); }
  }

  lemma {:induction false} NoCycle(states: seq<Drives>, chain: seq<Id>)
    requires Passes(states) && Chain(states[|states| - 1], chain)
    ensures chain[0] != chain[|chain| - 1]
  {
    StandInsSound(states);
    var drives := states[|states| - 1];
    var rank: map<Id, nat>, top: nat :| rank.Keys == drives.Keys && Ranked(drives, rank, top);
    ChainFalls(drives, rank, top, chain);
  }

  /** A pass that finds one drive, and that a new one. */
  lemma {:induction false} FindsOneNew(before: Drives, o: Observed, now: nat, r: Option<Id>, after: Drives)
    requires o.id !in before && Replaced(before, o.at, r)
    requires after == Marked(before[o.id := Drive([o.path], o.at, Idle, r, now)], {o.id})
    ensures Pass(before, [(o.id, [o])], now, after)
  {
    var g: Group := (o.id, [o]);
    var mid := before[o.id := Drive([o.path], o.at, Idle, r, now)];
    assert PathsOf(g.1) == [o.path];
    hide Replaced, Marked;
    assert Enters(before, g, now, r, mid);
    assert Merges(before, g, now, mid);
    assert Through(before, [g], now, [before, mid]);
    assert g in [g];
    assert Ids([g]) == {o.id};
  }

  lemma {:induction false} FindsNothing(before: Drives)
    ensures Pass(before, [], 0, Marked(before, {}))
  {
    assert Through(before, [], 0, [before]);
    assert Ids([]) == {};
  }

  function DriveSeen(activity: Activity): Drive { Drive([10], Bay(4), activity, None, 3) }

  function DriveInItsPlace(activity: Activity): Drive { Drive([11], Bay(4), activity, Some(0), 5) }

  /** Drive 0 is found in bay 4, then gone; drive 1 is found there, then gone. */
  function FourPasses(): seq<Drives> {
    [map[], map[0 := DriveSeen(Idle)], map[0 := DriveSeen(Missing)], map[0 := DriveSeen(Missing), 1 := DriveInItsPlace(Idle)],
     map[0 := DriveSeen(Missing), 1 := DriveInItsPlace(Missing)]]
  }

  lemma {:induction false} FirstTwoPasses()
    ensures var s := FourPasses(); Follows(s[0], s[1]) && Follows(s[1], s[2])
  {
    var s := FourPasses();
    FindsOneNew(s[0], Observed(10, 0, Bay(4)), 3, None, s[1]);
    FindsNothing(s[1]);
    assert Marked(s[1], {}) == s[2];
    hide Pass;
  }

  lemma {:induction false} LastTwoPasses()
    ensures var s := FourPasses(); Follows(s[2], s[3]) && Follows(s[3], s[4])
  {
    var s := FourPasses();
    assert Left(s[2], Bay(4), 0);
    FindsOneNew(s[2], Observed(11, 1, Bay(4)), 5, Some(0), s[3]);
    FindsNothing(s[3]);
    assert Marked(s[3], {}) == s[4];
    hide Pass;
  }

  lemma {:induction false} PassedFourTimes()
    ensures Passes(FourPasses())
  {
    var s := FourPasses();
    FirstTwoPasses();
    LastTwoPasses();
    hide Follows;
    forall k | 0 <= k < |s| - 1 ensures Follows(s[k], s[k + 1]) {
      assert k == 0 || k == 1 || k == 2 || k == 3;
    }
  }

  /** Forgetting a drive another stands in for does it. After four passes drive
      1 stands in for drive 0 and both are missing; drive 0 is forgotten, and a
      pass finds it in the bay again: each now stands in for the other. */
  lemma {:induction false} ForgettingMakesCycle()
    ensures var before := FourPasses()[4];
      var after: Drives := map[1 := DriveInItsPlace(Missing), 0 := Drive([12], Bay(4), Idle, Some(1), 6)];
      && Passes(FourPasses()) && Sound(before) && !Unreplaced(before, 0)
      && Replaced(before - {0}, Bay(4), Some(1))
      && Pass(before - {0}, [(0, [Observed(12, 0, Bay(4))])], 6, after)
      && Chain(after, [0, 1, 0])
  {
    var before := FourPasses()[4];
    var left: Drives := map[1 := DriveInItsPlace(Missing)];
    var after: Drives := map[1 := DriveInItsPlace(Missing), 0 := Drive([12], Bay(4), Idle, Some(1), 6)];
    PassedFourTimes();
    StandInsSound(FourPasses());
    hide Passes, Sound, Pass;
    assert before[1].inPlaceOf == Some(0);
    assert before - {0} == left;
    assert Left(left, Bay(4), 1);
    FindsOneNew(left, Observed(12, 0, Bay(4)), 6, Some(1), after);
  }

  /** On the same paths and the same shelf a pass keeps the shelf key and loses
      no location field, but for a keyless shelf the pass did not find. */
  lemma {:induction false} LocationKept(before: Drives, groups: seq<Group>, now: nat, after: Drives, g: Group)
    requires Pass(before, groups, now, after) && g in groups && g.0 in before && g.1 != []
    requires before[g.0].paths == PathsOf(g.1) && KeyOf(before[g.0].location.shelf) == KeyOf(g.1[0].at.shelf)
    ensures g.0 in after
    ensures var was, is1 := before[g.0].location, after[g.0].location;
      && KeyOf(is1.shelf) == KeyOf(was.shelf) && FieldsCover(is1, was, g.1[0].at)
      && (was.shelf.Some? && is1.shelf.None? <==> was.shelf.Some? && KeyOf(was.shelf).None? && g.1[0].at.shelf.None?)
      && (was.shelf.Some? && g.1[0].at.shelf.Some? ==> is1.shelf.Some? && ShelfCovers(is1.shelf.value, was.shelf.value, g.1[0].at.shelf.value))
  {
    PassGives(before, groups, now, after);
    hide Pass;
    assert Becomes(before, g, now, after[g.0]);
    RefreshedExactly(before[g.0].location, g.1[0].at);
  }
}
