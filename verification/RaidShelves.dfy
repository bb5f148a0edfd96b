/** A RAID controller's backplanes as shelves: every disk it lists on one of
    them, and found there again from its SCSI address. */
module RaidShelves {
  import opened Common

  const NO_ENCLOSURE: nat := 0xffff
  const NOT_MATCHED: nat := 0xff
  const DEVICES_PER_CHANNEL: nat := 128
  const PD_CHANNELS: nat := 2

  datatype Kind = Disk | Enclosure | OtherKind

  /** One physical device of the controller's list. */
  datatype Pd = Pd(deviceId: nat, enclosure: nat, slot: nat, kind: Kind)

  /** What is on one shelf: slots by device, those whose slot it does not
      say, and those it places in no enclosure. */
  datatype Placed = Placed(bays: map<nat, nat>, notMatched: seq<nat>, noEnclosure: seq<nat>)

  // ------------------------------------------------ which shelf

  function EnclosureEntries(pds: seq<Pd>): set<nat> { set p | p in pds && p.kind == Enclosure :: p.deviceId }

  function EnclosureOf(d: Pd): Option<nat> { if d.enclosure != NO_ENCLOSURE then Some(d.enclosure) else None }

  /** The enclosure of its own, or else the only one the controller lists. */
  ghost predicate BelongsOn(pds: seq<Pd>, d: Pd, e: Option<nat>) {
    if EnclosureOf(d).Some? then e == EnclosureOf(d)
    else if exists x :: EnclosureEntries(pds) == {x} then e.Some? && EnclosureEntries(pds) == {e.value}
    else e == None
  }

  lemma {:induction false} BelongsOnOne(pds: seq<Pd>, d: Pd, e: Option<nat>, f: Option<nat>)
    requires BelongsOn(pds, d, e) && BelongsOn(pds, d, f)
    ensures e == f
  {
    if e.Some? && f.Some? { assert e.value in {e.value} && f.value in {f.value}; }
  }

  /** The only one there is, when there is just one. */
  method OnlyOf<T(==)>(listed: set<T>) returns (only: Option<T>)
    ensures only.Some? <==> exists x :: listed == {x}
    ensures only.Some? ==> listed == {only.value}
  {
    if listed == {} { return None; }
    var x :| x in listed;
    if listed == {x} { return Some(x); }
    only := None;
    assert listed == (listed - {x}) + {x};
    var z :| z in listed - {x};
    assert x in listed && z in listed && x != z;
  }

  function ShelfOf(d: Pd, only: Option<nat>): Option<nat> { if EnclosureOf(d).Some? then EnclosureOf(d) else only }

  lemma {:induction false} ShelfBelongs(pds: seq<Pd>, d: Pd, only: Option<nat>)
    requires only.Some? <==> exists x :: EnclosureEntries(pds) == {x}
    requires only.Some? ==> EnclosureEntries(pds) == {only.value}
    ensures BelongsOn(pds, d, ShelfOf(d, only))
  {
  }

  // ------------------------------------------------ reading the list

  ghost predicate UniqueIds(pds: seq<Pd>) {
    forall i, j :: 0 <= i < j < |pds| && pds[i].kind == Disk && pds[j].kind == Disk ==> pds[i].deviceId != pds[j].deviceId
  }

  /** One disk on a shelf, as that shelf shows it. */
  ghost predicate Shows(p: Placed, d: Pd, e: Option<nat>) {
    && (d.slot == NOT_MATCHED ==> d.deviceId in p.notMatched && d.deviceId !in p.bays)
    && (d.slot != NOT_MATCHED ==> d.deviceId in p.bays && p.bays[d.deviceId] == d.slot && d.deviceId !in p.notMatched)
    && (d.deviceId in p.noEnclosure <==> e.Some? && EnclosureOf(d).None?)
  }

  ghost predicate NotOn(p: Placed, id: nat) { id !in p.bays && id !in p.notMatched && id !in p.noEnclosure }

  /** What a shelf shows of the first `i` devices: exactly the disks on it. */
  ghost predicate ShelfRead(pds: seq<Pd>, i: nat, only: Option<nat>, e: Option<nat>, p: Placed)
    requires i <= |pds|
  {
    && (forall k :: 0 <= k < i && pds[k].kind == Disk && ShelfOf(pds[k], only) == e ==> Shows(p, pds[k], e))
    && (forall id :: (forall k :: 0 <= k < i && pds[k].kind == Disk && ShelfOf(pds[k], only) == e ==> pds[k].deviceId != id) ==> NotOn(p, id))
  }

  function WithDisk(p: Placed, d: Pd, e: Option<nat>): Placed {
    var q := if e.Some? && EnclosureOf(d).None? then p.(noEnclosure := p.noEnclosure + [d.deviceId]) else p;
    if d.slot == NOT_MATCHED then q.(notMatched := q.notMatched + [d.deviceId]) else q.(bays := q.bays[d.deviceId := d.slot])
  }

  lemma {:induction false} PutShows(p: Placed, d: Pd, e: Option<nat>, other: Pd)
    ensures NotOn(p, d.deviceId) ==> Shows(WithDisk(p, d, e), d, e)
    ensures other.deviceId != d.deviceId && Shows(p, other, e) ==> Shows(WithDisk(p, d, e), other, e)
  {
  }

  lemma {:induction false} PutElsewhere(p: Placed, d: Pd, e: Option<nat>, id: nat)
    requires NotOn(p, id) && id != d.deviceId
    ensures NotOn(WithDisk(p, d, e), id)
  {
  }

  lemma {:induction false} OneMore(pds: seq<Pd>, i: nat, only: Option<nat>, e: Option<nat>, p: Placed)
    requires i < |pds| && UniqueIds(pds) && ShelfRead(pds, i, only, e, p) && pds[i].kind == Disk && ShelfOf(pds[i], only) == e
    ensures ShelfRead(pds, i + 1, only, e, WithDisk(p, pds[i], e))
  {
    hide WithDisk, Shows, NotOn, ShelfOf;
    var q := WithDisk(p, pds[i], e);
    assert NotOn(p, pds[i].deviceId);
    forall k | 0 <= k < i + 1 && pds[k].kind == Disk && ShelfOf(pds[k], only) == e ensures Shows(q, pds[k], e) {
      PutShows(p, pds[i], e, pds[k]);
    }
    forall id | (forall k :: 0 <= k < i + 1 && pds[k].kind == Disk && ShelfOf(pds[k], only) == e ==> pds[k].deviceId != id) ensures NotOn(q, id) {
      assert pds[i].deviceId != id;
      PutElsewhere(p, pds[i], e, id);
    }
  }

  method ReadShelf(pds: seq<Pd>, only: Option<nat>, e: Option<nat>) returns (p: Placed)
    requires UniqueIds(pds)
    ensures ShelfRead(pds, |pds|, only, e, p)
  {
    hide WithDisk, UniqueIds, Shows;
    p := Placed(map[], [], []);
    for i := 0 to |pds|
      invariant ShelfRead(pds, i, only, e, p)
    {
      if pds[i].kind == Disk && ShelfOf(pds[i], only) == e {
        OneMore(pds, i, only, e, p);
        p := WithDisk(p, pds[i], e);
      }
    }
  }

  /** The shelves of a controller: those it lists, those its disks are in, and
      one of its own when there would be none. */
  ghost predicate ShelvesAre(pds: seq<Pd>, shelves: map<Option<nat>, Placed>) {
    && shelves != map[]
    && (forall x :: x in EnclosureEntries(pds) ==> Some(x) in shelves)
    && (forall d, e :: d in pds && d.kind == Disk && BelongsOn(pds, d, e) ==> e in shelves)
  }

  /** Each disk on exactly one shelf, with its slot or among the unmatched. */
  ghost predicate AllPlaced(pds: seq<Pd>, shelves: map<Option<nat>, Placed>) {
    forall d :: d in pds && d.kind == Disk ==> OnOne(pds, shelves, d)
  }

  ghost predicate OnOne(pds: seq<Pd>, shelves: map<Option<nat>, Placed>, d: Pd) {
    forall e :: e in shelves ==>
      if BelongsOn(pds, d, e) then Shows(shelves[e], d, e) else NotOn(shelves[e], d.deviceId)
  }

  ghost predicate NothingElse(pds: seq<Pd>, shelves: map<Option<nat>, Placed>) {
    forall e, id :: e in shelves && !NotOn(shelves[e], id) ==> exists d :: d in pds && d.kind == Disk && d.deviceId == id
  }

  function ShelfKeys(pds: seq<Pd>, only: Option<nat>): (keys: set<Option<nat>>)
    ensures keys != {}
    ensures forall x :: x in EnclosureEntries(pds) ==> Some(x) in keys
    ensures forall d :: d in pds && d.kind == Disk ==> ShelfOf(d, only) in keys
  {
    var keys := (set x | x in EnclosureEntries(pds) :: Some(x)) + set d | d in pds && d.kind == Disk :: ShelfOf(d, only);
    if keys == {} then {None} else keys
  }

  method ReadAll(pds: seq<Pd>, only: Option<nat>, keys: set<Option<nat>>) returns (shelves: map<Option<nat>, Placed>)
    requires UniqueIds(pds)
    ensures shelves.Keys == keys && forall e :: e in shelves ==> ShelfRead(pds, |pds|, only, e, shelves[e])
  {
    hide UniqueIds, ShelfRead;
    shelves := map[];
    var left := keys;
    while left != {}
      invariant left <= keys && shelves.Keys == keys - left
      invariant forall e :: e in shelves ==> ShelfRead(pds, |pds|, only, e, shelves[e])
      decreases |left|
    {
      var e :| e in left;
      var p := ReadShelf(pds, only, e);
      shelves := shelves[e := p];
      left := left - {e};
    }
  }

  method Read(pds: seq<Pd>) returns (shelves: map<Option<nat>, Placed>)
    requires UniqueIds(pds)
    ensures ShelvesAre(pds, shelves) && AllPlaced(pds, shelves) && NothingElse(pds, shelves)
  {
    hide UniqueIds, ShelfRead, ShelvesAre, AllPlaced, NothingElse, ShelfKeys;
    var only := OnlyOf(EnclosureEntries(pds));
    shelves := ReadAll(pds, only, ShelfKeys(pds, only));
    ReadPlaces(pds, only, shelves);
    AllShelves(pds, only, shelves);
  }

  lemma {:induction false} AllShelves(pds: seq<Pd>, only: Option<nat>, shelves: map<Option<nat>, Placed>)
    requires only.Some? <==> exists x :: EnclosureEntries(pds) == {x}
    requires only.Some? ==> EnclosureEntries(pds) == {only.value}
    requires shelves.Keys != {}
    requires forall x :: x in EnclosureEntries(pds) ==> Some(x) in shelves
    requires forall d :: d in pds && d.kind == Disk ==> ShelfOf(d, only) in shelves
    ensures ShelvesAre(pds, shelves)
  {
    forall d, e | d in pds && d.kind == Disk && BelongsOn(pds, d, e) ensures e in shelves {
      ShelfBelongs(pds, d, only);
      BelongsOnOne(pds, d, e, ShelfOf(d, only));
    }
  }

  lemma {:induction false} ReadPlaces(pds: seq<Pd>, only: Option<nat>, shelves: map<Option<nat>, Placed>)
    requires UniqueIds(pds)
    requires only.Some? <==> exists x :: EnclosureEntries(pds) == {x}
    requires only.Some? ==> EnclosureEntries(pds) == {only.value}
    requires forall e :: e in shelves ==> ShelfRead(pds, |pds|, only, e, shelves[e])
    ensures AllPlaced(pds, shelves) && NothingElse(pds, shelves)
  {
    forall d | d in pds && d.kind == Disk ensures OnOne(pds, shelves, d) {
      ShelfBelongs(pds, d, only);
      forall e | e in shelves ensures if BelongsOn(pds, d, e) then Shows(shelves[e], d, e) else NotOn(shelves[e], d.deviceId) {
        if BelongsOn(pds, d, e) { BelongsOnOne(pds, d, e, ShelfOf(d, only)); }
        DiskRead(pds, only, e, shelves[e], d);
      }
    }
    forall e, id | e in shelves && !NotOn(shelves[e], id) ensures exists d :: d in pds && d.kind == Disk && d.deviceId == id {
      ListedOnly(pds, only, e, shelves[e], id);
    }
  }

  lemma {:induction false} DiskRead(pds: seq<Pd>, only: Option<nat>, e: Option<nat>, p: Placed, d: Pd)
    requires UniqueIds(pds) && ShelfRead(pds, |pds|, only, e, p) && d in pds && d.kind == Disk
    ensures if ShelfOf(d, only) == e then Shows(p, d, e) else NotOn(p, d.deviceId)
  {
    hide Shows, NotOn, ShelfOf;
    var k :| 0 <= k < |pds| && pds[k] == d;
  }

  lemma {:induction false} ListedOnly(pds: seq<Pd>, only: Option<nat>, e: Option<nat>, p: Placed, id: nat)
    requires ShelfRead(pds, |pds|, only, e, p) && !NotOn(p, id)
    ensures exists d :: d in pds && d.kind == Disk && d.deviceId == id
  {
    hide NotOn, Shows, ShelfOf;
    var k :| 0 <= k < |pds| && pds[k].kind == Disk && ShelfOf(pds[k], only) == e && pds[k].deviceId == id;
    assert pds[k] in pds;
  }

  /** A disk in an enclosure shows on the shelf of that one and nowhere else: in
      its slot, or, if the controller does not say which (255), among the
      unmatched. */
  lemma {:induction false} ShowsInItsEnclosure(pds: seq<Pd>, shelves: map<Option<nat>, Placed>, d: Pd)
    requires ShelvesAre(pds, shelves) && AllPlaced(pds, shelves)
    requires d in pds && d.kind == Disk && d.enclosure != 65535
    ensures Some(d.enclosure) in shelves
    ensures var p := shelves[Some(d.enclosure)];
      && (if d.slot == 255 then d.deviceId in p.notMatched && d.deviceId !in p.bays
          else d.deviceId in p.bays && p.bays[d.deviceId] == d.slot && d.deviceId !in p.notMatched)
      && d.deviceId !in p.noEnclosure
    ensures forall e :: e in shelves && e != Some(d.enclosure) ==> NotOn(shelves[e], d.deviceId)
  {
    assert OnOne(pds, shelves, d);
    assert BelongsOn(pds, d, Some(d.enclosure));
  }

  /** A disk in no enclosure shows on a shelf with one exactly when the
      controller lists exactly one, and then on that one, named as placed in
      none; otherwise on the shelf of no enclosure. */
  lemma {:induction false} JoinsOnlyTheOnlyOne(pds: seq<Pd>, shelves: map<Option<nat>, Placed>, d: Pd)
    requires ShelvesAre(pds, shelves) && AllPlaced(pds, shelves)
    requires d in pds && d.kind == Disk && d.enclosure == 65535
    ensures (exists e :: e in shelves && e.Some? && !NotOn(shelves[e], d.deviceId)) <==> exists x :: EnclosureEntries(pds) == {x}
    ensures forall e :: e in shelves && !NotOn(shelves[e], d.deviceId) ==>
      if e.Some? then EnclosureEntries(pds) == {e.value} && d.deviceId in shelves[e].noEnclosure
      else forall x :: EnclosureEntries(pds) != {x}
    ensures exists e :: e in shelves && !NotOn(shelves[e], d.deviceId)
  {
    assert OnOne(pds, shelves, d);
    if x :| EnclosureEntries(pds) == {x} {
      assert BelongsOn(pds, d, Some(x));
      assert Some(x) in shelves && !NotOn(shelves[Some(x)], d.deviceId);
    } else {
      assert BelongsOn(pds, d, None);
      assert None in shelves && !NotOn(shelves[None], d.deviceId);
    }
  }

  // ------------------------------------------------ finding a disk again

  function DeviceId(channel: nat, target: nat): Option<nat> {
    if channel < PD_CHANNELS then Some(channel * DEVICES_PER_CHANNEL + target) else None
  }

  /** Targets under 128 tell disks apart; a target of 128 does not. */
  lemma {:induction false} DeviceIdTells(c1: nat, t1: nat, c2: nat, t2: nat)
    requires t1 < 128 && t2 < 128 && DeviceId(c1, t1).Some? && DeviceId(c1, t1) == DeviceId(c2, t2)
    ensures c1 == c2 && t1 == t2
    ensures DeviceId(0, 128) == DeviceId(1, 0)
    // a disk is behind one of the first two channels
    ensures forall c :: DeviceId(c, t1).Some? <==> c <= 1
    ensures DeviceId(0, t1) == Some(t1)
  {
  }

  datatype Report = Report(host: string, enclosure: Option<nat>, placed: Placed)

  type Shelves = map<string, Report>

  /** The table holds these shelves of this host, each under a key of its own,
      and no other of that host. */
  ghost predicate TableOf(table: Shelves, host: string, shelves: map<Option<nat>, Placed>, keys: map<Option<nat>, string>) {
    && keys.Keys == shelves.Keys
    && (forall e :: e in shelves ==> keys[e] in table && table[keys[e]] == Report(host, e, shelves[e]))
    && (forall k :: k in table && table[k].host == host ==> table[k].enclosure in shelves && keys[table[k].enclosure] == k)
  }

  /** Reports keyed into a table: with distinct keys none is lost. */
  method IntoTable(host: string, shelves: map<Option<nat>, Placed>, keys: map<Option<nat>, string>, others: Shelves) returns (table: Shelves)
    requires keys.Keys == shelves.Keys
    requires forall e, f :: e in keys && f in keys && e != f ==> keys[e] != keys[f]
    requires forall e :: e in keys ==> keys[e] !in others
    requires forall k :: k in others ==> others[k].host != host
    ensures TableOf(table, host, shelves, keys)
    ensures forall k :: k in others ==> k in table && table[k] == others[k]
  {
    table := others;
    var left := shelves.Keys;
    while left != {}
      invariant left <= shelves.Keys
      invariant forall e :: e in shelves && e !in left ==> keys[e] in table && table[keys[e]] == Report(host, e, shelves[e])
      invariant forall k :: k in table ==> (k in others && table[k] == others[k]) || (table[k].host == host && table[k].enclosure in shelves.Keys - left && keys[table[k].enclosure] == k)
      invariant forall k :: k in others ==> k in table && table[k] == others[k]
      decreases |left|
    {
      var e :| e in left;
      table := table[keys[e] := Report(host, e, shelves[e])];
      left := left - {e};
    }
  }

  ghost predicate Matches(table: Shelves, host: string, id: nat, k: string, bay: Option<nat>) {
    && k in table && table[k].host == host
    && var p := table[k].placed;
    if id in p.bays then bay == Some(p.bays[id]) else id in p.notMatched && bay == None
  }

  ghost predicate Mine(table: Shelves, host: string, k: string) { k in table && table[k].host == host }

  /** The first shelf of the host that names the device. */
  method Naming(table: Shelves, host: string, id: nat) returns (r: Option<(string, Option<nat>)>)
    ensures if exists k, bay :: Matches(table, host, id, k, bay) then r.Some? && Matches(table, host, id, r.value.0, r.value.1) else r == None
  {
    var left := set k | k in table && table[k].host == host;
    while left != {}
      invariant forall k :: k in left ==> k in table && table[k].host == host
      invariant forall k, bay :: Matches(table, host, id, k, bay) ==> k in left
      decreases |left|
    {
      var k :| k in left;
      var p := table[k].placed;
      if id in p.bays {
        assert Matches(table, host, id, k, Some(p.bays[id]));
        return Some((k, Some(p.bays[id])));
      }
      if id in p.notMatched {
        assert Matches(table, host, id, k, None);
        return Some((k, None));
      }
      left := left - {k};
    }
    r := None;
  }

  lemma {:induction false} SingleMeans(s: set<string>, x: string)
    ensures s == {x} <==> (x in s && forall y :: y in s ==> y == x)
  {
    if x in s && forall y :: y in s ==> y == x {
      assert forall y :: y in s <==> y in {x};
    }
  }

  /** The only shelf of the host, if it has just one. */
  method OnlyShelf(table: Shelves, host: string) returns (r: Option<string>)
    ensures if exists k :: Mine(table, host, k) && forall j :: Mine(table, host, j) ==> j == k then r.Some? && Mine(table, host, r.value) else r == None
  {
    var mine := set k | k in table && table[k].host == host;
    r := OnlyOf(mine);
    assert forall k :: Mine(table, host, k) <==> k in mine;
    hide Mine;
    forall k ensures mine == {k} <==> (k in mine && forall j :: j in mine ==> j == k) {
      SingleMeans(mine, k);
    }
  }

  /** The first shelf of the host that names the device, else the only one. */
  method Place(table: Shelves, host: string, channel: nat, target: nat) returns (r: Option<(string, Option<nat>)>)
    ensures var id := DeviceId(channel, target);
      if id.Some? && exists k, bay :: Matches(table, host, id.value, k, bay) then r.Some? && Matches(table, host, id.value, r.value.0, r.value.1)
      else if exists k :: Mine(table, host, k) && forall j :: Mine(table, host, j) ==> j == k then r.Some? && Mine(table, host, r.value.0) && r.value.1 == None
      else r == None
  {
    hide Matches, Mine;
    var id := DeviceId(channel, target);
    if id.Some? {
      r := Naming(table, host, id.value);
      if r.Some? { return; }
    }
    var only := OnlyShelf(table, host);
    r := if only.Some? then Some((only.value, None)) else None;
  }

  /** A disk of the list, looked up by its SCSI address, is on the shelf it
      belongs on and nowhere else, in the bay the controller gave. */
  lemma {:induction false} PlacedWhereItBelongs(pds: seq<Pd>, shelves: map<Option<nat>, Placed>, keys: map<Option<nat>, string>, table: Shelves, host: string,
                             d: Pd, channel: nat, target: nat, k: string, bay: Option<nat>)
    requires ShelvesAre(pds, shelves) && AllPlaced(pds, shelves) && TableOf(table, host, shelves, keys)
    requires d in pds && d.kind == Disk && DeviceId(channel, target) == Some(d.deviceId)
    requires Matches(table, host, d.deviceId, k, bay)
    ensures exists e :: BelongsOn(pds, d, e) && e in shelves && k == keys[e]
    ensures bay == if d.slot == NOT_MATCHED then None else Some(d.slot)
  {
    var e := table[k].enclosure;
    assert OnOne(pds, shelves, d);
    assert table[keys[e]] == Report(host, e, shelves[e]);
    assert BelongsOn(pds, d, e);
  }

  /** And it is always found. */
  lemma {:induction false} DiskIsFound(pds: seq<Pd>, shelves: map<Option<nat>, Placed>, keys: map<Option<nat>, string>, table: Shelves, host: string, d: Pd, e: Option<nat>)
    requires ShelvesAre(pds, shelves) && AllPlaced(pds, shelves) && TableOf(table, host, shelves, keys)
    requires d in pds && d.kind == Disk && BelongsOn(pds, d, e)
    ensures e in shelves && Matches(table, host, d.deviceId, keys[e], if d.slot == NOT_MATCHED then None else Some(d.slot))
  {
    assert OnOne(pds, shelves, d);
  }

  lemma {:induction false} BelongsSomewhere(pds: seq<Pd>, d: Pd)
    ensures exists e :: BelongsOn(pds, d, e)
  {
    if EnclosureOf(d).Some? {
      assert BelongsOn(pds, d, EnclosureOf(d));
    } else if x :| EnclosureEntries(pds) == {x} {
      assert BelongsOn(pds, d, Some(x));
    } else {
      assert BelongsOn(pds, d, None);
    }
  }

  /** A whole lookup: list, shelves, table, address. */
  method Lookup(pds: seq<Pd>, keys: map<Option<nat>, string>, shelves: map<Option<nat>, Placed>, table: Shelves, host: string, ghost d: Pd, channel: nat, target: nat)
    returns (r: Option<(string, Option<nat>)>)
    requires ShelvesAre(pds, shelves) && AllPlaced(pds, shelves) && TableOf(table, host, shelves, keys)
    requires d in pds && d.kind == Disk && DeviceId(channel, target) == Some(d.deviceId)
    ensures r.Some? && exists e :: BelongsOn(pds, d, e) && e in keys && r.value == (keys[e], if d.slot == NOT_MATCHED then None else Some(d.slot))
  {
    BelongsSomewhere(pds, d);
    ghost var e :| BelongsOn(pds, d, e);
    DiskIsFound(pds, shelves, keys, table, host, d, e);
    r := Place(table, host, channel, target);
    PlacedWhereItBelongs(pds, shelves, keys, table, host, d, channel, target, r.value.0, r.value.1);
  }
}
