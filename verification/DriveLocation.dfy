/** Where a drive is: what a rescan may take from what was known before. */
module DriveLocation {
  import opened Common

  datatype Shelf = Shelf(
    id: Option<string>, vendor: Option<string>, model: Option<string>, serial: Option<string>,
    sasAddress: Option<string>, logicalId: Option<string>, position: Option<string>)

  datatype Location = Location(
    controller: Option<string>, shelf: Option<Shelf>, bay: Option<nat>, sasAddress: Option<string>, sasPhy: Option<nat>,
    expander: Option<string>, pcieAddr: Option<string>, pcieSlot: Option<string>, position: Option<string>)

  function Or<T>(a: Option<T>, b: Option<T>): Option<T> { if a.Some? then a else b }

  /** Logical id, else serial, else the sysfs id. */
  function Key(s: Shelf): Option<string> { Or(s.logicalId, Or(s.serial, s.id)) }

  function KeyOf(s: Option<Shelf>): Option<string> { if s.Some? then Key(s.value) else None }

  function MergedShelf(o: Shelf, n: Shelf): Shelf {
    Shelf(Or(n.id, o.id), Or(n.vendor, o.vendor), Or(n.model, o.model), Or(n.serial, o.serial),
          Or(n.sasAddress, o.sasAddress), Or(n.logicalId, o.logicalId), Or(n.position, o.position))
  }

  function Refreshed(was: Location, now: Location): Location {
    if KeyOf(was.shelf) != KeyOf(now.shelf) then now
    else
      Location(
        Or(now.controller, was.controller),
        if was.shelf.Some? && now.shelf.Some? then Some(MergedShelf(was.shelf.value, now.shelf.value)) else now.shelf,
        Or(now.bay, was.bay), Or(now.sasAddress, was.sasAddress), Or(now.sasPhy, was.sasPhy), Or(now.expander, was.expander),
        Or(now.pcieAddr, was.pcieAddr), Or(now.pcieSlot, was.pcieSlot), Or(now.position, was.position))
  }

  /** Everything the one knows, the other knows too, and `now` decides where
      both do. */
  predicate Covers<T(==)>(r: Option<T>, was: Option<T>, now: Option<T>) {
    (now.Some? ==> r == now) && (now.None? ==> r == was)
  }

  predicate ShelfCovers(r: Shelf, was: Shelf, now: Shelf) {
    && Covers(r.id, was.id, now.id) && Covers(r.vendor, was.vendor, now.vendor) && Covers(r.model, was.model, now.model)
    && Covers(r.serial, was.serial, now.serial) && Covers(r.sasAddress, was.sasAddress, now.sasAddress)
    && Covers(r.logicalId, was.logicalId, now.logicalId) && Covers(r.position, was.position, now.position)
  }

  predicate FieldsCover(r: Location, was: Location, now: Location) {
    && Covers(r.controller, was.controller, now.controller) && Covers(r.bay, was.bay, now.bay)
    && Covers(r.sasAddress, was.sasAddress, now.sasAddress) && Covers(r.sasPhy, was.sasPhy, now.sasPhy)
    && Covers(r.expander, was.expander, now.expander) && Covers(r.pcieAddr, was.pcieAddr, now.pcieAddr)
    && Covers(r.pcieSlot, was.pcieSlot, now.pcieSlot) && Covers(r.position, was.position, now.position)
  }

  /** Whatever fields the key came from each time, the merged shelf has it. */
  lemma {:induction false} KeySurvives(was: Shelf, now: Shelf)
    requires Key(was) == Key(now)
    ensures Key(MergedShelf(was, now)) == Key(now)
  {
  }

  /** On the same shelf a refresh loses nothing that was known, outside the
      shelf record or inside it, and keeps the key; on another shelf the
      rescan is taken whole. The one loss: a shelf with no key, when the
      rescan has no shelf. */
  lemma {:induction false} RefreshedExactly(was: Location, now: Location)
    ensures var r := Refreshed(was, now);
      && KeyOf(r.shelf) == KeyOf(now.shelf)
      && (KeyOf(was.shelf) != KeyOf(now.shelf) ==> r == now)
      && (KeyOf(was.shelf) == KeyOf(now.shelf) ==>
            && FieldsCover(r, was, now)
            && (was.shelf.Some? && now.shelf.Some? ==> r.shelf.Some? && ShelfCovers(r.shelf.value, was.shelf.value, now.shelf.value))
            && (was.shelf.Some? && r.shelf.None? <==> was.shelf.Some? && KeyOf(was.shelf).None? && now.shelf.None?))
  {
    if KeyOf(was.shelf) == KeyOf(now.shelf) && was.shelf.Some? && now.shelf.Some? {
      KeySurvives(was.shelf.value, now.shelf.value);
    }
  }

  datatype BayKey = Bay(shelf: string, bay: nat) | Slot(slot: string) | NoBay

  function BayKeyOf(l: Location): BayKey {
    if l.bay.Some? then Bay(if KeyOf(l.shelf).Some? then KeyOf(l.shelf).value else "", l.bay.value)
    else if l.pcieSlot.Some? then Slot(l.pcieSlot.value)
    else NoBay
  }

  /** A shelf's key: its logical id, else its serial, else what sysfs calls it. */
  lemma {:induction false} KeyIs(s: Shelf, k: string)
    ensures Key(s) == Some(k) <==>
      s.logicalId == Some(k) || (s.logicalId.None? && (s.serial == Some(k) || (s.serial.None? && s.id == Some(k))))
    ensures KeyOf(Some(s)) == Key(s) && KeyOf(None) == None
  {
  }

  /** Two drives have been in one bay exactly if they share the bay number and
      what their shelves are called (all shelves without a key being called
      the same), or have no number and share the slot. */
  lemma {:induction false} SameBayExactly(a: Location, b: Location)
    ensures BayKeyOf(a) == BayKeyOf(b) != NoBay <==>
      if a.bay.Some? || b.bay.Some? then a.bay == b.bay && ShelfName(a) == ShelfName(b)
      else a.pcieSlot.Some? && a.pcieSlot == b.pcieSlot
    ensures a.bay.Some? && KeyOf(a.shelf).Some? && KeyOf(b.shelf).Some? && KeyOf(a.shelf) != KeyOf(b.shelf) ==> BayKeyOf(a) != BayKeyOf(b)
  {
  }

  function ShelfName(l: Location): string { if KeyOf(l.shelf).Some? then KeyOf(l.shelf).value else "" }

  /** What tells a move: shelf, bay, controller, slot. */
  predicate MovedTo(was: Location, now: Location) {
    KeyOf(was.shelf) != KeyOf(now.shelf) || was.bay != now.bay || was.controller != now.controller || was.pcieSlot != now.pcieSlot
  }

  /** A pass that reads less on the same shelf never makes a drive move: it
      moves exactly when what was read differs from what was known. */
  lemma {:induction false} RefreshMovesExactly(was: Location, now: Location)
    requires KeyOf(was.shelf) == KeyOf(now.shelf)
    ensures var r := Refreshed(was, now);
      MovedTo(was, r) <==>
        (now.bay.Some? && now.bay != was.bay) || (now.controller.Some? && now.controller != was.controller)
        || (now.pcieSlot.Some? && now.pcieSlot != was.pcieSlot)
  {
    RefreshedExactly(was, now);
  }

  /** Reading the same again changes nothing. */
  lemma {:induction false} RefreshTwice(was: Location, now: Location)
    ensures Refreshed(Refreshed(was, now), now) == Refreshed(was, now)
  {
    RefreshedExactly(was, now);
  }
}
