/** The repair of variant attribute links: it brings the catalog options of every company into their
    canonical form, then gives every variant one color, one size and the key made of the two. */
module Repair {
  import opened Wrappers
  import opened Catalog

  datatype AttrOption = AttrOption(
    id: string, kind: Kind, code: string, value: string, swatch: Option<string>, sortOrder: int, active: bool)

  // ---- One option ----

  predicate HasCode(o: AttrOption, e: CatalogEntry) {
    o.kind == e.kind && o.code == e.code
  }

  /** The option's value is recognized as the entry. */
  predicate ReadsAs(o: AttrOption, e: CatalogEntry) {
    o.kind == e.kind && Find(e.kind, o.value).Some? && Find(e.kind, o.value).value.code == e.code
  }

  function FirstWithCode(options: seq<AttrOption>, e: CatalogEntry): (i: nat)
    ensures i <= |options| && (i < |options| ==> HasCode(options[i], e))
    ensures forall j :: 0 <= j < i ==> !HasCode(options[j], e)
  {
    if options == [] then 0
    else if HasCode(options[0], e) then 0
    else 1 + FirstWithCode(options[1..], e)
  }

  function FirstReadingAs(options: seq<AttrOption>, e: CatalogEntry): (i: nat)
    ensures i <= |options| && (i < |options| ==> ReadsAs(options[i], e))
    ensures forall j :: 0 <= j < i ==> !ReadsAs(options[j], e)
  {
    if options == [] then 0
    else if ReadsAs(options[0], e) then 0
    else 1 + FirstReadingAs(options[1..], e)
  }

  /** The option that stands for the entry: by code, else by value, else none. */
  function Chosen(options: seq<AttrOption>, e: CatalogEntry): (i: nat)
    ensures i <= |options|
  {
    var i := FirstWithCode(options, e);
    if i < |options| then i else FirstReadingAs(options, e)
  }

  predicate CodeOwned(options: seq<AttrOption>, e: CatalogEntry, id: string) {
    exists j :: 0 <= j < |options| && options[j].id != id && HasCode(options[j], e)
  }

  function Canonical(e: CatalogEntry, id: string): AttrOption {
    AttrOption(id, e.kind, e.code, e.value, e.swatch, e.sortOrder, true)
  }

  /** The chosen option after normalizing; its code stays when another option owns the entry's. */
  function Normalized(options: seq<AttrOption>, o: AttrOption, e: CatalogEntry): AttrOption {
    o.(code := if CodeOwned(options, e, o.id) then o.code else e.code,
       value := e.value, swatch := e.swatch, sortOrder := e.sortOrder, active := true)
  }

  /** What `ensureOption` leaves: the company's options, the id it answers, and its writes. */
  datatype Ensured = Ensured(options: seq<AttrOption>, id: string, created: nat, updated: nat)

  function Ensure(options: seq<AttrOption>, e: CatalogEntry, newId: string): Ensured {
    var i := Chosen(options, e);
    if i == |options| then Ensured(options + [Canonical(e, newId)], newId, 1, 0)
    else
      var o := Normalized(options, options[i], e);
      Ensured(options[i := o], o.id, 0, if o == options[i] then 0 else 1)
  }

  /** The unique index on company, kind and code. */
  ghost predicate UniqueCodes(options: seq<AttrOption>) {
    forall i, j :: 0 <= i < j < |options| ==> options[i].kind != options[j].kind || options[i].code != options[j].code
  }

  predicate IsCanonical(o: AttrOption, e: CatalogEntry) {
    o == Canonical(e, o.id)
  }

  ghost predicate Settled(options: seq<AttrOption>, e: CatalogEntry) {
    exists i :: 0 <= i < |options| && IsCanonical(options[i], e)
  }

  /** Wherever it was found, the option ends up in canonical form, and codes stay unique. */
  lemma EnsureSettles(options: seq<AttrOption>, e: CatalogEntry, newId: string)
    requires UniqueCodes(options)
    ensures var r := Ensure(options, e, newId);
      && UniqueCodes(r.options) && Settled(r.options, e)
      && exists i :: 0 <= i < |r.options| && IsCanonical(r.options[i], e) && r.options[i].id == r.id
  {
    var r, i := Ensure(options, e, newId), Chosen(options, e);
    if i == |options| {
      assert IsCanonical(r.options[i], e);
      assert forall j :: 0 <= j < |options| ==> !HasCode(options[j], e);
    } else {
      assert !CodeOwned(options, e, options[i].id) || options[i].code == e.code;
      assert IsCanonical(r.options[i], e) && r.options[i].id == r.id;
      assert forall j :: 0 <= j < |options| && j != i ==> !HasCode(options[j], e);
    }
  }

  /** Two different entries never stand for the same option: a canonical option of one is not
      chosen, and so not changed, for the other. */
  lemma CanonicalNotChosen(options: seq<AttrOption>, e: CatalogEntry, other: CatalogEntry, i: nat)
    requires i < |options| && IsCanonical(options[i], e)
    requires e in ENTRIES && other in ENTRIES && e != other
    ensures Chosen(options, other) != i
  {
    if e.kind == other.kind {
      EntriesHaveOwnCodes(e, other);
      EntryReadsAsItself(e);
    }
  }

  lemma EntriesHaveOwnCodes(e: CatalogEntry, other: CatalogEntry)
    requires e in ENTRIES && other in ENTRIES && e != other && e.kind == other.kind
    ensures e.code != other.code
  {
    var i :| 0 <= i < |ENTRIES| && ENTRIES[i] == e;
    var j :| 0 <= j < |ENTRIES| && ENTRIES[j] == other;
    if i < j {
      CodesDiffer(i, j);
    } else {
      CodesDiffer(j, i);
    }
  }

  /** A catalog value is recognized as its own entry, the fallback value as none. */
  lemma EntryReadsAsItself(e: CatalogEntry)
    requires e in ENTRIES
    ensures Find(e.kind, e.value) in {Some(e), None}
  {
    if e in CATALOG {
      FindsItself(e);
    } else {
      UnspecifiedNotFound(e.kind);
    }
  }

  /** Normalizing for one entry is never undone for another. */
  lemma EnsureKeepsSettled(options: seq<AttrOption>, e: CatalogEntry, other: CatalogEntry, newId: string)
    requires UniqueCodes(options) && Settled(options, e) && e in ENTRIES && other in ENTRIES
    ensures Settled(Ensure(options, other, newId).options, e)
  {
    if e == other {
      EnsureSettles(options, e, newId);
    } else {
      var i :| 0 <= i < |options| && IsCanonical(options[i], e);
      CanonicalNotChosen(options, e, other, i);
      assert IsCanonical(Ensure(options, other, newId).options[i], e);
    }
  }

  /** A settled entry is found by its code and left as it is. */
  lemma EnsureIdle(options: seq<AttrOption>, e: CatalogEntry, newId: string)
    requires UniqueCodes(options) && Settled(options, e)
    ensures var r := Ensure(options, e, newId);
      r.options == options && r.created == 0 && r.updated == 0
  {
    var i :| 0 <= i < |options| && IsCanonical(options[i], e);
    var c := Chosen(options, e);
    assert HasCode(options[i], e);
    assert c == i;
    assert Normalized(options, options[i], e) == options[i];
  }
}
