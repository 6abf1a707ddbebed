/** Whole runs of the repair: what a completed run establishes, and that a second run is idle. */
module RepairRun {
  import opened Wrappers
  import opened Sorting
  import opened KeyOrder
  import opened Catalog
  import opened Repair

  datatype Attribute = Attribute(optionId: string, kind: Kind)

  datatype Variant = Variant(id: string, companyId: nat, sku: string)

  /** The rows a run reads and writes, by company and by variant, and the writes it counts. */
  datatype State = State(
    options: map<nat, seq<AttrOption>>,
    keys: map<string, string>,
    attributes: map<string, seq<Attribute>>,
    created: nat, updated: nat, rekeyed: nat, rewritten: nat)

  /** The i-th id a run generates. */
  type Ids = nat -> string

  function OptionsOf(s: State, companyId: nat): seq<AttrOption> {
    if companyId in s.options then s.options[companyId] else []
  }

  function KeyOf(s: State, v: Variant): string {
    if v.id in s.keys then s.keys[v.id] else ""
  }

  function AttributesOf(s: State, v: Variant): seq<Attribute> {
    if v.id in s.attributes then s.attributes[v.id] else []
  }

  // ---- Options of the companies ----

  function EnsureOption(s: State, companyId: nat, e: CatalogEntry, ids: Ids): State {
    var r := Ensure(OptionsOf(s, companyId), e, ids(s.created));
    s.(options := s.options[companyId := r.options], created := s.created + r.created, updated := s.updated + r.updated)
  }

  function OptionId(s: State, companyId: nat, e: CatalogEntry, ids: Ids): string {
    Ensure(OptionsOf(s, companyId), e, ids(s.created)).id
  }

  function EnsureEntries(s: State, companyId: nat, entries: seq<CatalogEntry>, ids: Ids): State {
    if entries == [] then s
    else
      var s1 := EnsureEntries(s, companyId, entries[..|entries| - 1], ids);
      EnsureOption(s1, companyId, entries[|entries| - 1], ids)
  }

  function EnsureCompanies(s: State, companies: seq<nat>, ids: Ids): State {
    if companies == [] then s
    else EnsureEntries(EnsureCompanies(s, companies[..|companies| - 1], ids), companies[|companies| - 1], CATALOG, ids)
  }

  /** The companies of the scanned variants, each once, in order of appearance. */
  function CompaniesOf(variants: seq<Variant>): (r: seq<nat>)
    ensures forall c :: c in r <==> exists i :: 0 <= i < |variants| && variants[i].companyId == c
  {
    if variants == [] then []
    else
      var front, last := CompaniesOf(variants[..|variants| - 1]), variants[|variants| - 1];
      assert variants == variants[..|variants| - 1] + [last];
      if last.companyId in front then front else front + [last.companyId]
  }

  // ---- One variant ----

  /** The option of the first attribute of a kind. */
  function FirstOf(attributes: seq<Attribute>, kind: Kind): Option<string> {
    if attributes == [] then None
    else if attributes[0].kind == kind then Some(attributes[0].optionId)
    else FirstOf(attributes[1..], kind)
  }

  /** `computeCombinationKey` of two option ids: sorted, joined by a bar. */
  function CombinationKey(a: string, b: string, leq: Order): string {
    if leq(a, b) then a + "|" + b else b + "|" + a
  }

  predicate IsNormalized(s: State, v: Variant) {
    var attributes := AttributesOf(s, v);
    && '|' in KeyOf(s, v) && |attributes| == 2
    && FirstOf(attributes, Color).Some? && FirstOf(attributes, Size).Some?
  }

  /** The options a variant is to have, and the state once they exist. */
  datatype Picked = Picked(s: State, colorId: string, sizeId: string)

  function EnsurePair(s: State, companyId: nat, color: CatalogEntry, size: CatalogEntry, ids: Ids): Picked {
    var s1 := EnsureOption(s, companyId, color, ids);
    Picked(EnsureOption(s1, companyId, size, ids), OptionId(s, companyId, color, ids),
           OptionId(s1, companyId, size, ids))
  }

  /** The entries a variant that is not normalized gets: those its old key or sku names, else the
      fallbacks. */
  function EntriesFor(s: State, v: Variant): (r: (CatalogEntry, CatalogEntry))
    ensures r.0 in ENTRIES && r.1 in ENTRIES
  {
    match Resolve(KeyOf(s, v), v.sku)
    case Some(r) =>
      assert forall e :: e in CATALOG ==> e in ENTRIES;
      r
    case None =>
      assert UNSPECIFIED_COLOR in ENTRIES && UNSPECIFIED_SIZE in ENTRIES;
      (UNSPECIFIED_COLOR, UNSPECIFIED_SIZE)
  }

  function Pick(s: State, v: Variant, ids: Ids): Picked {
    if IsNormalized(s, v) then
      var attributes := AttributesOf(s, v);
      Picked(s, FirstOf(attributes, Color).value, FirstOf(attributes, Size).value)
    else
      EnsurePair(s, v.companyId, EntriesFor(s, v).0, EntriesFor(s, v).1, ids)
  }

  predicate NeedsRewrite(attributes: seq<Attribute>, colorId: string, sizeId: string) {
    |attributes| != 2 || FirstOf(attributes, Color) != Some(colorId) || FirstOf(attributes, Size) != Some(sizeId)
  }

  function Write(s: State, v: Variant, colorId: string, sizeId: string, leq: Order): State {
    var desired := CombinationKey(colorId, sizeId, leq);
    var s1 := if KeyOf(s, v) != desired then s.(keys := s.keys[v.id := desired], rekeyed := s.rekeyed + 1) else s;
    if NeedsRewrite(AttributesOf(s, v), colorId, sizeId) then
      s1.(attributes := s1.attributes[v.id := [Attribute(colorId, Color), Attribute(sizeId, Size)]],
          rewritten := s1.rewritten + 1)
    else s1
  }

  function RepairVariant(s: State, v: Variant, ids: Ids, leq: Order): State {
    var p := Pick(s, v, ids);
    Write(p.s, v, p.colorId, p.sizeId, leq)
  }

  function RepairVariants(s: State, variants: seq<Variant>, ids: Ids, leq: Order): State {
    if variants == [] then s
    else RepairVariant(RepairVariants(s, variants[..|variants| - 1], ids, leq), variants[|variants| - 1], ids, leq)
  }

  /** One run over the scanned variants. */
  function Run(s: State, variants: seq<Variant>, ids: Ids, leq: Order): State {
    RepairVariants(EnsureCompanies(s, CompaniesOf(variants), ids), variants, ids, leq)
  }

  // ---- What holds after a run ----

  ghost predicate CodesUnique(s: State) {
    forall c :: UniqueCodes(OptionsOf(s, c))
  }

  ghost predicate AllSettled(options: seq<AttrOption>, entries: seq<CatalogEntry>) {
    forall i :: 0 <= i < |entries| ==> Settled(options, entries[i])
  }

  /** Exactly one color, exactly one size, nothing else, and the key made of the two. */
  ghost predicate Repaired(s: State, v: Variant, leq: Order) {
    var attributes := AttributesOf(s, v);
    && |attributes| == 2
    && FirstOf(attributes, Color).Some? && FirstOf(attributes, Size).Some?
    && KeyOf(s, v) == CombinationKey(FirstOf(attributes, Color).value, FirstOf(attributes, Size).value, leq)
  }

  /** Options that were settled stay settled, codes stay unique, and no variant is touched. */
  ghost predicate OptionsGrow(s: State, s': State) {
    && CodesUnique(s')
    && (forall c, x :: x in ENTRIES && Settled(OptionsOf(s, c), x) ==> Settled(OptionsOf(s', c), x))
    && s'.keys == s.keys && s'.attributes == s.attributes
  }

  lemma EnsureOptionGrows(s: State, companyId: nat, e: CatalogEntry, ids: Ids)
    requires CodesUnique(s) && e in ENTRIES
    ensures var s' := EnsureOption(s, companyId, e, ids);
      OptionsGrow(s, s') && Settled(OptionsOf(s', companyId), e)
  {
    var s' := EnsureOption(s, companyId, e, ids);
    assert UniqueCodes(OptionsOf(s, companyId));
    EnsureSettles(OptionsOf(s, companyId), e, ids(s.created));
    forall c, x | x in ENTRIES && Settled(OptionsOf(s, c), x) ensures Settled(OptionsOf(s', c), x) {
      if c == companyId {
        EnsureKeepsSettled(OptionsOf(s, c), x, e, ids(s.created));
      }
    }
    forall c ensures UniqueCodes(OptionsOf(s', c)) {
      assert UniqueCodes(OptionsOf(s, c));
    }
  }

  lemma GrowsFurther(s: State, s1: State, s2: State)
    requires OptionsGrow(s, s1) && OptionsGrow(s1, s2)
    ensures OptionsGrow(s, s2)
  {
  }

  lemma SettledGrows(s: State, s': State, c: nat, entries: seq<CatalogEntry>)
    requires OptionsGrow(s, s') && AllSettled(OptionsOf(s, c), entries)
    requires forall i :: 0 <= i < |entries| ==> entries[i] in ENTRIES
    ensures AllSettled(OptionsOf(s', c), entries)
  {
  }

  lemma AllSettledSnoc(options: seq<AttrOption>, entries: seq<CatalogEntry>)
    requires entries != [] && AllSettled(options, entries[..|entries| - 1]) && Settled(options, entries[|entries| - 1])
    ensures AllSettled(options, entries)
  {
    forall i | 0 <= i < |entries| ensures Settled(options, entries[i]) {
      assert i < |entries| - 1 ==> entries[i] == entries[..|entries| - 1][i];
    }
  }

  lemma {:induction false} EnsureEntriesGrows(s: State, companyId: nat, entries: seq<CatalogEntry>, ids: Ids)
    requires CodesUnique(s) && forall i :: 0 <= i < |entries| ==> entries[i] in ENTRIES
    ensures var s' := EnsureEntries(s, companyId, entries, ids);
      OptionsGrow(s, s') && AllSettled(OptionsOf(s', companyId), entries)
  {
    if entries != [] {
      var front, last := entries[..|entries| - 1], entries[|entries| - 1];
      var before, s' := EnsureEntries(s, companyId, front, ids), EnsureEntries(s, companyId, entries, ids);
      EnsureEntriesGrows(s, companyId, front, ids);
      EnsureOptionGrows(before, companyId, last, ids);
      GrowsFurther(s, before, s');
      SettledGrows(before, s', companyId, front);
      AllSettledSnoc(OptionsOf(s', companyId), entries);
    }
  }

  lemma CatalogAreEntries()
    ensures forall i :: 0 <= i < |CATALOG| ==> CATALOG[i] in ENTRIES
  {
    forall i | 0 <= i < |CATALOG| ensures CATALOG[i] in ENTRIES {
      assert ENTRIES[i] == CATALOG[i];
    }
  }

  ghost predicate CatalogSettled(s: State, c: nat) {
    AllSettled(OptionsOf(s, c), CATALOG)
  }

  lemma GrowKeepsCatalog(s: State, s': State, c: nat)
    requires OptionsGrow(s, s') && CatalogSettled(s, c)
    ensures CatalogSettled(s', c)
  {
    CatalogAreEntries();
  }

  lemma {:induction false} EnsureCompaniesGrows(s: State, companies: seq<nat>, ids: Ids)
    requires CodesUnique(s)
    ensures var s' := EnsureCompanies(s, companies, ids);
      OptionsGrow(s, s') && forall c :: c in companies ==> CatalogSettled(s', c)
  {
    if companies != [] {
      var front, last := companies[..|companies| - 1], companies[|companies| - 1];
      var before, s' := EnsureCompanies(s, front, ids), EnsureCompanies(s, companies, ids);
      assert companies == front + [last];
      EnsureCompaniesGrows(s, front, ids);
      CatalogAreEntries();
      EnsureEntriesGrows(before, last, CATALOG, ids);
      forall c | c in companies ensures CatalogSettled(s', c) {
        if c in front {
          GrowKeepsCatalog(before, s', c);
        }
      }
    }
  }

  lemma PickGrows(s: State, v: Variant, ids: Ids)
    requires CodesUnique(s)
    ensures OptionsGrow(s, Pick(s, v, ids).s)
  {
    if !IsNormalized(s, v) {
      var r := EntriesFor(s, v);
      EnsureOptionGrows(s, v.companyId, r.0, ids);
      EnsureOptionGrows(EnsureOption(s, v.companyId, r.0, ids), v.companyId, r.1, ids);
    }
  }

  /** A processed variant is repaired; no other variant changes. */
  lemma RepairVariantRepairs(s: State, v: Variant, ids: Ids, leq: Order)
    requires CodesUnique(s)
    ensures var s' := RepairVariant(s, v, ids, leq);
      && CodesUnique(s') && Repaired(s', v, leq)
      && (forall c :: CatalogSettled(s, c) ==> CatalogSettled(s', c))
      && (forall w: Variant :: w.id != v.id ==>
        KeyOf(s', w) == KeyOf(s, w) && AttributesOf(s', w) == AttributesOf(s, w))
  {
    PickGrows(s, v, ids);
    var p, s' := Pick(s, v, ids), RepairVariant(s, v, ids, leq);
    WriteRepairs(p.s, v, p.colorId, p.sizeId, leq);
    forall c | CatalogSettled(s, c) ensures CatalogSettled(s', c) {
      GrowKeepsCatalog(s, p.s, c);
      assert OptionsOf(s', c) == OptionsOf(p.s, c);
    }
    forall c ensures UniqueCodes(OptionsOf(s', c)) {
      assert OptionsOf(s', c) == OptionsOf(p.s, c);
    }
  }

  lemma WriteRepairs(s: State, v: Variant, colorId: string, sizeId: string, leq: Order)
    ensures var s' := Write(s, v, colorId, sizeId, leq);
      && Repaired(s', v, leq) && s'.options == s.options
      && FirstOf(AttributesOf(s', v), Color) == Some(colorId) && FirstOf(AttributesOf(s', v), Size) == Some(sizeId)
      && (forall w: Variant :: w.id != v.id ==>
        KeyOf(s', w) == KeyOf(s, w) && AttributesOf(s', w) == AttributesOf(s, w))
  {
    var two := [Attribute(colorId, Color), Attribute(sizeId, Size)];
    assert two[1..] == [Attribute(sizeId, Size)];
    assert FirstOf(two, Color) == Some(colorId) && FirstOf(two[1..], Size) == Some(sizeId);
  }

  ghost predicate DistinctIds(variants: seq<Variant>) {
    forall i, j :: 0 <= i < j < |variants| ==> variants[i].id != variants[j].id
  }

  ghost predicate AllRepaired(s: State, variants: seq<Variant>, leq: Order) {
    forall i :: 0 <= i < |variants| ==> Repaired(s, variants[i], leq)
  }

  lemma FrontStaysRepaired(s: State, s': State, front: seq<Variant>, last: Variant, leq: Order)
    requires AllRepaired(s, front, leq) && DistinctIds(front + [last]) && Repaired(s', last, leq)
    requires forall w: Variant :: w.id != last.id ==>
      KeyOf(s', w) == KeyOf(s, w) && AttributesOf(s', w) == AttributesOf(s, w)
    ensures AllRepaired(s', front + [last], leq)
  {
    var all := front + [last];
    forall i | 0 <= i < |all| ensures Repaired(s', all[i], leq) {
      if i < |front| {
        assert all[i].id != all[|front|].id;
        assert Repaired(s, front[i], leq);
      }
    }
  }

  lemma OneMoreRepaired(s: State, front: seq<Variant>, last: Variant, ids: Ids, leq: Order)
    requires CodesUnique(s) && AllRepaired(s, front, leq) && DistinctIds(front + [last])
    ensures var s' := RepairVariant(s, last, ids, leq);
      && CodesUnique(s') && AllRepaired(s', front + [last], leq)
      && (forall c :: CatalogSettled(s, c) ==> CatalogSettled(s', c))
  {
    RepairVariantRepairs(s, last, ids, leq);
    FrontStaysRepaired(s, RepairVariant(s, last, ids, leq), front, last, leq);
  }

  lemma {:induction false} RepairVariantsRepairs(s: State, variants: seq<Variant>, ids: Ids, leq: Order)
    requires CodesUnique(s) && DistinctIds(variants)
    ensures var s' := RepairVariants(s, variants, ids, leq);
      && CodesUnique(s') && AllRepaired(s', variants, leq)
      && (forall c :: CatalogSettled(s, c) ==> CatalogSettled(s', c))
  {
    if variants != [] {
      var front, last := variants[..|variants| - 1], variants[|variants| - 1];
      assert variants == front + [last];
      RepairVariantsRepairs(s, front, ids, leq);
      OneMoreRepaired(RepairVariants(s, front, ids, leq), front, last, ids, leq);
    }
  }

  /** After a completed run every scanned variant has exactly one color and one size and the key
      made of them, and every catalog entry has its option in canonical form in every company. */
  lemma RunRepairs(s: State, variants: seq<Variant>, ids: Ids, leq: Order)
    requires CodesUnique(s) && DistinctIds(variants)
    ensures var s' := Run(s, variants, ids, leq);
      && CodesUnique(s')
      && (forall v :: v in variants ==> Repaired(s', v, leq))
      && (forall v :: v in variants ==> CatalogSettled(s', v.companyId))
  {
    var companies := CompaniesOf(variants);
    EnsureCompaniesGrows(s, companies, ids);
    RepairVariantsRepairs(EnsureCompanies(s, companies, ids), variants, ids, leq);
    forall v | v in variants ensures v.companyId in companies && Repaired(Run(s, variants, ids, leq), v, leq) {
      var i :| 0 <= i < |variants| && variants[i] == v;
    }
  }

  /** The company has the entry's option, in canonical form, under the id. */
  predicate HasOption(options: seq<AttrOption>, e: CatalogEntry, id: string) {
    Canonical(e, id) in options
  }

  lemma EnsureKeepsOption(options: seq<AttrOption>, e: CatalogEntry, id: string, other: CatalogEntry, newId: string)
    requires HasOption(options, e, id) && e in ENTRIES && other in ENTRIES && e != other
    ensures HasOption(Ensure(options, other, newId).options, e, id)
  {
    var i :| 0 <= i < |options| && options[i] == Canonical(e, id);
    CanonicalNotChosen(options, e, other, i);
    assert Ensure(options, other, newId).options[i] == options[i];
  }

  lemma EntriesForKinds(s: State, v: Variant)
    ensures EntriesFor(s, v).0.kind == Color && EntriesFor(s, v).1.kind == Size
  {
    match Resolve(KeyOf(s, v), v.sku)
    case None =>
    case Some(r) =>
      ColorValue(r.0);
      SizeValue(r.1);
      var n :| 0 <= n < |COLORS| && COLORS[n] == r.0;
      var m :| 0 <= m < |SIZES| && SIZES[m] == r.1;
      ColorPlain(n);
      SizePlain(m);
  }

  /** The variant has the options of the two entries, and both exist in canonical form. */
  predicate HasNamed(s: State, v: Variant, named: (CatalogEntry, CatalogEntry)) {
    var attributes, options := AttributesOf(s, v), OptionsOf(s, v.companyId);
    && FirstOf(attributes, Color).Some? && FirstOf(attributes, Size).Some?
    && HasOption(options, named.0, FirstOf(attributes, Color).value)
    && HasOption(options, named.1, FirstOf(attributes, Size).value)
  }

  /** A variant that was not normalized gets the options of exactly the entries its old key or sku
      names, or of the fallbacks, and both options exist in canonical form. */
  lemma RepairedAsNamed(s: State, v: Variant, ids: Ids, leq: Order)
    requires CodesUnique(s) && !IsNormalized(s, v)
    ensures HasNamed(RepairVariant(s, v, ids, leq), v, EntriesFor(s, v))
  {
    var c, color, size := v.companyId, EntriesFor(s, v).0, EntriesFor(s, v).1;
    var s1, p := EnsureOption(s, c, color, ids), Pick(s, v, ids);
    EntriesForKinds(s, v);
    EnsureOptionGrows(s, c, color, ids);
    assert UniqueCodes(OptionsOf(s, c)) && UniqueCodes(OptionsOf(s1, c));
    EnsureSettles(OptionsOf(s, c), color, ids(s.created));
    EnsureSettles(OptionsOf(s1, c), size, ids(s1.created));
    assert HasOption(OptionsOf(s1, c), color, p.colorId);
    EnsureKeepsOption(OptionsOf(s1, c), color, p.colorId, size, ids(s1.created));
    WriteRepairs(p.s, v, p.colorId, p.sizeId, leq);
  }

  /** Options in canonical form keep their form and their ids. */
  ghost predicate OptionsStay(s: State, s': State) {
    forall c, e, id :: e in ENTRIES && HasOption(OptionsOf(s, c), e, id) ==> HasOption(OptionsOf(s', c), e, id)
  }

  lemma EnsureOptionStays(s: State, companyId: nat, e: CatalogEntry, ids: Ids)
    requires CodesUnique(s) && e in ENTRIES
    ensures OptionsStay(s, EnsureOption(s, companyId, e, ids))
  {
    var options, s' := OptionsOf(s, companyId), EnsureOption(s, companyId, e, ids);
    forall c, x, id | x in ENTRIES && HasOption(OptionsOf(s, c), x, id) ensures HasOption(OptionsOf(s', c), x, id) {
      if c == companyId && x == e {
        var i :| 0 <= i < |options| && options[i] == Canonical(e, id);
        assert IsCanonical(options[i], e) && UniqueCodes(options);
        EnsureIdle(options, e, ids(s.created));
      } else if c == companyId {
        EnsureKeepsOption(options, x, id, e, ids(s.created));
      }
    }
  }

  lemma RepairVariantStays(s: State, v: Variant, ids: Ids, leq: Order)
    requires CodesUnique(s)
    ensures OptionsStay(s, RepairVariant(s, v, ids, leq))
  {
    var p := Pick(s, v, ids);
    if !IsNormalized(s, v) {
      var r := EntriesFor(s, v);
      var s1 := EnsureOption(s, v.companyId, r.0, ids);
      EnsureOptionGrows(s, v.companyId, r.0, ids);
      EnsureOptionStays(s, v.companyId, r.0, ids);
      EnsureOptionStays(s1, v.companyId, r.1, ids);
    }
    assert OptionsStay(s, p.s);
    forall c ensures OptionsOf(RepairVariant(s, v, ids, leq), c) == OptionsOf(p.s, c) {
      WriteRepairs(p.s, v, p.colorId, p.sizeId, leq);
    }
  }

  /** The variants processed before leave a variant as it was. */
  lemma {:induction false} UntouchedBefore(s: State, variants: seq<Variant>, v: Variant, ids: Ids, leq: Order)
    requires CodesUnique(s) && forall i :: 0 <= i < |variants| ==> variants[i].id != v.id
    ensures var s' := RepairVariants(s, variants, ids, leq);
      CodesUnique(s') && KeyOf(s', v) == KeyOf(s, v) && AttributesOf(s', v) == AttributesOf(s, v)
  {
    if variants != [] {
      var front, last := variants[..|variants| - 1], variants[|variants| - 1];
      UntouchedBefore(s, front, v, ids, leq);
      RepairVariantRepairs(RepairVariants(s, front, ids, leq), last, ids, leq);
    }
  }

  /** Those processed after leave it with what it got. */
  lemma NamedStays(s: State, v: Variant, w: Variant, named: (CatalogEntry, CatalogEntry), ids: Ids, leq: Order)
    requires CodesUnique(s) && HasNamed(s, v, named) && w.id != v.id && named.0 in ENTRIES && named.1 in ENTRIES
    ensures HasNamed(RepairVariant(s, w, ids, leq), v, named)
  {
    RepairVariantRepairs(s, w, ids, leq);
    RepairVariantStays(s, w, ids, leq);
  }

  lemma {:induction false} VariantsAsNamed(s: State, variants: seq<Variant>, i: nat, ids: Ids, leq: Order)
    requires CodesUnique(s) && DistinctIds(variants) && i < |variants| && !IsNormalized(s, variants[i])
    ensures HasNamed(RepairVariants(s, variants, ids, leq), variants[i], EntriesFor(s, variants[i]))
  {
    var n := |variants| - 1;
    var front, last := variants[..n], variants[n];
    var before := RepairVariants(s, front, ids, leq);
    RepairVariantsRepairs(s, front, ids, leq);
    if i < n {
      assert front[i] == variants[i];
      VariantsAsNamed(s, front, i, ids, leq);
      NamedStays(before, variants[i], last, EntriesFor(s, variants[i]), ids, leq);
    } else {
      UntouchedBefore(s, front, last, ids, leq);
      RepairedAsNamed(before, last, ids, leq);
    }
  }

  /** Every scanned variant that was not normalized before the run ends with the options of exactly
      the entries its old key or sku named then, or of the fallbacks. */
  lemma RunRepairsAsNamed(s: State, variants: seq<Variant>, ids: Ids, leq: Order, v: Variant)
    requires CodesUnique(s) && DistinctIds(variants) && v in variants && !IsNormalized(s, v)
    ensures HasNamed(Run(s, variants, ids, leq), v, EntriesFor(s, v))
  {
    var companies := CompaniesOf(variants);
    EnsureCompaniesGrows(s, companies, ids);
    var i :| 0 <= i < |variants| && variants[i] == v;
    VariantsAsNamed(EnsureCompanies(s, companies, ids), variants, i, ids, leq);
  }

  // ---- The second run ----

  lemma IdleOption(s: State, companyId: nat, e: CatalogEntry, ids: Ids)
    requires UniqueCodes(OptionsOf(s, companyId)) && Settled(OptionsOf(s, companyId), e)
    ensures EnsureOption(s, companyId, e, ids) == s
  {
    EnsureIdle(OptionsOf(s, companyId), e, ids(s.created));
    assert OptionsOf(s, companyId) != [];
    assert s.options[companyId := OptionsOf(s, companyId)] == s.options;
  }

  lemma {:induction false} IdleEntries(s: State, companyId: nat, entries: seq<CatalogEntry>, ids: Ids)
    requires UniqueCodes(OptionsOf(s, companyId)) && AllSettled(OptionsOf(s, companyId), entries)
    ensures EnsureEntries(s, companyId, entries, ids) == s
  {
    if entries != [] {
      var front, last := entries[..|entries| - 1], entries[|entries| - 1];
      assert forall i :: 0 <= i < |front| ==> front[i] == entries[i];
      IdleEntries(s, companyId, front, ids);
      IdleOption(s, companyId, last, ids);
    }
  }

  lemma {:induction false} IdleCompanies(s: State, companies: seq<nat>, ids: Ids)
    requires CodesUnique(s) && forall c :: c in companies ==> CatalogSettled(s, c)
    ensures EnsureCompanies(s, companies, ids) == s
  {
    if companies != [] {
      var front, last := companies[..|companies| - 1], companies[|companies| - 1];
      assert companies == front + [last];
      IdleCompanies(s, front, ids);
      assert UniqueCodes(OptionsOf(s, last)) && CatalogSettled(s, last);
      IdleEntries(s, last, CATALOG, ids);
    }
  }

  lemma KeyHasBar(a: string, b: string, leq: Order)
    ensures '|' in CombinationKey(a, b, leq)
  {
    assert (a + "|" + b)[|a|] == '|' && (b + "|" + a)[|b|] == '|';
  }

  lemma IdleVariant(s: State, v: Variant, ids: Ids, leq: Order)
    requires Repaired(s, v, leq)
    ensures RepairVariant(s, v, ids, leq) == s
  {
    var attributes := AttributesOf(s, v);
    KeyHasBar(FirstOf(attributes, Color).value, FirstOf(attributes, Size).value, leq);
  }

  lemma {:induction false} IdleVariants(s: State, variants: seq<Variant>, ids: Ids, leq: Order)
    requires forall v :: v in variants ==> Repaired(s, v, leq)
    ensures RepairVariants(s, variants, ids, leq) == s
  {
    if variants != [] {
      var front, last := variants[..|variants| - 1], variants[|variants| - 1];
      assert variants == front + [last];
      IdleVariants(s, front, ids, leq);
      IdleVariant(s, last, ids, leq);
    }
  }

  /** The same rows, read back in any order; the counts of writes start anew. */
  ghost predicate SameRows(s: State, t: State) {
    && t.keys == s.keys
    && (forall c :: multiset(OptionsOf(t, c)) == multiset(OptionsOf(s, c)))
    && (forall v :: multiset(AttributesOf(t, v)) == multiset(AttributesOf(s, v)))
  }

  lemma SettledAnyOrder(a: seq<AttrOption>, b: seq<AttrOption>, e: CatalogEntry)
    requires multiset(a) == multiset(b) && Settled(a, e)
    ensures Settled(b, e)
  {
    var i :| 0 <= i < |a| && IsCanonical(a[i], e);
    assert a[i] in multiset(b);
    var j :| 0 <= j < |b| && b[j] == a[i];
    assert IsCanonical(b[j], e);
  }

  lemma OnceInMultiset(a: seq<AttrOption>, i: nat, j: nat)
    requires i < j < |a|
    ensures multiset(a) >= multiset{a[i], a[j]}
  {
    assert a == a[..i] + [a[i]] + a[i + 1..j] + [a[j]] + a[j + 1..];
  }

  lemma UniqueAnyOrder(a: seq<AttrOption>, b: seq<AttrOption>)
    requires multiset(a) == multiset(b) && UniqueCodes(a)
    ensures UniqueCodes(b)
  {
    forall i, j | 0 <= i < j < |b| ensures b[i].kind != b[j].kind || b[i].code != b[j].code {
      OnceInMultiset(b, i, j);
      TwoPlaces(a, b[i], b[j]);
    }
  }

  /** Two occurrences in a list have two places. */
  lemma {:induction false} TwoPlaces(a: seq<AttrOption>, x: AttrOption, y: AttrOption)
    requires multiset(a) >= multiset{x, y}
    ensures exists i, j :: 0 <= i < |a| && 0 <= j < |a| && i != j && a[i] == x && a[j] == y
  {
    assert x in multiset(a);
    var i :| 0 <= i < |a| && a[i] == x;
    var rest := a[..i] + a[i + 1..];
    assert a == a[..i] + [a[i]] + a[i + 1..];
    assert multiset(a) == multiset(rest) + multiset{x};
    assert y in multiset(rest);
    var k :| 0 <= k < |rest| && rest[k] == y;
    var j := if k < i then k else k + 1;
    assert a[j] == y;
  }

  lemma FirstOfTwo(x: Attribute, y: Attribute, kind: Kind)
    ensures FirstOf([x, y], kind)
         == if x.kind == kind then Some(x.optionId) else if y.kind == kind then Some(y.optionId) else None
  {
    assert [x, y][1..] == [y] && FirstOf([y][1..], kind) == None;
    assert FirstOf([y], kind) == if y.kind == kind then Some(y.optionId) else None;
  }

  lemma SamePair(x: Attribute, y: Attribute, u: Attribute, v: Attribute)
    requires multiset{x, y} == multiset{u, v}
    ensures (x == u && y == v) || (x == v && y == u)
  {
    assert u in multiset{x, y};
    assert multiset{u, v} - multiset{u} == multiset{v};
    if u == x {
      assert multiset{x, y} - multiset{x} == multiset{y};
      assert v in multiset{y};
    } else {
      assert multiset{x, y} - multiset{y} == multiset{x};
      assert v in multiset{x};
    }
  }

  lemma SwappedOrSame(a: seq<Attribute>, b: seq<Attribute>)
    requires multiset(a) == multiset(b) && |a| == 2
    ensures a == [a[0], a[1]] && (b == [a[0], a[1]] || b == [a[1], a[0]])
  {
    assert |multiset(a)| == |multiset(b)|;
    assert a == [a[0], a[1]] && b == [b[0], b[1]];
    SamePair(a[0], a[1], b[0], b[1]);
  }

  /** With one color and one size, each is found in either order. */
  lemma FirstAnyOrder(a: seq<Attribute>, b: seq<Attribute>)
    requires multiset(a) == multiset(b) && |a| == 2
    requires FirstOf(a, Color).Some? && FirstOf(a, Size).Some?
    ensures |b| == 2 && FirstOf(b, Color) == FirstOf(a, Color) && FirstOf(b, Size) == FirstOf(a, Size)
  {
    SwappedOrSame(a, b);
    FirstOfTwo(a[0], a[1], Color);
    FirstOfTwo(a[0], a[1], Size);
    FirstOfTwo(a[1], a[0], Color);
    FirstOfTwo(a[1], a[0], Size);
  }

  /** A second run, whatever order the database returns the rows in, writes nothing and leaves
      everything as it is. */
  lemma SecondRunWritesNothing(s: State, t: State, variants: seq<Variant>, again: seq<Variant>, ids: Ids, ids': Ids,
                               leq: Order)
    requires CodesUnique(s) && DistinctIds(variants)
    requires SameRows(Run(s, variants, ids, leq), t) && forall v :: v in again ==> v in variants
    ensures Run(t, again, ids', leq) == t
  {
    var s' := Run(s, variants, ids, leq);
    RunRepairs(s, variants, ids, leq);
    forall c ensures UniqueCodes(OptionsOf(t, c)) {
      UniqueAnyOrder(OptionsOf(s', c), OptionsOf(t, c));
    }
    forall v | v in again ensures Repaired(t, v, leq) && CatalogSettled(t, v.companyId) {
      FirstAnyOrder(AttributesOf(s', v), AttributesOf(t, v));
      forall i | 0 <= i < |CATALOG| ensures Settled(OptionsOf(t, v.companyId), CATALOG[i]) {
        SettledAnyOrder(OptionsOf(s', v.companyId), OptionsOf(t, v.companyId), CATALOG[i]);
      }
    }
    IdleCompanies(t, CompaniesOf(again), ids');
    IdleVariants(t, again, ids', leq);
  }

  /** The key does not depend on the order of its two ids. */
  lemma KeyIgnoresOrder(a: string, b: string, leq: Order)
    requires TotalOrder(leq)
    ensures CombinationKey(a, b, leq) == CombinationKey(b, a, leq)
  {
  }
}
