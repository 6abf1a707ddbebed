/** What a repair run does to the rows, said of the rows alone. */
module RepairEffects {
  import opened Wrappers
  import opened Strings
  import opened Sorting
  import opened KeyOrder
  import opened Catalog
  import opened Repair
  import opened RepairRun

  // ---- Keys ----

  /** The key is the two ids in order, with a bar between them. */
  lemma KeyText(a: string, b: string, leq: Order)
    ensures leq(a, b) ==> CombinationKey(a, b, leq) == a + "|" + b
    ensures !leq(a, b) ==> CombinationKey(a, b, leq) == b + "|" + a
  {
  }

  lemma BarSplits(a: string, b: string, c: string, d: string)
    requires '|' !in a && '|' !in c && a + "|" + b == c + "|" + d
    ensures a == c && b == d
  {
    CutIsUnique(a, b, c, d, '|');
  }

  /** Two pairs of ids without a bar have one key exactly when they are the same pair, in either order. */
  lemma KeyDeterminesIds(a: string, b: string, c: string, d: string, leq: Order)
    requires TotalOrder(leq) && '|' !in a && '|' !in b && '|' !in c && '|' !in d
    ensures CombinationKey(a, b, leq) == CombinationKey(c, d, leq) <==> (a == c && b == d) || (a == d && b == c)
  {
    if CombinationKey(a, b, leq) == CombinationKey(c, d, leq) {
      BarSplitsEither(if leq(a, b) then (a, b) else (b, a), if leq(c, d) then (c, d) else (d, c));
    } else {
      KeyIgnoresOrder(a, b, leq);
    }
  }

  lemma BarSplitsEither(x: (string, string), y: (string, string))
    requires '|' !in x.0 && '|' !in y.0 && x.0 + "|" + x.1 == y.0 + "|" + y.1
    ensures x == y
  {
    BarSplits(x.0, x.1, y.0, y.1);
  }

  // ---- Options ----

  /** A row that is what the catalog says: kind, code, value, color sample and place, and active. */
  predicate AsInCatalog(o: AttrOption, e: CatalogEntry) {
    && o.kind == e.kind && o.code == e.code && o.value == e.value
    && o.swatch == e.swatch && o.sortOrder == e.sortOrder && o.active
  }

  lemma CanonicalMeans(o: AttrOption, e: CatalogEntry)
    ensures IsCanonical(o, e) <==> AsInCatalog(o, e)
  {
  }

  /** After a run every company of a scanned variant has every catalog option, as in the catalog, and no
      two options of a company share kind and code. */
  lemma RunSettlesCatalog(s: State, variants: seq<Variant>, ids: Ids, leq: Order, v: Variant, e: CatalogEntry)
    requires CodesUnique(s) && DistinctIds(variants) && v in variants && e in CATALOG
    ensures exists o :: o in OptionsOf(Run(s, variants, ids, leq), v.companyId) && AsInCatalog(o, e)
    ensures UniqueCodes(OptionsOf(Run(s, variants, ids, leq), v.companyId))
  {
    var options := OptionsOf(Run(s, variants, ids, leq), v.companyId);
    RunRepairs(s, variants, ids, leq);
    var n :| 0 <= n < |CATALOG| && CATALOG[n] == e;
    assert Settled(options, e);
    var i :| 0 <= i < |options| && IsCanonical(options[i], e);
    CanonicalMeans(options[i], e);
    assert options[i] in options;
  }

  // ---- Variants that are linked already ----

  /** The key holds a bar, and there are two attributes, one color and one size. */
  predicate WellLinked(key: string, attributes: seq<Attribute>) {
    && '|' in key && |attributes| == 2
    && ((attributes[0].kind == Color && attributes[1].kind == Size)
        || (attributes[0].kind == Size && attributes[1].kind == Color))
  }

  lemma NormalizedMeans(s: State, v: Variant)
    ensures IsNormalized(s, v) <==> WellLinked(KeyOf(s, v), AttributesOf(s, v))
  {
    var attributes := AttributesOf(s, v);
    if |attributes| == 2 {
      assert attributes == [attributes[0], attributes[1]];
      FirstOfTwo(attributes[0], attributes[1], Color);
      FirstOfTwo(attributes[0], attributes[1], Size);
    }
  }

  /** What a repaired variant looks like: one color, one size, and the key made of the two ids. */
  predicate LinkedAs(key: string, attributes: seq<Attribute>, colorId: string, sizeId: string, leq: Order) {
    && |attributes| == 2
    && (attributes == [Attribute(colorId, Color), Attribute(sizeId, Size)]
        || attributes == [Attribute(sizeId, Size), Attribute(colorId, Color)])
    && key == CombinationKey(colorId, sizeId, leq)
  }

  lemma FirstsOfLinked(attributes: seq<Attribute>)
    requires |attributes| == 2 && FirstOf(attributes, Color).Some? && FirstOf(attributes, Size).Some?
    ensures var colorId, sizeId := FirstOf(attributes, Color).value, FirstOf(attributes, Size).value;
      || attributes == [Attribute(colorId, Color), Attribute(sizeId, Size)]
      || attributes == [Attribute(sizeId, Size), Attribute(colorId, Color)]
  {
    assert attributes == [attributes[0], attributes[1]];
    FirstOfTwo(attributes[0], attributes[1], Color);
    FirstOfTwo(attributes[0], attributes[1], Size);
  }

  lemma StepKeepsLinked(s: State, v: Variant, ids: Ids, leq: Order)
    requires IsNormalized(s, v)
    ensures AttributesOf(RepairVariant(s, v, ids, leq), v) == AttributesOf(s, v)
  {
  }

  lemma OtherKeepsAttributes(s: State, w: Variant, v: Variant, ids: Ids, leq: Order)
    requires CodesUnique(s) && w.id != v.id
    ensures AttributesOf(RepairVariant(s, w, ids, leq), v) == AttributesOf(s, v)
  {
    RepairVariantRepairs(s, w, ids, leq);
  }

  lemma FirstsKeepCodes(s: State, front: seq<Variant>, ids: Ids, leq: Order)
    requires CodesUnique(s) && DistinctIds(front)
    ensures CodesUnique(RepairVariants(s, front, ids, leq))
  {
    RepairVariantsRepairs(s, front, ids, leq);
  }

  lemma LastKeepsAttributes(s: State, front: seq<Variant>, last: Variant, ids: Ids, leq: Order)
    requires CodesUnique(s) && IsNormalized(s, last)
    requires forall i :: 0 <= i < |front| ==> front[i].id != last.id
    ensures AttributesOf(RepairVariant(RepairVariants(s, front, ids, leq), last, ids, leq), last)
         == AttributesOf(s, last)
  {
    UntouchedBefore(s, front, last, ids, leq);
    StepKeepsLinked(RepairVariants(s, front, ids, leq), last, ids, leq);
  }

  lemma {:induction false} RunKeepsAttributes(s: State, variants: seq<Variant>, i: nat, ids: Ids, leq: Order)
    requires CodesUnique(s) && DistinctIds(variants) && i < |variants| && IsNormalized(s, variants[i])
    ensures AttributesOf(RepairVariants(s, variants, ids, leq), variants[i]) == AttributesOf(s, variants[i])
  {
    var n := |variants| - 1;
    var front, last := variants[..n], variants[n];
    if i < n {
      assert front[i] == variants[i];
      RunKeepsAttributes(s, front, i, ids, leq);
      FirstsKeepCodes(s, front, ids, leq);
      OtherKeepsAttributes(RepairVariants(s, front, ids, leq), last, variants[i], ids, leq);
    } else {
      LastKeepsAttributes(s, front, last, ids, leq);
    }
  }

  /** A scanned variant that is linked already keeps its color and its size; only its key is made of them
      again. */
  lemma LinkedKeepsOptions(s: State, variants: seq<Variant>, ids: Ids, leq: Order, v: Variant)
    requires CodesUnique(s) && DistinctIds(variants) && v in variants
    requires WellLinked(KeyOf(s, v), AttributesOf(s, v))
    ensures var s' := Run(s, variants, ids, leq);
      && AttributesOf(s', v) == AttributesOf(s, v)
      && exists colorId, sizeId :: LinkedAs(KeyOf(s', v), AttributesOf(s', v), colorId, sizeId, leq)
  {
    var companies := CompaniesOf(variants);
    EnsureCompaniesGrows(s, companies, ids);
    var i :| 0 <= i < |variants| && variants[i] == v;
    NormalizedMeans(s, v);
    RunKeepsAttributes(EnsureCompanies(s, companies, ids), variants, i, ids, leq);
    RunLinks(s, variants, ids, leq, v);
  }

  /** Every scanned variant ends with one color, one size and their key. */
  lemma RunLinks(s: State, variants: seq<Variant>, ids: Ids, leq: Order, v: Variant)
    requires CodesUnique(s) && DistinctIds(variants) && v in variants
    ensures var s' := Run(s, variants, ids, leq);
      exists colorId, sizeId :: LinkedAs(KeyOf(s', v), AttributesOf(s', v), colorId, sizeId, leq)
  {
    var s' := Run(s, variants, ids, leq);
    RunRepairs(s, variants, ids, leq);
    assert Repaired(s', v, leq);
    var attributes := AttributesOf(s', v);
    FirstsOfLinked(attributes);
    assert LinkedAs(KeyOf(s', v), attributes, FirstOf(attributes, Color).value, FirstOf(attributes, Size).value, leq);
  }

  // ---- Variants that are not ----

  /** The color and the size a variant is to get: those its old key or its sku names, else the two
      fallbacks. */
  function NamedEntries(key: string, sku: string): (CatalogEntry, CatalogEntry) {
    match Resolve(key, sku)
    case Some(named) => named
    case None => (UNSPECIFIED_COLOR, UNSPECIFIED_SIZE)
  }

  predicate HasOptionFor(options: seq<AttrOption>, id: string, e: CatalogEntry) {
    exists o :: o in options && o.id == id && AsInCatalog(o, e)
  }

  lemma OptionIsFor(options: seq<AttrOption>, id: string, e: CatalogEntry)
    requires HasOption(options, e, id)
    ensures HasOptionFor(options, id, e)
  {
    CanonicalMeans(Canonical(e, id), e);
  }

  /** A scanned variant that is not linked yet ends with the options of the color and the size its old key
      or its sku names, or of the fallbacks, both as in the catalog. */
  lemma UnlinkedGetsNamed(s: State, variants: seq<Variant>, ids: Ids, leq: Order, v: Variant)
    requires CodesUnique(s) && DistinctIds(variants) && v in variants
    requires !WellLinked(KeyOf(s, v), AttributesOf(s, v))
    ensures var s' := Run(s, variants, ids, leq);
      var named := NamedEntries(KeyOf(s, v), v.sku);
      exists colorId, sizeId ::
        && LinkedAs(KeyOf(s', v), AttributesOf(s', v), colorId, sizeId, leq)
        && HasOptionFor(OptionsOf(s', v.companyId), colorId, named.0)
        && HasOptionFor(OptionsOf(s', v.companyId), sizeId, named.1)
  {
    var s' := Run(s, variants, ids, leq);
    var named := NamedEntries(KeyOf(s, v), v.sku);
    NormalizedMeans(s, v);
    RunRepairsAsNamed(s, variants, ids, leq, v);
    assert named == EntriesFor(s, v);
    RunRepairs(s, variants, ids, leq);
    assert Repaired(s', v, leq);
    var attributes := AttributesOf(s', v);
    FirstsOfLinked(attributes);
    var colorId, sizeId := FirstOf(attributes, Color).value, FirstOf(attributes, Size).value;
    OptionIsFor(OptionsOf(s', v.companyId), colorId, named.0);
    OptionIsFor(OptionsOf(s', v.companyId), sizeId, named.1);
    assert LinkedAs(KeyOf(s', v), attributes, colorId, sizeId, leq);
  }

  /** A variant that was not scanned stays as it is. */
  lemma OthersStay(s: State, variants: seq<Variant>, ids: Ids, leq: Order, w: Variant)
    requires CodesUnique(s) && forall i :: 0 <= i < |variants| ==> variants[i].id != w.id
    ensures var s' := Run(s, variants, ids, leq);
      KeyOf(s', w) == KeyOf(s, w) && AttributesOf(s', w) == AttributesOf(s, w)
  {
    EnsureCompaniesGrows(s, CompaniesOf(variants), ids);
    UntouchedBefore(EnsureCompanies(s, CompaniesOf(variants), ids), variants, w, ids, leq);
  }
}
