/** The repair script as it runs: loops over companies, entries and variants that change the option
    rows, the attribute rows and the keys one statement at a time. */
module RepairScript {
  import opened Wrappers
  import opened KeyOrder
  import opened Catalog
  import opened Repair
  import opened RepairRun

  lemma {:induction false} FirstCodeAt(options: seq<AttrOption>, e: CatalogEntry, i: nat)
    requires i <= |options| && (i < |options| ==> HasCode(options[i], e))
    requires forall j :: 0 <= j < i ==> !HasCode(options[j], e)
    ensures FirstWithCode(options, e) == i
  {
  }

  lemma {:induction false} FirstReadAt(options: seq<AttrOption>, e: CatalogEntry, i: nat)
    requires i <= |options| && (i < |options| ==> ReadsAs(options[i], e))
    requires forall j :: 0 <= j < i ==> !ReadsAs(options[j], e)
    ensures FirstReadingAs(options, e) == i
  {
  }

  /** `Array.prototype.find`, as the index found. */
  method FindFirst(options: seq<AttrOption>, p: AttrOption -> bool) returns (i: nat)
    ensures i <= |options| && (i < |options| ==> p(options[i]))
    ensures forall j :: 0 <= j < i ==> !p(options[j])
  {
    i := 0;
    while i < |options| && !p(options[i])
      invariant 0 <= i <= |options|
      invariant forall j :: 0 <= j < i ==> !p(options[j])
    {
      i := i + 1;
    }
  }

  method FindByCode(options: seq<AttrOption>, e: CatalogEntry) returns (i: nat)
    ensures i == FirstWithCode(options, e)
  {
    i := FindFirst(options, o => HasCode(o, e));
    FirstCodeAt(options, e, i);
  }

  method FindByValue(options: seq<AttrOption>, e: CatalogEntry) returns (i: nat)
    ensures i == FirstReadingAs(options, e)
  {
    i := FindFirst(options, o => ReadsAs(o, e));
    FirstReadAt(options, e, i);
  }

  /** The changes of one existing option, field by field, and whether there were any. */
  method NormalizeOption(options: seq<AttrOption>, i: nat, e: CatalogEntry) returns (option: AttrOption, changed: bool)
    requires i < |options|
    ensures option == Normalized(options, options[i], e)
    ensures changed <==> option != options[i]
  {
    option, changed := options[i], false;
    var owned, j := false, 0;
    while j < |options|
      invariant 0 <= j <= |options|
      invariant owned <==> exists k :: 0 <= k < j && options[k].id != options[i].id && HasCode(options[k], e)
    {
      owned := owned || (options[j].id != options[i].id && HasCode(options[j], e));
      j := j + 1;
    }
    if !owned && option.code != e.code {
      option, changed := option.(code := e.code), true;
    }
    if option.value != e.value {
      option, changed := option.(value := e.value), true;
    }
    if option.swatch != e.swatch {
      option, changed := option.(swatch := e.swatch), true;
    }
    if option.sortOrder != e.sortOrder {
      option, changed := option.(sortOrder := e.sortOrder), true;
    }
    if !option.active {
      option, changed := option.(active := true), true;
    }
  }

  /** The option of an entry, found and normalized, or created; with the writes it took. */
  method EnsureRow(rows: seq<AttrOption>, e: CatalogEntry, newId: string) returns (r: Ensured)
    ensures r == Ensure(rows, e, newId)
  {
    var i := FindByCode(rows, e);
    if i == |rows| {
      i := FindByValue(rows, e);
    }
    if i == |rows| {
      return Ensured(rows + [Canonical(e, newId)], newId, 1, 0);
    }
    var option, changed := NormalizeOption(rows, i, e);
    r := Ensured(rows[i := option], option.id, 0, if changed then 1 else 0);
  }

  /** The first attribute of a kind. */
  method FindAttribute(attributes: seq<Attribute>, kind: Kind) returns (optionId: Option<string>)
    ensures optionId == FirstOf(attributes, kind)
  {
    var i := 0;
    while i < |attributes|
      invariant 0 <= i <= |attributes|
      invariant FirstOf(attributes, kind) == FirstOf(attributes[i..], kind)
    {
      if attributes[i].kind == kind {
        return Some(attributes[i].optionId);
      }
      i := i + 1;
    }
    return None;
  }

  class Script {
    const leq: Order
    const ids: Ids
    var options: map<nat, seq<AttrOption>>
    var keys: map<string, string>
    var attributes: map<string, seq<Attribute>>
    var createdOptions: nat
    var updatedOptions: nat
    var updatedCombinationKeys: nat
    var rewrittenVariantAttributes: nat

    ghost function Contents(): State
      reads this
    {
      State(options, keys, attributes, createdOptions, updatedOptions, updatedCombinationKeys,
            rewrittenVariantAttributes)
    }

    constructor (leq: Order, ids: Ids, options: map<nat, seq<AttrOption>>, keys: map<string, string>,
                 attributes: map<string, seq<Attribute>>)
      ensures this.leq == leq && this.ids == ids
      ensures Contents() == State(options, keys, attributes, 0, 0, 0, 0)
    {
      this.leq, this.ids := leq, ids;
      this.options, this.keys, this.attributes := options, keys, attributes;
      createdOptions, updatedOptions, updatedCombinationKeys, rewrittenVariantAttributes := 0, 0, 0, 0;
    }

    /** `ensureOption`. */
    method EnsureOne(companyId: nat, e: CatalogEntry) returns (id: string)
      modifies this
      ensures Contents() == EnsureOption(old(Contents()), companyId, e, ids)
      ensures id == OptionId(old(Contents()), companyId, e, ids)
    {
      var r := EnsureRow(if companyId in options then options[companyId] else [], e, ids(createdOptions));
      options := options[companyId := r.options];
      createdOptions := createdOptions + r.created;
      updatedOptions := updatedOptions + r.updated;
      id := r.id;
    }

    /** Every entry of the catalog, for one company. */
    method EnsureCompany(companyId: nat)
      modifies this
      ensures Contents() == EnsureEntries(old(Contents()), companyId, CATALOG, ids)
    {
      EnsureList(companyId, CATALOG);
    }

    method EnsureList(companyId: nat, entries: seq<CatalogEntry>)
      modifies this
      ensures Contents() == EnsureEntries(old(Contents()), companyId, entries, ids)
    {
      for j := 0 to |entries|
        invariant Contents() == EnsureEntries(old(Contents()), companyId, entries[..j], ids)
      {
        assert entries[..j + 1][..j] == entries[..j];
        var _ := EnsureOne(companyId, entries[j]);
      }
      assert entries[..|entries|] == entries;
    }

    /** The catalog, for every company with a scanned variant. */
    method EnsureCatalog(companies: seq<nat>)
      modifies this
      ensures Contents() == EnsureCompanies(old(Contents()), companies, ids)
    {
      for i := 0 to |companies|
        invariant Contents() == EnsureCompanies(old(Contents()), companies[..i], ids)
      {
        assert companies[..i + 1][..i] == companies[..i];
        EnsureCompany(companies[i]);
      }
      assert companies[..|companies|] == companies;
    }

    /** The options a variant is to have. */
    method PickOptions(v: Variant) returns (colorId: string, sizeId: string)
      modifies this
      ensures var p := Pick(old(Contents()), v, ids);
        Contents() == p.s && colorId == p.colorId && sizeId == p.sizeId
    {
      var current := if v.id in attributes then attributes[v.id] else [];
      var key := if v.id in keys then keys[v.id] else "";
      var color := FindAttribute(current, Color);
      var size := FindAttribute(current, Size);
      if '|' in key && |current| == 2 && color.Some? && size.Some? {
        return color.value, size.value;
      }
      var resolved := Resolve(key, v.sku);
      if resolved == None {
        colorId := EnsureOne(v.companyId, UNSPECIFIED_COLOR);
        sizeId := EnsureOne(v.companyId, UNSPECIFIED_SIZE);
      } else {
        colorId := EnsureOne(v.companyId, resolved.value.0);
        sizeId := EnsureOne(v.companyId, resolved.value.1);
      }
    }

    /** The key and the attribute rows of a variant, each where it differs. */
    method WriteVariant(v: Variant, colorId: string, sizeId: string)
      modifies this
      ensures Contents() == Write(old(Contents()), v, colorId, sizeId, leq)
    {
      var current := if v.id in attributes then attributes[v.id] else [];
      var key := if v.id in keys then keys[v.id] else "";
      var color := FindAttribute(current, Color);
      var size := FindAttribute(current, Size);
      var needsRewrite := |current| != 2 || color != Some(colorId) || size != Some(sizeId);
      var desired := CombinationKey(colorId, sizeId, leq);
      if !needsRewrite && key == desired {
        return;
      }
      if key != desired {
        keys := keys[v.id := desired];
        updatedCombinationKeys := updatedCombinationKeys + 1;
      }
      if needsRewrite {
        attributes := attributes[v.id := [Attribute(colorId, Color), Attribute(sizeId, Size)]];
        rewrittenVariantAttributes := rewrittenVariantAttributes + 1;
      }
    }

    /** One variant: its options, then its rows. */
    method RepairOne(v: Variant)
      modifies this
      ensures Contents() == RepairVariant(old(Contents()), v, ids, leq)
    {
      var colorId, sizeId := PickOptions(v);
      WriteVariant(v, colorId, sizeId);
    }

    /** A whole run. */
    method RepairVariantAttributeLinks(variants: seq<Variant>)
      modifies this
      ensures Contents() == Run(old(Contents()), variants, ids, leq)
    {
      EnsureCatalog(CompaniesOf(variants));
      ghost var ensured := Contents();
      for i := 0 to |variants|
        invariant Contents() == RepairVariants(ensured, variants[..i], ids, leq)
      {
        RepairOne(variants[i]);
        assert variants[..i + 1][..i] == variants[..i];
      }
      assert variants[..|variants|] == variants;
    }
  }
}
