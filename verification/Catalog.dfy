/** The attribute catalog: how a free-text color or size is recognized, and how a legacy variant
    names its color and size. */
module Catalog {
  import opened Wrappers
  import opened Strings

  datatype Kind = Color | Size | Style | Material

  datatype CatalogEntry = CatalogEntry(
    kind: Kind, code: string, value: string, aliases: seq<string>, swatch: Option<string>, sortOrder: int)

  const COLOR_BLACK := CatalogEntry(Color, "ATTR-CLR-BLK", "Black", ["black", "blk", "bla"], Some("#000000"), 0)
  const COLOR_WHITE := CatalogEntry(Color, "ATTR-CLR-WHT", "White", ["white", "wht", "whi"], Some("#FFFFFF"), 1)
  const COLOR_NAVY :=
    CatalogEntry(Color, "ATTR-CLR-NVY", "Navy", ["navy", "nav", "nvy", "navy blue", "blue"], Some("#1F3A5F"), 2)
  const COLOR_RED := CatalogEntry(Color, "ATTR-CLR-RED", "Red", ["red"], Some("#DC2626"), 3)
  const COLOR_GREEN := CatalogEntry(Color, "ATTR-CLR-GRN", "Green", ["green", "grn"], Some("#16A34A"), 4)
  const COLOR_BEIGE := CatalogEntry(Color, "ATTR-CLR-BEI", "Beige", ["beige", "bei"], Some("#D6C6A5"), 5)
  const COLOR_GREY := CatalogEntry(Color, "ATTR-CLR-GRY", "Grey", ["grey", "gray", "gry", "gre"], Some("#6B7280"), 6)
  const SIZE_XS := CatalogEntry(Size, "ATTR-SIZ-XS", "XS", ["xs", "extra small"], None, 0)
  const SIZE_S := CatalogEntry(Size, "ATTR-SIZ-S", "S", ["s", "small"], None, 1)
  const SIZE_M := CatalogEntry(Size, "ATTR-SIZ-M", "M", ["m", "medium"], None, 2)
  const SIZE_L := CatalogEntry(Size, "ATTR-SIZ-L", "L", ["l", "large"], None, 3)
  const SIZE_XL := CatalogEntry(Size, "ATTR-SIZ-XL", "XL", ["xl", "extra large"], None, 4)
  const SIZE_XXL := CatalogEntry(Size, "ATTR-SIZ-XXL", "XXL", ["xxl", "double extra large", "2xl"], None, 5)

  const COLORS: seq<CatalogEntry> :=
    [COLOR_BLACK, COLOR_WHITE, COLOR_NAVY, COLOR_RED, COLOR_GREEN, COLOR_BEIGE, COLOR_GREY]

  const SIZES: seq<CatalogEntry> :=
    [SIZE_XS, SIZE_S, SIZE_M, SIZE_L, SIZE_XL, SIZE_XXL]

  const CATALOG: seq<CatalogEntry> := COLORS + SIZES

  const UNSPECIFIED_COLOR :=
    CatalogEntry(Color, "COLOR-UNSPECIFIED", "Unspecified", ["unspecified", "unknown"], Some("#9CA3AF"), 9998)
  const UNSPECIFIED_SIZE :=
    CatalogEntry(Size, "SIZE-UNSPECIFIED", "Unspecified", ["unspecified", "unknown"], None, 9999)

  // ---- Normalizing tokens ----

  predicate IsSpace(c: char) {
    c in {' ', '\t', '\n', '\r'}
  }

  predicate IsDash(c: char) {
    c in {'_', '-'}
  }

  function LowerChar(c: char): char {
    if 'A' <= c <= 'Z' then c - 'A' + 'a' else c
  }

  function Lower(s: string): string {
    seq(|s|, i requires 0 <= i < |s| => LowerChar(s[i]))
  }

  function TrimStart(s: string): string {
    if s != "" && IsSpace(s[0]) then TrimStart(s[1..]) else s
  }

  function TrimEnd(s: string): string {
    if s != "" && IsSpace(s[|s| - 1]) then TrimEnd(s[..|s| - 1]) else s
  }

  function Trim(s: string): string {
    TrimEnd(TrimStart(s))
  }

  /** Every run of the given characters becomes one space. */
  function Collapse(s: string, p: char -> bool): string {
    if s == "" then ""
    else if !p(s[0]) then [s[0]] + Collapse(s[1..], p)
    else if |s| > 1 && p(s[1]) then Collapse(s[1..], p)
    else [' '] + Collapse(s[1..], p)
  }

  function NormalizeToken(s: string): string {
    Collapse(Collapse(Lower(Trim(s)), IsDash), IsSpace)
  }

  predicate IsLetter(c: char) {
    'A' <= c <= 'Z' || 'a' <= c <= 'z'
  }

  /** Nothing but letters. */
  predicate Plain(s: string) {
    forall i :: 0 <= i < |s| ==> IsLetter(s[i])
  }

  predicate IsSeparator(c: char) {
    IsSpace(c) || IsDash(c)
  }

  /** Words with single separators between them. */
  predicate Neat(s: string) {
    && s != "" && !IsSeparator(s[0]) && !IsSeparator(s[|s| - 1])
    && forall i :: 0 < i < |s| ==> !IsSeparator(s[i - 1]) || !IsSeparator(s[i])
  }

  lemma PlainIsNeat(s: string)
    requires Plain(s) && s != ""
    ensures Neat(s)
  {
  }

  lemma NeatJoin(a: string, c: char, b: string)
    requires Neat(a) && Neat(b) && IsSeparator(c)
    ensures Neat(a + [c] + b)
  {
    var s := a + [c] + b;
    forall i | 0 < i < |s| ensures !IsSeparator(s[i - 1]) || !IsSeparator(s[i]) {
      if i < |a| {
        assert s[i - 1] == a[i - 1] && s[i] == a[i];
      } else if i > |a| + 1 {
        assert s[i - 1] == b[i - |a| - 2] && s[i] == b[i - |a| - 1];
      }
    }
  }

  lemma TwoWords(a: string, c: char, b: string)
    requires Plain(a) && Plain(b) && a != "" && b != "" && IsSeparator(c)
    ensures Neat(a + [c] + b)
  {
    PlainIsNeat(a);
    PlainIsNeat(b);
    NeatJoin(a, c, b);
  }

  lemma ThreeWords(a: string, b: string, c: string, sep: char)
    requires Plain(a) && Plain(b) && Plain(c) && a != "" && b != "" && c != "" && IsSeparator(sep)
    ensures Neat(a + [sep] + b + [sep] + c)
  {
    TwoWords(a, sep, b);
    PlainIsNeat(c);
    NeatJoin(a + [sep] + b, sep, c);
  }

  function WordChar(c: char): char {
    if IsSeparator(c) then ' ' else LowerChar(c)
  }

  /** The words in lower case with blanks between them. */
  function Words(s: string): string {
    seq(|s|, i requires 0 <= i < |s| => WordChar(s[i]))
  }

  function Blanked(s: string, p: char -> bool): string {
    seq(|s|, i requires 0 <= i < |s| => if p(s[i]) then ' ' else s[i])
  }

  lemma {:induction false} CollapseSingles(s: string, p: char -> bool)
    requires forall i :: 0 < i < |s| ==> !p(s[i - 1]) || !p(s[i])
    ensures Collapse(s, p) == Blanked(s, p)
  {
    if s != "" {
      CollapseSingles(s[1..], p);
      assert Blanked(s, p) == [if p(s[0]) then ' ' else s[0]] + Blanked(s[1..], p);
    }
  }

  /** Normalizing neat text gives its words. */
  lemma NeatNormal(s: string)
    requires Neat(s)
    ensures NormalizeToken(s) == Words(s)
  {
    assert Trim(s) == s;
    var low := Lower(s);
    assert forall i :: 0 <= i < |s| ==> IsSeparator(low[i]) == IsSeparator(s[i]);
    CollapseSingles(low, IsDash);
    var once := Blanked(low, IsDash);
    CollapseSingles(once, IsSpace);
  }

  // ---- Looking up an entry ----

  function Tokens(e: CatalogEntry): seq<string> {
    [e.value, e.code] + e.aliases
  }

  predicate Matches(e: CatalogEntry, raw: string) {
    exists i :: 0 <= i < |Tokens(e)| && NormalizeToken(Tokens(e)[i]) == NormalizeToken(raw)
  }

  function EntriesOf(kind: Kind): seq<CatalogEntry> {
    if kind == Color then COLORS else SIZES
  }

  /** The first entry with a token that normalizes like the raw value. */
  function FindIn(entries: seq<CatalogEntry>, raw: string): (r: Option<CatalogEntry>)
    ensures r.Some? ==> r.value in entries && Matches(r.value, raw)
    ensures r.None? ==> forall i :: 0 <= i < |entries| ==> !Matches(entries[i], raw)
  {
    if entries == [] then None
    else if Matches(entries[0], raw) then Some(entries[0])
    else FindIn(entries[1..], raw)
  }

  /** `findAttributeCatalogEntry`. */
  function Find(kind: Kind, raw: string): Option<CatalogEntry> {
    FindIn(EntriesOf(kind), raw)
  }

  /** What tells tokens of different entries apart. */
  datatype Mark = Mark(length: nat, first: char, tenth: char, last: char)

  function MarkOf(s: string): Mark
    requires s != ""
  {
    Mark(|s|, WordChar(s[0]), if |s| > 9 then WordChar(s[9]) else ' ', WordChar(s[|s| - 1]))
  }

  /** Neat tokens that normalize alike have one mark. */
  lemma AlikeMarks(t: string, v: string)
    requires Neat(t) && Neat(v) && NormalizeToken(t) == NormalizeToken(v)
    ensures MarkOf(t) == MarkOf(v)
  {
    NeatNormal(t);
    NeatNormal(v);
    assert |Words(t)| == |t| && |Words(v)| == |v|;
    assert forall i :: 0 <= i < |t| ==> Words(t)[i] == WordChar(t[i]) && Words(v)[i] == WordChar(v[i]);
  }

  predicate AllMarked(tokens: seq<string>, marks: set<Mark>) {
    forall i :: 0 <= i < |tokens| ==> tokens[i] != "" && MarkOf(tokens[i]) in marks
  }

  predicate AllNeat(tokens: seq<string>) {
    forall i :: 0 <= i < |tokens| ==> Neat(tokens[i])
  }

  /** The marks of the tokens of each color. */
  const COLOR_MARKS: seq<set<Mark>> := [
    {Mark(5, 'b', ' ', 'k'), Mark(12, 'a', 'b', 'k'), Mark(3, 'b', ' ', 'k'), Mark(3, 'b', ' ', 'a')},
    {Mark(5, 'w', ' ', 'e'), Mark(12, 'a', 'w', 't'), Mark(3, 'w', ' ', 't'), Mark(3, 'w', ' ', 'i')},
    {Mark(4, 'n', ' ', 'y'), Mark(12, 'a', 'n', 'y'), Mark(3, 'n', ' ', 'v'), Mark(3, 'n', ' ', 'y'),
     Mark(9, 'n', ' ', 'e'), Mark(4, 'b', ' ', 'e')},
    {Mark(3, 'r', ' ', 'd'), Mark(12, 'a', 'r', 'd')},
    {Mark(5, 'g', ' ', 'n'), Mark(12, 'a', 'g', 'n'), Mark(3, 'g', ' ', 'n')},
    {Mark(5, 'b', ' ', 'e'), Mark(12, 'a', 'b', 'i'), Mark(3, 'b', ' ', 'i')},
    {Mark(4, 'g', ' ', 'y'), Mark(12, 'a', 'g', 'y'), Mark(3, 'g', ' ', 'y'), Mark(3, 'g', ' ', 'e')}]

  /** And those of each size. */
  const SIZE_MARKS: seq<set<Mark>> := [
    {Mark(2, 'x', ' ', 's'), Mark(11, 'a', 'x', 's'), Mark(11, 'e', 'l', 'l')},
    {Mark(1, 's', ' ', 's'), Mark(10, 'a', 's', 's'), Mark(5, 's', ' ', 'l')},
    {Mark(1, 'm', ' ', 'm'), Mark(10, 'a', 'm', 'm'), Mark(6, 'm', ' ', 'm')},
    {Mark(1, 'l', ' ', 'l'), Mark(10, 'a', 'l', 'l'), Mark(5, 'l', ' ', 'e')},
    {Mark(2, 'x', ' ', 'l'), Mark(11, 'a', 'x', 'l'), Mark(11, 'e', 'g', 'e')},
    {Mark(3, 'x', ' ', 'l'), Mark(12, 'a', 'x', 'l'), Mark(18, 'd', 't', 'e'), Mark(3, '2', ' ', 'l')}]

  lemma FirstColorsMarked(m: nat)
    requires m < 2
    ensures AllMarked(Tokens(COLORS[m]), COLOR_MARKS[m])
  {
  }

  lemma NextColorsMarked(m: nat)
    requires 2 <= m < 5
    ensures AllMarked(Tokens(COLORS[m]), COLOR_MARKS[m])
  {
  }

  lemma ColorsMarked(m: nat)
    requires m < |COLORS|
    ensures AllMarked(Tokens(COLORS[m]), COLOR_MARKS[m])
  {
    if m < 2 {
      FirstColorsMarked(m);
    } else if m < 5 {
      NextColorsMarked(m);
    }
  }

  lemma FirstSizesMarked(m: nat)
    requires m < 3
    ensures AllMarked(Tokens(SIZES[m]), SIZE_MARKS[m])
  {
  }

  lemma SizesMarked(m: nat)
    requires m < |SIZES|
    ensures AllMarked(Tokens(SIZES[m]), SIZE_MARKS[m])
  {
    if m < 3 {
      FirstSizesMarked(m);
    }
  }

  /** A code is two fixed words and one of its own. */
  predicate CodeIs(code: string, kind: string) {
    |code| > 9 && code[..9] == "ATTR-" + kind + "-" && Plain(code[9..])
  }

  lemma CodeNeat(code: string, kind: string)
    requires CodeIs(code, kind) && Plain(kind) && |kind| == 3
    ensures Neat(code)
  {
    ThreeWords("ATTR", kind, code[9..], '-');
    assert code == "ATTR" + ['-'] + kind + ['-'] + code[9..];
  }

  lemma TwoWordAliasesNeat()
    ensures Neat("navy blue") && Neat("extra small") && Neat("extra large")
  {
    TwoWords("navy", ' ', "blue");
    TwoWords("extra", ' ', "small");
    TwoWords("extra", ' ', "large");
    assert "navy" + [' '] + "blue" == "navy blue";
    assert "extra" + [' '] + "small" == "extra small";
    assert "extra" + [' '] + "large" == "extra large";
  }

  lemma LongAliasesNeat()
    ensures Neat("double extra large") && Neat("2xl")
  {
    ThreeWords("double", "extra", "large", ' ');
    assert "double" + [' '] + "extra" + [' '] + "large" == "double extra large";
  }

  predicate ShortOrLong(alias: string) {
    || (Plain(alias) && alias != "")
    || alias in {"navy blue", "extra small", "extra large", "double extra large", "2xl"}
  }

  predicate AliasesKnown(aliases: seq<string>) {
    forall i :: 0 <= i < |aliases| ==> ShortOrLong(aliases[i])
  }

  lemma ColorCodes(n: nat)
    requires n < |COLORS|
    ensures CodeIs(COLORS[n].code, "CLR")
  {
  }

  lemma ColorAliases(n: nat)
    requires n < |COLORS|
    ensures AliasesKnown(COLORS[n].aliases)
  {
  }

  lemma SizeCodes(n: nat)
    requires n < |SIZES|
    ensures CodeIs(SIZES[n].code, "SIZ")
  {
  }

  lemma SizeAliases(n: nat)
    requires n < |SIZES|
    ensures AliasesKnown(SIZES[n].aliases)
  {
  }

  lemma TokensNeat(e: CatalogEntry, kind: string)
    requires Plain(e.value) && e.value != "" && CodeIs(e.code, kind) && Plain(kind) && |kind| == 3
    requires AliasesKnown(e.aliases)
    ensures AllNeat(Tokens(e))
  {
    PlainIsNeat(e.value);
    CodeNeat(e.code, kind);
    TwoWordAliasesNeat();
    LongAliasesNeat();
    forall i | 0 <= i < |Tokens(e)| ensures Neat(Tokens(e)[i]) {
      if i >= 2 {
        var alias := e.aliases[i - 2];
        assert Tokens(e)[i] == alias && ShortOrLong(alias);
        if Plain(alias) && alias != "" {
          PlainIsNeat(alias);
        }
      }
    }
  }

  function MarksOf(kind: Kind): seq<set<Mark>> {
    if kind == Color then COLOR_MARKS else SIZE_MARKS
  }

  /** No two entries of a kind share a mark. */
  lemma MarksApart(kind: Kind, m: nat, n: nat)
    requires m < n < |EntriesOf(kind)|
    ensures MarksOf(kind)[m] !! MarksOf(kind)[n]
  {
  }

  lemma EntriesMarked(kind: Kind, m: nat)
    requires m < |EntriesOf(kind)|
    ensures AllMarked(Tokens(EntriesOf(kind)[m]), MarksOf(kind)[m]) && AllNeat(Tokens(EntriesOf(kind)[m]))
  {
    if kind == Color {
      ColorsMarked(m);
      ColorPlain(m);
      ColorCodes(m);
      ColorAliases(m);
      TokensNeat(COLORS[m], "CLR");
    } else {
      SizesMarked(m);
      SizePlain(m);
      SizeCodes(m);
      SizeAliases(m);
      TokensNeat(SIZES[m], "SIZ");
    }
  }

  /** An entry does not recognize text whose mark none of its tokens has. */
  lemma OtherMark(e: CatalogEntry, marks: set<Mark>, v: string)
    requires AllMarked(Tokens(e), marks) && AllNeat(Tokens(e)) && Neat(v) && MarkOf(v) !in marks
    ensures !Matches(e, v)
  {
    forall i | 0 <= i < |Tokens(e)| ensures NormalizeToken(Tokens(e)[i]) != NormalizeToken(v) {
      if NormalizeToken(Tokens(e)[i]) == NormalizeToken(v) {
        AlikeMarks(Tokens(e)[i], v);
      }
    }
  }

  lemma {:induction false} FindAt(entries: seq<CatalogEntry>, n: nat, raw: string)
    requires n < |entries| && Matches(entries[n], raw)
    requires forall m :: 0 <= m < n ==> !Matches(entries[m], raw)
    ensures FindIn(entries, raw) == Some(entries[n])
  {
    if n > 0 {
      FindAt(entries[1..], n - 1, raw);
    }
  }

  lemma ColorPlain(n: nat)
    requires n < |COLORS|
    ensures Plain(COLORS[n].value) && COLORS[n].value != "" && COLORS[n].kind == Color
  {
  }

  lemma SizePlain(n: nat)
    requires n < |SIZES|
    ensures Plain(SIZES[n].value) && SIZES[n].value != "" && SIZES[n].kind == Size
  {
  }

  /** Every token of a catalog entry, be it value, code or alias, is recognized as that entry and no
      other. */
  lemma TokenFindsEntry(kind: Kind, n: nat, i: nat)
    requires n < |EntriesOf(kind)| && i < |Tokens(EntriesOf(kind)[n])|
    ensures Find(kind, Tokens(EntriesOf(kind)[n])[i]) == Some(EntriesOf(kind)[n])
  {
    var entries := EntriesOf(kind);
    var v := Tokens(entries[n])[i];
    EntriesMarked(kind, n);
    forall m | 0 <= m < n ensures !Matches(entries[m], v) {
      EntriesMarked(kind, m);
      MarksApart(kind, m, n);
      OtherMark(entries[m], MarksOf(kind)[m], v);
    }
    FindAt(entries, n, v);
  }

  /** So the value of every catalog entry is recognized as that entry. */
  lemma FindsItself(e: CatalogEntry)
    requires e in CATALOG
    ensures Find(e.kind, e.value) == Some(e)
  {
    assert Tokens(e)[0] == e.value;
    if e in COLORS {
      var n :| 0 <= n < |COLORS| && COLORS[n] == e;
      ColorPlain(n);
      TokenFindsEntry(Color, n, 0);
    } else {
      var n :| 0 <= n < |SIZES| && SIZES[n] == e;
      SizePlain(n);
      TokenFindsEntry(Size, n, 0);
    }
  }

  /** The entries the repair can ask for: the catalog and the two fallbacks. */
  const ENTRIES: seq<CatalogEntry> := CATALOG + [UNSPECIFIED_COLOR, UNSPECIFIED_SIZE]

  lemma UnspecifiedMark(kind: Kind, m: nat)
    requires m < |EntriesOf(kind)|
    ensures Neat("Unspecified") && MarkOf("Unspecified") !in MarksOf(kind)[m]
  {
    PlainIsNeat("Unspecified");
    assert MarkOf("Unspecified").first == 'u';
  }

  /** No token of the catalog reads as unspecified. */
  lemma UnspecifiedNotFound(kind: Kind)
    ensures Find(kind, "Unspecified") == None
  {
    forall m: nat | m < |EntriesOf(kind)| ensures !Matches(EntriesOf(kind)[m], "Unspecified") {
      EntriesMarked(kind, m);
      UnspecifiedMark(kind, m);
      OtherMark(EntriesOf(kind)[m], MarksOf(kind)[m], "Unspecified");
    }
    FindNone(EntriesOf(kind), "Unspecified");
  }

  lemma {:induction false} FindNone(entries: seq<CatalogEntry>, raw: string)
    requires forall m :: 0 <= m < |entries| ==> !Matches(entries[m], raw)
    ensures FindIn(entries, raw) == None
  {
    if entries != [] {
      FindNone(entries[1..], raw);
    }
  }

  lemma CodesDiffer(i: nat, j: nat)
    requires i < j < |ENTRIES| && ENTRIES[i].kind == ENTRIES[j].kind
    ensures ENTRIES[i].code != ENTRIES[j].code
  {
  }

  // ---- Legacy variants ----

  function TrimAll(parts: seq<string>): seq<string> {
    if parts == [] then []
    else
      var t := Trim(parts[0]);
      (if t == "" then [] else [t]) + TrimAll(parts[1..])
  }

  /** The nonempty parts between dashes. */
  function Parts(s: string): seq<string> {
    TrimAll(Split(s, '-'))
  }

  function Selection(color: string, size: string): (r: Option<(CatalogEntry, CatalogEntry)>)
    ensures r.Some? ==> r.value.0 in COLORS && r.value.1 in SIZES
  {
    match (Find(Color, color), Find(Size, size))
    case (Some(c), Some(s)) => Some((c, s))
    case _ => None
  }

  function FromCombination(combinationKey: string): (r: Option<(CatalogEntry, CatalogEntry)>)
    ensures r.Some? ==> r.value.0 in COLORS && r.value.1 in SIZES
  {
    var combination := Trim(combinationKey);
    if combination == "" || '|' in combination then None
    else
      var parts := Parts(combination);
      if |parts| < 2 then None
      else Selection(Join(parts[..|parts| - 1], '-'), parts[|parts| - 1])
  }

  function FromSku(sku: string): (r: Option<(CatalogEntry, CatalogEntry)>)
    ensures r.Some? ==> r.value.0 in COLORS && r.value.1 in SIZES
  {
    var parts := Parts(Trim(sku));
    if |parts| < 2 then None else Selection(parts[|parts| - 2], parts[|parts| - 1])
  }

  /** `resolveLegacyVariantSelection`: the color and size a variant's old key or sku names. */
  function Resolve(combinationKey: string, sku: string): (r: Option<(CatalogEntry, CatalogEntry)>)
    ensures r.Some? ==> r.value.0 in COLORS && r.value.1 in SIZES
  {
    match FromCombination(combinationKey)
    case Some(r) => Some(r)
    case None => FromSku(sku)
  }

  predicate PlainValue(s: string) {
    s != "" && Plain(s)
  }

  /** Two values without separators, joined by a dash, are taken apart again. */
  lemma PlainPairParts(a: string, b: string)
    requires PlainValue(a) && PlainValue(b)
    ensures var key := a + "-" + b;
      Trim(key) == key && '|' !in key && Parts(key) == [a, b] && Join([a], '-') == a
  {
    var key := a + "-" + b;
    assert key[0] == a[0] && key[|key| - 1] == b[|b| - 1];
    SplitCons(a, b, '-');
    assert Split(b, '-') == [b];
    assert Trim(a) == a && Trim(b) == b;
    assert [a, b][1..] == [b] && TrimAll([b][1..]) == [];
    assert TrimAll([b]) == [b];
    assert TrimAll([a, b]) == [a] + TrimAll([b]);
  }

  lemma PairResolves(a: string, b: string, c: CatalogEntry, s: CatalogEntry)
    requires PlainValue(a) && PlainValue(b) && Find(Color, a) == Some(c) && Find(Size, b) == Some(s)
    ensures FromCombination(a + "-" + b) == Some((c, s))
  {
    PlainPairParts(a, b);
    assert [a, b][..1] == [a];
  }

  lemma ColorValue(c: CatalogEntry)
    requires c in COLORS
    ensures PlainValue(c.value) && Find(Color, c.value) == Some(c)
  {
    var n :| 0 <= n < |COLORS| && COLORS[n] == c;
    ColorPlain(n);
    FindsItself(c);
  }

  lemma SizeValue(s: CatalogEntry)
    requires s in SIZES
    ensures PlainValue(s.value) && Find(Size, s.value) == Some(s)
  {
    var n :| 0 <= n < |SIZES| && SIZES[n] == s;
    SizePlain(n);
    FindsItself(s);
  }

  /** The old key of every pair of catalog values is read as exactly that pair, whatever the sku. */
  lemma CatalogPairResolves(c: CatalogEntry, s: CatalogEntry, sku: string)
    requires c in COLORS && s in SIZES
    ensures Resolve(c.value + "-" + s.value, sku) == Some((c, s))
  {
    ColorValue(c);
    SizeValue(s);
    PairResolves(c.value, s.value, c, s);
  }

  lemma {:induction false} TrimStartPrefix(prefix: string, rest: string)
    requires rest != "" && !IsSpace(rest[0])
    ensures TrimStart(prefix + rest) == TrimStart(prefix) + rest
  {
    if prefix == "" {
      assert prefix + rest == rest;
    } else if IsSpace(prefix[0]) {
      assert (prefix + rest)[1..] == prefix[1..] + rest;
      TrimStartPrefix(prefix[1..], rest);
    }
  }

  lemma {:induction false} TrimAllConcat(a: seq<string>, b: seq<string>)
    ensures TrimAll(a + b) == TrimAll(a) + TrimAll(b)
  {
    if a == [] {
      assert a + b == b;
    } else {
      assert (a + b)[1..] == a[1..] + b;
      TrimAllConcat(a[1..], b);
    }
  }

  /** Trimming the end stops at the last part that is not blank. */
  lemma {:induction false} TrimEndAppend(a: string, b: string)
    requires TrimEnd(b) != ""
    ensures TrimEnd(a + b) == a + TrimEnd(b)
  {
    if IsSpace(b[|b| - 1]) {
      assert (a + b)[..|a + b| - 1] == a + b[..|b| - 1];
      TrimEndAppend(a, b[..|b| - 1]);
    }
  }

  lemma {:induction false} TrimEndPrefix(s: string)
    ensures TrimEnd(s) <= s && TrimEnd(TrimEnd(s)) == TrimEnd(s)
  {
    if s != "" && IsSpace(s[|s| - 1]) {
      TrimEndPrefix(s[..|s| - 1]);
    }
  }

  lemma {:induction false} BlankEnd(c: char, s: string)
    requires TrimEnd(s) == ""
    ensures TrimEnd([c] + s) == if IsSpace(c) then "" else [c]
  {
    if s == "" {
      assert [c][..0] == "" && [c] + s == [c];
    } else {
      assert ([c] + s)[..|s|] == [c] + s[..|s| - 1];
      BlankEnd(c, s[..|s| - 1]);
    }
  }

  /** The two ends can be trimmed in either order. */
  lemma {:induction false} TrimEndsCommute(s: string)
    ensures TrimStart(TrimEnd(s)) == TrimEnd(TrimStart(s))
  {
    if s != "" {
      assert s == [s[0]] + s[1..];
      TrimEndsCommute(s[1..]);
      if TrimEnd(s[1..]) == "" {
        BlankEnd(s[0], s[1..]);
      } else {
        TrimEndAppend([s[0]], s[1..]);
        assert ([s[0]] + TrimEnd(s[1..]))[1..] == TrimEnd(s[1..]);
      }
    }
  }

  lemma TrimAfterEnd(s: string)
    ensures Trim(TrimEnd(s)) == Trim(s)
  {
    TrimEndsCommute(s);
    TrimEndPrefix(TrimStart(s));
  }

  lemma PartsConcat(a: string, b: string)
    ensures Parts(a + ("-" + b)) == Parts(a) + Parts(b)
  {
    assert a + ("-" + b) == a + ['-'] + b;
    SplitConcat(a, b, a + ['-'] + b, '-');
    TrimAllConcat(Split(a, '-'), Split(b, '-'));
  }

  /** A part between dashes that is not blank. */
  predicate IsPart(s: string) {
    '-' !in s && Trim(s) != ""
  }

  lemma OnePart(s: string)
    requires IsPart(s)
    ensures Parts(s) == [Trim(s)] && TrimEnd(s) != "" && Parts(TrimEnd(s)) == [Trim(s)]
  {
    TrimAfterEnd(s);
    TrimEndsCommute(s);
    TrimEndPrefix(s);
    SplitAlone(s, '-');
    SplitAlone(TrimEnd(s), '-');
    assert TrimAll([s][1..]) == [] && TrimAll([TrimEnd(s)][1..]) == [];
    assert Parts(s) == [Trim(s)];
    assert TrimEnd(s) != "" by { assert TrimStart("") == ""; }
  }

  lemma Regroup(p: string, a: string, b: string)
    ensures p + ("-" + (a + ("-" + b))) == (p + ("-" + a) + "-") + b
  {
  }

  lemma TrimSku(prefix: string, a: string, b: string)
    requires TrimEnd(b) != ""
    ensures Trim(prefix + ("-" + (a + ("-" + b)))) == TrimStart(prefix) + ("-" + (a + ("-" + TrimEnd(b))))
  {
    TrimStartPrefix(prefix, "-" + (a + ("-" + b)));
    Regroup(TrimStart(prefix), a, b);
    Regroup(TrimStart(prefix), a, TrimEnd(b));
    TrimEndAppend(TrimStart(prefix) + ("-" + a) + "-", b);
  }

  /** The parts of a sku that ends in two parts that are not blank end in these two, trimmed. */
  lemma SkuParts(prefix: string, a: string, b: string)
    requires IsPart(a) && IsPart(b)
    ensures Parts(Trim(prefix + ("-" + (a + ("-" + b))))) == Parts(TrimStart(prefix)) + [Trim(a), Trim(b)]
  {
    OnePart(a);
    OnePart(b);
    TrimSku(prefix, a, b);
    PartsConcat(TrimStart(prefix), a + ("-" + TrimEnd(b)));
    PartsConcat(a, TrimEnd(b));
  }

  /** With an empty old key, a sku is read by its last two parts: the color, then the size. */
  lemma SkuSuffixResolves(prefix: string, a: string, b: string)
    requires IsPart(a) && IsPart(b)
    ensures Resolve("", prefix + ("-" + (a + ("-" + b)))) == Selection(Trim(a), Trim(b))
  {
    SkuParts(prefix, a, b);
    assert FromCombination("") == None;
  }

  /** Any tokens of a color and a size that hold no dash, such as their aliases, name the two at the end
      of a sku. */
  lemma SkuOfTokensResolves(prefix: string, m: nat, i: nat, n: nat, j: nat)
    requires m < |COLORS| && i < |Tokens(COLORS[m])| && '-' !in Tokens(COLORS[m])[i]
    requires n < |SIZES| && j < |Tokens(SIZES[n])| && '-' !in Tokens(SIZES[n])[j]
    ensures Resolve("", prefix + ("-" + (Tokens(COLORS[m])[i] + ("-" + Tokens(SIZES[n])[j]))))
         == Some((COLORS[m], SIZES[n]))
  {
    var a, b := Tokens(COLORS[m])[i], Tokens(SIZES[n])[j];
    EntriesMarked(Color, m);
    EntriesMarked(Size, n);
    assert Trim(a) == a && Trim(b) == b;
    SkuSuffixResolves(prefix, a, b);
    TokenFindsEntry(Color, m, i);
    TokenFindsEntry(Size, n, j);
  }
}
