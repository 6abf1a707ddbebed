/** The label strings that identify a metric series: printed in key order, and read back when the
    registry renders a histogram. */
module Labels {
  import opened Wrappers
  import opened Strings
  import opened Sorting
  import opened KeyOrder

  /** `Object.entries` of a label object: keys in insertion order, values as printed. */
  type LabelList = seq<(string, string)>

  // ---- Printing ----

  function Escape(v: string): string {
    if v == "" then "" else (if v[0] == '"' then ['\\', '"'] else [v[0]]) + Escape(v[1..])
  }

  function PrintEntry(e: (string, string)): string {
    e.0 + "=" + (['"'] + Escape(e.1) + ['"'])
  }

  function PrintAll(l: LabelList): seq<string> {
    if l == [] then [] else [PrintEntry(l[0])] + PrintAll(l[1..])
  }

  function NonEmpty(l: LabelList): LabelList {
    if l == [] then []
    else
      var front, last := NonEmpty(l[..|l| - 1]), l[|l| - 1];
      if last.1 == "" then front else front + [last]
  }

  function Serialize(l: LabelList, leq: Order): string {
    Join(PrintAll(SortByKey(NonEmpty(l), leq)), ',')
  }

  // ---- Reading back ----

  /** One quote is taken off each end. */
  function Unquote(s: string): string {
    var t := if s != "" && s[0] == '"' then s[1..] else s;
    if t != "" && t[|t| - 1] == '"' then t[..|t| - 1] else t
  }

  /** The first two parts around `=`; without a second part the code throws. */
  function ParseEntry(entry: string): Option<(string, string)> {
    var parts := Split(entry, '=');
    if |parts| < 2 then None else Some((parts[0], Unquote(parts[1])))
  }

  function ParseAll(entries: seq<string>): Option<LabelList> {
    if entries == [] then Some([])
    else
      match (ParseEntry(entries[0]), ParseAll(entries[1..]))
      case (Some(e), Some(rest)) => Some([e] + rest)
      case _ => None
  }

  /** The entries read, or nothing where the code throws. */
  function ParseLabels(s: string): Option<LabelList> {
    if s == "" then Some([]) else ParseAll(Split(s, ','))
  }

  function Deserialize(s: string): Option<map<string, string>> {
    match ParseLabels(s)
    case Some(l) => Some(ToMap(l))
    case None => None
  }

  // ---- Sanitizing ----

  predicate Plain(c: char) {
    'a' <= c <= 'z' || 'A' <= c <= 'Z' || '0' <= c <= '9' || c in {':', '_', '-'}
  }

  function SanitizeLabel(v: string): (r: string)
    ensures |r| == |v| && forall i :: 0 <= i < |v| ==> Plain(r[i]) && (Plain(v[i]) ==> r[i] == v[i])
  {
    if v == "" then "" else [if Plain(v[0]) then v[0] else '_'] + SanitizeLabel(v[1..])
  }

  // ---- Lists and their maps ----

  predicate Unseparated(s: string) {
    ',' !in s && '=' !in s
  }

  predicate Clean(v: string) {
    Unseparated(v) && '"' !in v
  }

  /** Distinct keys without separators: what label objects of the code look like. */
  ghost predicate LabelObject(l: LabelList) {
    DistinctKeys(l) && forall i :: 0 <= i < |l| ==> Unseparated(l[i].0)
  }

  ghost predicate Kept(l: LabelList, e: (string, string)) {
    e in l && e.1 != ""
  }

  lemma {:induction false} NonEmptyMembers(l: LabelList)
    ensures forall e :: e in NonEmpty(l) <==> Kept(l, e)
  {
    if l != [] {
      var front, last := l[..|l| - 1], l[|l| - 1];
      NonEmptyMembers(front);
      assert l == front + [last];
    }
  }

  lemma {:induction false} NonEmptyKeeps(l: LabelList)
    requires DistinctKeys(l)
    ensures DistinctKeys(NonEmpty(l))
    ensures forall e :: e in NonEmpty(l) <==> Kept(l, e)
  {
    NonEmptyMembers(l);
    if l != [] {
      var front, last := l[..|l| - 1], l[|l| - 1];
      NonEmptyKeeps(front);
      forall e | e in NonEmpty(front) ensures e.0 != last.0 {
        var j :| 0 <= j < |front| && front[j] == e;
        assert l[j].0 != l[|l| - 1].0;
      }
    }
  }

  /** What is printed: the entries with a value, sorted, still a label object. */
  lemma SortedEntries(l: LabelList, leq: Order)
    requires TotalOrder(leq) && LabelObject(l)
    ensures var s := SortByKey(NonEmpty(l), leq);
      && DistinctKeys(s) && ToMap(s) == ToMap(NonEmpty(l))
      && forall e :: e in s ==> e in l && e.1 != "" && Unseparated(e.0)
    ensures forall e :: Kept(l, e) ==> e in SortByKey(NonEmpty(l), leq)
  {
    NonEmptyKeeps(l);
    SortKeeps(NonEmpty(l), leq);
    var s, kept := SortByKey(NonEmpty(l), leq), NonEmpty(l);
    forall e ensures e in s <==> e in kept {
      assert e in multiset(s) <==> e in multiset(kept);
    }
  }

  // ---- Round trip ----

  lemma {:induction false} EscapeKeeps(v: string)
    ensures |Escape(v)| >= |v|
    ensures Unseparated(v) ==> Unseparated(Escape(v))
    ensures Escape(v) == v <==> '"' !in v
  {
    if v != "" {
      EscapeKeeps(v[1..]);
      assert v == [v[0]] + v[1..];
      if v[0] == '"' {
        assert |Escape(v)| > |v|;
      } else {
        assert Escape(v)[1..] == Escape(v[1..]);
      }
    }
  }

  lemma UnquoteQuoted(s: string)
    ensures Unquote(['"'] + s + ['"']) == s
  {
    var q := ['"'] + s + ['"'];
    assert q[1..] == s + ['"'];
    assert (s + ['"'])[..|s|] == s;
  }

  /** An entry without separators is read back with its value escaped. */
  lemma ParsePrinted(e: (string, string))
    requires Unseparated(e.0) && Unseparated(e.1)
    ensures ',' !in PrintEntry(e) && ParseEntry(PrintEntry(e)) == Some((e.0, Escape(e.1)))
  {
    EscapeKeeps(e.1);
    var q := ['"'] + Escape(e.1) + ['"'];
    assert PrintEntry(e) == e.0 + ['='] + q;
    SplitCons(e.0, q, '=');
    assert '=' !in q;
    assert Split(q, '=') == [q];
    UnquoteQuoted(Escape(e.1));
  }

  function EscapeAll(l: LabelList): LabelList {
    seq(|l|, i requires 0 <= i < |l| => (l[i].0, Escape(l[i].1)))
  }

  ghost predicate AllUnseparated(l: LabelList) {
    forall i :: 0 <= i < |l| ==> Unseparated(l[i].0) && Unseparated(l[i].1)
  }

  lemma {:induction false} PrintedFree(l: LabelList)
    requires AllUnseparated(l)
    ensures |PrintAll(l)| == |l| && FreeOf(PrintAll(l), ',')
  {
    if l != [] {
      ParsePrinted(l[0]);
      PrintedFree(l[1..]);
    }
  }

  lemma ParseAllCons(entry: string, entries: seq<string>, e: (string, string), rest: LabelList)
    requires ParseEntry(entry) == Some(e) && ParseAll(entries) == Some(rest)
    ensures ParseAll([entry] + entries) == Some([e] + rest)
  {
    assert ([entry] + entries)[1..] == entries;
  }

  lemma {:induction false} ParseAllPrinted(l: LabelList)
    requires AllUnseparated(l)
    ensures ParseAll(PrintAll(l)) == Some(EscapeAll(l))
  {
    if l != [] {
      var e := (l[0].0, Escape(l[0].1));
      ParsePrinted(l[0]);
      ParseAllPrinted(l[1..]);
      ParseAllCons(PrintEntry(l[0]), PrintAll(l[1..]), e, EscapeAll(l[1..]));
      assert EscapeAll(l) == [e] + EscapeAll(l[1..]);
    } else {
      assert EscapeAll(l) == [];
    }
  }

  lemma JoinNotEmpty(l: LabelList)
    requires l != []
    ensures Join(PrintAll(l), ',') != ""
  {
    assert |PrintEntry(l[0])| > 0;
    assert PrintAll(l)[0] == PrintEntry(l[0]);
  }

  /** Without separators in them, all values come back, escaped. */
  lemma ParseSerialized(l: LabelList, leq: Order)
    requires TotalOrder(leq) && LabelObject(l)
    requires forall e :: Kept(l, e) ==> Unseparated(e.1)
    ensures ParseLabels(Serialize(l, leq)) == Some(EscapeAll(SortByKey(NonEmpty(l), leq)))
  {
    var s := SortByKey(NonEmpty(l), leq);
    SortedEntries(l, leq);
    forall i | 0 <= i < |s| ensures Unseparated(s[i].0) && Unseparated(s[i].1) {
      assert s[i] in s;
      assert Kept(l, s[i]);
    }
    ParseAllPrinted(s);
    PrintedFree(s);
    if s != [] {
      JoinNotEmpty(s);
      SplitJoin(PrintAll(s), ',');
    }
  }

  lemma {:induction false} PiecesOf(s: string, c: char, d: char)
    ensures FreeOf(Split(s, c), c)
    ensures d !in s ==> FreeOf(Split(s, c), d)
    decreases |s|
  {
    var i := IndexOf(s, c);
    if i < |s| {
      PiecesOf(s[i + 1..], c, d);
      assert Split(s, c) == [s[..i]] + Split(s[i + 1..], c);
    } else {
      assert s[..i] == s;
    }
  }

  lemma {:induction false} ParsedValues(entries: seq<string>)
    requires FreeOf(entries, ',') && ParseAll(entries).Some?
    ensures var l := ParseAll(entries).value;
      forall i :: 0 <= i < |l| ==> Unseparated(l[i].1)
  {
    if entries != [] {
      assert ',' !in entries[0];
      PiecesOf(entries[0], '=', ',');
      ParsedValues(entries[1..]);
    }
  }

  /** Whatever was printed, no value that is read back holds a separator. */
  lemma ReadValuesUnseparated(s: string, k: string)
    requires Deserialize(s).Some? && k in Deserialize(s).value
    ensures Unseparated(Deserialize(s).value[k])
  {
    var l := ParseLabels(s).value;
    ValueOfKey(l, k);
    if s != "" {
      PiecesOf(s, ',', ',');
      ParsedValues(Split(s, ','));
    }
  }

  lemma EscapedSame(s: LabelList)
    requires DistinctKeys(s) && ToMap(EscapeAll(s)) == ToMap(s)
    ensures EscapeAll(s) == s
  {
    var t := EscapeAll(s);
    forall i | 0 <= i < |s| ensures t[i] == s[i] {
      MapsTo(s, i);
      MapsTo(t, i);
    }
  }

  ghost predicate AllClean(l: LabelList) {
    forall e :: Kept(l, e) ==> Clean(e.1)
  }

  lemma CleanUnescaped(l: LabelList, s: LabelList)
    requires AllClean(l) && forall e :: e in s ==> Kept(l, e)
    ensures EscapeAll(s) == s
  {
    forall i | 0 <= i < |s| ensures EscapeAll(s)[i] == s[i] {
      assert s[i] in s;
      EscapeKeeps(s[i].1);
    }
  }

  lemma CleanComesBack(l: LabelList, leq: Order)
    requires TotalOrder(leq) && LabelObject(l) && AllClean(l)
    ensures ParseLabels(Serialize(l, leq)) == Some(SortByKey(NonEmpty(l), leq))
  {
    SortedEntries(l, leq);
    ParseSerialized(l, leq);
    CleanUnescaped(l, SortByKey(NonEmpty(l), leq));
  }

  /** What comes back has no separators, so neither had what was printed. */
  lemma ComesBackUnseparated(l: LabelList, leq: Order, e: (string, string))
    requires TotalOrder(leq) && LabelObject(l) && Kept(l, e)
    requires Deserialize(Serialize(l, leq)) == Some(ToMap(NonEmpty(l)))
    ensures Unseparated(e.1)
  {
    var s := SortByKey(NonEmpty(l), leq);
    SortedEntries(l, leq);
    var i :| 0 <= i < |s| && s[i] == e;
    MapsTo(s, i);
    ReadValuesUnseparated(Serialize(l, leq), e.0);
  }

  lemma ComesBackClean(l: LabelList, leq: Order)
    requires TotalOrder(leq) && LabelObject(l)
    requires Deserialize(Serialize(l, leq)) == Some(ToMap(NonEmpty(l)))
    ensures AllClean(l)
  {
    var s := SortByKey(NonEmpty(l), leq);
    forall e | Kept(l, e) ensures Unseparated(e.1) {
      ComesBackUnseparated(l, leq, e);
    }
    ParseSerialized(l, leq);
    SortedEntries(l, leq);
    EscapedSame(s);
    forall e | Kept(l, e) ensures Clean(e.1) {
      var i :| 0 <= i < |s| && s[i] == e;
      assert EscapeAll(s)[i] == (e.0, Escape(e.1));
      EscapeKeeps(e.1);
    }
  }

  /** A label object comes back from its printed form, without the empty values, exactly when none
      of its values holds a comma, an equals sign or a quote. */
  lemma RoundTripIff(l: LabelList, leq: Order)
    requires TotalOrder(leq) && LabelObject(l)
    ensures Deserialize(Serialize(l, leq)) == Some(ToMap(NonEmpty(l))) <==> AllClean(l)
  {
    if AllClean(l) {
      CleanComesBack(l, leq);
      SortedEntries(l, leq);
    }
    if Deserialize(Serialize(l, leq)) == Some(ToMap(NonEmpty(l))) {
      ComesBackClean(l, leq);
    }
  }

  /** Sanitized values always come back. */
  lemma SanitizedIsClean(v: string)
    ensures Clean(SanitizeLabel(v))
  {
    var r := SanitizeLabel(v);
    forall i | 0 <= i < |r| ensures r[i] !in {',', '=', '"'} {
      assert Plain(r[i]);
    }
  }

  /** A route is not sanitized: with a comma in it the printed labels cannot be read back at all. */
  lemma CommaInRouteCannotBeRead(leq: Order)
    ensures var l := [("route", "/a,b")];
      NonEmpty(l) == l && SortByKey(l, leq) == l && Deserialize(Serialize(l, leq)) == None
  {
    var l := [("route", "/a,b")];
    assert NonEmpty(l[..0]) == [] && SortByKey(l[..0], leq) == [];
    assert Escape("/a,b") == "/a,b";
    var first, second := "route=\"/a", "b\"";
    assert PrintEntry(l[0]) == first + [','] + second;
    SplitCons(first, second, ',');
    assert Split(second, '=') == [second];
    assert Split(second, ',') == [second];
    assert ParseAll([second]) == None;
    assert ([first] + [second])[1..] == [second];
  }

  // ---- Series ----

  /** The order in which labels are given does not matter. */
  lemma InsertionOrderIrrelevant(a: LabelList, b: LabelList, leq: Order)
    requires TotalOrder(leq) && DistinctKeys(a) && DistinctKeys(b)
    requires ToMap(NonEmpty(a)) == ToMap(NonEmpty(b))
    ensures Serialize(a, leq) == Serialize(b, leq)
  {
    NonEmptyKeeps(a);
    NonEmptyKeeps(b);
    SortIgnoresOrder(NonEmpty(a), NonEmpty(b), leq);
  }

  /** Two clean label objects name the same series exactly when they agree on all nonempty values. */
  lemma SameSeriesIff(a: LabelList, b: LabelList, leq: Order)
    requires TotalOrder(leq) && LabelObject(a) && LabelObject(b) && AllClean(a) && AllClean(b)
    ensures Serialize(a, leq) == Serialize(b, leq) <==> ToMap(NonEmpty(a)) == ToMap(NonEmpty(b))
  {
    RoundTripIff(a, leq);
    RoundTripIff(b, leq);
    if ToMap(NonEmpty(a)) == ToMap(NonEmpty(b)) {
      InsertionOrderIrrelevant(a, b, leq);
    }
  }

  /** The labels of a rendered bucket line: the series' own labels, read back, and the bound. */
  function BucketLabels(printed: string, le: string, leq: Order): Option<string> {
    match ParseLabels(printed)
    case Some(l) => Some(Serialize(l + [("le", le)], leq))
    case None => None
  }

  lemma {:induction false} NonEmptyAll(l: LabelList)
    requires forall e :: e in l ==> e.1 != ""
    ensures NonEmpty(l) == l
  {
    if l != [] {
      assert l == l[..|l| - 1] + [l[|l| - 1]];
      NonEmptyAll(l[..|l| - 1]);
    }
  }

  lemma NonEmptySnoc(l: LabelList, e: (string, string))
    requires e.1 != ""
    ensures NonEmpty(l + [e]) == NonEmpty(l) + [e]
    ensures ToMap(NonEmpty(l + [e])) == ToMap(NonEmpty(l))[e.0 := e.1]
  {
    assert (l + [e])[..|l|] == l;
    MapSnoc(NonEmpty(l), e);
  }

  lemma DistinctSnoc(l: LabelList, e: (string, string))
    requires DistinctKeys(l) && forall x :: x in l ==> x.0 != e.0
    ensures DistinctKeys(l + [e])
  {
    assert forall i :: 0 <= i < |l| ==> l[i] in l;
  }

  /** Clean labels make the bucket line carry the observed labels together with its bound. */
  lemma BucketLabelsAreObserved(l: LabelList, le: string, leq: Order)
    requires TotalOrder(leq) && LabelObject(l) && AllClean(l) && le != ""
    requires forall e :: e in l ==> e.0 != "le"
    ensures BucketLabels(Serialize(l, leq), le, leq) == Some(Serialize(l + [("le", le)], leq))
  {
    var s, bound := SortByKey(NonEmpty(l), leq), ("le", le);
    CleanComesBack(l, leq);
    SortedEntries(l, leq);
    NonEmptyAll(s);
    NonEmptySnoc(l, bound);
    NonEmptySnoc(s, bound);
    DistinctSnoc(l, bound);
    DistinctSnoc(s, bound);
    InsertionOrderIrrelevant(s + [bound], l + [bound], leq);
  }
}
