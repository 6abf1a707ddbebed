/** Searching, splitting and joining strings the way JavaScript does. */
module Strings {

  /** The position of the first occurrence of c in s, or |s|. */
  function IndexOf(s: string, c: char): (i: nat)
    ensures i <= |s| && c !in s[..i]
    ensures i < |s| ==> s[i] == c
  {
    if s == "" then 0
    else if s[0] == c then 0
    else
      var i := 1 + IndexOf(s[1..], c);
      assert s[..i] == [s[0]] + s[1..][..i - 1];
      i
  }

  lemma FirstAt(a: string, c: char, b: string)
    requires c !in a
    ensures IndexOf(a + [c] + b, c) == |a|
  {
    var s := a + [c] + b;
    var i := IndexOf(s, c);
    assert s[|a|] == c;
    assert forall k :: 0 <= k < |a| ==> s[k] == a[k];
    assert forall k :: 0 <= k < i ==> s[..i][k] == s[k];
  }

  lemma CancelPrefix(prefix: string, a: string, b: string)
    requires prefix + a == prefix + b
    ensures a == b
  {
    assert a == (prefix + a)[|prefix|..];
    assert b == (prefix + b)[|prefix|..];
  }

  /** The first separator cuts a string in one way only. */
  lemma CutIsUnique(a: string, b: string, a': string, b': string, c: char)
    requires c !in a && c !in a' && a + [c] + b == a' + [c] + b'
    ensures a == a' && b == b'
  {
    FirstAt(a, c, b);
    FirstAt(a', c, b');
    assert a == (a + [c] + b)[..|a|] && a' == (a' + [c] + b')[..|a'|];
    assert b == (a + [c] + b)[|a| + 1..] && b' == (a' + [c] + b')[|a'| + 1..];
  }

  /** `s.split(c)`. */
  function Split(s: string, c: char): (parts: seq<string>)
    ensures |parts| >= 1
    decreases |s|
  {
    var i := IndexOf(s, c);
    if i == |s| then [s] else [s[..i]] + Split(s[i + 1..], c)
  }

  /** `parts.join(c)`. */
  function Join(parts: seq<string>, c: char): string {
    if |parts| == 0 then ""
    else if |parts| == 1 then parts[0]
    else parts[0] + [c] + Join(parts[1..], c)
  }

  ghost predicate FreeOf(parts: seq<string>, c: char) {
    forall i :: 0 <= i < |parts| ==> c !in parts[i]
  }

  lemma SplitCons(a: string, rest: string, c: char)
    requires c !in a
    ensures Split(a + [c] + rest, c) == [a] + Split(rest, c)
  {
    var s := a + [c] + rest;
    FirstAt(a, c, rest);
    assert s[..|a|] == a && s[|a| + 1..] == rest;
  }

  /** Splitting undoes joining when no part contains the separator. */
  lemma {:induction false} SplitJoin(parts: seq<string>, c: char)
    requires parts != [] && FreeOf(parts, c)
    ensures Split(Join(parts, c), c) == parts
  {
    assert c !in parts[0];
    if |parts| > 1 {
      assert FreeOf(parts[1..], c);
      SplitJoin(parts[1..], c);
      SplitCons(parts[0], Join(parts[1..], c), c);
    }
  }

  lemma SplitFirst(s: string, first: string, rest: string, c: char)
    requires c !in first && s == first + [c] + rest
    ensures Split(s, c) == [first] + Split(rest, c)
  {
    SplitCons(first, rest, c);
  }

  lemma CutAtFirst(a: string, c: char) returns (first: string, rest: string)
    requires c in a
    ensures c !in first && a == first + [c] + rest
  {
    var i := IndexOf(a, c);
    first, rest := a[..i], a[i + 1..];
  }

  lemma Regroup(first: string, rest: string, b: string, c: char)
    ensures first + [c] + rest + [c] + b == first + [c] + (rest + [c] + b)
  {
  }

  lemma SplitAlone(a: string, c: char)
    requires c !in a
    ensures Split(a, c) == [a]
  {
    assert IndexOf(a, c) == |a|;
  }

  lemma Prepend(first: string, a: seq<string>, b: seq<string>)
    ensures [first] + (a + b) == [first] + a + b
  {
  }

  /** A separator between two strings splits them apart, whatever they contain. */
  lemma {:induction false} SplitConcat(a: string, b: string, s: string, c: char)
    requires s == a + [c] + b
    ensures Split(s, c) == Split(a, c) + Split(b, c)
    decreases |a|
  {
    if c in a {
      var first, rest := CutAtFirst(a, c);
      var tail := rest + [c] + b;
      Regroup(first, rest, b, c);
      SplitFirst(a, first, rest, c);
      SplitFirst(s, first, tail, c);
      SplitConcat(rest, b, tail, c);
      Prepend(first, Split(rest, c), Split(b, c));
    } else {
      SplitFirst(s, a, b, c);
      SplitAlone(a, c);
    }
  }
}
