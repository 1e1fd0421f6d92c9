/** `StringSet`, the visited-set of edge signatures, and the string order that
    `List` sorts by. */
module StringSets {

  /** `a <= b` in Go's string order: byte-wise lexicographic on UTF-8, which
      is the same order as code point by code point. */
  predicate Below(a: string, b: string) {
    if a == [] then true
    else if b == [] then false
    else if a[0] != b[0] then a[0] < b[0]
    else Below(a[1..], b[1..])
  }

  lemma {:induction false} BelowAntisymmetric(a: string, b: string)
    requires Below(a, b) && Below(b, a)
    ensures a == b
  {
    if a != [] && b != [] {
      BelowAntisymmetric(a[1..], b[1..]);
      assert a == [a[0]] + a[1..] && b == [b[0]] + b[1..];
    }
  }

  lemma {:induction false} BelowTransitive(a: string, b: string, c: string)
    requires Below(a, b) && Below(b, c)
    ensures Below(a, c)
  {
    if a != [] && b != [] && c != [] && a[0] == b[0] == c[0] {
      BelowTransitive(a[1..], b[1..], c[1..]);
    }
  }

  lemma {:induction false} BelowTotal(a: string, b: string)
    ensures Below(a, b) || Below(b, a)
  {
    if a != [] && b != [] && a[0] == b[0] {
      BelowTotal(a[1..], b[1..]);
    }
  }

  /** Ascending, duplicates allowed. */
  predicate Sorted(s: seq<string>) {
    forall i, j :: 0 <= i < j < |s| ==> Below(s[i], s[j])
  }

  /** Ascending and without duplicates. */
  predicate StrictlySorted(s: seq<string>) {
    forall i, j :: 0 <= i < j < |s| ==> Below(s[i], s[j]) && s[i] != s[j]
  }

  /** `x` placed into a sorted sequence before the first element it is below. */
  function Insert(s: seq<string>, x: string): (r: seq<string>)
    requires Sorted(s)
    ensures Sorted(r)
    ensures multiset(r) == multiset(s) + multiset{x}
  {
    if s == [] then [x]
    else if Below(x, s[0]) then
      forall j | 0 < j < |s| ensures Below(x, s[j]) {
        BelowTransitive(x, s[0], s[j]);
      }
      [x] + s
    else
      var tail := Insert(s[1..], x);
      BelowTotal(x, s[0]);
      assert s == [s[0]] + s[1..];
      forall e | e in tail ensures Below(s[0], e) {
        assert e in multiset(tail);
        assert e in s[1..] || e == x;
      }
      [s[0]] + tail
  }

  /** `sort.Strings` on the collected slice (the library's algorithm is not
      modelled, only its result: the same strings, ascending). */
  method SortStrings(a: seq<string>) returns (r: seq<string>)
    ensures Sorted(r)
    ensures multiset(r) == multiset(a)
  {
    r := [];
    var i := 0;
    while i < |a|
      invariant 0 <= i <= |a|
      invariant Sorted(r)
      invariant multiset(r) == multiset(a[..i])
    {
      assert a[..i + 1] == a[..i] + [a[i]];
      r := Insert(r, a[i]);
      i := i + 1;
    }
    assert a[..i] == a;
  }

  /** A sorted listing of the members of a set lists each member exactly once. */
  lemma SortedListing(r: seq<string>, members: set<string>)
    requires Sorted(r) && multiset(r) == multiset(members)
    ensures StrictlySorted(r)
    ensures forall x :: x in r <==> x in members
    ensures |r| == |members|
  {
    forall i, j | 0 <= i < j < |r| ensures r[i] != r[j] {
      var x := r[j];
      assert r == r[..j] + r[j..];
      assert multiset(r)[x] == multiset(r[..j])[x] + multiset(r[j..])[x];
      assert x in multiset(r[j..]);
      assert multiset(members)[x] <= 1;
      assert x !in multiset(r[..j]);
      assert r[i] in r[..j];
    }
    forall x ensures x in r <==> x in members {
      assert x in r <==> x in multiset(r);
      assert x in members <==> x in multiset(members);
    }
    assert |multiset(r)| == |r|;
  }

  /** The Go `StringSet` (a map used as a set). Only the members matter. */
  class StringSet {
    var members: set<string>

    /** `StringSet{}` */
    constructor ()
      ensures members == {}
    {
      members := {};
    }

    /** Inserts `n`; adding a member already present changes nothing. */
    method Add(n: string)
      modifies this
      ensures members == old(members) + {n}
      ensures Exists(n)
    {
      if !Exists(n) {
        members := members + {n};
      }
    }

    /** `s.Exists(n)`: whether `n` has been added. */
    predicate Exists(n: string): (r: bool)
      reads this
      ensures r <==> n in members
    {
      n in members
    }

    /** Every member, each once, in ascending order. */
    method List() returns (result: seq<string>)
      ensures StrictlySorted(result)
      ensures forall x :: x in result <==> Exists(x)
      ensures |result| == |members|
    {
      var collected: seq<string> := [];
      var rest := members;
      while rest != {}
        invariant rest <= members
        invariant multiset(collected) == multiset(members - rest)
        decreases |rest|
      {
        var k :| k in rest;
        assert members - (rest - {k}) == (members - rest) + {k};
        collected := collected + [k];
        rest := rest - {k};
      }
      assert members - rest == members;
      result := SortStrings(collected);
      SortedListing(result, members);
    }
  }
}
