/** Discovery of the input documents: the `.html` entries of the source
    directory, sorted by name. */
module Scan {

  /** Matches the glob pattern "*.html": any name ending in ".html". */
  predicate IsHtml(name: string) {
    |name| >= 5 && name[|name| - 5..] == ".html"
  }

  /** The entries of a directory listing that match "*.html", in listing order. */
  function HtmlOnly(names: seq<string>): (r: seq<string>)
    ensures forall x :: x in multiset(r) ==> IsHtml(x)
    ensures forall x :: IsHtml(x) ==> multiset(r)[x] == multiset(names)[x]
  {
    if names == [] then []
    else
      assert names == [names[0]] + names[1..];
      (if IsHtml(names[0]) then [names[0]] else []) + HtmlOnly(names[1..])
  }

  /** Python's string order: code point by code point, a proper prefix first. */
  predicate NameLe(a: string, b: string)
    decreases |a|
  {
    a == [] || (b != [] && (a[0] < b[0] || (a[0] == b[0] && NameLe(a[1..], b[1..]))))
  }

  lemma {:induction false} NameLeTotal(a: string, b: string)
    ensures NameLe(a, b) || NameLe(b, a)
    decreases |a|
  {
    if a != [] && b != [] && a[0] == b[0] {
      NameLeTotal(a[1..], b[1..]);
    }
  }

  lemma {:induction false} NameLeTransitive(a: string, b: string, c: string)
    requires NameLe(a, b) && NameLe(b, c)
    ensures NameLe(a, c)
    decreases |a|
  {
    if a != [] && a[0] == b[0] && b[0] == c[0] {
      NameLeTransitive(a[1..], b[1..], c[1..]);
    }
  }

  lemma {:induction false} NameLeReflexive(a: string)
    ensures NameLe(a, a)
    decreases |a|
  {
    if a != [] {
      NameLeReflexive(a[1..]);
    }
  }

  lemma {:induction false} NameLeAntisymmetric(a: string, b: string)
    requires NameLe(a, b) && NameLe(b, a)
    ensures a == b
    decreases |a|
  {
    if a != [] {
      NameLeAntisymmetric(a[1..], b[1..]);
      assert a == [a[0]] + a[1..] && b == [b[0]] + b[1..];
    }
  }

  predicate Sorted(s: seq<string>) {
    forall i, j :: 0 <= i < j < |s| ==> NameLe(s[i], s[j])
  }

  function Insert(x: string, s: seq<string>): (r: seq<string>)
    ensures multiset(r) == multiset(s) + multiset{x}
  {
    if s == [] || NameLe(x, s[0]) then [x] + s
    else
      assert s == [s[0]] + s[1..];
      [s[0]] + Insert(x, s[1..])
  }

  lemma {:induction false} InsertSorted(x: string, s: seq<string>)
    requires Sorted(s)
    ensures Sorted(Insert(x, s))
  {
    if s == [] {
    } else if NameLe(x, s[0]) {
      forall j | 0 < j < |s| ensures NameLe(x, s[j]) {
        NameLeTransitive(x, s[0], s[j]);
      }
    } else {
      var t := Insert(x, s[1..]);
      InsertSorted(x, s[1..]);
      NameLeTotal(x, s[0]);
      forall j | 0 <= j < |t| ensures NameLe(s[0], t[j]) {
        assert t[j] in multiset(t);
        if t[j] != x {
          assert t[j] in multiset(s[1..]);
          var k :| 0 <= k < |s[1..]| && s[1..][k] == t[j];
          assert s[k + 1] == t[j];
        }
      }
      assert Insert(x, s) == [s[0]] + t;
    }
  }

  /** `sorted(...)`: the same names, in ascending order. */
  function SortNames(s: seq<string>): (r: seq<string>)
    ensures Sorted(r)
    ensures multiset(r) == multiset(s)
  {
    if s == [] then []
    else
      var t := SortNames(s[1..]);
      InsertSorted(s[0], t);
      assert s == [s[0]] + s[1..];
      Insert(s[0], t)
  }

  /** The first element of a sorted sequence precedes every element of it. */
  lemma SortedFirstLeast(s: seq<string>, x: string)
    requires Sorted(s) && x in multiset(s)
    ensures NameLe(s[0], x)
  {
    var j :| 0 <= j < |s| && s[j] == x;
    if j == 0 {
      NameLeReflexive(x);
    }
  }

  lemma SortedTail(s: seq<string>)
    requires Sorted(s) && s != []
    ensures Sorted(s[1..])
  {
  }

  lemma TailMultiset(s: seq<string>)
    requires s != []
    ensures multiset(s[1..]) == multiset(s) - multiset{s[0]}
  {
    assert s == [s[0]] + s[1..];
  }

  /** Two sorted arrangements of the same nonempty names start alike. */
  lemma SortedHeadsAgree(a: seq<string>, b: seq<string>)
    requires Sorted(a) && Sorted(b) && multiset(a) == multiset(b) && a != []
    ensures b != [] && a[0] == b[0]
  {
    assert a[0] in multiset(b);
    assert b[0] in multiset(a);
    SortedFirstLeast(a, b[0]);
    SortedFirstLeast(b, a[0]);
    NameLeAntisymmetric(a[0], b[0]);
  }

  /** The sorted order is determined by the names alone: any two sorted
      arrangements of the same names are equal, so the order in which the
      directory lists its entries does not matter. */
  lemma {:induction false} SortedUnique(a: seq<string>, b: seq<string>)
    requires Sorted(a) && Sorted(b) && multiset(a) == multiset(b)
    ensures a == b
    decreases |a|
  {
    if a == [] {
      assert |b| == |multiset(b)| == 0;
    } else {
      SortedHeadsAgree(a, b);
      TailMultiset(a);
      TailMultiset(b);
      SortedTail(a);
      SortedTail(b);
      SortedUnique(a[1..], b[1..]);
      assert a == [a[0]] + a[1..] && b == [b[0]] + b[1..];
    }
  }

  /** The scan finds something exactly when some entry matches "*.html". */
  lemma {:induction false} ScanFindsHtml(listing: seq<string>)
    ensures SortNames(HtmlOnly(listing)) != [] <==>
      exists i :: 0 <= i < |listing| && IsHtml(listing[i])
  {
    var r := SortNames(HtmlOnly(listing));
    if r != [] {
      assert r[0] in multiset(r);
      assert IsHtml(r[0]) && multiset(listing)[r[0]] > 0;
      var i :| 0 <= i < |listing| && listing[i] == r[0];
    }
    if i :| 0 <= i < |listing| && IsHtml(listing[i]) {
      assert listing[i] in multiset(listing);
      assert multiset(r)[listing[i]] > 0;
    }
  }

  /** A directory lists each entry once, and so the scan yields each
      document once, in strictly ascending order. */
  lemma {:induction false} ScanStrictlyAscending(listing: seq<string>)
    requires forall i, j :: 0 <= i < j < |listing| ==> listing[i] != listing[j]
    ensures var r := SortNames(HtmlOnly(listing));
      forall i, j :: 0 <= i < j < |r| ==> NameLe(r[i], r[j]) && r[i] != r[j]
  {
    var r := SortNames(HtmlOnly(listing));
    forall i, j | 0 <= i < j < |r| ensures r[i] != r[j] {
      if r[i] == r[j] {
        RepeatCountsTwice(r, i, j);
        assert r[i] in multiset(listing);
        DistinctCountsOnce(listing, r[i]);
        assert false;
      }
    }
  }

  lemma {:induction false} RepeatCountsTwice(s: seq<string>, i: nat, j: nat)
    requires i < j < |s| && s[i] == s[j]
    ensures multiset(s)[s[i]] >= 2
  {
    assert s == s[..j] + s[j..];
    assert s[i] in multiset(s[..j]) by { assert s[..j][i] == s[i]; }
    assert s[j] in multiset(s[j..]) by { assert s[j..][0] == s[j]; }
  }

  lemma {:induction false} DistinctCountsOnce(s: seq<string>, x: string)
    requires forall i, j :: 0 <= i < j < |s| ==> s[i] != s[j]
    requires x in multiset(s)
    ensures multiset(s)[x] == 1
    decreases |s|
  {
    assert s == [s[0]] + s[1..];
    if s[0] == x {
      assert x !in s[1..];
    } else {
      DistinctCountsOnce(s[1..], x);
    }
  }
}
