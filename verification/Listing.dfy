/** The one listing of a finite set along a strict total order. */
module Listing {

  ghost predicate StrictOrder<T(!new)>(before: (T, T) -> bool) {
    && (forall a :: !before(a, a))
    && (forall a, b :: before(a, b) || a == b || before(b, a))
    && (forall a, b, c :: before(a, b) && before(b, c) ==> before(a, c))
  }

  ghost predicate Ordered<T>(s: seq<T>, before: (T, T) -> bool) {
    forall i, j :: 0 <= i < j < |s| ==> before(s[i], s[j])
  }

  ghost predicate Lists<T(!new)>(s: seq<T>, elements: set<T>) {
    forall x :: x in s <==> x in elements
  }

  lemma {:induction false} FirstExists<T(!new)>(s: set<T>, before: (T, T) -> bool) returns (m: T)
    requires StrictOrder(before) && s != {}
    ensures m in s && forall x :: x in s && x != m ==> before(m, x)
    decreases |s|
  {
    m :| m in s;
    var rest := s - {m};
    if rest == {} {
      assert s == {m};
    } else {
      var first := FirstExists(rest, before);
      assert before(m, first) || before(first, m);
      if before(first, m) {
        m := first;
      } else {
        assert forall x :: x in rest && x != first ==> before(m, x) by {
          forall x | x in rest && x != first
            ensures before(m, x)
          {
            assert before(m, first) && before(first, x);
          }
        }
      }
    }
  }

  /** Two ordered listings of one set are the same listing. */
  lemma {:induction false} ListingUnique<T(!new)>(a: seq<T>, b: seq<T>, before: (T, T) -> bool)
    requires StrictOrder(before) && Ordered(a, before) && Ordered(b, before)
    requires forall x :: x in a <==> x in b
    ensures a == b
  {
    assert b != [] ==> b[0] in b;
    if a != [] {
      assert a[0] in b && b[0] in a;
      assert a[0] == b[0];
      forall x
        ensures x in a[1..] <==> x in b[1..]
      {
        if x in a[1..] {
          assert x in b && x != b[0];
        }
        if x in b[1..] {
          assert x in a && x != a[0];
        }
      }
      ListingUnique(a[1..], b[1..], before);
      assert a == [a[0]] + a[1..] && b == [b[0]] + b[1..];
    }
  }

  lemma {:induction false} ListingExists<T(!new)>(s: set<T>, before: (T, T) -> bool)
    requires StrictOrder(before)
    ensures exists r: seq<T> :: Ordered(r, before) && Lists(r, s)
    decreases |s|
  {
    if s == {} {
      assert Ordered([], before) && Lists([], s);
    } else {
      var m := FirstExists(s, before);
      ListingExists(s - {m}, before);
      var rest: seq<T> :| Ordered(rest, before) && Lists(rest, s - {m});
      var r := [m] + rest;
      forall i, j | 0 <= i < j < |r|
        ensures before(r[i], r[j])
      {
        assert r[j] in rest;
      }
      assert Ordered(r, before) && Lists(r, s);
    }
  }

  ghost function Of<T(!new)>(s: set<T>, before: (T, T) -> bool): (r: seq<T>)
    requires StrictOrder(before)
    ensures Ordered(r, before) && Lists(r, s)
  {
    ListingExists(s, before);
    var r: seq<T> :| Ordered(r, before) && Lists(r, s);
    r
  }

  lemma ListingIs<T(!new)>(s: set<T>, before: (T, T) -> bool, r: seq<T>)
    requires StrictOrder(before) && Ordered(r, before) && Lists(r, s)
    ensures Of(s, before) == r
  {
    ListingUnique(Of(s, before), r, before);
  }

  /** The elements of a listing that are also in `s`. */
  ghost function Among<T>(r: seq<T>, s: set<T>): seq<T> {
    if r == [] then []
    else (if r[0] in s then [r[0]] else []) + Among(r[1..], s)
  }

  lemma {:induction false} AmongKeepsOrder<T(!new)>(r: seq<T>, s: set<T>, before: (T, T) -> bool)
    requires Ordered(r, before)
    ensures Ordered(Among(r, s), before)
    ensures forall x :: x in Among(r, s) <==> x in r && x in s
  {
    if r != [] {
      AmongKeepsOrder(r[1..], s, before);
      var rest := Among(r[1..], s);
      assert forall x :: x in r <==> x == r[0] || x in r[1..];
      assert forall i :: 0 <= i < |rest| ==> rest[i] in r[1..];
    }
  }

  /** Restricting a listing is listing the restriction. */
  lemma ListingAmong<T(!new)>(a: set<T>, s: set<T>, before: (T, T) -> bool)
    requires StrictOrder(before)
    ensures Among(Of(a, before), s) == Of(a * s, before)
  {
    AmongKeepsOrder(Of(a, before), s, before);
    ListingIs(a * s, before, Among(Of(a, before), s));
  }

  lemma {:induction false} AmongPrefix<T>(r: seq<T>, s: set<T>, n: nat)
    requires n <= |r| && forall i :: 0 <= i < n ==> r[i] in s
    ensures n <= |Among(r, s)| && Among(r, s)[..n] == r[..n]
  {
    if n > 0 {
      AmongPrefix(r[1..], s, n - 1);
      assert Among(r, s)[..n] == [r[0]] + Among(r[1..], s)[..n - 1];
      assert r[..n] == [r[0]] + r[1..][..n - 1];
    }
  }

  lemma {:induction false} SmallerSet<T>(a: set<T>, b: set<T>)
    requires a <= b
    ensures |a| <= |b|
  {
    if a != {} {
      var x :| x in a;
      SmallerSet(a - {x}, b - {x});
    }
  }

  lemma StrictlySmaller<T>(a: set<T>, b: set<T>, x: T)
    requires a <= b && x in b && x !in a
    ensures |a| < |b|
  {
    SmallerSet(a, b - {x});
  }

  // ---- ranks ---------------------------------------------------------------

  function Preceding<T(!new)>(s: set<T>, before: (T, T) -> bool, x: T): set<T> {
    set y | y in s && before(y, x)
  }

  lemma {:induction false} DistinctSize<T>(r: seq<T>, s: set<T>)
    requires forall x :: x in r <==> x in s
    requires forall i, j :: 0 <= i < j < |r| ==> r[i] != r[j]
    ensures |s| == |r|
  {
    if r != [] {
      assert forall x :: x in r[1..] ==> x in r && x != r[0];
      assert r == [r[0]] + r[1..];
      DistinctSize(r[1..], s - {r[0]});
    }
  }

  /** The element at index `i` has exactly `i` elements before it. */
  lemma RankIsIndex<T(!new)>(s: set<T>, before: (T, T) -> bool, i: nat)
    requires StrictOrder(before) && i < |Of(s, before)|
    ensures |Preceding(s, before, Of(s, before)[i])| == i
  {
    var r := Of(s, before);
    forall y
      ensures y in r[..i] <==> y in Preceding(s, before, r[i])
    {
      if y in Preceding(s, before, r[i]) {
        assert y in r;
        var j :| 0 <= j < |r| && r[j] == y;
        assert j < i;
      }
      if y in r[..i] {
        assert y in r;
      }
    }
    DistinctSize(r[..i], Preceding(s, before, r[i]));
  }

  /** Those with fewer than `n` before them are the first `n` of the listing. */
  lemma RankPrefix<T(!new)>(s: set<T>, before: (T, T) -> bool, n: nat)
    requires StrictOrder(before)
    ensures var r := Of(s, before);
            var m := if n <= |r| then n else |r|;
            Of((set x | x in s && |Preceding(s, before, x)| < n), before) == r[..m]
  {
    var r := Of(s, before);
    var m := if n <= |r| then n else |r|;
    var low := set x | x in s && |Preceding(s, before, x)| < n;
    forall x
      ensures x in r[..m] <==> x in low
    {
      if x in s {
        assert x in r;
        var i :| 0 <= i < |r| && r[i] == x;
        RankIsIndex(s, before, i);
        if x in r[..m] {
          var k :| 0 <= k < m && r[k] == x;
          assert k == i;
        }
      }
      if x in r[..m] {
        assert x in r;
      }
    }
    ListingIs(low, before, r[..m]);
  }

  lemma ListingSize<T(!new)>(s: set<T>, before: (T, T) -> bool)
    requires StrictOrder(before)
    ensures |Of(s, before)| == |s|
  {
    DistinctSize(Of(s, before), s);
  }

  /** Taking out elements that have at least `n` before them leaves the first `n` alone. */
  lemma RemoveBehind<T(!new)>(s: set<T>, gone: set<T>, before: (T, T) -> bool, n: nat)
    requires StrictOrder(before)
    requires forall x :: x in s && x in gone ==> |Preceding(s, before, x)| >= n
    ensures First(Of(s - gone, before), n) == First(Of(s, before), n)
  {
    var r := Of(s, before);
    ListingAmong(s, s - gone, before);
    assert s * (s - gone) == s - gone;
    var m := if n <= |r| then n else |r|;
    forall i | 0 <= i < m
      ensures r[i] in s - gone
    {
      assert r[i] in r;
      RankIsIndex(s, before, i);
    }
    AmongPrefix(r, s - gone, m);
    if |r| < n {
      AmongKeepsOrder(r, s - gone, before);
      ListingSize(s, before);
      ListingSize(s - gone, before);
      assert |s - gone| <= |s| by {
        assert s == (s - gone) + (s * gone);
        assert |s| == |s - gone| + |s * gone|;
      }
    }
  }

  /** At most the first `n` elements: LIMIT. */
  function First<T>(r: seq<T>, n: nat): seq<T> { if n <= |r| then r[..n] else r }
}
