/** File names sorted byte-wise. */
module NameOrder {
  import opened Prelude
  import opened SpoolNames
  import opened Listing

  lemma LessIsStrict()
    ensures StrictOrder(Less)
  {
    forall a
      ensures !Less(a, a)
    {
      LessTotal(a, a);
    }
    forall a, b
      ensures Less(a, b) || a == b || Less(b, a)
    {
      LessTotal(a, b);
    }
    forall a, b, c | Less(a, b) && Less(b, c)
      ensures Less(a, c)
    {
      LessTransitive(a, b, c);
    }
  }

  ghost predicate Ascending(names: seq<string>) { Ordered(names, Less) }

  /** The ascending listing of a set of names. */
  ghost function Sorted(s: set<string>): (names: seq<string>)
    ensures Ascending(names) && Lists(names, s)
  {
    LessIsStrict();
    Of(s, Less)
  }

  lemma SortedIs(s: set<string>, names: seq<string>)
    requires Ascending(names) && Lists(names, s)
    ensures Sorted(s) == names
  {
    LessIsStrict();
    ListingIs(s, Less, names);
  }

  /** Restricting a sorted listing is sorting the restriction. */
  lemma SortedAmong(a: set<string>, s: set<string>)
    ensures Among(Sorted(a), s) == Sorted(a * s)
  {
    LessIsStrict();
    ListingAmong(a, s, Less);
  }

  /** sort.Strings over the names of a directory (which are distinct). */
  method SortStrings(names: seq<string>) returns (sorted: seq<string>)
    ensures Ascending(sorted)
    ensures forall n :: n in sorted <==> n in names
  {
    sorted := [];
    for i := 0 to |names|
      invariant Ascending(sorted)
      invariant forall n :: n in sorted <==> n in names[..i]
    {
      assert names[..i + 1] == names[..i] + [names[i]];
      sorted := Insert(sorted, names[i]);
    }
    assert names[..|names|] == names;
  }

  method Insert(sorted: seq<string>, name: string) returns (r: seq<string>)
    requires Ascending(sorted)
    ensures Ascending(r)
    ensures forall n :: n in r <==> n in sorted || n == name
  {
    var k := 0;
    while k < |sorted| && Less(sorted[k], name)
      invariant 0 <= k <= |sorted|
      invariant forall i :: 0 <= i < k ==> Less(sorted[i], name)
    {
      k := k + 1;
    }
    var before, after := sorted[..k], sorted[k..];
    assert sorted == before + after;
    if k < |sorted| && sorted[k] == name {
      return sorted;
    }
    r := before + [name] + after;
    if k < |sorted| {
      LessTotal(sorted[k], name);
      AboveTheFirst(after, name);
    }
    InsertAscending(before, name, after);
  }

  lemma AboveTheFirst(after: seq<string>, name: string)
    requires Ascending(after) && after != [] && Less(name, after[0])
    ensures forall i :: 0 <= i < |after| ==> Less(name, after[i])
  {
    forall i | 0 < i < |after|
      ensures Less(name, after[i])
    {
      LessTransitive(name, after[0], after[i]);
    }
  }

  /** A name between two ascending parts. */
  lemma InsertAscending(before: seq<string>, name: string, after: seq<string>)
    requires Ascending(before + after)
    requires forall i :: 0 <= i < |before| ==> Less(before[i], name)
    requires forall i :: 0 <= i < |after| ==> Less(name, after[i])
    ensures Ascending(before + [name] + after)
    ensures forall n :: n in before + [name] + after <==> n in before + after || n == name
  {
    var whole, r := before + after, before + [name] + after;
    forall i, j | 0 <= i < j < |r|
      ensures Less(r[i], r[j])
    {
      var p, q := if i < |before| then i else i - 1, if j < |before| then j else j - 1;
      assert i != |before| ==> r[i] == whole[p];
      assert j != |before| ==> r[j] == whole[q];
    }
  }

  /** A name above all others goes last. */
  lemma SortedAppend(s: set<string>, n: string)
    requires forall x :: x in s ==> Less(x, n)
    ensures Sorted(s + {n}) == Sorted(s) + [n]
  {
    SortedIs(s + {n}, Sorted(s) + [n]);
  }

  /** Taking one name out leaves the order of the others. */
  lemma SortedRemove(s: set<string>, n: string) returns (before: seq<string>, after: seq<string>)
    requires n in s
    ensures Sorted(s) == before + [n] + after
    ensures Sorted(s - {n}) == before + after
    ensures n !in before && n !in after
  {
    var all := Sorted(s);
    assert n in all;
    var k :| 0 <= k < |all| && all[k] == n;
    before, after := all[..k], all[k + 1..];
    assert all == before + [n] + after;
    TakeOut(before, n, after);
    SortedIs(s - {n}, before + after);
  }

  lemma TakeOut(before: seq<string>, n: string, after: seq<string>)
    requires Ascending(before + [n] + after)
    ensures Ascending(before + after) && n !in before && n !in after
    ensures forall x :: x in before + after <==> x in before + [n] + after && x != n
  {
    var all, rest := before + [n] + after, before + after;
    LessTotal(n, n);
    forall i | 0 <= i < |before|
      ensures before[i] != n
    {
      assert Less(all[i], all[|before|]);
    }
    forall i | 0 <= i < |after|
      ensures after[i] != n
    {
      assert Less(all[|before|], all[|before| + 1 + i]);
    }
    forall i, j | 0 <= i < j < |rest|
      ensures Less(rest[i], rest[j])
    {
      var p, q := if i < |before| then i else i + 1, if j < |before| then j else j + 1;
      assert rest[i] == all[p] && rest[j] == all[q];
    }
  }
}
