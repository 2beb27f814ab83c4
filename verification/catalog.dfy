/** The collections the picker shows, and the pure operations on them: the
    search filter, the lookup by title of the mobile selector, the featured
    slice and the navigation path of a collection. */
module Catalog {
  import opened Text

  datatype Option<+T> = None | Some(value: T)

  /** A collection as the collections endpoint returns it. The image is only
      rendered and plays no part in the picker's logic. */
  datatype Collection = Collection(id: string, title: string, description: Option<string>, handle: string)

  /** The filter predicate: the lowercased title contains the lowercased query,
      or the description is present and non-empty (truthy) and its lowercased
      form contains it. */
  function Matches(c: Collection, query: string): (m: bool)
    ensures m <==> (exists i :: OccursAt(Lower(c.title), Lower(query), i)) ||
                   (c.description.Some? && |c.description.value| > 0 &&
                    exists i :: OccursAt(Lower(c.description.value), Lower(query), i))
  {
    Includes(Lower(c.title), Lower(query)) ||
    (c.description.Some? && |c.description.value| > 0 &&
     Includes(Lower(c.description.value), Lower(query)))
  }

  /** The letter case of the query does not matter. */
  lemma MatchesIgnoresQueryCase(c: Collection, query: string)
    ensures Matches(c, query) == Matches(c, Lower(query))
  {
    LowerIdempotent(query);
  }

  /** The empty query matches every collection. */
  lemma MatchesEmptyQuery(c: Collection)
    ensures Matches(c, "")
  {
    assert Lower("") == "";
    IncludesEmpty(Lower(c.title));
  }

  /** `a` can be obtained from `b` by deleting elements. */
  predicate SubsequenceOf<T(==)>(a: seq<T>, b: seq<T>)
    decreases |b|
  {
    if a == [] then true
    else if b == [] then false
    else (a[0] == b[0] && SubsequenceOf(a[1..], b[1..])) || SubsequenceOf(a, b[1..])
  }

  lemma {:induction false} SubsequenceLength<T>(a: seq<T>, b: seq<T>)
    requires SubsequenceOf(a, b)
    ensures |a| <= |b|
    decreases |b|
  {
    if a != [] {
      if a[0] == b[0] && SubsequenceOf(a[1..], b[1..]) {
        SubsequenceLength(a[1..], b[1..]);
      } else {
        SubsequenceLength(a, b[1..]);
      }
    }
  }

  /** `collections.filter(c => Matches(c, query))`: the matching collections,
      each as often as it occurs, and nothing else. */
  function Filter(cs: seq<Collection>, query: string): (r: seq<Collection>)
    ensures |r| <= |cs|
    ensures forall c :: c in r <==> c in cs && Matches(c, query)
  {
    if cs == [] then []
    else
      assert cs == [cs[0]] + cs[1..];
      var rest := Filter(cs[1..], query);
      if Matches(cs[0], query) then [cs[0]] + rest else rest
  }

  /** Each matching collection is kept as often as it occurs, every other
      one is dropped. */
  lemma {:induction false} FilterCount(cs: seq<Collection>, query: string)
    ensures forall c :: multiset(Filter(cs, query))[c] == if Matches(c, query) then multiset(cs)[c] else 0
  {
    if cs != [] {
      FilterCount(cs[1..], query);
      assert cs == [cs[0]] + cs[1..];
    }
  }

  /** The filter keeps the input order: its result is a subsequence. */
  lemma {:induction false} FilterIsSubsequence(cs: seq<Collection>, query: string)
    ensures SubsequenceOf(Filter(cs, query), cs)
  {
    if cs != [] {
      FilterIsSubsequence(cs[1..], query);
      var r := Filter(cs, query);
      if Matches(cs[0], query) {
        assert r[0] == cs[0] && r[1..] == Filter(cs[1..], query);
      } else {
        assert r == Filter(cs[1..], query);
        if r != [] {
          assert r[0] in r;
        }
      }
    }
  }

  /** Filtering the result again with the same query changes nothing. */
  lemma {:induction false} FilterIdempotent(cs: seq<Collection>, query: string)
    ensures Filter(Filter(cs, query), query) == Filter(cs, query)
  {
    if cs != [] {
      FilterIdempotent(cs[1..], query);
      var r := Filter(cs, query);
      if Matches(cs[0], query) {
        assert r[0] == cs[0] && r[1..] == Filter(cs[1..], query);
      }
    }
  }

  /** One step of the filter: the head is kept exactly when it matches. */
  lemma FilterCons(cs: seq<Collection>, query: string)
    requires cs != []
    ensures Filter(cs, query) == (if Matches(cs[0], query) then [cs[0]] else []) + Filter(cs[1..], query)
  {
  }

  /** Filtering a concatenation filters each part. */
  lemma {:induction false} FilterAppend(a: seq<Collection>, b: seq<Collection>, query: string)
    ensures Filter(a + b, query) == Filter(a, query) + Filter(b, query)
  {
    if a == [] {
      assert a + b == b;
    } else {
      var ab := a + b;
      assert ab[0] == a[0] && ab[1..] == a[1..] + b;
      FilterCons(ab, query);
      FilterCons(a, query);
      FilterAppend(a[1..], b, query);
      var h := if Matches(a[0], query) then [a[0]] else [];
      assert h + (Filter(a[1..], query) + Filter(b, query)) == (h + Filter(a[1..], query)) + Filter(b, query);
    }
  }

  /** `collections.find(c => c.title === title)`: the first collection whose
      title is exactly `title`, if any. */
  function FindByTitle(cs: seq<Collection>, title: string): (r: Option<Collection>)
    ensures r.None? <==> forall i :: 0 <= i < |cs| ==> cs[i].title != title
    ensures r.Some? ==> exists i :: 0 <= i < |cs| && cs[i] == r.value && r.value.title == title &&
                                    forall j :: 0 <= j < i ==> cs[j].title != title
  {
    if cs == [] then None
    else if cs[0].title == title then Some(cs[0])
    else
      var r := FindByTitle(cs[1..], title);
      assert forall i :: 0 < i < |cs| ==> cs[i] == cs[1..][i - 1];
      r
  }

  const CollectionsPrefix: string := "/collections/"

  /** The route of a collection, `/collections/${handle}`. */
  function NavigationPath(handle: string): (path: string)
    ensures |path| == |CollectionsPrefix| + |handle|
    ensures CollectionsPrefix <= path && path[|CollectionsPrefix|..] == handle
  {
    CollectionsPrefix + handle
  }

  /** Distinct handles give distinct routes. */
  lemma NavigationPathInjective(h1: string, h2: string)
    requires NavigationPath(h1) == NavigationPath(h2)
    ensures h1 == h2
  {
    assert h1 == NavigationPath(h1)[|CollectionsPrefix|..];
  }

  /** `collections.slice(0, n)`: the first `n` elements, or all when fewer. */
  function Take(cs: seq<Collection>, n: nat): (r: seq<Collection>)
    ensures |r| == if |cs| < n then |cs| else n
    ensures forall i :: 0 <= i < |r| ==> r[i] == cs[i]
  {
    if |cs| <= n then cs else cs[..n]
  }
}
