/**
 * The dashboard's derived lists (frontend/src/pages/Dashboard.tsx): the
 * records shown for the current search text and type selection, and the
 * options offered in the type selector.
 */
module DashboardFilter {
  import opened Types
  import opened JsString
  import opened JsSort

  /** The selector value that shows every type. */
  const AllTypes: string := "all"

  /** The search text as the filter uses it: trimmed, then lower-cased. */
  function NormalizeQuery(query: string): string {
    ToLower(Trim(query))
  }

  /** The sentinel passes everything; any other selection compares types ignoring case. */
  predicate MatchesType(p: Property, selected: string) {
    selected == AllTypes || ToLower(p.kind) == ToLower(selected)
  }

  /** An empty normalized query passes everything; otherwise it must occur in the name or the location. */
  predicate MatchesQuery(p: Property, q: string) {
    q == [] || Includes(ToLower(p.name), q) || Includes(ToLower(p.location), q)
  }

  /** Whether a record is shown, given the normalized query `q`. */
  predicate Keep(p: Property, q: string, selected: string) {
    MatchesType(p, selected) && MatchesQuery(p, q)
  }

  /** `properties.filter(...)` with the normalized query: only kept records, from the input. */
  function FilterBy(ps: seq<Property>, q: string, selected: string): (r: seq<Property>)
    ensures |r| <= |ps|
    ensures forall x :: x in r ==> x in ps && Keep(x, q, selected)
  {
    if ps == [] then []
    else (if Keep(ps[0], q, selected) then [ps[0]] else []) + FilterBy(ps[1..], q, selected)
  }

  /** The `filtered` list of the dashboard for the raw search text and the selected type. */
  function Filtered(ps: seq<Property>, query: string, selected: string): seq<Property> {
    FilterBy(ps, NormalizeQuery(query), selected)
  }

  /** Every shown record is one of the loaded records and satisfies both predicates. */
  lemma FilteredSound(ps: seq<Property>, query: string, selected: string)
    ensures forall x :: x in Filtered(ps, query, selected) ==>
      x in ps && MatchesType(x, selected) && MatchesQuery(x, NormalizeQuery(query))
  {
  }

  /**
   * Nothing that passes is dropped and nothing else is kept: each record
   * occurs in the result as often as in the input when it passes, and not at all otherwise.
   */
  lemma {:induction false} FilterByCount(ps: seq<Property>, q: string, selected: string, x: Property)
    ensures multiset(FilterBy(ps, q, selected))[x] ==
      if Keep(x, q, selected) then multiset(ps)[x] else 0
  {
    if ps != [] {
      FilterByCount(ps[1..], q, selected, x);
      assert ps == [ps[0]] + ps[1..];
    }
  }

  /** Every loaded record that satisfies both predicates is shown. */
  lemma FilteredComplete(ps: seq<Property>, query: string, selected: string)
    ensures forall x :: x in ps && MatchesType(x, selected) && MatchesQuery(x, NormalizeQuery(query)) ==>
      x in Filtered(ps, query, selected)
  {
    forall x | x in ps && Keep(x, NormalizeQuery(query), selected)
      ensures x in Filtered(ps, query, selected)
    {
      FilterByCount(ps, NormalizeQuery(query), selected, x);
    }
  }

  /**
   * `a` can be obtained from `b` by deleting elements: `a` keeps the
   * relative order of the elements it takes from `b`.
   */
  predicate IsSubsequence<T(==)>(a: seq<T>, b: seq<T>)
    decreases |b|
  {
    if a == [] then true
    else if b == [] then false
    else if a[0] == b[0] then IsSubsequence(a[1..], b[1..])
    else IsSubsequence(a, b[1..])
  }

  /** A subsequence of the tail of `b` is a subsequence of `b`. */
  lemma {:induction false} SubsequenceOfTail<T>(a: seq<T>, b: seq<T>)
    requires b != [] && IsSubsequence(a, b[1..])
    ensures IsSubsequence(a, b)
    decreases |a| + |b|
  {
    if a != [] && a[0] == b[0] {
      SubsequenceDropHead(a, b[1..]);
    }
  }

  /** Dropping the first element of a subsequence leaves a subsequence. */
  lemma {:induction false} SubsequenceDropHead<T>(a: seq<T>, c: seq<T>)
    requires a != [] && IsSubsequence(a, c)
    ensures IsSubsequence(a[1..], c)
    decreases |a| + |c|
  {
    if a[0] == c[0] {
      if a[1..] != [] {
        SubsequenceOfTail(a[1..], c);
      }
    } else {
      SubsequenceDropHead(a, c[1..]);
      if a[1..] != [] {
        SubsequenceOfTail(a[1..], c);
      }
    }
  }

  /** The shown records appear in the same relative order as in the loaded list. */
  lemma {:induction false} FilterByKeepsOrder(ps: seq<Property>, q: string, selected: string)
    ensures IsSubsequence(FilterBy(ps, q, selected), ps)
  {
    if ps != [] {
      var rest := FilterBy(ps[1..], q, selected);
      FilterByKeepsOrder(ps[1..], q, selected);
      if Keep(ps[0], q, selected) {
        assert ([ps[0]] + rest)[1..] == rest;
      } else {
        assert [] + rest == rest;
        if rest != [] {
          SubsequenceOfTail(rest, ps);
        }
      }
    }
  }

  lemma FilteredKeepsOrder(ps: seq<Property>, query: string, selected: string)
    ensures IsSubsequence(Filtered(ps, query, selected), ps)
  {
    FilterByKeepsOrder(ps, NormalizeQuery(query), selected);
  }

  /** Filtering a list whose every record passes returns it unchanged. */
  lemma {:induction false} FilterByKeepsAll(ps: seq<Property>, q: string, selected: string)
    requires forall x :: x in ps ==> Keep(x, q, selected)
    ensures FilterBy(ps, q, selected) == ps
  {
    if ps != [] {
      FilterByKeepsAll(ps[1..], q, selected);
      assert ps == [ps[0]] + ps[1..];
    }
  }

  /** With the "all" selection and a search that trims to nothing, every loaded record is shown, in order. */
  lemma ShowAllWhenBlank(ps: seq<Property>, query: string)
    requires AllSpace(query)
    ensures Filtered(ps, query, AllTypes) == ps
  {
    TrimBlank(query);
    FilterByKeepsAll(ps, NormalizeQuery(query), AllTypes);
  }

  /** Filtering the filtered list again with the same search and selection changes nothing. */
  lemma FilteredIdempotent(ps: seq<Property>, query: string, selected: string)
    ensures Filtered(Filtered(ps, query, selected), query, selected) == Filtered(ps, query, selected)
  {
    FilterByKeepsAll(Filtered(ps, query, selected), NormalizeQuery(query), selected);
  }

  /** Two filters that agree on every loaded record give the same list. */
  lemma {:induction false} FilterByAgrees(ps: seq<Property>, q1: string, s1: string, q2: string, s2: string)
    requires forall x :: x in ps ==> (Keep(x, q1, s1) <==> Keep(x, q2, s2))
    ensures FilterBy(ps, q1, s1) == FilterBy(ps, q2, s2)
  {
    if ps != [] {
      FilterByAgrees(ps[1..], q1, s1, q2, s2);
    }
  }

  /** The case of the search text makes no difference. */
  lemma QueryCaseInsensitive(ps: seq<Property>, query1: string, query2: string, selected: string)
    requires ToLower(query1) == ToLower(query2)
    ensures Filtered(ps, query1, selected) == Filtered(ps, query2, selected)
  {
    TrimLowerCommute(query1);
    TrimLowerCommute(query2);
    ToLowerIdempotent(Trim(query1));
    ToLowerIdempotent(Trim(query2));
  }

  /** Leading and trailing white space in the search text makes no difference. */
  lemma QueryPaddingIgnored(ps: seq<Property>, pre: string, query: string, post: string, selected: string)
    requires AllSpace(pre) && AllSpace(post)
    ensures Filtered(ps, pre + query + post, selected) == Filtered(ps, query, selected)
  {
    TrimIgnoresPadding(pre, query, post);
  }

  /** Apart from the "all" sentinel itself, the type selection is compared ignoring case. */
  lemma TypeCaseInsensitive(ps: seq<Property>, query: string, selected1: string, selected2: string)
    requires selected1 != AllTypes && selected2 != AllTypes
    requires ToLower(selected1) == ToLower(selected2)
    ensures Filtered(ps, query, selected1) == Filtered(ps, query, selected2)
  {
    var q := NormalizeQuery(query);
    FilterByAgrees(ps, q, selected1, q, selected2);
  }

  /** The `type` field of every loaded record, in order. */
  function KindsOf(ps: seq<Property>): (r: seq<string>)
    ensures |r| == |ps| && forall i :: 0 <= i < |ps| ==> r[i] == ps[i].kind
  {
    seq(|ps|, i requires 0 <= i < |ps| => ps[i].kind)
  }

  /** `types`: "all" followed by the distinct record types, sorted. */
  function TypeOptions(ps: seq<Property>): seq<string> {
    [AllTypes] + SortStrings(Dedupe(KindsOf(ps)))
  }

  /**
   * The selector lists "all" first, then each record type exactly once in
   * strictly increasing order, and no other value.
   */
  lemma TypeOptionsSpec(ps: seq<Property>)
    ensures |TypeOptions(ps)| >= 1 && TypeOptions(ps)[0] == AllTypes
    ensures StrictlySorted(TypeOptions(ps)[1..])
    ensures forall i :: 0 <= i < |ps| ==> ps[i].kind in TypeOptions(ps)[1..]
    ensures forall t :: t in TypeOptions(ps)[1..] ==> exists i :: 0 <= i < |ps| && ps[i].kind == t
  {
    var kinds := KindsOf(ps);
    var tail := SortStrings(Dedupe(kinds));
    assert TypeOptions(ps)[1..] == tail;
    SortStringsStrict(Dedupe(kinds));
    forall t
      ensures t in tail <==> t in kinds
    {
      assert t in tail <==> t in multiset(tail);
    }
  }

  /**
   * Any strictly sorted list of exactly the record types is the tail of the
   * selector options: the options do not depend on how the sort is carried out.
   */
  lemma TypeOptionsUnique(ps: seq<Property>, s: seq<string>)
    requires StrictlySorted(s)
    requires forall i :: 0 <= i < |ps| ==> ps[i].kind in s
    requires forall t :: t in s ==> exists i :: 0 <= i < |ps| && ps[i].kind == t
    ensures TypeOptions(ps)[1..] == s
  {
    TypeOptionsSpec(ps);
    StrictlySortedUnique(TypeOptions(ps)[1..], s);
  }

  /** The distinct set is case-sensitive: types differing only in case are offered separately. */
  lemma CaseVariantsListedSeparately(p: Property, q: Property)
    requires p.kind == "House" && q.kind == "house"
    ensures TypeOptions([p, q]) == [AllTypes, "House", "house"]
  {
    var s := ["House", "house"];
    var ps := [p, q];
    assert LexLess(s[0], s[1]) by {
      assert s[0][0] == 'H' && s[1][0] == 'h';
    }
    assert ps[0].kind == s[0] && ps[1].kind == s[1];
    assert forall t :: t in s ==> t == s[0] || t == s[1];
    TypeOptionsUnique(ps, s);
  }

  /** A record whose type is literally "all" puts the sentinel in the selector twice. */
  lemma SentinelCanRepeat(p: Property)
    requires p.kind == AllTypes
    ensures TypeOptions([p]) == [AllTypes, AllTypes]
  {
    var s := [AllTypes];
    assert forall t :: t in s ==> exists i :: 0 <= i < |[p]| && [p][i].kind == t by {
      assert [p][0].kind == s[0];
    }
    TypeOptionsUnique([p], s);
  }
}
