/**
 * The JavaScript collection steps behind the dashboard's type options:
 * de-duplication through a `Set`, and `Array.prototype.sort` with no
 * comparator, which orders strings by comparing them character by character.
 */
module JsSort {

  /**
   * The string order of the default sort: `a` comes before `b` when `a` is a
   * proper prefix of `b`, or at the first position where they differ the
   * character of `a` is the smaller.
   */
  function LexLess(a: string, b: string): bool {
    if b == [] then false
    else if a == [] then true
    else if a[0] != b[0] then a[0] < b[0]
    else LexLess(a[1..], b[1..])
  }

  /** The order LexLess computes, stated without recursion. */
  ghost predicate LexBefore(a: string, b: string) {
    (|a| < |b| && a == b[..|a|])
    || exists k :: 0 <= k < |a| && k < |b| && a[..k] == b[..k] && a[k] < b[k]
  }

  /** LexLess is exactly the prefix-or-first-difference order. */
  lemma {:induction false} LexLessSpec(a: string, b: string)
    ensures LexLess(a, b) <==> LexBefore(a, b)
  {
    if b == [] {
    } else if a == [] {
      assert a == b[..0];
    } else if a[0] != b[0] {
      if a[0] < b[0] {
        assert a[..0] == b[..0];
      }
    } else {
      LexLessSpec(a[1..], b[1..]);
      if LexBefore(a[1..], b[1..]) {
        if |a[1..]| < |b[1..]| && a[1..] == b[1..][..|a[1..]|] {
          assert a == b[..|a|];
        } else {
          var k :| 0 <= k < |a[1..]| && k < |b[1..]| && a[1..][..k] == b[1..][..k] && a[1..][k] < b[1..][k];
          assert a[..k + 1] == [a[0]] + a[1..][..k];
          assert b[..k + 1] == [b[0]] + b[1..][..k];
        }
      }
      if LexBefore(a, b) {
        if |a| < |b| && a == b[..|a|] {
          assert a[1..] == b[1..][..|a[1..]|];
        } else {
          var k :| 0 <= k < |a| && k < |b| && a[..k] == b[..k] && a[k] < b[k];
          assert k != 0;
          assert a[1..][..k - 1] == a[1..k] == b[1..k] == b[1..][..k - 1];
          assert a[1..][k - 1] < b[1..][k - 1];
        }
      }
    }
  }

  lemma {:induction false} LexIrreflexive(a: string)
    ensures !LexLess(a, a)
  {
    if a != [] {
      LexIrreflexive(a[1..]);
    }
  }

  lemma {:induction false} LexTransitive(a: string, b: string, c: string)
    requires LexLess(a, b) && LexLess(b, c)
    ensures LexLess(a, c)
  {
    if a != [] && a[0] == b[0] && b[0] == c[0] {
      LexTransitive(a[1..], b[1..], c[1..]);
    }
  }

  /** Any two different strings are ordered one way round, and never both. */
  lemma {:induction false} LexTotal(a: string, b: string)
    ensures a != b <==> (LexLess(a, b) || LexLess(b, a))
    ensures !(LexLess(a, b) && LexLess(b, a))
  {
    if a != [] && b != [] && a[0] == b[0] {
      LexTotal(a[1..], b[1..]);
      assert a == [a[0]] + a[1..] && b == [b[0]] + b[1..];
    } else if a == b {
      LexIrreflexive(a);
    }
  }

  predicate NoDuplicates(s: seq<string>) {
    forall i, j :: 0 <= i < j < |s| ==> s[i] != s[j]
  }

  /** Each element is no smaller than any element before it. */
  predicate Sorted(s: seq<string>) {
    forall i, j :: 0 <= i < j < |s| ==> !LexLess(s[j], s[i])
  }

  predicate StrictlySorted(s: seq<string>) {
    forall i, j :: 0 <= i < j < |s| ==> LexLess(s[i], s[j])
  }

  /**
   * `Array.from(new Set(xs))`: the distinct elements of `xs`, each once.
   * The result is sorted straight after, so its order is not stated here.
   */
  function Dedupe(xs: seq<string>): (r: seq<string>)
    ensures forall x :: x in r <==> x in xs
    ensures NoDuplicates(r)
  {
    if xs == [] then []
    else
      var d := Dedupe(xs[..|xs| - 1]);
      var last := xs[|xs| - 1];
      assert xs == xs[..|xs| - 1] + [last];
      if last in d then d else d + [last]
  }

  /** Puts `x` before the first element that is not smaller than it. */
  function Insert(x: string, s: seq<string>): (r: seq<string>)
    ensures multiset(r) == multiset(s) + multiset{x}
  {
    if s == [] || !LexLess(s[0], x) then [x] + s
    else
      assert s == [s[0]] + s[1..];
      [s[0]] + Insert(x, s[1..])
  }

  /** Sorting with the default comparator, written as insertion sort; it permutes its input. */
  function SortStrings(xs: seq<string>): (r: seq<string>)
    ensures multiset(r) == multiset(xs)
  {
    if xs == [] then []
    else
      assert xs == [xs[0]] + xs[1..];
      Insert(xs[0], SortStrings(xs[1..]))
  }

  lemma {:induction false} InsertSorted(x: string, s: seq<string>)
    requires Sorted(s)
    ensures Sorted(Insert(x, s))
  {
    var r := Insert(x, s);
    if s == [] || !LexLess(s[0], x) {
      forall j | 1 <= j < |r|
        ensures !LexLess(r[j], x)
      {
        assert r[j] == s[j - 1];
        if LexLess(s[j - 1], x) {
          if s[0] != s[j - 1] {
            LexTotal(s[0], s[j - 1]);
            LexTransitive(s[0], s[j - 1], x);
          }
        }
      }
    } else {
      InsertSorted(x, s[1..]);
      var rest := Insert(x, s[1..]);
      forall j | 0 <= j < |rest|
        ensures !LexLess(rest[j], s[0])
      {
        assert rest[j] in multiset(rest);
        if rest[j] == x {
          LexTotal(s[0], x);
        } else {
          assert rest[j] in s[1..];
        }
      }
    }
  }

  lemma {:induction false} SortStringsSorted(xs: seq<string>)
    ensures Sorted(SortStrings(xs))
  {
    if xs != [] {
      SortStringsSorted(xs[1..]);
      InsertSorted(xs[0], SortStrings(xs[1..]));
    }
  }

  lemma {:induction false} InsertStrictlySorted(x: string, s: seq<string>)
    requires StrictlySorted(s) && x !in s
    ensures StrictlySorted(Insert(x, s))
  {
    var r := Insert(x, s);
    if s == [] || !LexLess(s[0], x) {
      if s != [] {
        assert s[0] != x;
        LexTotal(s[0], x);
        forall j | 1 <= j < |r|
          ensures LexLess(x, r[j])
        {
          if j > 1 {
            LexTransitive(x, s[0], s[j - 1]);
          }
        }
      }
    } else {
      InsertStrictlySorted(x, s[1..]);
      var rest := Insert(x, s[1..]);
      forall j | 0 <= j < |rest|
        ensures LexLess(s[0], rest[j])
      {
        assert rest[j] in multiset(rest);
        if rest[j] != x {
          assert rest[j] in s[1..];
        }
      }
    }
  }

  /** On distinct input the sort leaves each element strictly before the next. */
  lemma {:induction false} SortStringsStrict(xs: seq<string>)
    requires NoDuplicates(xs)
    ensures StrictlySorted(SortStrings(xs))
  {
    if xs != [] {
      SortStringsStrict(xs[1..]);
      var s := SortStrings(xs[1..]);
      assert xs[0] !in xs[1..];
      assert xs[0] !in multiset(s);
      InsertStrictlySorted(xs[0], s);
    }
  }

  /**
   * A strictly sorted listing of a set of strings is unique, so the result
   * does not depend on which sorting algorithm produced it.
   */
  lemma {:induction false} StrictlySortedUnique(a: seq<string>, b: seq<string>)
    requires StrictlySorted(a) && StrictlySorted(b)
    requires forall x :: x in a <==> x in b
    ensures a == b
  {
    assert a == [] <==> b == [] by {
      assert a != [] ==> a[0] in b;
      assert b != [] ==> b[0] in a;
    }
    if a != [] {
      assert a[0] in b && b != [];
      if a[0] != b[0] {
        assert b[0] in a;
        var k :| 0 <= k < |b| && b[k] == a[0];
        var m :| 0 <= m < |a| && a[m] == b[0];
        assert 0 < k && 0 < m;
        LexTotal(a[0], b[0]);
      }
      forall x
        ensures x in a[1..] <==> x in b[1..]
      {
        if x in a[1..] {
          var i :| 0 <= i < |a[1..]| && a[1..][i] == x;
          assert LexLess(a[0], a[i + 1]);
          LexIrreflexive(x);
          assert x in b && x != b[0];
          var k :| 0 <= k < |b| && b[k] == x;
          assert b[1..][k - 1] == x;
        }
        if x in b[1..] {
          var i :| 0 <= i < |b[1..]| && b[1..][i] == x;
          assert LexLess(b[0], b[i + 1]);
          LexIrreflexive(x);
          assert x in a && x != a[0];
          var k :| 0 <= k < |a| && a[k] == x;
          assert a[1..][k - 1] == x;
        }
      }
      StrictlySortedUnique(a[1..], b[1..]);
      assert a == [a[0]] + a[1..] && b == [b[0]] + b[1..];
    }
  }
}
