/** The array operations of JavaScript that the site uses (`Array.prototype.filter`,
    `find` and `includes`), over Dafny sequences, with their contracts. */
module Seqs {
  import opened Wrappers

  /** `a` is an order-preserving subsequence of `b`: `a` is obtained from `b`
      by deleting elements. */
  ghost predicate IsSubsequence<T>(a: seq<T>, b: seq<T>)
    decreases |b|
  {
    a == [] || (b != [] && ((a[0] == b[0] && IsSubsequence(a[1..], b[1..])) || IsSubsequence(a, b[1..])))
  }

  /** `Array.prototype.filter`: the elements of `s` that satisfy `keep`, in order. */
  function Filter<T>(s: seq<T>, keep: T -> bool): (r: seq<T>)
    ensures |r| <= |s|
    ensures forall i :: 0 <= i < |r| ==> r[i] in s && keep(r[i])
    ensures forall i :: 0 <= i < |s| && keep(s[i]) ==> s[i] in r
    ensures IsSubsequence(r, s)
    decreases |s|
  {
    if s == [] then []
    else
      var rest := Filter(s[1..], keep);
      assert s == [s[0]] + s[1..];
      if keep(s[0]) then
        assert ([s[0]] + rest)[1..] == rest;
        [s[0]] + rest
      else rest
  }

  /** `filter` keeps every copy of a passing element and drops every copy of a failing
      one: each value occurs in the result as often as in `s` when it passes, else never. */
  lemma {:induction false} FilterCounts<T>(s: seq<T>, keep: T -> bool)
    ensures forall x :: multiset(Filter(s, keep))[x] == if keep(x) then multiset(s)[x] else 0
    decreases |s|
  {
    if s != [] {
      FilterCounts(s[1..], keep);
      var rest := Filter(s[1..], keep);
      assert s == [s[0]] + s[1..];
      assert multiset(s) == multiset{s[0]} + multiset(s[1..]);
      if keep(s[0]) {
        assert Filter(s, keep) == [s[0]] + rest;
        assert multiset([s[0]] + rest) == multiset{s[0]} + multiset(rest);
      }
    }
  }

  /** Every sequence is a subsequence of itself. */
  lemma {:induction false} SubsequenceReflexive<T>(s: seq<T>)
    ensures IsSubsequence(s, s)
    decreases |s|
  {
    if s != [] {
      SubsequenceReflexive(s[1..]);
    }
  }

  /** Filtering with a test every element passes gives the sequence back. */
  lemma {:induction false} FilterKeepsAll<T>(s: seq<T>, keep: T -> bool)
    requires forall i :: 0 <= i < |s| ==> keep(s[i])
    ensures Filter(s, keep) == s
    decreases |s|
  {
    if s != [] {
      FilterKeepsAll(s[1..], keep);
      assert s == [s[0]] + s[1..];
    }
  }

  /** Filtering with a test no element passes gives the empty sequence. */
  lemma {:induction false} FilterKeepsNone<T>(s: seq<T>, keep: T -> bool)
    requires forall i :: 0 <= i < |s| ==> !keep(s[i])
    ensures Filter(s, keep) == []
    decreases |s|
  {
    if s != [] {
      FilterKeepsNone(s[1..], keep);
    }
  }

  /** `Array.prototype.find`: the first element of `s` that satisfies `test`,
      or `None` (JavaScript's `undefined`) when there is none. */
  function Find<T>(s: seq<T>, test: T -> bool): (r: Option<T>)
    ensures r.None? <==> forall i :: 0 <= i < |s| ==> !test(s[i])
    ensures r.Some? ==> exists i :: 0 <= i < |s| && s[i] == r.value && test(s[i]) &&
                                  forall j :: 0 <= j < i ==> !test(s[j])
    decreases |s|
  {
    if s == [] then None
    else if test(s[0]) then Some(s[0])
    else
      var r := Find(s[1..], test);
      assert forall j :: 0 <= j < |s| - 1 ==> s[1..][j] == s[j + 1];
      r
  }

  /** When at most one element of `s` satisfies `test`, `Find` returns exactly that one. */
  lemma FindUnique<T>(s: seq<T>, test: T -> bool, x: T)
    requires x in s && test(x)
    requires forall i, j :: 0 <= i < j < |s| && test(s[i]) && test(s[j]) ==> s[i] == s[j]
    ensures Find(s, test) == Some(x)
  {
    var r := Find(s, test);
    var i :| 0 <= i < |s| && s[i] == r.value && test(s[i]);
    var k :| 0 <= k < |s| && s[k] == x;
    if i < k { assert s[i] == s[k]; } else if k < i { assert s[k] == s[i]; }
  }

  /** Looking up in a filtered sequence is looking up, in the whole sequence, the first
      element that passes both tests. */
  lemma {:induction false} FindInFilter<T>(s: seq<T>, keep: T -> bool, test: T -> bool, both: T -> bool)
    requires forall i :: 0 <= i < |s| ==> both(s[i]) == (keep(s[i]) && test(s[i]))
    ensures Find(Filter(s, keep), test) == Find(s, both)
    decreases |s|
  {
    if s != [] {
      FindInFilter(s[1..], keep, test, both);
      var rest := Filter(s[1..], keep);
      if keep(s[0]) {
        assert Filter(s, keep) == [s[0]] + rest;
        assert ([s[0]] + rest)[1..] == rest;
      }
    }
  }
}
