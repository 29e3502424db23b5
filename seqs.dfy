/** The array operations the application uses on lists of posts, users, ids and
    tags: `filter`, `findIndex`/`find`, and `includes`. */
module Seqs {
  import opened Wrappers

  /** `a` is `b` with some elements left out, the rest in their original order. */
  ghost predicate IsSubsequence<T>(a: seq<T>, b: seq<T>)
    decreases |b|
  {
    a == [] || (b != [] && ((a[0] == b[0] && IsSubsequence(a[1..], b[1..])) || IsSubsequence(a, b[1..])))
  }

  /** `s.filter(keep)`. */
  function Filter<T(==)>(s: seq<T>, keep: T -> bool): (r: seq<T>)
    ensures |r| <= |s|
    ensures forall x :: x in r ==> x in s && keep(x)
    ensures forall i :: 0 <= i < |s| && keep(s[i]) ==> s[i] in r
    ensures IsSubsequence(r, s)
    decreases |s|
  {
    if s == [] then []
    else
      var rest := Filter(s[1..], keep);
      assert forall i :: 1 <= i < |s| ==> s[i] == s[1..][i - 1];
      if keep(s[0]) then
        assert ([s[0]] + rest)[1..] == rest;
        [s[0]] + rest
      else rest
  }

  /** Concatenation is associative; stated once for any element type, so that
      proofs over heavy element types need not redo it element by element. */
  lemma AppendAssoc<T>(a: seq<T>, b: seq<T>, c: seq<T>)
    ensures a + b + c == a + (b + c)
  {
  }

  /** A suffix is the slice up to any later position followed by the rest. */
  lemma SliceSplit<T>(s: seq<T>, i: nat, j: nat)
    requires i <= j <= |s|
    ensures s[i..] == s[i..j] + s[j..]
  {
  }

  /** Filtering keeps every copy of a passing element and no copy of any other:
      counted with multiplicity, the result is the passing part of the input. */
  lemma {:induction false} FilterCounts<T(!new)>(s: seq<T>, keep: T -> bool)
    ensures forall x :: multiset(Filter(s, keep))[x] == if keep(x) then multiset(s)[x] else 0
    decreases |s|
  {
    if s != [] {
      FilterCounts(s[1..], keep);
      assert s == [s[0]] + s[1..];
      assert multiset(s) == multiset([s[0]]) + multiset(s[1..]);
      var rest := Filter(s[1..], keep);
      if keep(s[0]) {
        assert Filter(s, keep) == [s[0]] + rest;
        assert multiset(Filter(s, keep)) == multiset([s[0]]) + multiset(rest);
      } else {
        assert Filter(s, keep) == rest;
      }
    }
  }

  /** Filtering with a test every element passes keeps the whole sequence. */
  lemma {:induction false} FilterKeepsAll<T>(s: seq<T>, keep: T -> bool)
    requires forall i :: 0 <= i < |s| ==> keep(s[i])
    ensures Filter(s, keep) == s
    decreases |s|
  {
    if s != [] {
      FilterKeepsAll(s[1..], keep);
    }
  }

  /** Filtering distributes over concatenation. */
  lemma {:induction false} FilterAppend<T>(a: seq<T>, b: seq<T>, keep: T -> bool)
    ensures Filter(a + b, keep) == Filter(a, keep) + Filter(b, keep)
    decreases |a|
  {
    if a != [] {
      assert (a + b)[0] == a[0] && (a + b)[1..] == a[1..] + b;
      FilterAppend(a[1..], b, keep);
      assert Filter(a, keep) == (if keep(a[0]) then [a[0]] else []) + Filter(a[1..], keep);
      assert Filter(a + b, keep) == (if keep(a[0]) then [a[0]] else []) + Filter(a[1..] + b, keep);
    } else {
      assert a + b == b;
    }
  }

  /** `s.findIndex(test)`: the first index whose element passes, if any. */
  function FindFirst<T>(s: seq<T>, test: T -> bool): (r: Option<nat>)
    ensures r.Some? ==> r.value < |s| && test(s[r.value])
    ensures r.Some? ==> forall j :: 0 <= j < r.value ==> !test(s[j])
    ensures r.None? <==> forall j :: 0 <= j < |s| ==> !test(s[j])
    decreases |s|
  {
    if s == [] then None
    else if test(s[0]) then Some(0)
    else
      var rest := FindFirst(s[1..], test);
      assert forall j :: 1 <= j < |s| ==> s[j] == s[1..][j - 1];
      match rest
      case None => None
      case Some(k) => Some(k + 1)
  }

  /** No value occurs twice. */
  ghost predicate NoDuplicates<T>(s: seq<T>) {
    forall i, j :: 0 <= i < j < |s| ==> s[i] != s[j]
  }
}
