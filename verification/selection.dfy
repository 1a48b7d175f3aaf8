/**
 * Linear scans over sequences as the Swift code writes them: keep the first
 * element seen, replace it only on a strict improvement, so ties keep the
 * earliest element; first-match search; and an insertion sort by a real key.
 */
module Selection {
  import opened Wrappers

  /** `i` is the first position of `xs` whose score is maximal. */
  ghost predicate IsFirstMax<T>(xs: seq<T>, score: T -> real, i: int) {
    && 0 <= i < |xs|
    && (forall j :: 0 <= j < |xs| ==> score(xs[j]) <= score(xs[i]))
    && (forall j :: 0 <= j < i ==> score(xs[j]) < score(xs[i]))
  }

  /** `i` is the first position of `xs` whose score is minimal. */
  ghost predicate IsFirstMin<T>(xs: seq<T>, score: T -> real, i: int) {
    && 0 <= i < |xs|
    && (forall j :: 0 <= j < |xs| ==> score(xs[i]) <= score(xs[j]))
    && (forall j :: 0 <= j < i ==> score(xs[i]) < score(xs[j]))
  }

  /**
   * The loop `if best == nil { best = x } else if score(x) > score(best) { best = x }`
   * run over `xs` in order, returning the position it keeps.
   */
  function MaxIndex<T>(xs: seq<T>, score: T -> real): (r: Option<nat>)
    ensures r.None? <==> |xs| == 0
    ensures r.Some? ==> IsFirstMax(xs, score, r.value)
    decreases |xs|
  {
    if |xs| == 0 then None
    else
      var last := |xs| - 1;
      match MaxIndex(xs[..last], score)
      case None => Some(last)
      case Some(i) => if score(xs[last]) > score(xs[i]) then Some(last) else Some(i)
  }

  /** The same loop with `<`: the position of the first minimal score. */
  function MinIndex<T>(xs: seq<T>, score: T -> real): (r: Option<nat>)
    ensures r.None? <==> |xs| == 0
    ensures r.Some? ==> IsFirstMin(xs, score, r.value)
    decreases |xs|
  {
    if |xs| == 0 then None
    else
      var last := |xs| - 1;
      match MinIndex(xs[..last], score)
      case None => Some(last)
      case Some(i) => if score(xs[last]) < score(xs[i]) then Some(last) else Some(i)
  }

  /** The element kept by the strict-`>` scan: a maximum, the earliest one on ties. */
  function ArgMax<T>(xs: seq<T>, score: T -> real): (r: Option<T>)
    ensures r.None? <==> |xs| == 0
    ensures r.Some? ==> r.value in xs && forall x :: x in xs ==> score(x) <= score(r.value)
    ensures r.Some? ==> exists i :: IsFirstMax(xs, score, i) && xs[i] == r.value
  {
    match MaxIndex(xs, score)
    case None => None
    case Some(i) => Some(xs[i])
  }

  /** The element kept by the strict-`<` scan: a minimum, the earliest one on ties. */
  function ArgMin<T>(xs: seq<T>, score: T -> real): (r: Option<T>)
    ensures r.None? <==> |xs| == 0
    ensures r.Some? ==> r.value in xs && forall x :: x in xs ==> score(r.value) <= score(x)
    ensures r.Some? ==> exists i :: IsFirstMin(xs, score, i) && xs[i] == r.value
  {
    match MinIndex(xs, score)
    case None => None
    case Some(i) => Some(xs[i])
  }

  /** Swift's `first(where:)`. */
  function FirstWhere<T>(xs: seq<T>, p: T -> bool): (r: Option<T>)
    ensures r.None? <==> forall i :: 0 <= i < |xs| ==> !p(xs[i])
    ensures r.Some? ==>
      exists i :: 0 <= i < |xs| && xs[i] == r.value && p(xs[i]) && forall j :: 0 <= j < i ==> !p(xs[j])
  {
    if |xs| == 0 then None
    else if p(xs[0]) then Some(xs[0])
    else
      var rest := FirstWhere(xs[1..], p);
      assert forall i :: 1 <= i < |xs| ==> xs[i] == xs[1..][i - 1];
      rest
  }

  /** `xs` is in ascending order of `key`. */
  ghost predicate SortedBy<T>(xs: seq<T>, key: T -> real) {
    forall i, j :: 0 <= i < j < |xs| ==> key(xs[i]) <= key(xs[j])
  }

  /** Inserts `x` into the sorted `xs` in front of the first element whose key is not below its own. */
  function InsertBy<T>(x: T, xs: seq<T>, key: T -> real): (r: seq<T>)
    requires SortedBy(xs, key)
    ensures SortedBy(r, key)
    ensures multiset(r) == multiset(xs) + multiset{x}
    ensures |r| == |xs| + 1
    ensures forall i :: 0 <= i < |r| ==> r[i] == x || r[i] in xs
  {
    if |xs| == 0 then [x]
    else if key(x) <= key(xs[0]) then [x] + xs
    else
      var rest := InsertBy(x, xs[1..], key);
      assert xs == [xs[0]] + xs[1..];
      HeadBelowRest(x, xs, rest, key);
      PrependSorted(xs[0], rest, key);
      [xs[0]] + rest
  }

  /** Every element of the insertion into the tail is at or above the head of `xs`. */
  lemma HeadBelowRest<T>(x: T, xs: seq<T>, rest: seq<T>, key: T -> real)
    requires SortedBy(xs, key) && |xs| > 0 && key(xs[0]) < key(x)
    requires forall i :: 0 <= i < |rest| ==> rest[i] == x || rest[i] in xs[1..]
    ensures forall i :: 0 <= i < |rest| ==> key(xs[0]) <= key(rest[i])
  {
    forall i | 0 <= i < |rest| ensures key(xs[0]) <= key(rest[i]) {
      if rest[i] != x {
        var k :| 0 <= k < |xs[1..]| && xs[1..][k] == rest[i];
        assert xs[k + 1] == rest[i];
      }
    }
  }

  /** A sorted sequence stays sorted with an element no greater than any of its own put in front. */
  lemma PrependSorted<T>(y: T, rest: seq<T>, key: T -> real)
    requires SortedBy(rest, key)
    requires forall i :: 0 <= i < |rest| ==> key(y) <= key(rest[i])
    ensures SortedBy([y] + rest, key)
  {
    var r := [y] + rest;
    forall i, j | 0 <= i < j < |r| ensures key(r[i]) <= key(r[j]) {
      assert r[j] == rest[j - 1];
      if i > 0 {
        assert r[i] == rest[i - 1];
      }
    }
  }

  /** Swift's `sorted(by: { key($0) < key($1) })`, as an insertion sort. */
  function SortBy<T>(xs: seq<T>, key: T -> real): (r: seq<T>)
    ensures SortedBy(r, key)
    ensures multiset(r) == multiset(xs)
    ensures |r| == |xs|
  {
    if |xs| == 0 then []
    else
      assert xs == [xs[0]] + xs[1..];
      InsertBy(xs[0], SortBy(xs[1..], key), key)
  }

  /** Sequences with the same multiset have the same elements. */
  lemma SameElements<T>(xs: seq<T>, ys: seq<T>)
    requires multiset(xs) == multiset(ys)
    ensures forall x :: x in xs <==> x in ys
  {
    forall x ensures x in xs <==> x in ys {
      assert x in xs <==> x in multiset(xs);
      assert x in ys <==> x in multiset(ys);
    }
  }
}
