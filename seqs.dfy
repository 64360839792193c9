/**
 * List facts shared by the pipeline stages: duplicate-free lists, the
 * first-seen-order duplicate removal the query expansion ends with, and
 * order-preserving sublists (what a filter returns).
 */
module Seqs {
  import opened Wrappers

  /** `f` applied to the items from index `i` on, up to the first item it fails on:
      what a loop that appends each result builds when one `try` wraps it. */
  function MapWhile<A, B>(xs: seq<A>, i: nat, f: A -> Option<B>): seq<B>
    requires i <= |xs|
    decreases |xs| - i
  {
    if i == |xs| then []
    else
      match f(xs[i])
      case None => []
      case Some(y) => [y] + MapWhile(xs, i + 1, f)
  }

  /** One step of the loop: the item at `i` converted to `o`. */
  lemma MapWhileStep<A, B>(xs: seq<A>, i: nat, f: A -> Option<B>, o: Option<B>)
    requires i < |xs| && f(xs[i]) == o
    ensures MapWhile(xs, i, f) == if o.Some? then [o.value] + MapWhile(xs, i + 1, f) else []
  {
  }

  /** The results are those of a stretch of the items, and the item right after that
      stretch, if any, is the one `f` failed on. */
  lemma {:induction false} MapWhileSpec<A, B>(xs: seq<A>, i: nat, f: A -> Option<B>)
    requires i <= |xs|
    ensures var r := MapWhile(xs, i, f);
      i + |r| <= |xs| &&
      (forall k :: 0 <= k < |r| ==> f(xs[i + k]) == Some(r[k])) &&
      (i + |r| < |xs| ==> f(xs[i + |r|]).None?)
    decreases |xs| - i
  {
    if i < |xs| && f(xs[i]).Some? {
      MapWhileSpec(xs, i + 1, f);
      var rest := MapWhile(xs, i + 1, f);
      var r := MapWhile(xs, i, f);
      assert r == [f(xs[i]).value] + rest;
      forall k | 0 < k < |r| ensures f(xs[i + k]) == Some(r[k]) {
        assert r[k] == rest[k - 1] && i + k == (i + 1) + (k - 1);
      }
    }
  }

  /** `MapWhileSpec` from the first item on. */
  lemma MapWhileFromStart<A, B>(xs: seq<A>, f: A -> Option<B>)
    ensures var r := MapWhile(xs, 0, f);
      |r| <= |xs| &&
      (forall k :: 0 <= k < |r| ==> f(xs[k]) == Some(r[k])) &&
      (|r| < |xs| ==> f(xs[|r|]).None?)
  {
    var r := MapWhile(xs, 0, f);
    MapWhileSpec(xs, 0, f);
    forall k | 0 <= k < |r| ensures f(xs[k]) == Some(r[k]) {
      assert f(xs[0 + k]) == Some(r[k]);
    }
    if |r| < |xs| {
      assert f(xs[0 + |r|]).None?;
    }
  }

  predicate Distinct<T(==)>(xs: seq<T>) {
    forall i, j :: 0 <= i < j < |xs| ==> xs[i] != xs[j]
  }

  /** When every result `f` gives on the items satisfies `p`, so does every result
      collected. */
  lemma MapWhileAll<A, B>(xs: seq<A>, f: A -> Option<B>, p: B -> bool)
    requires forall k :: 0 <= k < |xs| && f(xs[k]).Some? ==> p(f(xs[k]).value)
    ensures forall k :: 0 <= k < |MapWhile(xs, 0, f)| ==> p(MapWhile(xs, 0, f)[k])
  {
    MapWhileSpec(xs, 0, f);
    var r := MapWhile(xs, 0, f);
    forall k | 0 <= k < |r| ensures p(r[k]) {
      assert f(xs[0 + k]) == Some(r[k]);
    }
  }

  lemma DistinctSnoc<T>(xs: seq<T>, x: T)
    requires Distinct(xs) && x !in xs
    ensures Distinct(xs + [x])
  {
    forall i, j | 0 <= i < j < |xs + [x]| ensures (xs + [x])[i] != (xs + [x])[j] {
      if j == |xs| {
        assert (xs + [x])[i] == xs[i];
      } else {
        assert (xs + [x])[i] == xs[i] && (xs + [x])[j] == xs[j];
      }
    }
  }

  /** Keeps the first occurrence of every element, in first-seen order. */
  function Dedupe<T(==)>(xs: seq<T>): (r: seq<T>)
    ensures |r| <= |xs|
    ensures forall i :: 0 <= i < |xs| ==> xs[i] in r
    ensures forall i :: 0 <= i < |r| ==> r[i] in xs
    ensures Distinct(r)
    ensures xs != [] ==> r != [] && r[0] == xs[0]
    decreases |xs|
  {
    if xs == [] then []
    else
      var init := xs[..|xs| - 1];
      var d := Dedupe(init);
      var x := xs[|xs| - 1];
      assert xs == init + [x];
      if x in d then d
      else
        DistinctSnoc(d, x);
        d + [x]
  }

  /** A list that is already free of duplicates is left as it is. */
  lemma {:induction false} DedupeOfDistinct<T>(xs: seq<T>)
    requires Distinct(xs)
    ensures Dedupe(xs) == xs
    decreases |xs|
  {
    if xs != [] {
      var init := xs[..|xs| - 1];
      assert Distinct(init) by {
        forall i, j | 0 <= i < j < |init| ensures init[i] != init[j] {
          assert init[i] == xs[i] && init[j] == xs[j];
        }
      }
      DedupeOfDistinct(init);
      assert xs[|xs| - 1] !in init by {
        forall i | 0 <= i < |init| ensures init[i] != xs[|xs| - 1] {
          assert init[i] == xs[i];
        }
      }
      assert xs == init + [xs[|xs| - 1]];
    }
  }

  /** Removing duplicates twice is removing them once. */
  lemma DedupeIdempotent<T>(xs: seq<T>)
    ensures Dedupe(Dedupe(xs)) == Dedupe(xs)
  {
    DedupeOfDistinct(Dedupe(xs));
  }

  /** `xs` is `ys` with some elements left out and the rest kept in order. */
  ghost predicate IsSubsequence<T>(xs: seq<T>, ys: seq<T>)
    decreases |ys|
  {
    if xs == [] then true
    else if ys == [] then false
    else
      (xs[|xs| - 1] == ys[|ys| - 1] && IsSubsequence(xs[..|xs| - 1], ys[..|ys| - 1]))
      || IsSubsequence(xs, ys[..|ys| - 1])
  }

  /** Extending the longer list by one element at the end keeps the relation,
      whether or not the shorter one takes the element too. */
  lemma SubsequenceSnoc<T>(xs: seq<T>, ys: seq<T>, y: T)
    requires IsSubsequence(xs, ys)
    ensures IsSubsequence(xs, ys + [y]) && IsSubsequence(xs + [y], ys + [y])
  {
    assert (ys + [y])[..|ys|] == ys;
    assert (xs + [y])[..|xs|] == xs;
  }

  /** Every element of a sublist is an element of the list. */
  lemma {:induction false} SubsequenceMembers<T>(xs: seq<T>, ys: seq<T>)
    requires IsSubsequence(xs, ys)
    ensures forall i :: 0 <= i < |xs| ==> xs[i] in ys
    ensures |xs| <= |ys|
    decreases |ys|
  {
    if xs != [] {
      var yi := ys[..|ys| - 1];
      if xs[|xs| - 1] == ys[|ys| - 1] && IsSubsequence(xs[..|xs| - 1], yi) {
        SubsequenceMembers(xs[..|xs| - 1], yi);
        assert xs == xs[..|xs| - 1] + [xs[|xs| - 1]];
        assert ys == yi + [ys[|ys| - 1]];
      } else {
        SubsequenceMembers(xs, yi);
        assert ys == yi + [ys[|ys| - 1]];
      }
    }
  }
}
