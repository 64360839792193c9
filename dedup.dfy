/**
 * URL deduplication, as done per source (`_deduplicate_auctions`) and again at
 * the top level of the handler: records are entered into a dict keyed by their
 * `url` in list order, a record whose `url` is missing or falsy is skipped, and
 * a URL already present keeps its first record.  The dict's values, in
 * insertion order, are the result.
 */
module Dedup {
  import opened Wrappers
  import opened Values
  import opened Seqs

  /** `auction.get('url')`. */
  function UrlOf(r: Record): Value {
    GetOr(r, "url", VNone)
  }

  function Urls(xs: seq<Record>): (us: seq<Value>)
    ensures |us| == |xs|
    ensures forall k :: 0 <= k < |xs| ==> us[k] == UrlOf(xs[k])
  {
    seq(|xs|, k requires 0 <= k < |xs| => UrlOf(xs[k]))
  }

  /** Python refuses lists and dicts as dict keys. */
  predicate Hashable(v: Value) {
    !v.VList? && !v.VMap?
  }

  /** The record at `i` has a truthy URL that no earlier record carries. */
  ghost predicate IsFirst(xs: seq<Record>, i: int) {
    0 <= i < |xs| && Truthy(UrlOf(xs[i])) &&
    forall j :: 0 <= j < i ==> UrlOf(xs[j]) != UrlOf(xs[i])
  }

  lemma UrlsSnoc(xs: seq<Record>, x: Record)
    ensures Urls(xs + [x]) == Urls(xs) + [UrlOf(x)]
  {
  }

  /** The dict's values, in insertion order, once the loop has seen the first `n`
      records. */
  function DedupPrefix(xs: seq<Record>, n: nat): seq<Record>
    requires n <= |xs|
    decreases n
  {
    if n == 0 then []
    else
      var d := DedupPrefix(xs, n - 1);
      var x := xs[n - 1];
      if Truthy(UrlOf(x)) && UrlOf(x) !in Urls(d) then d + [x] else d
  }

  /** The values of the dict after the loop. */
  function Dedup(xs: seq<Record>): seq<Record> {
    DedupPrefix(xs, |xs|)
  }

  /** The whole loop, with its one error: a truthy URL that cannot be a dict key. */
  function DedupChecked(xs: seq<Record>): (r: Result<seq<Record>>)
    ensures r.Err? <==> exists i :: 0 <= i < |xs| && Truthy(UrlOf(xs[i])) && !Hashable(UrlOf(xs[i]))
    ensures r.Ok? ==> r.value == Dedup(xs)
  {
    if exists i | 0 <= i < |xs| :: Truthy(UrlOf(xs[i])) && !Hashable(UrlOf(xs[i])) then
      Err("unhashable type")
    else
      Ok(Dedup(xs))
  }

  /** `_deduplicate_auctions(auctions)`: the dict is the set of URLs seen and the list of its values. */
  method DeduplicateAuctions(auctions: seq<Record>) returns (r: Result<seq<Record>>)
    ensures r == DedupChecked(auctions)
  {
    var seen: set<Value> := {};
    var result: seq<Record> := [];
    var i := 0;
    while i < |auctions|
      invariant 0 <= i <= |auctions|
      invariant result == DedupPrefix(auctions, i)
      invariant forall u :: u in seen <==> u in Urls(result)
      invariant forall j :: 0 <= j < i ==> !(Truthy(UrlOf(auctions[j])) && !Hashable(UrlOf(auctions[j])))
    {
      var url := UrlOf(auctions[i]);
      if Truthy(url) && !Hashable(url) {
        return Err("unhashable type");
      }
      if Truthy(url) && url !in seen {
        UrlsSnoc(result, auctions[i]);
        seen := seen + {url};
        result := result + [auctions[i]];
      }
      i := i + 1;
    }
    r := Ok(result);
  }

  /** A conversion that keeps each record's URL, applied up to the first record it
      fails on, keeps the URLs of that stretch of the list. */
  lemma MapWhileUrls(xs: seq<Record>, f: Record -> Option<Record>)
    requires forall k :: 0 <= k < |xs| && f(xs[k]).Some? ==> UrlOf(f(xs[k]).value) == UrlOf(xs[k])
    ensures var r := MapWhile(xs, 0, f);
      |r| <= |xs| && Urls(r) == Urls(xs)[..|r|]
  {
    MapWhileSpec(xs, 0, f);
    var r := MapWhile(xs, 0, f);
    forall k | 0 <= k < |r| ensures UrlOf(r[k]) == UrlOf(xs[k]) {
      assert f(xs[0 + k]) == Some(r[k]);
    }
  }

  // ---------------------------------------------------------------------
  // The reference definition: the first occurrence of every truthy URL

  /** Among the first `n` records, those that are the first with their URL, in list order. */
  ghost function FirstOccurrences(xs: seq<Record>, n: nat): seq<Record>
    requires n <= |xs|
    decreases n
  {
    if n == 0 then []
    else if IsFirst(xs, n - 1) then FirstOccurrences(xs, n - 1) + [xs[n - 1]]
    else FirstOccurrences(xs, n - 1)
  }

  /** A truthy URL is among the first occurrences' URLs iff one of the first `n`
      records carries it. */
  lemma {:induction false} FirstOccurrencesUrls(xs: seq<Record>, n: nat, u: Value)
    requires n <= |xs| && Truthy(u)
    ensures u in Urls(FirstOccurrences(xs, n)) <==> exists j :: 0 <= j < n && UrlOf(xs[j]) == u
    decreases n
  {
    if n > 0 {
      FirstOccurrencesUrls(xs, n - 1, u);
      var f := FirstOccurrences(xs, n - 1);
      var x := xs[n - 1];
      if IsFirst(xs, n - 1) {
        UrlsSnoc(f, x);
      } else if UrlOf(x) == u {
        var j :| 0 <= j < n - 1 && UrlOf(xs[j]) == UrlOf(x);
      }
    }
  }

  /** Deduplication keeps exactly the first occurrences. */
  lemma {:induction false} DedupPrefixIsFirstOccurrences(xs: seq<Record>, n: nat)
    requires n <= |xs|
    ensures DedupPrefix(xs, n) == FirstOccurrences(xs, n)
    decreases n
  {
    if n > 0 {
      DedupPrefixIsFirstOccurrences(xs, n - 1);
      var x := xs[n - 1];
      if Truthy(UrlOf(x)) {
        FirstOccurrencesUrls(xs, n - 1, UrlOf(x));
      }
    }
  }

  lemma DedupIsFirstOccurrences(xs: seq<Record>)
    ensures Dedup(xs) == FirstOccurrences(xs, |xs|)
  {
    DedupPrefixIsFirstOccurrences(xs, |xs|);
  }

  /** The first occurrences all have truthy URLs, no two the same, and each is
      the first record with its URL. */
  lemma {:induction false} FirstOccurrencesUnique(xs: seq<Record>, n: nat)
    requires n <= |xs|
    ensures |FirstOccurrences(xs, n)| <= n
    ensures forall k :: 0 <= k < |FirstOccurrences(xs, n)| ==> Truthy(UrlOf(FirstOccurrences(xs, n)[k]))
    ensures Distinct(Urls(FirstOccurrences(xs, n)))
    decreases n
  {
    if n > 0 {
      FirstOccurrencesUnique(xs, n - 1);
      var f := FirstOccurrences(xs, n - 1);
      var x := xs[n - 1];
      if IsFirst(xs, n - 1) {
        FirstOccurrencesUrls(xs, n - 1, UrlOf(x));
        UrlsSnoc(f, x);
        DistinctSnoc(Urls(f), UrlOf(x));
        assert FirstOccurrences(xs, n) == f + [x];
      }
    }
  }

  /** Every first occurrence is one of the first `n` records, and the first with its URL. */
  lemma {:induction false} FirstOccurrencesAreFirst(xs: seq<Record>, n: nat, k: nat)
    requires n <= |xs| && k < |FirstOccurrences(xs, n)|
    ensures exists i :: 0 <= i < n && IsFirst(xs, i) && FirstOccurrences(xs, n)[k] == xs[i]
    decreases n
  {
    var f := FirstOccurrences(xs, n - 1);
    if k < |f| {
      FirstOccurrencesAreFirst(xs, n - 1, k);
      var i :| 0 <= i < n - 1 && IsFirst(xs, i) && f[k] == xs[i];
      assert FirstOccurrences(xs, n)[k] == f[k];
    } else {
      assert FirstOccurrences(xs, n) == f + [xs[n - 1]];
      assert IsFirst(xs, n - 1) && FirstOccurrences(xs, n)[k] == xs[n - 1];
    }
  }

  /** A record that is the first with its URL is kept by every longer prefix. */
  lemma {:induction false} FirstOccurrencesKeep(xs: seq<Record>, n: nat, i: nat)
    requires i < n <= |xs| && IsFirst(xs, i)
    ensures xs[i] in FirstOccurrences(xs, n)
    decreases n
  {
    if i < n - 1 {
      FirstOccurrencesKeep(xs, n - 1, i);
    }
  }

  /** The first occurrences keep the records' order: a sublist of the records. */
  lemma {:induction false} FirstOccurrencesSublist(xs: seq<Record>, n: nat)
    requires n <= |xs|
    ensures IsSubsequence(FirstOccurrences(xs, n), xs[..n])
    decreases n
  {
    if n > 0 {
      FirstOccurrencesSublist(xs, n - 1);
      SubsequenceSnoc(FirstOccurrences(xs, n - 1), xs[..n - 1], xs[n - 1]);
      assert xs[..n] == xs[..n - 1] + [xs[n - 1]];
    }
  }

  // ---------------------------------------------------------------------
  // Properties

  /** The output is an order-preserving selection of the input whose URLs are
      all truthy and pairwise distinct. */
  lemma DedupShape(xs: seq<Record>)
    ensures IsSubsequence(Dedup(xs), xs)
    ensures |Dedup(xs)| <= |xs|
    ensures forall k :: 0 <= k < |Dedup(xs)| ==> Truthy(UrlOf(Dedup(xs)[k]))
    ensures Distinct(Urls(Dedup(xs)))
  {
    DedupIsFirstOccurrences(xs);
    FirstOccurrencesUnique(xs, |xs|);
    FirstOccurrencesSublist(xs, |xs|);
    assert xs[..|xs|] == xs;
  }

  /** Every truthy URL of the input is carried by the output. */
  lemma DedupCoversUrls(xs: seq<Record>, i: nat)
    requires i < |xs| && Truthy(UrlOf(xs[i]))
    ensures UrlOf(xs[i]) in Urls(Dedup(xs))
  {
    DedupIsFirstOccurrences(xs);
    FirstOccurrencesUrls(xs, |xs|, UrlOf(xs[i]));
  }

  /** For every truthy URL, its first record is in the output, and it is the only
      output record with that URL. */
  lemma FirstOccurrenceKept(xs: seq<Record>, i: nat)
    requires IsFirst(xs, i)
    ensures xs[i] in Dedup(xs)
    ensures forall k :: 0 <= k < |Dedup(xs)| && UrlOf(Dedup(xs)[k]) == UrlOf(xs[i]) ==> Dedup(xs)[k] == xs[i]
  {
    DedupIsFirstOccurrences(xs);
    FirstOccurrencesKeep(xs, |xs|, i);
    FirstOccurrencesUnique(xs, |xs|);
    var r := Dedup(xs);
    var k0 :| 0 <= k0 < |r| && r[k0] == xs[i];
    forall k | 0 <= k < |r| && UrlOf(r[k]) == UrlOf(xs[i]) ensures r[k] == xs[i] {
      assert Urls(r)[k] == Urls(r)[k0];
    }
  }

  /** Every output record is the first record with its URL. */
  lemma OutputIsFirstOccurrence(xs: seq<Record>, k: nat)
    requires k < |Dedup(xs)|
    ensures exists i :: IsFirst(xs, i) && Dedup(xs)[k] == xs[i]
  {
    DedupIsFirstOccurrences(xs);
    FirstOccurrencesAreFirst(xs, |xs|, k);
  }

  /** Records whose URLs are all truthy and pairwise distinct are each the first
      with their URL, so all of them are first occurrences. */
  lemma {:induction false} FirstOccurrencesOfUnique(xs: seq<Record>, n: nat)
    requires n <= |xs|
    requires forall k :: 0 <= k < |xs| ==> Truthy(UrlOf(xs[k]))
    requires Distinct(Urls(xs))
    ensures |FirstOccurrences(xs, n)| == n
    ensures forall k :: 0 <= k < n ==> FirstOccurrences(xs, n)[k] == xs[k]
    decreases n
  {
    if n > 0 {
      FirstOccurrencesOfUnique(xs, n - 1);
      assert IsFirst(xs, n - 1) by {
        forall j | 0 <= j < n - 1 ensures UrlOf(xs[j]) != UrlOf(xs[n - 1]) {
          assert Urls(xs)[j] != Urls(xs)[n - 1];
        }
      }
    }
  }

  /** A list whose URLs are all truthy and pairwise distinct is its own deduplication. */
  lemma DedupOfUnique(xs: seq<Record>)
    requires forall k :: 0 <= k < |xs| ==> Truthy(UrlOf(xs[k]))
    requires Distinct(Urls(xs))
    ensures Dedup(xs) == xs
  {
    DedupIsFirstOccurrences(xs);
    FirstOccurrencesOfUnique(xs, |xs|);
  }

  /** Deduplicating twice is deduplicating once. */
  lemma DedupIdempotent(xs: seq<Record>)
    ensures Dedup(Dedup(xs)) == Dedup(xs)
  {
    DedupShape(xs);
    DedupOfUnique(Dedup(xs));
  }
}
