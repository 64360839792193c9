/**
 * The keyword relevance filter (`_filter_auctions`): a record is kept when the
 * first query variation found in its lowered `title`, `description` and
 * `auction_title` is non-empty; a kept record is stamped in place with
 * `match_reason`.  A field that is present but not a string has no `lower`,
 * and the exception leaves the filter with the records before it stamped.
 */
module KeywordFilter {
  import opened Wrappers
  import opened Text
  import opened Values
  import opened Seqs
  import opened Variations

  /** `auction.get(k, '').lower()`; `None` is the exception a non-string value raises. */
  function FieldLower(r: Record, k: string): Option<string> {
    match GetOr(r, k, VStr(""))
    case VStr(s) => Some(Lower(s))
    case _ => None
  }

  /** A missing field reads as the empty string. */
  lemma FieldLowerAbsent(r: Record, k: string)
    requires !HasKey(r, k)
    ensures FieldLower(r, k) == Some("")
  {
    GetSome(r, k);
  }

  /** The lowered `title + ' ' + description + ' ' + auction_title` searched for the variations. */
  function AuctionText(r: Record): Option<string> {
    match (FieldLower(r, "title"), FieldLower(r, "description"), FieldLower(r, "auction_title"))
    case (Some(t), Some(d), Some(a)) => Some(t + " " + d + " " + a)
    case _ => None
  }

  /** The first variation from index `i` on, in list order, that occurs in `text`. */
  function FirstFoundFrom(variations: seq<string>, text: string, i: nat): (r: Option<nat>)
    requires i <= |variations|
    ensures r.Some? ==> i <= r.value < |variations| && Contains(text, variations[r.value])
    ensures r.Some? ==> forall j :: i <= j < r.value ==> !Contains(text, variations[j])
    ensures r.None? ==> forall j :: i <= j < |variations| ==> !Contains(text, variations[j])
    decreases |variations| - i
  {
    if i == |variations| then None
    else if Contains(text, variations[i]) then Some(i)
    else FirstFoundFrom(variations, text, i + 1)
  }

  /** `for term in variations: if term in text: break`. */
  function FirstFound(variations: seq<string>, text: string): (r: Option<nat>)
    ensures r.Some? ==> r.value < |variations| && Contains(text, variations[r.value])
    ensures r.Some? ==> forall j :: 0 <= j < r.value ==> !Contains(text, variations[j])
    ensures r.None? ==> forall j :: 0 <= j < |variations| ==> !Contains(text, variations[j])
  {
    FirstFoundFrom(variations, text, 0)
  }

  /** What the loop body does with one record. */
  datatype Verdict = Fails | Drop | Keep(term: string)

  function VerdictOf(r: Record, variations: seq<string>): Verdict {
    match AuctionText(r)
    case None => Fails
    case Some(text) =>
      match FirstFound(variations, text)
      case Some(i) => if variations[i] != "" then Keep(variations[i]) else Drop
      case None => Drop
  }

  /** `auction['match_reason'] = f"Matched term: {term}"`. */
  function Stamp(r: Record, term: string): Record {
    Set(r, "match_reason", VStr("Matched term: " + term))
  }

  /** The verdict of every record, for the variations of one query. */
  function Verdicts(xs: seq<Record>, variations: seq<string>): (vs: seq<Verdict>)
    ensures |vs| == |xs|
    ensures forall i :: 0 <= i < |xs| ==> vs[i] == VerdictOf(xs[i], variations)
  {
    seq(|xs|, i requires 0 <= i < |xs| => VerdictOf(xs[i], variations))
  }

  /** The record as the loop leaves it, given its verdict. */
  function AfterVisit(r: Record, verdict: Verdict): Record {
    match verdict
    case Keep(term) => Stamp(r, term)
    case _ => r
  }

  /** The list once the loop has visited its first `n` records, whose verdicts are
      `vs`: each kept record replaced, in place, by its stamped copy. */
  function VisitedUpTo(xs: seq<Record>, vs: seq<Verdict>, n: nat): (ys: seq<Record>)
    requires |vs| == |xs|
    ensures |ys| == |xs|
    ensures forall i :: 0 <= i < |xs| ==> ys[i] == if i < n then AfterVisit(xs[i], vs[i]) else xs[i]
  {
    seq(|xs|, i requires 0 <= i < |xs| => if i < n then AfterVisit(xs[i], vs[i]) else xs[i])
  }

  /** The records kept among the first `n`, as stamped. */
  function KeptPrefix(xs: seq<Record>, vs: seq<Verdict>, n: nat): seq<Record>
    requires |vs| == |xs| && n <= |xs|
    decreases n
  {
    if n == 0 then []
    else
      var rest := KeptPrefix(xs, vs, n - 1);
      match vs[n - 1]
      case Keep(term) => rest + [Stamp(xs[n - 1], term)]
      case _ => rest
  }

  /** The filtered list, for records none of which fails. */
  function Kept(xs: seq<Record>, variations: seq<string>): seq<Record> {
    KeptPrefix(xs, Verdicts(xs, variations), |xs|)
  }

  /** The index of the first verdict from `i` on that is a failure, or `|vs|`. */
  function FailFrom(vs: seq<Verdict>, i: nat): (n: nat)
    requires i <= |vs|
    ensures i <= n <= |vs|
    ensures forall j :: i <= j < n ==> !vs[j].Fails?
    ensures n < |vs| ==> vs[n].Fails?
    decreases |vs| - i
  {
    if i == |vs| then |vs|
    else if vs[i].Fails? then i
    else FailFrom(vs, i + 1)
  }

  /** The index of the first record whose fields cannot be lowered, or `|xs|`. */
  function FailAt(xs: seq<Record>, variations: seq<string>): (n: nat)
    ensures n <= |xs|
    ensures forall i :: 0 <= i < n ==> !VerdictOf(xs[i], variations).Fails?
    ensures n < |xs| ==> VerdictOf(xs[n], variations).Fails?
  {
    FailFrom(Verdicts(xs, variations), 0)
  }

  /** `_filter_auctions(raw_auctions, query)` over the list whose dicts it stamps in
      place: the records before the first failing one are stamped, the rest are
      untouched, and the filtered list comes back only when none fails. */
  method FilterAuctions(auctions: array<Record>, query: string) returns (r: Result<seq<Record>>)
    modifies auctions
    ensures var xs, vs := old(auctions[..]), QueryVariations(query);
      var n := FailAt(xs, vs);
      auctions[..] == VisitedUpTo(xs, Verdicts(xs, vs), n) &&
      (r.Ok? <==> n == |xs|) &&
      (r.Ok? ==> r.value == Kept(xs, vs))
  {
    var variations := GenerateQueryVariations(query);
    r := FilterBy(auctions, variations);
  }

  /** The loop over the records, for the variations already generated. */
  method FilterBy(auctions: array<Record>, variations: seq<string>) returns (r: Result<seq<Record>>)
    modifies auctions
    ensures var xs := old(auctions[..]);
      var n := FailAt(xs, variations);
      auctions[..] == VisitedUpTo(xs, Verdicts(xs, variations), n) &&
      (r.Ok? <==> n == |xs|) &&
      (r.Ok? ==> r.value == Kept(xs, variations))
  {
    ghost var xs := auctions[..];
    ghost var vs := Verdicts(xs, variations);
    var filtered: seq<Record> := [];
    var i := 0;
    while i < auctions.Length
      invariant 0 <= i <= auctions.Length && auctions.Length == |xs|
      invariant i <= FailFrom(vs, 0)
      invariant auctions[..] == VisitedUpTo(xs, vs, i)
      invariant filtered == KeptPrefix(xs, vs, i)
    {
      var auction := auctions[i];
      assert auction == xs[i];
      var verdict := Visit(auction, variations);
      assert verdict == vs[i];
      if verdict.Fails? {
        FailFromIsFirst(vs, 0, i);
        return Err("'NoneType' object has no attribute 'lower'");
      }
      VisitStep(xs, vs, i);
      if verdict.Keep? {
        var stamped := Stamp(auction, verdict.term);
        auctions[i] := stamped;
        filtered := filtered + [stamped];
      }
      i := i + 1;
    }
    r := Ok(filtered);
  }

  /** The loop body's reading of one record: its text, then the first variation in it. */
  method Visit(auction: Record, variations: seq<string>) returns (verdict: Verdict)
    ensures verdict == VerdictOf(auction, variations)
  {
    var text := AuctionText(auction);
    if text.None? {
      return Fails;
    }
    var found := FirstFound(variations, text.value);
    if found.Some? && variations[found.value] != "" {
      return Keep(variations[found.value]);
    }
    return Drop;
  }

  /** One turn of the loop updates the visited record in place and extends the
      filtered list by it when it is kept. */
  lemma VisitStep(xs: seq<Record>, vs: seq<Verdict>, i: nat)
    requires |vs| == |xs| && i < |xs|
    ensures VisitedUpTo(xs, vs, i + 1) == VisitedUpTo(xs, vs, i)[i := AfterVisit(xs[i], vs[i])]
    ensures KeptPrefix(xs, vs, i + 1) ==
      KeptPrefix(xs, vs, i) + if vs[i].Keep? then [Stamp(xs[i], vs[i].term)] else []
  {
    var a, b := VisitedUpTo(xs, vs, i + 1), VisitedUpTo(xs, vs, i)[i := AfterVisit(xs[i], vs[i])];
    forall j | 0 <= j < |xs| ensures a[j] == b[j] {
    }
  }

  /** The first failure after verdicts that are not is where the loop stops. */
  lemma {:induction false} FailFromIsFirst(vs: seq<Verdict>, i: nat, k: nat)
    requires i <= k < |vs| && vs[k].Fails?
    requires forall j :: i <= j < k ==> !vs[j].Fails?
    ensures FailFrom(vs, i) == k
    decreases k - i
  {
    if i < k {
      FailFromIsFirst(vs, i + 1, k);
    }
  }

  // ---------------------------------------------------------------------
  // Properties

  /** The kept records among the first `n` are a sublist of those records as visited. */
  lemma {:induction false} KeptPrefixSublist(xs: seq<Record>, vs: seq<Verdict>, n: nat)
    requires |vs| == |xs| && n <= |xs|
    ensures IsSubsequence(KeptPrefix(xs, vs, n), VisitedUpTo(xs, vs, |xs|)[..n])
    decreases n
  {
    if n > 0 {
      var ys := VisitedUpTo(xs, vs, |xs|);
      KeptPrefixSublist(xs, vs, n - 1);
      assert ys[..n] == ys[..n - 1] + [AfterVisit(xs[n - 1], vs[n - 1])];
      SubsequenceSnoc(KeptPrefix(xs, vs, n - 1), ys[..n - 1], AfterVisit(xs[n - 1], vs[n - 1]));
    }
  }

  /** The filtered list keeps input order: it is a sublist of the visited records. */
  lemma KeptIsSublist(xs: seq<Record>, variations: seq<string>)
    ensures IsSubsequence(Kept(xs, variations), VisitedUpTo(xs, Verdicts(xs, variations), |xs|))
    ensures |Kept(xs, variations)| <= |xs|
  {
    var vs := Verdicts(xs, variations);
    var ys := VisitedUpTo(xs, vs, |xs|);
    KeptPrefixSublist(xs, vs, |xs|);
    assert ys[..|xs|] == ys;
    SubsequenceMembers(Kept(xs, variations), ys);
  }

  /** Each kept record among the first `n` is one of them whose verdict was
      `Keep(term)`, with `match_reason` set to `"Matched term: " + term`. */
  lemma {:induction false} KeptPrefixStamped(xs: seq<Record>, vs: seq<Verdict>, n: nat, k: nat)
    requires |vs| == |xs| && n <= |xs| && k < |KeptPrefix(xs, vs, n)|
    ensures exists i, term :: (0 <= i < n && vs[i] == Keep(term) &&
      KeptPrefix(xs, vs, n)[k] == Stamp(xs[i], term))
    decreases n
  {
    var rest := KeptPrefix(xs, vs, n - 1);
    if k < |rest| {
      KeptPrefixStamped(xs, vs, n - 1, k);
      var i, term :| 0 <= i < n - 1 && vs[i] == Keep(term) && rest[k] == Stamp(xs[i], term);
      assert KeptPrefix(xs, vs, n)[k] == rest[k];
    } else {
      var term := vs[n - 1].term;
      assert vs[n - 1] == Keep(term);
    }
  }

  /** Each kept record is an input record whose verdict was `Keep(term)`, with
      `match_reason` set to `"Matched term: " + term` and every other key as it was. */
  lemma KeptRecordsAreStamped(xs: seq<Record>, variations: seq<string>, k: nat)
    requires k < |Kept(xs, variations)|
    ensures exists i, term :: (0 <= i < |xs| && VerdictOf(xs[i], variations) == Keep(term) &&
      Kept(xs, variations)[k] == Stamp(xs[i], term))
  {
    KeptPrefixStamped(xs, Verdicts(xs, variations), |xs|, k);
  }

  /** The kept records among the first `i` open the kept records among the first `n`. */
  lemma {:induction false} KeptPrefixExtends(xs: seq<Record>, vs: seq<Verdict>, i: nat, n: nat)
    requires |vs| == |xs| && i <= n <= |xs|
    ensures |KeptPrefix(xs, vs, i)| <= |KeptPrefix(xs, vs, n)|
    ensures KeptPrefix(xs, vs, n)[..|KeptPrefix(xs, vs, i)|] == KeptPrefix(xs, vs, i)
    decreases n - i
  {
    if i < n {
      KeptPrefixExtends(xs, vs, i, n - 1);
      var a, b := KeptPrefix(xs, vs, i), KeptPrefix(xs, vs, n - 1);
      var c := KeptPrefix(xs, vs, n);
      assert c[..|b|] == b;
      assert c[..|a|] == b[..|a|];
    }
  }

  /** A record whose verdict is `Keep(term)` is in the filtered list, stamped with
      that term, right after the records kept before it. */
  lemma KeepVerdictKept(xs: seq<Record>, variations: seq<string>, i: nat, term: string)
    requires i < |xs| && VerdictOf(xs[i], variations) == Keep(term)
    ensures var k := |KeptPrefix(xs, Verdicts(xs, variations), i)|;
      k < |Kept(xs, variations)| && Kept(xs, variations)[k] == Stamp(xs[i], term)
  {
    var vs := Verdicts(xs, variations);
    var a := KeptPrefix(xs, vs, i);
    assert KeptPrefix(xs, vs, i + 1) == a + [Stamp(xs[i], term)];
    KeptPrefixExtends(xs, vs, i + 1, |xs|);
    assert Kept(xs, variations)[..|a| + 1][|a|] == Stamp(xs[i], term);
  }

  /** With no empty variation, a readable record in which some variation occurs
      is in the filtered list, stamped with the first variation that occurs. */
  lemma KeptWhenSomeVariation(xs: seq<Record>, variations: seq<string>, i: nat, j: nat)
    requires "" !in variations && i < |xs| && AuctionText(xs[i]).Some?
    requires j < |variations| && Contains(AuctionText(xs[i]).value, variations[j])
    ensures VerdictOf(xs[i], variations).Keep?
    ensures Stamp(xs[i], VerdictOf(xs[i], variations).term) in Kept(xs, variations)
  {
    KeepIffSomeVariation(xs[i], variations);
    KeepVerdictKept(xs, variations, i, VerdictOf(xs[i], variations).term);
  }

  lemma StampReads(r: Record, term: string)
    ensures Get(Stamp(r, term), "match_reason") == Some(VStr("Matched term: " + term))
    ensures forall k :: k != "match_reason" ==> Get(Stamp(r, term), k) == Get(r, k)
  {
    SetGet(r, "match_reason", VStr("Matched term: " + term));
  }

  /** With no empty variation, a record that can be read is kept exactly when some
      variation occurs in its text, and the stamped term is the first one that does. */
  lemma {:induction false} KeepIffSomeVariation(r: Record, variations: seq<string>)
    requires "" !in variations && AuctionText(r).Some?
    ensures VerdictOf(r, variations).Keep? <==>
      exists j :: 0 <= j < |variations| && Contains(AuctionText(r).value, variations[j])
    ensures VerdictOf(r, variations).Keep? ==>
      exists j :: 0 <= j < |variations| && variations[j] == VerdictOf(r, variations).term &&
        Contains(AuctionText(r).value, variations[j]) &&
        forall j' :: 0 <= j' < j ==> !Contains(AuctionText(r).value, variations[j'])
  {
    var found := FirstFound(variations, AuctionText(r).value);
    if found.Some? {
      assert variations[found.value] in variations;
    }
  }

  /** A blank query makes the empty string the first variation; it occurs in every
      text, is falsy, and so every record is dropped. */
  lemma {:induction false} BlankQueryKeepsNothing(query: string, r: Record)
    requires Normalize(query) == ""
    ensures !VerdictOf(r, QueryVariations(query)).Keep?
  {
    VariationsStartWithQuery(query);
    var vs := QueryVariations(query);
    if AuctionText(r).Some? {
      ContainsEmpty(AuctionText(r).value);
      assert FirstFound(vs, AuctionText(r).value) == Some(0);
    }
  }
}
