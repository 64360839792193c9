/**
 * The Central Sul adapter's `search`: the browser search collects one record
 * per result element that has a lot link (or, when there is none, the record of
 * a known lot for the query), then the records are deduplicated by URL,
 * filtered by the query's variations, and the survivors with a missing or
 * placeholder description get the description of their detail page.
 *
 * The browser is abstract: the result elements are given (as what
 * `.lot-list-item` and the alternative selectors find), and the detail page a
 * URL loads is a function of the URL (`Site.load`).
 */
module CentralSul {
  import opened Wrappers
  import opened Text
  import opened Values
  import opened Seqs
  import opened Config
  import opened Variations
  import opened Dedup
  import opened KeywordFilter
  import opened Elements
  import opened BaseAdapter
  import opened DetailPage

  /** The description the listing shows for a lot whose text has to be fetched. */
  const PLACEHOLDER := "Clique para ver a descrição completa do lote"

  /** What the adapter's browser and model see: the page each URL loads, the LLM
      client, and the `USE_LLM` switch. */
  datatype Site = Site(load: Value -> Load, client: Option<LlmClient>, useLlm: bool)

  /** `self.get_auction_details(url)`. */
  function Details(site: Site, url: Value): Record {
    AuctionDetails(site.load(url), site.client, site.useLlm)
  }

  /** `get_auction_details` as the rest of the adapter sees it: a function from
      URLs to detail records. */
  function DetailsOf(site: Site): Value -> Record {
    url => Details(site, url)
  }

  // ---------------------------------------------------------------------
  // The known lot for a query

  /** `_get_fallback_auction_for_query(query)`: the `fallback_url` of the
      query's location, if it has one. */
  function FallbackAuctionForQuery(query: string): Option<string> {
    match GetLocationConfig(query)
    case Some(loc) => loc.fallbackUrl
    case None => None
  }

  /** Only the Itapirubá entry has a fallback URL: a query has one exactly when it
      resolves to that entry. */
  lemma FallbackSpec(query: string)
    ensures FallbackAuctionForQuery(query).Some? <==> GetLocationConfig(query) == Some(ITAPIRUBA)
    ensures FallbackAuctionForQuery(query).Some? ==> FallbackAuctionForQuery(query).value == ITAPIRUBA_FALLBACK_URL
  {
    if GetLocationConfig(query).Some? {
      assert GetLocationConfig(query).value in LOCATIONS;
    }
  }

  /** A blank query resolves to the first entry, so it has the known lot. */
  lemma BlankQueryFallsBack(query: string)
    requires AllSpace(query)
    ensures FallbackAuctionForQuery(query) == Some(ITAPIRUBA_FALLBACK_URL)
  {
    BlankQueryResolvesToFirst(query);
  }

  // ---------------------------------------------------------------------
  // The browser search

  /** `'url' in auction_data and auction_data['url']`. */
  predicate HasUrl(r: Record) {
    HasKey(r, "url") && Truthy(GetOr(r, "url", VNone))
  }

  /** What `_extract_auction_from_element` gives for each element, in order. */
  function Outcomes(elements: seq<Element>): (os: seq<Result<Option<Record>>>)
    ensures |os| == |elements|
    ensures forall i :: 0 <= i < |elements| ==> os[i] == ExtractAuction(elements[i])
  {
    seq(|elements|, i requires 0 <= i < |elements| => ExtractAuction(elements[i]))
  }

  /** The records the element loop has collected after the first `n` outcomes:
      an element whose extraction raises or finds no lot link adds nothing. */
  function CollectedUpTo(outcomes: seq<Result<Option<Record>>>, n: nat): seq<Record>
    requires n <= |outcomes|
    decreases n
  {
    if n == 0 then []
    else
      var rest := CollectedUpTo(outcomes, n - 1);
      match outcomes[n - 1]
      case Ok(Some(r)) => if HasUrl(r) then rest + [r] else rest
      case _ => rest
  }

  /** Reference definition: every record an extraction produces, in element order. */
  function ExtractionsUpTo(outcomes: seq<Result<Option<Record>>>, n: nat): seq<Record>
    requires n <= |outcomes|
    decreases n
  {
    if n == 0 then []
    else
      var rest := ExtractionsUpTo(outcomes, n - 1);
      match outcomes[n - 1]
      case Ok(Some(r)) => rest + [r]
      case _ => rest
  }

  /** Outcomes whose records all have a URL are collected in full. */
  lemma {:induction false} CollectedUpToAll(outcomes: seq<Result<Option<Record>>>, n: nat)
    requires n <= |outcomes|
    requires forall i :: 0 <= i < |outcomes| && outcomes[i].Ok? && outcomes[i].value.Some? ==>
      HasUrl(outcomes[i].value.value)
    ensures CollectedUpTo(outcomes, n) == ExtractionsUpTo(outcomes, n)
    decreases n
  {
    if n > 0 {
      CollectedUpToAll(outcomes, n - 1);
    }
  }

  /** Every record an extraction produces has a truthy URL. */
  lemma OutcomesHaveUrls(elements: seq<Element>)
    ensures forall i :: 0 <= i < |elements| && Outcomes(elements)[i].Ok? && Outcomes(elements)[i].value.Some? ==>
      HasUrl(Outcomes(elements)[i].value.value)
  {
    forall i | 0 <= i < |elements| && ExtractAuction(elements[i]).Ok? && ExtractAuction(elements[i]).value.Some?
      ensures HasUrl(ExtractAuction(elements[i]).value.value)
    {
      ExtractedRecordShape(elements[i]);
      GetSome(ExtractAuction(elements[i]).value.value, "url");
    }
  }

  /** The loop's URL test never drops an extracted record: the collected records
      are all the extractions, in element order. */
  lemma CollectedAreExtractions(elements: seq<Element>)
    ensures CollectedUpTo(Outcomes(elements), |elements|) == ExtractionsUpTo(Outcomes(elements), |elements|)
  {
    OutcomesHaveUrls(elements);
    CollectedUpToAll(Outcomes(elements), |elements|);
  }

  /** The record the source adds for the known lot at `u`: its detail record as
      it is, which the page does not give a URL (see the findings). */
  function KnownLotAsWritten(u: string, details: Value -> Record): seq<Record> {
    var d := details(VStr(u));
    if d == [] then [] else [d]
  }

  /** The corrected step: the detail record with `u` assigned as its URL. */
  function KnownLot(u: string, details: Value -> Record): seq<Record> {
    var d := details(VStr(u));
    if d == [] then [] else [Set(d, "url", VStr(u))]
  }

  /** The lines after an empty element loop: the known lot's detail record, when
      the query has a known lot and the record is not empty. */
  function FallbackAuctions(query: string, details: Value -> Record): seq<Record> {
    match FallbackAuctionForQuery(query)
    case None => []
    case Some(u) => KnownLotAsWritten(u, details)
  }

  /** `_selenium_search(query)` after the page has been searched. */
  function SeleniumAuctions(query: string, elements: seq<Element>, details: Value -> Record): seq<Record> {
    var collected := CollectedUpTo(Outcomes(elements), |elements|);
    if collected != [] then collected else FallbackAuctions(query, details)
  }

  method SeleniumSearch(query: string, lotItems: seq<Element>, batches: seq<seq<Element>>,
                        getAuctionDetails: Value -> Record)
    returns (rawAuctions: seq<Record>)
    ensures rawAuctions == SeleniumAuctions(query, Merged(lotItems, batches), getAuctionDetails)
  {
    var elements := FindAuctionElements(lotItems, batches);
    rawAuctions := CollectAuctions(Outcomes(elements));
    if rawAuctions == [] {
      var fallbackAuction := FallbackAuctionForQuery(query);
      if fallbackAuction.Some? {
        var details := getAuctionDetails(VStr(fallbackAuction.value));
        if details != [] {
          rawAuctions := [details];
        }
      }
    }
  }

  /** The loop of `_selenium_search` over what the extraction gives for each
      result element. */
  method CollectAuctions(outcomes: seq<Result<Option<Record>>>) returns (rawAuctions: seq<Record>)
    ensures rawAuctions == CollectedUpTo(outcomes, |outcomes|)
  {
    rawAuctions := [];
    var i := 0;
    while i < |outcomes|
      invariant 0 <= i <= |outcomes|
      invariant rawAuctions == CollectedUpTo(outcomes, i)
    {
      var auctionData := outcomes[i];
      if auctionData.Ok? && auctionData.value.Some? && HasUrl(auctionData.value.value) {
        rawAuctions := rawAuctions + [auctionData.value.value];
      }
      i := i + 1;
    }
  }

  /** The detail record a URL gives is never empty, and without the model step
      it has no URL. */
  lemma DetailsShape(site: Site, url: Value)
    ensures DetailsOf(site)(url) != []
    ensures !site.useLlm ==> UrlOf(DetailsOf(site)(url)) == VNone
    ensures site.load(url).Loaded? ==>
      Get(DetailsOf(site)(url), "description") == Some(VStr(Description(site.load(url).page)))
    ensures site.load(url).Failed? ==> Get(DetailsOf(site)(url), "description") == None
  {
    match site.load(url)
    case Failed(_) =>
    case Loaded(p) =>
      PageRecordGet(p, "title");
      GetSome(PageRecord(p), "title");
      GetSome(PageRecord(p), "description");
      EnrichedKeepsPage(p, site.client, site.useLlm, "title");
      EnrichedKeepsPage(p, site.client, site.useLlm, "description");
      GetSome(PageRecord(p), "url");
  }

  /** As written, a detail record without URL added for the known lot is
      dropped by the deduplication right after the browser search. */
  lemma KnownLotDroppedAsWritten(u: string, details: Value -> Record)
    requires details(VStr(u)) != [] && UrlOf(details(VStr(u))) == VNone
    ensures |KnownLotAsWritten(u, details)| == 1
    ensures DedupChecked(KnownLotAsWritten(u, details)) == Ok([])
  {
  }

  /** With its URL assigned, the record of the known lot is the one record the
      deduplication keeps. */
  lemma KnownLotKept(u: string, details: Value -> Record)
    requires u != "" && details(VStr(u)) != []
    ensures |KnownLot(u, details)| == 1
    ensures UrlOf(KnownLot(u, details)[0]) == VStr(u)
    ensures DedupChecked(KnownLot(u, details)) == Ok(KnownLot(u, details))
  {
    var x := Set(details(VStr(u)), "url", VStr(u));
    SetGet(details(VStr(u)), "url", VStr(u));
    assert UrlOf(x) == VStr(u);
    assert Dedup.Dedup([x]) == [x] by {
      assert DedupPrefix([x], 0) == [] && Urls([]) == [];
    }
  }

  /** For a query with a known lot and the model step off (the handler's
      default), the source's browser search hands the deduplication a record
      it drops, and the corrected one a record it keeps. */
  lemma FallbackFinding(query: string, site: Site)
    requires FallbackAuctionForQuery(query).Some? && !site.useLlm
    ensures var f := FallbackAuctions(query, DetailsOf(site));
      |f| == 1 && DedupChecked(f) == Ok([])
    ensures var f := KnownLot(FallbackAuctionForQuery(query).value, DetailsOf(site));
      |f| == 1 && UrlOf(f[0]) == VStr(ITAPIRUBA_FALLBACK_URL) && DedupChecked(f) == Ok(f)
  {
    var u := FallbackAuctionForQuery(query).value;
    FallbackSpec(query);
    FallbackUrlNonEmpty();
    DetailsShape(site, VStr(u));
    KnownLotDroppedAsWritten(u, DetailsOf(site));
    KnownLotKept(u, DetailsOf(site));
  }

  /** So, as written, a search whose result elements give no record returns
      nothing, even for a query with a known lot, when the model step is off. */
  lemma FallbackSearchIsEmpty(query: string, elements: seq<Element>, site: Site, fetchDescriptions: bool)
    requires forall i :: 0 <= i < |elements| ==> !ExtractAuction(elements[i]).Ok? || ExtractAuction(elements[i]).value.None?
    requires !site.useLlm
    ensures SearchResult(query, elements, DetailsOf(site), fetchDescriptions) == []
  {
    var details := DetailsOf(site);
    FallbackDropped(query, site);
    SeleniumOfNone(query, elements, details);
    SearchOfDropped(query, elements, details, fetchDescriptions);
  }

  /** Elements none of which gives a record leave the browser search with the
      known lot's lines. */
  lemma SeleniumOfNone(query: string, elements: seq<Element>, details: Value -> Record)
    requires forall i :: 0 <= i < |elements| ==> !ExtractAuction(elements[i]).Ok? || ExtractAuction(elements[i]).value.None?
    ensures SeleniumAuctions(query, elements, details) == FallbackAuctions(query, details)
  {
    var os := Outcomes(elements);
    CollectedNone(os, |os|);
    var f := FallbackAuctions(query, details);
    assert SeleniumAuctions(query, elements, details) == f;
  }

  lemma {:induction false} CollectedNone(outcomes: seq<Result<Option<Record>>>, n: nat)
    requires n <= |outcomes|
    requires forall i :: 0 <= i < |outcomes| ==> !outcomes[i].Ok? || outcomes[i].value.None?
    ensures CollectedUpTo(outcomes, n) == []
    decreases n
  {
    if n > 0 {
      CollectedNone(outcomes, n - 1);
    }
  }

  lemma FallbackDropped(query: string, site: Site)
    requires !site.useLlm
    ensures DedupChecked(FallbackAuctions(query, DetailsOf(site))) == Ok([])
  {
    if FallbackAuctionForQuery(query).Some? {
      FallbackFinding(query, site);
    }
  }

  /** A search whose raw records are all dropped by the deduplication returns nothing. */
  lemma SearchOfDropped(query: string, elements: seq<Element>, details: Value -> Record, fetchDescriptions: bool)
    requires DedupChecked(SeleniumAuctions(query, elements, details)) == Ok([])
    ensures SearchResult(query, elements, details, fetchDescriptions) == []
  {
    AfterDedupOfNone(QueryVariations(query), details, fetchDescriptions);
  }

  lemma AfterDedupOfNone(variations: seq<string>, details: Value -> Record, fetchDescriptions: bool)
    ensures AfterDedup([], variations, details, fetchDescriptions) == []
  {
    assert FailAt([], variations) == 0;
    assert Kept([], variations) == [];
  }

  // ---------------------------------------------------------------------
  // The description backfill

  /** `auction.get('description') in [None, "", PLACEHOLDER]`. */
  predicate NeedsDescription(r: Record) {
    var d := GetOr(r, "description", VNone);
    d == VNone || d == VStr("") || d == VStr(PLACEHOLDER)
  }

  /** One record after the loop body: a record missing its description, with a
      truthy URL whose detail record has a truthy description, takes that description. */
  function Backfill(r: Record, details: Value -> Record): Record {
    if NeedsDescription(r) && Truthy(UrlOf(r)) then
      var description := GetOr(details(UrlOf(r)), "description", VNone);
      if Truthy(description) then Set(r, "description", description) else r
    else r
  }

  function Backfilled(xs: seq<Record>, details: Value -> Record): (ys: seq<Record>)
    ensures |ys| == |xs|
  {
    seq(|xs|, i requires 0 <= i < |xs| => Backfill(xs[i], details))
  }

  /** `_fetch_descriptions(auctions)`: each record of the list is updated in place. */
  method FetchDescriptions(auctions: array<Record>, getAuctionDetails: Value -> Record)
    modifies auctions
    ensures auctions[..] == Backfilled(old(auctions[..]), getAuctionDetails)
  {
    ghost var xs := auctions[..];
    var i := 0;
    while i < auctions.Length
      invariant 0 <= i <= auctions.Length == |xs|
      invariant forall j :: 0 <= j < i ==> auctions[j] == Backfill(xs[j], getAuctionDetails)
      invariant forall j :: i <= j < auctions.Length ==> auctions[j] == xs[j]
    {
      var changed, updated := VisitForDescription(auctions[i], getAuctionDetails);
      if changed {
        auctions[i] := updated;
      }
      i := i + 1;
    }
  }

  /** The loop body for one record: whether it assigns a description, and the
      record after the assignment. */
  method VisitForDescription(auction: Record, getAuctionDetails: Value -> Record)
    returns (changed: bool, updated: Record)
    ensures changed ==> updated == Backfill(auction, getAuctionDetails)
    ensures !changed ==> Backfill(auction, getAuctionDetails) == auction
  {
    changed, updated := false, auction;
    var description := GetOr(auction, "description", VNone);
    if description == VNone || description == VStr("") || description == VStr(PLACEHOLDER) {
      var auctionUrl := GetOr(auction, "url", VNone);
      if Truthy(auctionUrl) {
        var details := getAuctionDetails(auctionUrl);
        var newDescription := GetOr(details, "description", VNone);
        if Truthy(newDescription) {
          changed, updated := true, Set(auction, "description", newDescription);
        }
      }
    }
  }

  /** Only `description` can change, and only for a record that needed one: it
      then holds the detail record's description, which is truthy. */
  lemma BackfillChanges(r: Record, details: Value -> Record)
    ensures forall k :: k != "description" ==> Get(Backfill(r, details), k) == Get(r, k)
    ensures !NeedsDescription(r) || !Truthy(UrlOf(r)) ==> Backfill(r, details) == r
    ensures Get(Backfill(r, details), "description") != Get(r, "description") ==>
      NeedsDescription(r) && Truthy(UrlOf(r)) &&
      Get(Backfill(r, details), "description") == Get(details(UrlOf(r)), "description") &&
      Truthy(GetOr(details(UrlOf(r)), "description", VNone))
  {
    if NeedsDescription(r) && Truthy(UrlOf(r)) {
      var description := GetOr(details(UrlOf(r)), "description", VNone);
      SetGet(r, "description", description);
    }
  }

  /** A record that needs a description and whose URL loads a page takes the
      page's description, unless that is empty; a URL that fails to load leaves
      the record as it was. */
  lemma BackfillFromPage(r: Record, site: Site)
    requires NeedsDescription(r) && Truthy(UrlOf(r))
    ensures site.load(UrlOf(r)).Loaded? ==>
      var d := Description(site.load(UrlOf(r)).page);
      Get(Backfill(r, DetailsOf(site)), "description") == if d != "" then Some(VStr(d)) else Get(r, "description")
    ensures site.load(UrlOf(r)).Failed? ==> Backfill(r, DetailsOf(site)) == r
  {
    DetailsShape(site, UrlOf(r));
    var description := GetOr(DetailsOf(site)(UrlOf(r)), "description", VNone);
    SetGet(r, "description", description);
  }

  // ---------------------------------------------------------------------
  // The search

  /** `search(query)`.  A deduplication that raises leaves the empty list; a
      filter that raises leaves the deduplicated list, with the records visited
      before the failure already stamped; the backfill runs when something was
      kept and `FETCH_DESCRIPTIONS` is on. */
  function SearchResult(query: string, elements: seq<Element>, details: Value -> Record, fetchDescriptions: bool): seq<Record> {
    match DedupChecked(SeleniumAuctions(query, elements, details))
    case Err(_) => []
    case Ok(unique) => AfterDedup(unique, QueryVariations(query), details, fetchDescriptions)
  }

  /** The filter with the query's `variations`, then the backfill. */
  function AfterDedup(unique: seq<Record>, variations: seq<string>, details: Value -> Record,
                      fetchDescriptions: bool): seq<Record> {
    var n := FailAt(unique, variations);
    if n < |unique| then VisitedUpTo(unique, Verdicts(unique, variations), n)
    else
      var kept := Kept(unique, variations);
      if kept != [] && fetchDescriptions then Backfilled(kept, details) else kept
  }

  method Search(query: string, lotItems: seq<Element>, batches: seq<seq<Element>>, details: Value -> Record,
                fetchDescriptions: bool)
    returns (auctions: seq<Record>)
    ensures auctions == SearchResult(query, Merged(lotItems, batches), details, fetchDescriptions)
  {
    auctions := [];
    var rawAuctions := SeleniumSearch(query, lotItems, batches, details);
    var unique := DeduplicateAuctions(rawAuctions);
    if unique.Err? {
      return;
    }
    auctions := FilterAndFetch(unique.value, query, details, fetchDescriptions);
  }

  /** The steps of `search` after the deduplication. */
  method FilterAndFetch(unique: seq<Record>, query: string, details: Value -> Record, fetchDescriptions: bool)
    returns (auctions: seq<Record>)
    ensures auctions == AfterDedup(unique, QueryVariations(query), details, fetchDescriptions)
  {
    var list := new Record[|unique|](i requires 0 <= i < |unique| => unique[i]);
    assert list[..] == unique;
    var filtered := FilterAuctions(list, query);
    if filtered.Err? {
      return list[..];
    }
    auctions := filtered.value;
    if auctions != [] && fetchDescriptions {
      auctions := FetchAll(auctions, details);
    }
  }

  /** `_fetch_descriptions` on a list of the kept records. */
  method FetchAll(kept: seq<Record>, details: Value -> Record) returns (auctions: seq<Record>)
    ensures auctions == Backfilled(kept, details)
  {
    var list := new Record[|kept|](i requires 0 <= i < |kept| => kept[i]);
    assert list[..] == kept;
    FetchDescriptions(list, details);
    auctions := list[..];
  }

  /** Stamping a record does not touch its URL. */
  lemma StampKeepsUrl(r: Record, term: string)
    ensures UrlOf(Stamp(r, term)) == UrlOf(r)
  {
    StampReads(r, term);
  }

  lemma VisitedKeepsUrls(xs: seq<Record>, vs: seq<Verdict>, n: nat)
    requires |vs| == |xs|
    ensures Urls(VisitedUpTo(xs, vs, n)) == Urls(xs)
  {
    var ys := VisitedUpTo(xs, vs, n);
    forall i | 0 <= i < |xs| ensures UrlOf(ys[i]) == UrlOf(xs[i]) {
      if i < n && vs[i].Keep? {
        StampKeepsUrl(xs[i], vs[i].term);
      }
    }
  }

  lemma BackfilledKeepsUrls(xs: seq<Record>, details: Value -> Record)
    ensures Urls(Backfilled(xs, details)) == Urls(xs)
  {
    var ys := Backfilled(xs, details);
    forall i | 0 <= i < |xs| ensures UrlOf(ys[i]) == UrlOf(xs[i]) {
      BackfillChanges(xs[i], details);
    }
  }

  /** The kept records among the first `n` carry URLs of those records, no two alike
      when the records' URLs are distinct. */
  lemma {:induction false} KeptPrefixUrls(xs: seq<Record>, vs: seq<Verdict>, n: nat)
    requires |vs| == |xs| && n <= |xs| && Distinct(Urls(xs))
    ensures forall k :: 0 <= k < |KeptPrefix(xs, vs, n)| ==>
      exists i :: 0 <= i < n && UrlOf(KeptPrefix(xs, vs, n)[k]) == UrlOf(xs[i])
    ensures Distinct(Urls(KeptPrefix(xs, vs, n)))
    decreases n
  {
    if n > 0 {
      KeptPrefixUrls(xs, vs, n - 1);
      var rest := KeptPrefix(xs, vs, n - 1);
      if vs[n - 1].Keep? {
        var x := Stamp(xs[n - 1], vs[n - 1].term);
        StampKeepsUrl(xs[n - 1], vs[n - 1].term);
        assert UrlOf(x) !in Urls(rest) by {
          forall k | 0 <= k < |rest| ensures Urls(rest)[k] != UrlOf(x) {
            var i :| 0 <= i < n - 1 && UrlOf(rest[k]) == UrlOf(xs[i]);
            assert Urls(xs)[i] != Urls(xs)[n - 1];
          }
        }
        UrlsSnoc(rest, x);
        DistinctSnoc(Urls(rest), UrlOf(x));
        var all := KeptPrefix(xs, vs, n);
        assert all == rest + [x];
        forall k | 0 <= k < |all| ensures exists i :: 0 <= i < n && UrlOf(all[k]) == UrlOf(xs[i]) {
          if k < |rest| {
            var i :| 0 <= i < n - 1 && UrlOf(rest[k]) == UrlOf(xs[i]);
            assert all[k] == rest[k];
            assert 0 <= i < n && UrlOf(all[k]) == UrlOf(xs[i]);
          } else {
            assert all[k] == x;
            assert 0 <= n - 1 < n && UrlOf(all[k]) == UrlOf(xs[n - 1]);
          }
        }
      } else {
        var all := KeptPrefix(xs, vs, n);
        assert all == rest;
        forall k | 0 <= k < |all| ensures exists i :: 0 <= i < n && UrlOf(all[k]) == UrlOf(xs[i]) {
          var i :| 0 <= i < n - 1 && UrlOf(rest[k]) == UrlOf(xs[i]);
          assert 0 <= i < n && UrlOf(all[k]) == UrlOf(xs[i]);
        }
      }
    } else {
      assert KeptPrefix(xs, vs, n) == [];
    }
  }

  /** Every record the steps after the deduplication return has a truthy URL, and
      no two share one, when that holds of their input. */
  lemma AfterDedupUrlsUnique(unique: seq<Record>, variations: seq<string>, details: Value -> Record,
                             fetchDescriptions: bool)
    requires Distinct(Urls(unique)) && forall k :: 0 <= k < |unique| ==> Truthy(UrlOf(unique[k]))
    ensures var r := AfterDedup(unique, variations, details, fetchDescriptions);
      Distinct(Urls(r)) && forall k :: 0 <= k < |r| ==> Truthy(UrlOf(r[k]))
  {
    var vs := Verdicts(unique, variations);
    var n := FailAt(unique, variations);
    var r := AfterDedup(unique, variations, details, fetchDescriptions);
    if n < |unique| {
      VisitedKeepsUrls(unique, vs, n);
      forall k | 0 <= k < |r| ensures Truthy(UrlOf(r[k])) {
        assert Urls(r)[k] == Urls(unique)[k];
      }
    } else {
      var kept := Kept(unique, variations);
      KeptPrefixUrls(unique, vs, |unique|);
      assert Distinct(Urls(kept)) && forall k :: 0 <= k < |kept| ==> Truthy(UrlOf(kept[k])) by {
        forall k | 0 <= k < |kept| ensures Truthy(UrlOf(kept[k])) {
          var i :| 0 <= i < |unique| && UrlOf(kept[k]) == UrlOf(unique[i]);
        }
      }
      if kept != [] && fetchDescriptions {
        BackfilledKeepsUrls(kept, details);
        forall k | 0 <= k < |r| ensures Truthy(UrlOf(r[k])) {
          assert Urls(r)[k] == Urls(kept)[k];
        }
      }
    }
  }

  /** Every record the search returns has a truthy URL, and no two share one. */
  lemma SearchUrlsUnique(query: string, elements: seq<Element>, details: Value -> Record, fetchDescriptions: bool)
    ensures var r := SearchResult(query, elements, details, fetchDescriptions);
      Distinct(Urls(r)) && forall k :: 0 <= k < |r| ==> Truthy(UrlOf(r[k]))
  {
    var raw := SeleniumAuctions(query, elements, details);
    if DedupChecked(raw).Ok? {
      DedupShape(raw);
      AfterDedupUrlsUnique(Dedup.Dedup(raw), QueryVariations(query), details, fetchDescriptions);
    }
  }
}
