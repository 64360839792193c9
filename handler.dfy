/**
 * The Lambda entry point: `lambda_handler` reads the query and the switches
 * from the event, `search_all_sources` runs the Central Sul search, tags each
 * record with its source and normalises it through `Auction.from_dict` and
 * `to_dict`, the handler deduplicates the result once more by URL and answers
 * with an API Gateway response.
 *
 * Everything outside the code is a parameter (`World`): the pages the browser
 * finds and loads, the LLM client, the clock reading `datetime.now()` gives,
 * `isoformat`, `str()` on values other than strings, `None` and booleans, and
 * the two `json.dumps` calls (with and without `ensure_ascii=False`).
 */
module Handler {
  import opened Wrappers
  import opened Text
  import opened Values
  import opened Seqs
  import opened Dedup
  import opened Elements
  import opened BaseAdapter
  import opened DetailPage
  import opened AuctionModel
  import opened CentralSul

  const DEFAULT_QUERY := "itapiruba"
  const DEFAULT_LOCATION := "Santa Catarina, Brasil"
  const SOURCE := "central_sul"

  /** The headers of every response. */
  const HEADERS: Record := [("Content-Type", VStr("application/json")), ("Access-Control-Allow-Origin", VStr("*"))]

  datatype Response = Response(statusCode: int, headers: Record, body: string)

  /** What the handler's run depends on besides the event. */
  datatype World = World(
    load: Value -> Load,
    client: Option<LlmClient>,
    lotItems: seq<Element>,
    batches: seq<seq<Element>>,
    now: Value,
    isoformat: Value -> Option<string>,
    other: Value -> string,
    dumps: Value -> string,
    dumpsAscii: Value -> string)

  // ---------------------------------------------------------------------
  // The event

  /** A switch the handler stores as `str(v).lower()` and the adapter reads back
      with `.lower() == "true"`. */
  function Switch(v: Value, other: Value -> string): bool {
    Lower(Lower(PyStr(v, other))) == "true"
  }

  /** What the handler takes from the event. */
  datatype Settings = Settings(query: Value, location: Value, useLlm: bool, fetchDescriptions: bool)

  function SettingsOf(event: Record, other: Value -> string): Settings {
    Settings(GetOr(event, "query", VStr(DEFAULT_QUERY)),
             GetOr(event, "location", VStr(DEFAULT_LOCATION)),
             Switch(GetOr(event, "use_llm", VBool(false)), other),
             Switch(GetOr(event, "fetch_descriptions", VBool(true)), other))
  }

  /** The switch is on exactly when the value's text is `true` in any case; a boolean
      switches it to itself. */
  lemma SwitchSpec(v: Value, other: Value -> string)
    ensures Switch(v, other) <==> Lower(PyStr(v, other)) == "true"
    ensures v.VBool? ==> Switch(v, other) == v.b
  {
    LowerIdempotent(PyStr(v, other));
    if v.VBool? && !v.b {
      assert Lower("False")[0] == 'f';
    }
  }

  /** An event without keys searches the default query in the default location with
      the LLM off and the description backfill on. */
  lemma EmptyEventDefaults(other: Value -> string)
    ensures SettingsOf([], other) == Settings(VStr("itapiruba"), VStr("Santa Catarina, Brasil"), false, true)
  {
    SwitchSpec(VBool(false), other);
    SwitchSpec(VBool(true), other);
  }

  // ---------------------------------------------------------------------
  // search_all_sources

  /** One record of the adapter's: tagged with its source and passed through
      `from_dict` and `to_dict`; `None` when either raises. */
  function Convert(r: Record, now: Value, isoformat: Value -> Option<string>): Option<Record> {
    match RoundTrip(Set(r, "source", VStr(SOURCE)), now, isoformat)
    case Err(_) => None
    case Ok(d) => Some(d)
  }

  /** The conversion loop: one `try` wraps it, so the first record that cannot be
      converted ends it with the records converted so far. */
  function ConvertAllOf(auctions: seq<Record>, now: Value, isoformat: Value -> Option<string>): seq<Record> {
    MapWhile(auctions, 0, r => Convert(r, now, isoformat))
  }

  /** The site the adapter browses, with the `USE_LLM` switch the handler set. */
  function SiteOf(w: World, useLlm: bool): Site {
    Site(w.load, w.client, useLlm)
  }

  /** `search_all_sources(query, location)`; the adapter ignores the location. */
  function AllSources(query: string, w: World, s: Settings): seq<Record> {
    var found := SearchResult(query, Merged(w.lotItems, w.batches), DetailsOf(SiteOf(w, s.useLlm)), s.fetchDescriptions);
    ConvertAllOf(found, w.now, w.isoformat)
  }

  /** `convert` is the conversion of one record, for the clock reading `now`; it is
      passed on so that the proof of the loop need not look inside it. */
  ghost predicate IsConversion(convert: Record -> Option<Record>, now: Value, isoformat: Value -> Option<string>) {
    forall r {:trigger Convert(r, now, isoformat)} :: convert(r) == Convert(r, now, isoformat)
  }

  /** The conversion loop of `search_all_sources`. */
  method ConvertAll(auctions: seq<Record>, now: Value, isoformat: Value -> Option<string>,
                    ghost convert: Record -> Option<Record>)
    returns (allAuctions: seq<Record>)
    requires IsConversion(convert, now, isoformat)
    ensures allAuctions == MapWhile(auctions, 0, convert)
  {
    allAuctions := [];
    for i := 0 to |auctions|
      invariant MapWhile(auctions, 0, convert) == allAuctions + MapWhile(auctions, i, convert)
    {
      var auction := ConvertOne(auctions[i], now, isoformat, convert);
      MapWhileStep(auctions, i, convert, auction);
      if auction.None? {
        return;
      }
      allAuctions := allAuctions + [auction.value];
    }
  }

  /** The body of the conversion loop: tag the record, then `from_dict` and `to_dict`. */
  method ConvertOne(r: Record, now: Value, isoformat: Value -> Option<string>,
                    ghost convert: Record -> Option<Record>)
    returns (d: Option<Record>)
    requires IsConversion(convert, now, isoformat)
    ensures d == convert(r)
  {
    var auctionData := Set(r, "source", VStr(SOURCE));
    var auction := FromDict(auctionData, now);
    if auction.Err? {
      d := None;
    } else {
      var dict := ToDict(auction.value, isoformat);
      d := if dict.Err? then None else Some(dict.value);
    }
    assert d == Convert(r, now, isoformat);
  }

  method SearchAllSources(query: string, w: World, s: Settings) returns (allAuctions: seq<Record>)
    ensures allAuctions == AllSources(query, w, s)
  {
    var auctions := Search(query, w.lotItems, w.batches, DetailsOf(SiteOf(w, s.useLlm)), s.fetchDescriptions);
    allAuctions := ConvertAll(auctions, w.now, w.isoformat, r => Convert(r, w.now, w.isoformat));
  }

  // ---------------------------------------------------------------------
  // lambda_handler

  /** The event's query is a string, as `search` takes it. */
  predicate QueryIsString(event: Record) {
    GetOr(event, "query", VStr(DEFAULT_QUERY)).VStr?
  }

  /** The success body's dict. */
  function Payload(auctions: seq<Record>, s: Settings): Value {
    VMap([("auctions", VList(seq(|auctions|, k requires 0 <= k < |auctions| => VMap(auctions[k])))),
          ("count", VNum(|auctions| as real)),
          ("query", s.query),
          ("location", s.location)])
  }

  /** The response to the records `search_all_sources` returned: the deduplicated
      records, or the error the deduplication raised. */
  function Answer(auctions: seq<Record>, s: Settings, w: World): Response {
    match DedupChecked(auctions)
    case Ok(unique) => Response(200, HEADERS, w.dumps(Payload(unique, s)))
    case Err(e) => Response(500, HEADERS, w.dumpsAscii(VMap([("error", VStr(e))])))
  }

  function HandlerResponse(event: Record, w: World): Response
    requires QueryIsString(event)
  {
    var s := SettingsOf(event, w.other);
    Answer(AllSources(s.query.s, w, s), s, w)
  }

  /** `lambda_handler(event, context)`. */
  method LambdaHandler(event: Record, w: World) returns (response: Response)
    requires QueryIsString(event)
    ensures response == HandlerResponse(event, w)
  {
    var s := SettingsOf(event, w.other);
    var auctions := SearchAllSources(s.query.s, w, s);
    var unique := DeduplicateAuctions(auctions);
    if unique.Err? {
      return Response(500, HEADERS, w.dumpsAscii(VMap([("error", VStr(unique.error))])));
    }
    response := Response(200, HEADERS, w.dumps(Payload(unique.value, s)));
  }

  // ---------------------------------------------------------------------
  // Properties

  /** A record is converted exactly when it has `title` and `url` and its `created_at`
      (or the clock reading) has an `isoformat`. */
  lemma ConvertSucceeds(r: Record, now: Value, isoformat: Value -> Option<string>)
    ensures Convert(r, now, isoformat).Some? <==>
      HasKey(r, "title") && HasKey(r, "url") && isoformat(GetOr(r, "created_at", now)).Some?
  {
    var data := Set(r, "source", VStr(SOURCE));
    RoundTripOk(data, now, isoformat);
    SetGet(r, "source", VStr(SOURCE));
    GetSome(r, "title");
    GetSome(data, "title");
    GetSome(r, "url");
    GetSome(data, "url");
  }

  /** Every converted record names Central Sul as its source. */
  lemma ConvertTags(r: Record, now: Value, isoformat: Value -> Option<string>)
    requires Convert(r, now, isoformat).Some?
    ensures Get(Convert(r, now, isoformat).value, "source") == Some(VStr(SOURCE))
  {
    var data := Set(r, "source", VStr(SOURCE));
    var a := FromDictOf(data, now).value;
    FromDictFields(data, now);
    ToDictFixed(a, isoformat);
    SetGet(r, "source", VStr(SOURCE));
    assert FIELDS[12] == "source";
    assert a.source == FieldAt(a, 12);
  }

  /** A converted dict keeps the record's URL, and every other value the schema does
      not rewrite. */
  lemma ConvertKeeps(r: Record, now: Value, isoformat: Value -> Option<string>, k: string)
    requires WellFormed(r) && Convert(r, now, isoformat).Some?
    requires k != "source" && NotRendered(k) && (HasKey(r, k) || !IsField(k))
    ensures Get(Convert(r, now, isoformat).value, k) == Get(r, k)
  {
    var data := Set(r, "source", VStr(SOURCE));
    SetWellFormed(r, "source", VStr(SOURCE));
    SetGet(r, "source", VStr(SOURCE));
    GetSome(r, k);
    GetSome(data, k);
    RoundTripPreserves(data, now, isoformat);
  }

  /** The dict names Central Sul as its source. */
  predicate Tagged(d: Record) {
    Get(d, "source") == Some(VStr(SOURCE))
  }

  /** Every converted dict names Central Sul as its source. */
  lemma ConvertAllTagged(xs: seq<Record>, now: Value, isoformat: Value -> Option<string>)
    ensures var r := ConvertAllOf(xs, now, isoformat);
      forall k :: 0 <= k < |r| ==> Tagged(r[k])
  {
    var convert := x => Convert(x, now, isoformat);
    forall k | 0 <= k < |xs| && convert(xs[k]).Some? ensures Tagged(convert(xs[k]).value) {
      ConvertTags(xs[k], now, isoformat);
    }
    MapWhileAll(xs, convert, Tagged);
  }

  /** A converted dict carries the URL of the record it comes from. */
  lemma ConvertKeepsUrl(r: Record, now: Value, isoformat: Value -> Option<string>)
    requires WellFormed(r) && Convert(r, now, isoformat).Some?
    ensures UrlOf(Convert(r, now, isoformat).value) == UrlOf(r)
  {
    ConvertSucceeds(r, now, isoformat);
    IsFieldAt(1);
    ConvertKeeps(r, now, isoformat, "url");
  }

  /** Conversion keeps the URLs: the converted dicts carry the URLs of the records
      they come from. */
  lemma ConvertAllKeepsUrls(xs: seq<Record>, now: Value, isoformat: Value -> Option<string>)
    requires forall k :: 0 <= k < |xs| ==> WellFormed(xs[k])
    ensures var r := ConvertAllOf(xs, now, isoformat);
      |r| <= |xs| && Urls(r) == Urls(xs)[..|r|]
  {
    var convert := x => Convert(x, now, isoformat);
    forall k | 0 <= k < |xs| && convert(xs[k]).Some?
      ensures UrlOf(convert(xs[k]).value) == UrlOf(xs[k])
    {
      ConvertKeepsUrl(xs[k], now, isoformat);
    }
    MapWhileUrls(xs, convert);
  }

  /** The top-level deduplication drops nothing from records whose URLs are truthy
      and pairwise distinct. */
  lemma TopLevelDedupKeepsAll(xs: seq<Record>, now: Value, isoformat: Value -> Option<string>)
    requires forall k :: 0 <= k < |xs| ==> WellFormed(xs[k])
    requires Distinct(Urls(xs)) && forall k :: 0 <= k < |xs| ==> Truthy(UrlOf(xs[k]))
    ensures Dedup.Dedup(ConvertAllOf(xs, now, isoformat)) == ConvertAllOf(xs, now, isoformat)
  {
    var r := ConvertAllOf(xs, now, isoformat);
    ConvertAllKeepsUrls(xs, now, isoformat);
    forall k | 0 <= k < |r| ensures Truthy(UrlOf(r[k])) {
      assert Urls(r)[k] == Urls(xs)[k];
    }
    DedupOfUnique(r);
  }

  /** Every response carries the JSON and CORS headers; it is a 200 exactly when no
      record's URL is a truthy list or dict, and then its body is the JSON of the
      deduplicated records, their count, the query and the location; otherwise it is a
      500 whose body is the JSON of the error. */
  lemma AnswerSpec(auctions: seq<Record>, s: Settings, w: World)
    ensures var response := Answer(auctions, s, w);
      response.headers == HEADERS &&
      (response.statusCode == 200 <==>
         forall i :: 0 <= i < |auctions| && Truthy(UrlOf(auctions[i])) ==> Hashable(UrlOf(auctions[i]))) &&
      (response.statusCode == 200 ==> response.body == w.dumps(Payload(Dedup.Dedup(auctions), s))) &&
      (response.statusCode != 200 ==>
         response.statusCode == 500 && response.body == w.dumpsAscii(VMap([("error", VStr("unhashable type"))])))
  {
  }

  /** Records converted from a list whose URLs are truthy and distinct are answered
      all of them, in order. */
  lemma AnswerKeepsConverted(xs: seq<Record>, s: Settings, w: World)
    requires forall k :: 0 <= k < |xs| ==> WellFormed(xs[k])
    requires Distinct(Urls(xs)) && forall k :: 0 <= k < |xs| ==> Truthy(UrlOf(xs[k]))
    ensures var all := ConvertAllOf(xs, w.now, w.isoformat);
      Answer(all, s, w).statusCode == 200 ==> Answer(all, s, w).body == w.dumps(Payload(all, s))
  {
    TopLevelDedupKeepsAll(xs, w.now, w.isoformat);
  }

  /** When the search's records are dicts, the handler answers with every record
      converted from them: the top-level deduplication is redundant after the
      adapter's own one. */
  lemma HandlerKeepsConverted(event: Record, w: World)
    requires QueryIsString(event)
    requires var s := SettingsOf(event, w.other);
      var found := SearchResult(s.query.s, Merged(w.lotItems, w.batches), DetailsOf(SiteOf(w, s.useLlm)), s.fetchDescriptions);
      forall k :: 0 <= k < |found| ==> WellFormed(found[k])
    ensures var s := SettingsOf(event, w.other);
      HandlerResponse(event, w).statusCode == 200 ==>
        HandlerResponse(event, w).body == w.dumps(Payload(AllSources(s.query.s, w, s), s))
  {
    var s := SettingsOf(event, w.other);
    var details := DetailsOf(SiteOf(w, s.useLlm));
    var elements := Merged(w.lotItems, w.batches);
    SearchUrlsUnique(s.query.s, elements, details, s.fetchDescriptions);
    AnswerKeepsConverted(SearchResult(s.query.s, elements, details, s.fetchDescriptions), s, w);
  }
}
