/**
 * What every adapter shares (`BaseAuctionAdapter`): the language-model
 * relevance gate, the merge of model-extracted fields into a record, and the
 * text a record is shown to the model as.  The model service itself is an
 * oracle; only its documented answer when no API key is configured is fixed.
 */
module BaseAdapter {
  import opened Wrappers
  import opened Text
  import opened Values
  import opened Seqs

  /** `confidence_threshold`'s default. */
  const DEFAULT_THRESHOLD: real := 0.7

  /** The language-model client: its API key and, as oracles, what the configured
      service answers to a relevance question and to a field extraction. */
  datatype LlmClient = LlmClient(
    apiKey: string,
    analyzeOracle: (Value, string, string) -> Record,
    extractOracle: (Value, string) -> Record)

  /** `analyze_auction_page`: without an API key the client answers with an error
      and `is_relevant = None`. */
  function AnalyzeAuctionPage(c: LlmClient, content: Value, query: string, location: string): Record {
    if c.apiKey == "" then [("error", VStr("API not configured")), ("is_relevant", VNone)]
    else c.analyzeOracle(content, query, location)
  }

  /** `extract_auction_data`: without an API key the client extracts nothing. */
  function ExtractAuctionData(c: LlmClient, html: Value, query: string): Record {
    if c.apiKey == "" then [] else c.extractOracle(html, query)
  }

  // ---------------------------------------------------------------------
  // _auction_to_text

  /** `f"{key}: {value}"` for every pair, in key order. */
  function TextLines(r: Record, other: Value -> string): (lines: seq<string>)
    ensures |lines| == |r|
    ensures forall i :: 0 <= i < |r| ==> lines[i] == r[i].0 + ": " + PyStr(r[i].1, other)
  {
    seq(|r|, i requires 0 <= i < |r| => r[i].0 + ": " + PyStr(r[i].1, other))
  }

  /** What `_auction_to_text(auction)` returns: the stored `html_content`,
      whatever it is, or the `key: value` lines joined by newlines. */
  function TextOf(r: Record, other: Value -> string): Value {
    match Get(r, "html_content")
    case Some(v) => v
    case None => VStr(Join(TextLines(r, other), '\n'))
  }

  /** `_auction_to_text(auction)`: the loop collecting the lines, then the join. */
  method AuctionToText(auction: Record, other: Value -> string) returns (t: Value)
    ensures t == TextOf(auction, other)
  {
    var html := Get(auction, "html_content");
    if html.Some? {
      return html.value;
    }
    var text: seq<string> := [];
    var i := 0;
    while i < |auction|
      invariant 0 <= i <= |auction|
      invariant text == TextLines(auction, other)[..i]
    {
      var (key, value) := auction[i];
      text := text + [key + ": " + PyStr(value, other)];
      i := i + 1;
    }
    assert text == TextLines(auction, other);
    return VStr(Join(text, '\n'));
  }

  /** The stored `html_content` is returned verbatim; without one the text is a
      string. */
  lemma TextOfStored(r: Record, other: Value -> string)
    ensures HasKey(r, "html_content") ==> Some(TextOf(r, other)) == Get(r, "html_content")
    ensures !HasKey(r, "html_content") ==> TextOf(r, other).VStr?
  {
    GetSome(r, "html_content");
  }

  /** Without `html_content`, the text splits back, at its newlines, into one
      `key: value` line per pair, in key order, when no key or value holds a newline. */
  lemma TextOfLines(r: Record, other: Value -> string)
    requires !HasKey(r, "html_content") && r != []
    requires forall i :: 0 <= i < |r| ==> '\n' !in r[i].0 + ": " + PyStr(r[i].1, other)
    ensures TextOf(r, other) == VStr(Join(TextLines(r, other), '\n'))
    ensures Split(Join(TextLines(r, other), '\n'), '\n') == TextLines(r, other)
    ensures forall i :: 0 <= i < |r| ==>
      Split(Join(TextLines(r, other), '\n'), '\n')[i] == r[i].0 + ": " + PyStr(r[i].1, other)
  {
    GetSome(r, "html_content");
    SplitJoin(TextLines(r, other), '\n');
  }

  // ---------------------------------------------------------------------
  // enrich_auction_data

  /** `enrich_auction_data(auction, query)`: `{**enhanced_data, **auction}`. */
  function EnrichAuctionData(client: Option<LlmClient>, auction: Record, query: string): Record {
    if client.None? then auction
    else
      match Get(auction, "html_content")
      case None => auction
      case Some(html) =>
        var enhanced := ExtractAuctionData(client.value, html, query);
        SetAll(SetAll([], enhanced), auction)
  }

  /** With a client and `html_content`, the merge holds the keys of both dicts,
      the auction's own values win, the extracted values fill in the rest, and
      the result is a dict. */
  lemma EnrichMerges(client: Option<LlmClient>, auction: Record, query: string, k: string)
    requires client.Some? && HasKey(auction, "html_content") && WellFormed(auction)
    ensures var enhanced := ExtractAuctionData(client.value, GetOr(auction, "html_content", VNone), query);
      var r := EnrichAuctionData(client, auction, query);
      WellFormed(r) &&
      (HasKey(r, k) <==> HasKey(enhanced, k) || HasKey(auction, k)) &&
      (HasKey(auction, k) ==> Get(r, k) == Get(auction, k)) &&
      (!HasKey(auction, k) ==> Get(r, k) == LastValue(enhanced, k))
  {
    GetSome(auction, "html_content");
    var enhanced := ExtractAuctionData(client.value, GetOr(auction, "html_content", VNone), query);
    var base := SetAll([], enhanced);
    SetAllWellFormed([], enhanced);
    SetAllWellFormed(base, auction);
    SetAllKeys([], enhanced, k);
    SetAllKeys(base, auction, k);
    SetAllGet([], enhanced, k);
    SetAllGet(base, auction, k);
    LastValueIsGet(auction, k);
    GetSome(auction, k);
    GetSome([], k);
  }

  /** With no client, no `html_content`, or a client without API key, the
      auction comes back as it was. */
  lemma EnrichUnchanged(client: Option<LlmClient>, auction: Record, query: string)
    requires WellFormed(auction)
    requires client.None? || !HasKey(auction, "html_content") || client.value.apiKey == ""
    ensures EnrichAuctionData(client, auction, query) == auction
  {
    GetSome(auction, "html_content");
    if client.Some? && HasKey(auction, "html_content") {
      assert SetAll([], []) == [];
      SetAllCopies(auction);
    }
  }

  // ---------------------------------------------------------------------
  // filter_relevant_auctions

  /** `confidence >= confidence_threshold`; `None` is the `TypeError` a value
      that is neither a number nor a boolean raises. */
  function AtLeast(confidence: Value, threshold: real): Option<bool> {
    match confidence
    case VNum(n) => Some(n >= threshold)
    case VBool(b) => Some((if b then 1.0 else 0.0) >= threshold)
    case _ => None
  }

  /** The model's answer for one record, as shown by `_auction_to_text`. */
  function Analysis(c: LlmClient, r: Record, query: string, location: string, other: Value -> string): Record {
    AnalyzeAuctionPage(c, TextOf(r, other), query, location)
  }

  /** The `relevance` map stored on the record, with its defaults. */
  function Relevance(analysis: Record): Value {
    VMap([
      ("is_relevant", GetOr(analysis, "is_relevant", VBool(false))),
      ("confidence", GetOr(analysis, "confidence", VNum(0.0))),
      ("reason", GetOr(analysis, "reason", VStr("No reason provided")))])
  }

  datatype Judgement = Raises | Rejected | Accepted

  /** `is_relevant and confidence >= threshold`, evaluated left to right. */
  function Judge(analysis: Record, threshold: real): Judgement {
    var isRelevant := GetOr(analysis, "is_relevant", VBool(false));
    if !Truthy(isRelevant) then Rejected
    else
      match AtLeast(GetOr(analysis, "confidence", VNum(0.0)), threshold)
      case None => Raises
      case Some(b) => if b then Accepted else Rejected
  }

  /** A record is accepted exactly when `is_relevant` (default `False`) is truthy
      and `confidence` (default `0`) is at least the threshold; the comparison
      raises only once `is_relevant` has been found truthy. */
  lemma JudgeSpec(analysis: Record, threshold: real)
    ensures Judge(analysis, threshold) == Accepted <==>
      Truthy(GetOr(analysis, "is_relevant", VBool(false))) &&
      AtLeast(GetOr(analysis, "confidence", VNum(0.0)), threshold) == Some(true)
    ensures Judge(analysis, threshold) == Raises <==>
      Truthy(GetOr(analysis, "is_relevant", VBool(false))) &&
      AtLeast(GetOr(analysis, "confidence", VNum(0.0)), threshold).None?
  {
  }

  /** The parameters the gate is run with. */
  datatype Gate = Gate(client: LlmClient, query: string, location: string, threshold: real, other: Value -> string)

  function JudgeOf(g: Gate, r: Record): Judgement {
    Judge(Analysis(g.client, r, g.query, g.location, g.other), g.threshold)
  }

  /** The record with its `relevance` map written in. */
  function Annotated(g: Gate, r: Record): Record {
    Set(r, "relevance", Relevance(Analysis(g.client, r, g.query, g.location, g.other)))
  }

  function Judgements(g: Gate, xs: seq<Record>): (js: seq<Judgement>)
    ensures |js| == |xs|
  {
    seq(|xs|, i requires 0 <= i < |xs| => JudgeOf(g, xs[i]))
  }

  /** Every record as annotated. */
  function Annotations(g: Gate, xs: seq<Record>): (ann: seq<Record>)
    ensures |ann| == |xs|
  {
    seq(|xs|, i requires 0 <= i < |xs| => Annotated(g, xs[i]))
  }

  lemma AnalysedAt(g: Gate, xs: seq<Record>, i: nat)
    requires i < |xs|
    ensures Judgements(g, xs)[i] == JudgeOf(g, xs[i])
    ensures Annotations(g, xs)[i] == Annotated(g, xs[i])
  {
  }

  /** The list once the loop has annotated its first `n` records, whose annotated
      versions are `ann`, in place. */
  function AnnotatedUpTo(xs: seq<Record>, ann: seq<Record>, n: nat): (ys: seq<Record>)
    requires |ann| == |xs|
    ensures |ys| == |xs|
    ensures forall i :: 0 <= i < |xs| ==> ys[i] == if i < n then ann[i] else xs[i]
  {
    seq(|xs|, i requires 0 <= i < |xs| => if i < n then ann[i] else xs[i])
  }

  /** The index of the first judgement from `i` on that raises, or `|js|`. */
  function RaisesFrom(js: seq<Judgement>, i: nat): (n: nat)
    requires i <= |js|
    ensures i <= n <= |js|
    ensures forall j :: i <= j < n ==> js[j] != Raises
    ensures n < |js| ==> js[n] == Raises
    decreases |js| - i
  {
    if i == |js| then |js|
    else if js[i] == Raises then i
    else RaisesFrom(js, i + 1)
  }

  /** The index of the first record whose comparison raises, or `|xs|`. */
  function RaisesAt(g: Gate, xs: seq<Record>): nat {
    RaisesFrom(Judgements(g, xs), 0)
  }

  lemma RaisesAtSpec(g: Gate, xs: seq<Record>)
    ensures RaisesAt(g, xs) <= |xs|
    ensures forall i :: 0 <= i < RaisesAt(g, xs) ==> JudgeOf(g, xs[i]) != Raises
    ensures RaisesAt(g, xs) < |xs| ==> JudgeOf(g, xs[RaisesAt(g, xs)]) == Raises
  {
    forall i | 0 <= i < |xs| {
      AnalysedAt(g, xs, i);
    }
  }

  /** The relevant records among the first `n`, annotated, in order. */
  function RelevantPrefix(ann: seq<Record>, js: seq<Judgement>, n: nat): seq<Record>
    requires |js| == |ann| && n <= |ann|
    decreases n
  {
    if n == 0 then []
    else
      var rest := RelevantPrefix(ann, js, n - 1);
      if js[n - 1] == Accepted then rest + [ann[n - 1]] else rest
  }

  /** The relevant records, annotated, in order. */
  function Relevant(g: Gate, xs: seq<Record>): seq<Record> {
    RelevantPrefix(Annotations(g, xs), Judgements(g, xs), |xs|)
  }

  /** `filter_relevant_auctions(auctions, query, location, threshold)` over the
      list whose dicts it annotates in place.  The record whose comparison raises
      has already been annotated when the exception leaves the method. */
  method FilterRelevantAuctions(client: Option<LlmClient>, auctions: array<Record>, query: string,
                                location: string, threshold: real, other: Value -> string)
    returns (r: Result<seq<Record>>)
    modifies auctions
    ensures client.None? ==> auctions[..] == old(auctions[..]) && r == Ok(old(auctions[..]))
    ensures client.Some? ==>
      var g, xs := Gate(client.value, query, location, threshold, other), old(auctions[..]);
      var n := RaisesAt(g, xs);
      auctions[..] == AnnotatedUpTo(xs, Annotations(g, xs), if n < |xs| then n + 1 else n) &&
      (r.Ok? <==> n == |xs|) &&
      (r.Ok? ==> r.value == Relevant(g, xs))
  {
    if client.None? {
      return Ok(auctions[..]);
    }
    r := FilterWith(Gate(client.value, query, location, threshold, other), auctions);
  }

  /** The loop over the records, for a configured client. */
  method FilterWith(g: Gate, auctions: array<Record>) returns (r: Result<seq<Record>>)
    modifies auctions
    ensures var xs := old(auctions[..]);
      var n := RaisesAt(g, xs);
      auctions[..] == AnnotatedUpTo(xs, Annotations(g, xs), if n < |xs| then n + 1 else n) &&
      (r.Ok? <==> n == |xs|) &&
      (r.Ok? ==> r.value == Relevant(g, xs))
  {
    ghost var xs := auctions[..];
    ghost var js := Judgements(g, xs);
    ghost var ann := Annotations(g, xs);
    var relevantAuctions: seq<Record> := [];
    var i := 0;
    while i < auctions.Length
      invariant 0 <= i <= auctions.Length && auctions.Length == |xs|
      invariant forall j :: 0 <= j < i ==> js[j] != Raises
      invariant auctions[..] == AnnotatedUpTo(xs, ann, i)
      invariant relevantAuctions == RelevantPrefix(ann, js, i)
    {
      var auction := auctions[i];
      assert auction == xs[i];
      var annotated, judgement := Visit(g, auction, xs, i);
      AnnotateStep(xs, ann, js, i);
      auctions[i] := annotated;
      if judgement == Raises {
        RaisesFromIsFirst(js, 0, i);
        return Err("'>=' not supported between instances");
      }
      if judgement == Accepted {
        relevantAuctions := relevantAuctions + [annotated];
      }
      i := i + 1;
    }
    RaisesFromNone(js, 0);
    r := Ok(relevantAuctions);
  }

  /** The loop body's work on the record at index `i`. */
  method Visit(g: Gate, auction: Record, ghost xs: seq<Record>, ghost i: nat)
    returns (annotated: Record, judgement: Judgement)
    requires i < |xs| && auction == xs[i]
    ensures annotated == Annotations(g, xs)[i] && judgement == Judgements(g, xs)[i]
  {
    annotated, judgement := Analyze(g, auction);
    AnalysedAt(g, xs, i);
  }

  /** The loop body's work on one record: its text, the model's answer, the
      `relevance` map written in, and the comparison. */
  method Analyze(g: Gate, auction: Record) returns (annotated: Record, judgement: Judgement)
    ensures annotated == Annotated(g, auction) && judgement == JudgeOf(g, auction)
  {
    var auctionText := AuctionToText(auction, g.other);
    var analysis := AnalyzeAuctionPage(g.client, auctionText, g.query, g.location);
    var isRelevant := GetOr(analysis, "is_relevant", VBool(false));
    var confidence := GetOr(analysis, "confidence", VNum(0.0));
    var reason := GetOr(analysis, "reason", VStr("No reason provided"));
    annotated := Set(auction, "relevance",
      VMap([("is_relevant", isRelevant), ("confidence", confidence), ("reason", reason)]));
    judgement := Judge(analysis, g.threshold);
  }

  /** One turn of the loop annotates the visited record in place and extends the
      result by it when it is accepted. */
  lemma AnnotateStep(xs: seq<Record>, ann: seq<Record>, js: seq<Judgement>, i: nat)
    requires |ann| == |xs| && |js| == |xs| && i < |xs|
    ensures AnnotatedUpTo(xs, ann, i + 1) == AnnotatedUpTo(xs, ann, i)[i := ann[i]]
    ensures RelevantPrefix(ann, js, i + 1) ==
      RelevantPrefix(ann, js, i) + if js[i] == Accepted then [ann[i]] else []
  {
    var a, b := AnnotatedUpTo(xs, ann, i + 1), AnnotatedUpTo(xs, ann, i)[i := ann[i]];
    forall j | 0 <= j < |xs| ensures a[j] == b[j] {
    }
  }

  lemma {:induction false} RaisesFromNone(js: seq<Judgement>, i: nat)
    requires i <= |js| && forall j :: i <= j < |js| ==> js[j] != Raises
    ensures RaisesFrom(js, i) == |js|
    decreases |js| - i
  {
    if i < |js| {
      RaisesFromNone(js, i + 1);
    }
  }

  /** The first comparison that raises, after ones that do not, is where the loop stops. */
  lemma {:induction false} RaisesFromIsFirst(js: seq<Judgement>, i: nat, k: nat)
    requires i <= k < |js| && js[k] == Raises
    requires forall j :: i <= j < k ==> js[j] != Raises
    ensures RaisesFrom(js, i) == k
    decreases k - i
  {
    if i < k {
      RaisesFromIsFirst(js, i + 1, k);
    }
  }

  // ---------------------------------------------------------------------
  // Properties of the gate

  /** The relevant records among the first `n` are a sublist of those records as annotated. */
  lemma {:induction false} RelevantPrefixSublist(ann: seq<Record>, js: seq<Judgement>, n: nat)
    requires |js| == |ann| && n <= |ann|
    ensures IsSubsequence(RelevantPrefix(ann, js, n), ann[..n])
    decreases n
  {
    if n > 0 {
      RelevantPrefixSublist(ann, js, n - 1);
      assert ann[..n] == ann[..n - 1] + [ann[n - 1]];
      SubsequenceSnoc(RelevantPrefix(ann, js, n - 1), ann[..n - 1], ann[n - 1]);
    }
  }

  /** The relevant records keep input order: a sublist of the input as the loop
      leaves it, every record annotated. */
  lemma RelevantIsSublist(g: Gate, xs: seq<Record>)
    ensures IsSubsequence(Relevant(g, xs), AnnotatedUpTo(xs, Annotations(g, xs), |xs|))
    ensures |Relevant(g, xs)| <= |xs|
  {
    var ann := Annotations(g, xs);
    RelevantPrefixSublist(ann, Judgements(g, xs), |xs|);
    assert ann[..|xs|] == ann == AnnotatedUpTo(xs, ann, |xs|);
    SubsequenceMembers(Relevant(g, xs), ann);
  }

  /** The positions of the accepted judgements among the first `n`. */
  ghost function AcceptedIndices(js: seq<Judgement>, n: nat): seq<nat>
    requires n <= |js|
    decreases n
  {
    if n == 0 then []
    else AcceptedIndices(js, n - 1) + if js[n - 1] == Accepted then [n - 1] else []
  }

  /** Among the first `n` records, the accepted ones, and only they, are in the
      result, annotated, in their order. */
  lemma {:induction false} RelevantPrefixMembers(ann: seq<Record>, js: seq<Judgement>, n: nat)
    requires |js| == |ann| && n <= |ann|
    ensures forall i :: 0 <= i < n && js[i] == Accepted ==> ann[i] in RelevantPrefix(ann, js, n)
    ensures |AcceptedIndices(js, n)| == |RelevantPrefix(ann, js, n)|
    ensures forall k :: 0 <= k < |RelevantPrefix(ann, js, n)| ==>
      AcceptedIndices(js, n)[k] < n && js[AcceptedIndices(js, n)[k]] == Accepted &&
      RelevantPrefix(ann, js, n)[k] == ann[AcceptedIndices(js, n)[k]]
    decreases n
  {
    if n > 0 {
      RelevantPrefixMembers(ann, js, n - 1);
      var rest := RelevantPrefix(ann, js, n - 1);
      var r := RelevantPrefix(ann, js, n);
      var idx0 := AcceptedIndices(js, n - 1);
      var idx := AcceptedIndices(js, n);
      assert r == rest + if js[n - 1] == Accepted then [ann[n - 1]] else [];
      assert idx == idx0 + if js[n - 1] == Accepted then [n - 1] else [];
      forall i | 0 <= i < n && js[i] == Accepted ensures ann[i] in r {
        if i < n - 1 {
          assert ann[i] in rest;
        }
      }
      forall k | 0 <= k < |r|
        ensures idx[k] < n && js[idx[k]] == Accepted && r[k] == ann[idx[k]]
      {
        if k < |rest| {
          assert r[k] == rest[k] && idx[k] == idx0[k];
        }
      }
    }
  }

  /** A record is in the result (annotated) exactly when its answer says relevant
      with a confidence at or above the threshold. */
  lemma RelevantIff(g: Gate, xs: seq<Record>)
    ensures forall i :: 0 <= i < |xs| && JudgeOf(g, xs[i]) == Accepted ==> Annotated(g, xs[i]) in Relevant(g, xs)
    ensures forall k :: 0 <= k < |Relevant(g, xs)| ==>
      exists i :: 0 <= i < |xs| && JudgeOf(g, xs[i]) == Accepted && Relevant(g, xs)[k] == Annotated(g, xs[i])
  {
    var ann, js := Annotations(g, xs), Judgements(g, xs);
    RelevantPrefixMembers(ann, js, |xs|);
    forall i | 0 <= i < |xs| && JudgeOf(g, xs[i]) == Accepted
      ensures Annotated(g, xs[i]) in Relevant(g, xs)
    {
      AnalysedAt(g, xs, i);
    }
    forall k | 0 <= k < |Relevant(g, xs)|
      ensures exists i :: 0 <= i < |xs| && JudgeOf(g, xs[i]) == Accepted && Relevant(g, xs)[k] == Annotated(g, xs[i])
    {
      var i := AcceptedIndices(js, |xs|)[k];
      AnalysedAt(g, xs, i);
    }
  }

  /** Every annotated record carries the model's answer, with `is_relevant = False`,
      `confidence = 0` and `reason = "No reason provided"` where it is silent. */
  lemma AnnotationDefaults(g: Gate, r: Record)
    ensures var a := Analysis(g.client, r, g.query, g.location, g.other);
      Get(Annotated(g, r), "relevance") == Some(Relevance(a)) &&
      (!HasKey(a, "is_relevant") ==> Relevance(a).entries[0] == ("is_relevant", VBool(false))) &&
      (!HasKey(a, "confidence") ==> Relevance(a).entries[1] == ("confidence", VNum(0.0))) &&
      (!HasKey(a, "reason") ==> Relevance(a).entries[2] == ("reason", VStr("No reason provided")))
    ensures forall k :: k != "relevance" ==> Get(Annotated(g, r), k) == Get(r, k)
  {
    var a := Analysis(g.client, r, g.query, g.location, g.other);
    SetGet(r, "relevance", Relevance(a));
    GetSome(a, "is_relevant");
    GetSome(a, "confidence");
    GetSome(a, "reason");
  }

  /** A client without API key answers `is_relevant = None`: nothing is relevant
      and nothing raises. */
  lemma {:induction false} UnconfiguredPrefix(g: Gate, xs: seq<Record>, n: nat)
    requires g.client.apiKey == "" && n <= |xs|
    ensures RelevantPrefix(Annotations(g, xs), Judgements(g, xs), n) == []
    decreases n
  {
    if n > 0 {
      UnconfiguredPrefix(g, xs, n - 1);
      UnconfiguredRejects(g, xs[n - 1]);
    }
  }

  lemma UnconfiguredKeepsNothing(g: Gate, xs: seq<Record>)
    requires g.client.apiKey == ""
    ensures Relevant(g, xs) == [] && RaisesAt(g, xs) == |xs|
  {
    UnconfiguredPrefix(g, xs, |xs|);
    if RaisesAt(g, xs) < |xs| {
      UnconfiguredRejects(g, xs[RaisesAt(g, xs)]);
    }
  }

  lemma UnconfiguredRejects(g: Gate, r: Record)
    requires g.client.apiKey == ""
    ensures JudgeOf(g, r) == Rejected
  {
    var a := Analysis(g.client, r, g.query, g.location, g.other);
    assert a[0].0 != a[1].0 by {
      assert |"error"| == 5 && |"is_relevant"| == 11;
    }
    GetFirstAt(a, 1);
  }
}
