# Auction crawler: the record-normalisation pipeline

This project models the part of the auction crawler that turns what the
browser, the lot API and the language model return into the JSON the Lambda
function answers with. It covers:

- the location registry and its three-tier lookup (`config.py`);
- the Central Sul adapter's decision logic (`central_sul_adapter.py`):
  - query expansion;
  - the keyword filter;
  - URL deduplication;
  - the element merge, element extraction and the price scanner;
  - the API lot mapping;
  - the fallback to a known lot;
  - the description cascade and price cascade of the detail page;
  - the description backfill;
- the `Auction` dataclass with `from_dict` and `to_dict` (`auction.py`);
- the shared language-model relevance gate, enrichment merge and record-to-text rendering (`base_adapter.py`);
- the Lambda handler (`lambda_function.py`): source tagging, normalisation, top-level deduplication and the 200/500 response.

## How the model is built

A record (a Python dict) is an association list `seq<(string, Value)>`.
`Value` is a small JSON-like datatype: strings, numbers, booleans, `None`,
lists and dicts. Assigning to an existing key keeps that key's position;
assigning a new key appends it, as Python dicts do. `WellFormed` says that
every key occurs once.

The browser, the HTTP calls and the language model are inputs:

- The result elements are what each selector returns.
- A detail page is a `Page` value: the texts each selector finds on it.
- A URL loads a page through a function parameter (`Site.load`).
- The LLM client has an API key and two answer functions.
- The clock reading, `isoformat`, `json.dumps` and `str()` on non-string
  values are also parameters.

Code that changes state step by step is imperative Dafny, each method proved
equal to a specification function:

- `_deduplicate_auctions`, the filters and the variation loops;
- `_fetch_descriptions`, which updates an `array` in place;
- `from_dict`'s pop loop and `to_dict`'s merge loop;
- the handler's loops.

Lemmas then state what the source promises about those functions. An
exception that escapes a step is an `Err` or `None` result, and the model
follows what the caller's `try` does with it.

Files, one module each:

| file | module |
|---|---|
| `wrappers.dfy` | `Wrappers` (`Option`, `Result`) |
| `text.dfy` | `Text` (Latin-1 `lower`, `strip`, `in`, `replace`, `join`, `split`) |
| `values.dfy` | `Values` (values, records, `get`, assignment, truthiness, `str()`) |
| `seqs.dfy` | `Seqs` (distinctness, sublists, the map-until-failure loop) |
| `config.dfy` | `Config` |
| `variations.dfy` | `Variations` |
| `dedup.dfy` | `Dedup` |
| `filter.dfy` | `KeywordFilter` |
| `prices.dfy` | `Prices` |
| `api.dfy` | `Api` |
| `elements.dfy` | `Elements` |
| `base.dfy` | `BaseAdapter` |
| `details.dfy` | `DetailPage` |
| `centralsul.dfy` | `CentralSul` |
| `auction.dfy` | `AuctionModel` |
| `handler.dfy` | `Handler` |

### A note on `image_url`

Line 37 of `src/models/auction.py` keeps only dataclass fields in
the copy, and `image_url` is not a field, so it goes to `metadata`. The
folding code at lines 48-53 therefore never runs, and `to_dict` writes
`image_url` back unchanged.

## Model

| member | source | states |
|---|---|---|
| Config.FallbackUrlNonEmpty | src/config.py:29 | The known-lot fallback URL of the Itapirubá entry is not empty. |
| Config.FirstMatch | src/config.py:67-83 | The first registry entry in table order that matches on the given tier; no entry before it matches, and `None` means that no entry matches. |
| Config.GetLocationConfig | src/config.py:54-86 | The result is a registry entry. The empty config comes back exactly when no tier matches the lowered, stripped query. |
| Config.Lookup | src/config.py:66-86 | The three passes run in order on the normalised query. The result is a registry entry, and it is empty exactly when no tier matches. |
| Config.TierPrecedence | src/config.py:66-83 | When tier t has its first hit at entry i and no earlier tier has any hit, the result is entry i: exact beats alias, alias beats partial, and within a tier the table order decides. |
| Config.FirstMatchFinds | src/config.py:67-83 | A tier pass returns the first entry that matches on it. |
| Config.NoBlankExactOrAlias | src/config.py:67-74 | An entry whose id, name and aliases are all non-empty is neither an exact nor an alias hit for the empty query. |
| Config.BlankQueryResolvesToFirst | src/config.py:64-79 | A blank query strips to the empty string. The empty string occurs in every id, so the partial tier returns the first entry. |
| Config.FallbackOnlyForFirst | src/config.py:25-30 | A resolved entry with a fallback URL is the Itapirubá entry, and the URL is its known-lot URL. |
| Config.LookupSeesNormalized | src/config.py:64 | Looking up the normalised query gives the same answer as looking up the query. |
| Config.SubstringOfIdResolves | src/config.py:78-79 | Any substring of a registry id resolves to some entry, the empty query included. |
| Config.EmptyLookupExcludesAliasAndId | src/config.py:72-83 | When a normalised query resolves to nothing, no entry lists it among its aliases and no id contains it. |
| Config.NoHitExcludes | src/config.py:72-83 | A lower-case query that misses an entry's alias tier and its partial tier is not one of its aliases and does not occur in its id. |
| Variations.BaseLetter | src/adapters/central_sul_adapter.py:568-571 | The base letter an accented Latin-1 letter decomposes to; characters below U+00C0 are unchanged. |
| Variations.StripAccents | src/adapters/central_sul_adapter.py:568-571 | The output is no longer than the input and holds no combining mark. |
| Variations.StripAccentsAscii | src/adapters/central_sul_adapter.py:568-571 | Accent stripping leaves ASCII text unchanged. |
| Variations.LowerAll | src/adapters/central_sul_adapter.py:558 | Definition: each element is lowered, position by position. |
| Variations.StateCode | src/adapters/central_sul_adapter.py:580-583 | The state-code loop adds at most one candidate. |
| Variations.RawVariations | src/adapters/central_sul_adapter.py:545-583 | The candidate list is never empty and starts with the lowered, stripped query. |
| Variations.Candidates | src/adapters/central_sul_adapter.py:548-583 | The candidates built from a normalised query start with that query. |
| Variations.GenerateQueryVariations | src/adapters/central_sul_adapter.py:534-593 | The method returns the deduplicated, lowered candidate list. |
| Variations.AddStateCode | src/adapters/central_sul_adapter.py:580-583 | The registry loop appends `query/state` for the first entry that lists the query as an alias or whose id contains it, and nothing else. |
| Variations.LowerUnique | src/adapters/central_sul_adapter.py:586-590 | The closing loop lowers every candidate and keeps its first occurrence, in order. |
| Variations.VariationsStartWithQuery | src/adapters/central_sul_adapter.py:545-548 | The first variation is `query.lower().strip()`. |
| Variations.VariationsLowerDistinct | src/adapters/central_sul_adapter.py:585-590 | Every variation is lower case, none occurs twice, and there are no more variations than raw candidates. |
| Variations.VariationsCoverLocation | src/adapters/central_sul_adapter.py:553-562 | For a query the registry resolves, the variations hold the lowered name, every lowered alias and `name/state`. |
| Variations.NameCandidateKept | src/adapters/central_sul_adapter.py:553-590 | The lowered name survives deduplication. |
| Variations.StateCandidateKept | src/adapters/central_sul_adapter.py:561-590 | `name/state` survives deduplication. |
| Variations.AliasCandidatesKept | src/adapters/central_sul_adapter.py:558-590 | Every lowered alias survives deduplication. |
| Variations.LoweredKept | src/adapters/central_sul_adapter.py:586-590 | A candidate that is already lower case is among the deduplicated variations. |
| Variations.StateCodeLoopIsDead | src/adapters/central_sul_adapter.py:580-583 | When the registry does not resolve the query, the state-code loop adds nothing: the lookup's alias and partial tiers already test both of its conditions. |
| Variations.StateCodeNone | src/adapters/central_sul_adapter.py:580-583 | The loop adds nothing when no entry lists the query as an alias and no id contains it. |
| Dedup.Urls | src/adapters/central_sul_adapter.py:68 | Definition: the URL each record gives under `auction.get('url')`, position by position. |
| Dedup.DedupChecked | src/adapters/central_sul_adapter.py:66-73 | The loop fails exactly when some record has a truthy URL that is a list or a dict, which cannot be a dict key. Otherwise the result is the first-occurrence deduplication. |
| Dedup.DeduplicateAuctions | src/adapters/central_sul_adapter.py:63-75 | The dict-filling loop computes the checked deduplication. |
| Dedup.MapWhileUrls | src/lambda_function.py:46-49 | A conversion that keeps each record's URL keeps the URLs of the records it converts, for the stretch it converts before the first failure. |
| Dedup.FirstOccurrencesUrls | src/adapters/central_sul_adapter.py:66-73 | A truthy URL is among the kept URLs exactly when some input record carries it. |
| Dedup.DedupPrefixIsFirstOccurrences | src/adapters/central_sul_adapter.py:66-73 | After each prefix, the dict's values are exactly the records that are first with their truthy URL. |
| Dedup.DedupIsFirstOccurrences | src/adapters/central_sul_adapter.py:66-73 | The output is exactly the first occurrences. |
| Dedup.FirstOccurrencesUnique | src/adapters/central_sul_adapter.py:66-73 | The first occurrences all have truthy URLs, pairwise distinct, and there are no more of them than records. |
| Dedup.FirstOccurrencesAreFirst | src/adapters/central_sul_adapter.py:69-70 | Every kept record is an input record that is the first with its URL. |
| Dedup.FirstOccurrencesKeep | src/adapters/central_sul_adapter.py:69-70 | A record that is first with its URL stays kept as the loop goes on. |
| Dedup.FirstOccurrencesSublist | src/adapters/central_sul_adapter.py:66-73 | The first occurrences are a sublist of the input, in input order. |
| Dedup.DedupShape | src/adapters/central_sul_adapter.py:66-73 | The output keeps first-seen order, is no longer than the input, and its URLs are all truthy and pairwise distinct. |
| Dedup.DedupCoversUrls | src/adapters/central_sul_adapter.py:66-73 | Every truthy input URL is the URL of some output record. |
| Dedup.FirstOccurrenceKept | src/adapters/central_sul_adapter.py:69-70 | For every truthy URL, its first record is in the output and is the only output record with that URL. |
| Dedup.OutputIsFirstOccurrence | src/adapters/central_sul_adapter.py:69-70 | Every output record is the first input record with its URL. |
| Dedup.FirstOccurrencesOfUnique | src/adapters/central_sul_adapter.py:66-73 | When the URLs are truthy and distinct, every record is a first occurrence. |
| Dedup.DedupOfUnique | src/adapters/central_sul_adapter.py:66-73 | A list whose URLs are all truthy and pairwise distinct is its own deduplication. |
| Dedup.DedupIdempotent | src/adapters/central_sul_adapter.py:66-73 | Deduplicating twice gives the same list as deduplicating once. |
| KeywordFilter.FieldLowerAbsent | src/adapters/central_sul_adapter.py:514-516 | A missing field reads as the empty string. |
| KeywordFilter.FirstFoundFrom | src/adapters/central_sul_adapter.py:521-524 | The first variation from a given index on that occurs in the text; none before it occurs, and `None` means that none occurs at all. |
| KeywordFilter.FirstFound | src/adapters/central_sul_adapter.py:520-524 | The inner loop stops at the first variation in list order that occurs in the text. |
| KeywordFilter.Verdicts | src/adapters/central_sul_adapter.py:511-529 | Definition: the loop body's verdict for each record, position by position. |
| KeywordFilter.VisitedUpTo | src/adapters/central_sul_adapter.py:526-529 | After n records, each of them is replaced in place by what the loop body left, and the rest are untouched. |
| KeywordFilter.FailFrom | src/adapters/central_sul_adapter.py:511-529 | The index of the first record whose fields raise, or the end: no record before it raises. |
| KeywordFilter.FailAt | src/adapters/central_sul_adapter.py:511-517 | The first record whose `title`, `description` or `auction_title` is not a string. Every record before it can be read. |
| KeywordFilter.FilterAuctions | src/adapters/central_sul_adapter.py:491-532 | The records before the first unreadable one are stamped in place and the rest are untouched. The filtered list comes back exactly when no record fails. |
| KeywordFilter.FilterBy | src/adapters/central_sul_adapter.py:509-532 | The loop over the records with the generated variations has the same effect and result as FilterAuctions. |
| KeywordFilter.Visit | src/adapters/central_sul_adapter.py:513-524 | The loop body's reading of one record yields its verdict. |
| KeywordFilter.VisitStep | src/adapters/central_sul_adapter.py:526-529 | One turn of the loop updates the visited record in place, and appends it to the result when it is kept. |
| KeywordFilter.FailFromIsFirst | src/adapters/central_sul_adapter.py:511-529 | The first failing record, after records that do not fail, is where the loop stops. |
| KeywordFilter.KeptPrefixSublist | src/adapters/central_sul_adapter.py:509-529 | The kept records among the first n are a sublist of those records as visited. |
| KeywordFilter.KeptIsSublist | src/adapters/central_sul_adapter.py:509-529 | The filtered list is an order-preserving sublist of the visited records, and no longer than the input. |
| KeywordFilter.KeptPrefixStamped | src/adapters/central_sul_adapter.py:526-529 | Each record kept so far came from a record whose verdict was `Keep(term)`, and carries `match_reason = "Matched term: " + term`. |
| KeywordFilter.KeptRecordsAreStamped | src/adapters/central_sul_adapter.py:526-529 | Each kept record is an input record whose verdict was `Keep(term)`. It carries `match_reason = "Matched term: " + term`, and every other key is as it was. |
| KeywordFilter.KeptPrefixExtends | src/adapters/central_sul_adapter.py:511-529 | The records kept among the first `i` open the records kept among any later prefix: the filtered list only grows at its end. |
| KeywordFilter.KeepVerdictKept | src/adapters/central_sul_adapter.py:511-529 | Conversely, a record whose verdict is `Keep(term)` is in the filtered list, stamped with that term, right after the records kept before it. |
| KeywordFilter.KeptWhenSomeVariation | src/adapters/central_sul_adapter.py:511-529 | With no empty variation, a readable record in which some variation occurs is in the filtered list, stamped with the first variation that occurs. |
| KeywordFilter.StampReads | src/adapters/central_sul_adapter.py:528 | The stamp sets `match_reason` and leaves every other key alone. |
| KeywordFilter.KeepIffSomeVariation | src/adapters/central_sul_adapter.py:513-529 | With no empty variation, a readable record is kept exactly when some variation occurs in its lowered `title + ' ' + description + ' ' + auction_title`, and the stamped term is the first such variation. |
| KeywordFilter.BlankQueryKeepsNothing | src/adapters/central_sul_adapter.py:520-526 | For a blank query, the first variation is the empty string. It occurs in every text and is falsy, so no record is kept. |
| Prices.PriceRun | src/adapters/central_sul_adapter.py:467 | The run of `[\d.,]` starting at an index stays inside the text. |
| Prices.CurrencyAt | src/adapters/central_sul_adapter.py:467 | A match of `R\$\s*([\d.,]+)` at an index has a non-empty amount after the `R$`. |
| Prices.PriceRunOf | src/adapters/central_sul_adapter.py:467 | A run is exactly the stretch of characters its class admits. |
| Prices.PriceRunAll | src/adapters/central_sul_adapter.py:467 | Every character of a run is in `[\d.,]`. |
| Prices.CurrencyAtOf | src/adapters/central_sul_adapter.py:467 | `R$`, then white space, then a maximal amount: the match at that index captures exactly that amount. |
| Prices.FindPricesAmounts | src/adapters/central_sul_adapter.py:467 | Every amount `findall` returns is a non-empty run of `[\d.,]`. |
| Prices.FindPricesFromSkip | src/adapters/central_sul_adapter.py:467 | A stretch without an `R` contributes no amount. |
| Prices.FindPricesAt | src/adapters/central_sul_adapter.py:467 | A match contributes its amount, and the scan resumes where the match ends. |
| Prices.FindPricesNone | src/adapters/central_sul_adapter.py:467 | Text without an `R` yields no amount. |
| Prices.SliceOf | src/adapters/central_sul_adapter.py:467 | Characters that spell an amount from an index on form that slice. |
| Prices.RenderedPieces | src/adapters/central_sul_adapter.py:467 | Where `R$`, the amount and the separating space sit in a text showing `R$ <m> <rest>`. |
| Prices.FindPricesRenderedHead | src/adapters/central_sul_adapter.py:467 | One shown amount is read back, and the scan goes on after its space. |
| Prices.FindPricesRenderAt | src/adapters/central_sul_adapter.py:467 | Shown amounts that end the text are read back in order. |
| Prices.FindPricesRender | src/adapters/central_sul_adapter.py:467 | The scanner reads back, in order, every amount shown as `R$ <amount>`: a round trip for the regular expression. |
| Prices.PositionalPrices | src/adapters/central_sul_adapter.py:461-474 | The first two amounts become `evaluation` and `minimum_bid`; a single amount becomes `minimum_bid`; no amounts, or unreadable HTML, sets nothing. |
| Prices.PositionalPricesOfRendered | src/adapters/central_sul_adapter.py:466-472 | HTML showing amounts as `R$ <amount>` gets those amounts assigned positionally. |
| Api.Iterate | src/adapters/central_sul_adapter.py:223-235 | What `for x in v` visits: a list yields its items, and `None`, booleans and numbers raise. |
| Api.ImageUrlsFromSpec | src/adapters/central_sul_adapter.py:235 | The images comprehension succeeds exactly when every item is a dict. It then lists each item's `url`, or `None`, at that item's position. |
| Api.LotRecordShape | src/adapters/central_sul_adapter.py:224-238 | The dict literal has thirteen pairs. `url` is the lot-page prefix followed by the slug's text, `title` is the lot's or `"Unknown Title"`, and the last two pairs are the lot's JSON and the lot itself. |
| Api.LotToAuctionSucceeds | src/adapters/central_sul_adapter.py:224-238 | A lot converts exactly when it is a dict whose `auction` is absent or a dict and whose `images` is absent or iterates over dicts only. |
| Api.LotToAuctionShape | src/adapters/central_sul_adapter.py:225-237 | The URL is the lot-page prefix followed by the slug text, so it is truthy. The title is the lot's or `"Unknown Title"`. `auction_url` is the auction-page prefix followed by the auction's slug text. `html_content` is the lot's JSON and `api_data` is the lot itself. |
| Api.LotToAuctionImages | src/adapters/central_sul_adapter.py:235 | `images` lists the `url` of each of the lot's images, in order. |
| Api.ApiResponseToAuctions | src/adapters/central_sul_adapter.py:217-243 | The loop computes the conversions of the leading lots. |
| Api.ApiAuctionsSpec | src/adapters/central_sul_adapter.py:221-242 | For iterable lots, the records are the conversions of the leading lots, one per lot and in lot order. The first lot left out is one whose conversion raises, so every lot is converted when none raises. |
| Api.LotsConverted | src/adapters/central_sul_adapter.py:221-241 | The conversion loop over a list of lots keeps the conversions of the leading lots, in order, and stops at the first lot whose conversion raises. |
| Api.NonListDataYieldsNothing | src/adapters/central_sul_adapter.py:222-223 | A `data` value that is not a list yields no record, since each item it iterates is a string. |
| Elements.NewOnesUpToSpec | src/adapters/central_sul_adapter.py:402 | The comprehension keeps exactly the batch elements not yet seen, in batch order. |
| Elements.NewOnesSpec | src/adapters/central_sul_adapter.py:402 | The new elements of a batch are exactly those not yet collected. |
| Elements.FindAuctionElements | src/adapters/central_sul_adapter.py:382-407 | The method merges the lot items with each selector's unseen elements. |
| Elements.MergedStartsWithLotItems | src/adapters/central_sul_adapter.py:387-390 | The standard lot items come first, in their order. |
| Elements.MergedMembers | src/adapters/central_sul_adapter.py:384-407 | Every candidate is a lot item or in some batch, and every lot item and every batch element is a candidate. |
| Elements.NewOnesUpToDistinct | src/adapters/central_sul_adapter.py:402 | A duplicate-free batch yields duplicate-free new elements. |
| Elements.NewOnesUpToPositions | src/adapters/central_sul_adapter.py:402 | What the comprehension keeps comes from the batch and was not yet seen. |
| Elements.MergedDistinct | src/adapters/central_sul_adapter.py:400-405 | Duplicate-free inputs give duplicate-free candidates: an element several selectors find is visited once. |
| Elements.FirstLotLinkFrom | src/adapters/central_sul_adapter.py:429-436 | The first nested link from an index on whose `href` contains `/lote/`; `None` means there is none. |
| Elements.FirstLotLink | src/adapters/central_sul_adapter.py:428-436 | The inner-link loop stops at the first lot link. |
| Elements.FirstNonBlankFrom | src/adapters/central_sul_adapter.py:448-451 | The first heading text from an index on that is not blank. |
| Elements.FirstNonBlank | src/adapters/central_sul_adapter.py:445-451 | The title fallback takes the first non-blank heading. |
| Elements.InitialShape | src/adapters/central_sul_adapter.py:411-414 | The starting dict holds the title and an empty description. |
| Elements.ExtractAuctionFails | src/adapters/central_sul_adapter.py:420 | The extraction raises exactly for an `a` element without `href`. |
| Elements.PricesAssignOnly | src/adapters/central_sul_adapter.py:467-472 | The price step assigns no key other than `evaluation` and `minimum_bid`. |
| Elements.WithImageGet | src/adapters/central_sul_adapter.py:454-459 | The image step assigns `image_url` and nothing else. |
| Elements.ExtractedWellFormed | src/adapters/central_sul_adapter.py:411-476 | Every extracted record has each key once. |
| Elements.ExtractedGet | src/adapters/central_sul_adapter.py:411-451 | The extracted record holds the lot URL, the title after the heading fallback, and the empty description. |
| Elements.ExtractedPrices | src/adapters/central_sul_adapter.py:462-472 | The amounts the element's HTML shows end up under the two price keys, positionally. |
| Elements.ExtractAuctionFinds | src/adapters/central_sul_adapter.py:419-442 | An element yields a record exactly when it is a lot link or holds one. The URL is the element's own `href` in the first case, and the first lot link's otherwise. |
| Elements.ExtractedRecordShape | src/adapters/central_sul_adapter.py:423-451 | An extracted record's URL is a truthy string containing `/lote/`; its title is `"Unknown"` or a non-blank stripped text. |
| BaseAdapter.TextLines | src/adapters/base_adapter.py:127-129 | Definition: one `key: value` line per pair, in key order. |
| BaseAdapter.AuctionToText | src/adapters/base_adapter.py:121-131 | The method returns the stored `html_content` or the joined lines. |
| BaseAdapter.TextOfStored | src/adapters/base_adapter.py:123-124 | A stored `html_content` is returned verbatim, whatever it is; without one the text is a string. |
| BaseAdapter.TextOfLines | src/adapters/base_adapter.py:126-131 | Without `html_content`, the text splits back at its newlines into one `key: value` line per pair, in key order. |
| BaseAdapter.EnrichMerges | src/adapters/base_adapter.py:109-119 | With a client and `html_content`, the merge holds the keys of both dicts. The auction's own values win, the extracted values fill in the rest, and the result is a dict. |
| BaseAdapter.EnrichUnchanged | src/adapters/base_adapter.py:109-110 | With no client, no `html_content`, or a client without an API key, the auction comes back as it was. |
| BaseAdapter.JudgeSpec | src/adapters/base_adapter.py:78-92 | A record is accepted exactly when `is_relevant` (default `False`) is truthy and `confidence` (default `0`) is at least the threshold. The comparison raises only after `is_relevant` is found truthy. |
| BaseAdapter.Judgements | src/adapters/base_adapter.py:71-92 | The verdict for each record, position by position. |
| BaseAdapter.Annotations | src/adapters/base_adapter.py:83-87 | The annotated copy of each record, position by position. |
| BaseAdapter.AnalysedAt | src/adapters/base_adapter.py:71-92 | Each record's verdict and annotation are those of that record. |
| BaseAdapter.AnnotatedUpTo | src/adapters/base_adapter.py:83-87 | After n records, those n carry their `relevance` map in place, and the rest are untouched. |
| BaseAdapter.RaisesFrom | src/adapters/base_adapter.py:90 | The first comparison that raises, or the end; none before it raises. |
| BaseAdapter.RaisesAtSpec | src/adapters/base_adapter.py:90 | The first record whose confidence comparison raises; none before it raises. |
| BaseAdapter.FilterRelevantAuctions | src/adapters/base_adapter.py:51-96 | With no client, the input comes back unchanged. With a client, each record up to the first failing one is annotated in place, and the relevant list comes back when no comparison raises. |
| BaseAdapter.FilterWith | src/adapters/base_adapter.py:69-96 | The loop with a configured client has the same effect and result as FilterRelevantAuctions. |
| BaseAdapter.Visit | src/adapters/base_adapter.py:71-92 | The loop body's work on the i-th record yields that record's annotation and verdict. |
| BaseAdapter.Analyze | src/adapters/base_adapter.py:73-90 | One record: its text, the model's answer, the `relevance` map written in, and the comparison. |
| BaseAdapter.AnnotateStep | src/adapters/base_adapter.py:83-92 | One turn of the loop annotates the visited record in place, and appends it when it is accepted. |
| BaseAdapter.RaisesFromNone | src/adapters/base_adapter.py:90 | With no comparison that raises, the loop runs to the end. |
| BaseAdapter.RaisesFromIsFirst | src/adapters/base_adapter.py:90 | The first comparison that raises is where the loop stops. |
| BaseAdapter.RelevantPrefixSublist | src/adapters/base_adapter.py:69-92 | The relevant records among the first n are a sublist of those records as annotated. |
| BaseAdapter.RelevantIsSublist | src/adapters/base_adapter.py:69-96 | The result is an order-preserving sublist of the annotated input, and no longer than it. |
| BaseAdapter.RelevantPrefixMembers | src/adapters/base_adapter.py:90-92 | Among the first n records, the accepted ones, and only they, are in the result, annotated and in order. |
| BaseAdapter.RelevantIff | src/adapters/base_adapter.py:90-92 | A record is in the result, annotated, exactly when its answer says relevant with a confidence at or above the threshold. |
| BaseAdapter.AnnotationDefaults | src/adapters/base_adapter.py:78-87 | Every annotated record carries the model's answer, defaulting to `is_relevant = False`, `confidence = 0` and `reason = "No reason provided"`. Every other key is unchanged. |
| BaseAdapter.UnconfiguredPrefix | src/llm/deepseek_client.py:31-33 | A client without an API key answers `is_relevant = None`, so no prefix keeps anything. |
| BaseAdapter.UnconfiguredKeepsNothing | src/llm/deepseek_client.py:31-33 | A client without an API key rejects every record, and no comparison raises. |
| BaseAdapter.UnconfiguredRejects | src/llm/deepseek_client.py:31-33 | A client without an API key rejects each record. |
| DetailPage.ConcatEmpty | src/adapters/central_sul_adapter.py:638-640 | Appended pieces are empty exactly when every piece is. |
| DetailPage.ConcatMember | src/adapters/central_sul_adapter.py:638-640 | Whatever the appended text holds comes from some piece. |
| DetailPage.AltPiece | src/adapters/central_sul_adapter.py:639-640 | An alternative text counts only when it is longer than 20 characters. |
| DetailPage.LabelPiece | src/adapters/central_sul_adapter.py:651-666 | A caption contributes its parent's text without the caption, when that says more than 20 characters beyond it. Otherwise it contributes its sibling's text, when that is longer than 20 characters. |
| DetailPage.ParagraphPiece | src/adapters/central_sul_adapter.py:677-681 | A paragraph counts when its trimmed text is longer than 50 characters. |
| DetailPage.Finalize | src/adapters/central_sul_adapter.py:692 | The stored description is stripped, and is the placeholder exactly when nothing was found. |
| DetailPage.MainDescriptionWins | src/adapters/central_sul_adapter.py:630-632 | A non-blank dedicated description element is the description, and the other methods are not consulted. |
| DetailPage.AltDescriptionsUsed | src/adapters/central_sul_adapter.py:633-645 | Without a dedicated element, any alternative text over 20 characters makes method 2 the description, and methods 3 and 4 are skipped. |
| DetailPage.ShortTextsGivePlaceholder | src/adapters/central_sul_adapter.py:627-692 | When every candidate text is too short or blank, the page gets `"No description available"`. |
| DetailPage.Images | src/adapters/central_sul_adapter.py:696-697 | Every image is a present, non-empty source, and there are no more images than sources. |
| DetailPage.ImagesAppend | src/adapters/central_sul_adapter.py:697 | The images of two source lists in a row are those of the first, then those of the second. |
| DetailPage.ImagesComplete | src/adapters/central_sul_adapter.py:697 | Every present, non-empty source gives an image. |
| DetailPage.ImagesKeep | src/adapters/central_sul_adapter.py:697 | Two present, non-empty sources give images in the same order. |
| DetailPage.ClosingAtSpec | src/adapters/central_sul_adapter.py:772-780 | A stored closing date is non-empty and stripped. No date is stored exactly when every date text is blank. |
| DetailPage.BoxKey | src/adapters/central_sul_adapter.py:716-721 | A box label is classified as a price key; `evaluation` exactly when it contains `avalia`. |
| DetailPage.LabelKey | src/adapters/central_sul_adapter.py:736-741 | A label is classified by a single word; `evaluation` exactly when it contains `avalia`. |
| DetailPage.BoxAssignment | src/adapters/central_sul_adapter.py:708-723 | A price box assigns price keys only. |
| DetailPage.LabelAssignment | src/adapters/central_sul_adapter.py:730-743 | A price label assigns price keys only. |
| DetailPage.MatchAssignment | src/adapters/central_sul_adapter.py:751-763 | A labelled amount assigns price keys only. |
| DetailPage.StageShape | src/adapters/central_sul_adapter.py:704-763 | Each stage is a dict that only sets price keys, each to its last assigned value. |
| DetailPage.StageEmpty | src/adapters/central_sul_adapter.py:726-746 | A stage is empty exactly when it assigned nothing. |
| DetailPage.PriceInfoShape | src/adapters/central_sul_adapter.py:704-766 | The price dict, as written and as corrected, is a dict that only ever sets the three price keys. |
| DetailPage.Stage1NonEmpty | src/adapters/central_sul_adapter.py:708-723 | One complete, classified price box makes method 1's dict non-empty. |
| DetailPage.BoxesDecide | src/adapters/central_sul_adapter.py:726 | A complete, classified price box means method 1 decides, and methods 2 and 3 do not run; the correction of method 3 then changes nothing. |
| DetailPage.LabelFromSpec | src/adapters/central_sul_adapter.py:749 | The label the pattern's alternation finds is one of the four, and it fits in the text. |
| DetailPage.ColonSpaceRun | src/adapters/central_sul_adapter.py:749 | The run of `[\s:]` starting at an index stays in the text. |
| DetailPage.ColonSpaceRunOf | src/adapters/central_sul_adapter.py:749 | The run of `[\s:]` is exactly the stretch of separators. |
| DetailPage.LabelledAt | src/adapters/central_sul_adapter.py:749 | A match of the whole pattern at an index ends after it. |
| DetailPage.LabelledWith | src/adapters/central_sul_adapter.py:749 | The rest of the pattern after a label ends after the label's start. |
| DetailPage.LabelledAtLabel | src/adapters/central_sul_adapter.py:749 | A match's group 1 is one of the four labels. |
| DetailPage.PriceMatchesLabels | src/adapters/central_sul_adapter.py:749 | Group 1 of every match is one of the four labels. |
| DetailPage.MatchTexts | src/adapters/central_sul_adapter.py:749 | Definition: the whole text of each match, in order. |
| DetailPage.MatchLabels | src/adapters/central_sul_adapter.py:749 | Definition: the group 1 of each match, which is what `findall` returns, in order. |
| DetailPage.Stage3OfLabelsIsEmpty | src/adapters/central_sul_adapter.py:749-763 | A lone label holds no `R$`, so method 3 as written assigns nothing. |
| DetailPage.LabelHasNoAmount | src/adapters/central_sul_adapter.py:753 | None of the four labels holds an amount. |
| DetailPage.LabelledWithOf | src/adapters/central_sul_adapter.py:749 | A label, separators, then a currency amount: the pattern matches up to the amount's end. |
| DetailPage.ShownLabelled | src/adapters/central_sul_adapter.py:749-753 | A shown price is one match, and the currency search reads its amount. |
| DetailPage.PriceMatchesOfShown | src/adapters/central_sul_adapter.py:749 | A text that is one shown price from start to end holds exactly one match, the whole text. |
| DetailPage.AgreesFromAll | src/adapters/central_sul_adapter.py:749 | Character-wise agreement with a literal from an offset on. |
| DetailPage.EvaluationAt | src/adapters/central_sul_adapter.py:749-752 | A text opening with `Avaliação` has that label, classifies as an evaluation, and holds no `R` before the label ends. |
| DetailPage.EvaluationPageFinding | src/adapters/central_sul_adapter.py:746-763 | Corrected method 3: a page without price boxes or labels whose source is one shown `Avaliação` price gets `evaluation = "R$ <amount>"`. |
| DetailPage.Stage3Single | src/adapters/central_sul_adapter.py:751-763 | Method 3 over one matched text applies that text's assignment. |
| DetailPage.SingleMatchPage | src/adapters/central_sul_adapter.py:746-763 | Corrected method 3: a page whose source is one labelled amount gets that amount's assignment. |
| DetailPage.EvaluationPageAsWritten | src/adapters/central_sul_adapter.py:746-763 | As written, method 3 reads nothing on a page without price boxes or labels, the page of the corrected lemma included. |
| DetailPage.AsWrittenIgnoresSource | src/adapters/central_sul_adapter.py:704-766 | As written, the price dict is method 1's or method 2's, whatever the page source says. |
| DetailPage.HeadGet | src/adapters/central_sul_adapter.py:617-699 | The head holds title, description and images under their keys, once each. |
| DetailPage.FinishGet | src/adapters/central_sul_adapter.py:776-785 | The closing date, when found, and the page source go last. |
| DetailPage.AssembleAt | src/adapters/central_sul_adapter.py:613-785 | Each key of the assembled record gets its value from the page source, the closing date, the price dict or the head. |
| DetailPage.AssembleFixed | src/adapters/central_sul_adapter.py:617-785 | Title, description, images and the page source land under their own keys. |
| DetailPage.AssembleOptional | src/adapters/central_sul_adapter.py:776-780 | A closing date is stored exactly when one was found. No `url` and no `error` key is ever stored. |
| DetailPage.AssemblePrice | src/adapters/central_sul_adapter.py:766 | A price key holds what the price dict holds for it. |
| DetailPage.AssembleGet | src/adapters/central_sul_adapter.py:613-785 | Every part lands under its own key, and nothing lands under `url` or `error`. |
| DetailPage.PriceOnly | src/adapters/central_sul_adapter.py:766 | `update` with the price dict leaves every other key alone. |
| DetailPage.AuctionDetails | src/adapters/central_sul_adapter.py:795-797 | A page that fails to load yields `{"error": message}`. |
| DetailPage.PageRecordGet | src/adapters/central_sul_adapter.py:613-785 | The page record holds title, description, the as-written price dict's keys, the closing date when there is one, and the page source, and it has no URL. |
| DetailPage.EvaluationPageRecord | src/adapters/central_sul_adapter.py:704-785 | A page without price boxes or price labels gives a record with no price key, whatever amounts its source shows. |
| DetailPage.EnrichedKeepsPage | src/adapters/central_sul_adapter.py:787-791 | With the model step, every key the page gave keeps the page's value. |
| DetailPage.PageRecordSource | src/adapters/central_sul_adapter.py:785 | The page record is a dict whose `html_content` is the page source. |
| CentralSul.FallbackSpec | src/adapters/central_sul_adapter.py:478-489 | A query has a fallback URL exactly when it resolves to the Itapirubá entry, and the URL is that entry's. |
| CentralSul.BlankQueryFallsBack | src/adapters/central_sul_adapter.py:478-489 | A blank query has the known lot. |
| CentralSul.Outcomes | src/adapters/central_sul_adapter.py:353-355 | Definition: the extraction of each element, in order. |
| CentralSul.CollectedUpToAll | src/adapters/central_sul_adapter.py:353-360 | When every produced record has a URL, the loop collects all of them. |
| CentralSul.OutcomesHaveUrls | src/adapters/central_sul_adapter.py:356 | Every record an extraction produces passes the loop's URL test. |
| CentralSul.CollectedAreExtractions | src/adapters/central_sul_adapter.py:353-360 | The URL test never drops an extracted record: the collected records are all the extractions, in element order. |
| CentralSul.SeleniumSearch | src/adapters/central_sul_adapter.py:349-380 | The browser search collects the records of the merged elements. When there are none, it takes the known lot's detail record as it is, without a URL. |
| CentralSul.CollectAuctions | src/adapters/central_sul_adapter.py:353-360 | The loop collects every extracted record that has a URL, skipping failures. |
| CentralSul.DetailsShape | src/adapters/central_sul_adapter.py:595-797 | A detail record is never empty, and without the model step it has no URL. A loaded page's description is the page's, and a failed load has no description. |
| CentralSul.KnownLotDroppedAsWritten | src/adapters/central_sul_adapter.py:364-373 | As written, a URL-less detail record added for the known lot is dropped by the deduplication. |
| CentralSul.KnownLotKept | src/adapters/central_sul_adapter.py:364-373 | Corrected: with its URL assigned, the known lot's record is the one record the deduplication keeps. |
| CentralSul.FallbackFinding | src/adapters/central_sul_adapter.py:364-373 | For a query with a known lot and the model step off, the source's branch hands the deduplication a record it drops, and the corrected branch a record it keeps. |
| CentralSul.FallbackDropped | src/adapters/central_sul_adapter.py:364-373 | With the model step off, the deduplication drops whatever the known-lot branch adds. |
| CentralSul.CollectedNone | src/adapters/central_sul_adapter.py:353-360 | Outcomes none of which is a record leave the element loop with nothing. |
| CentralSul.SeleniumOfNone | src/adapters/central_sul_adapter.py:349-373 | Elements none of which gives a record leave the browser search with the known-lot branch's records. |
| CentralSul.SearchOfDropped | src/adapters/central_sul_adapter.py:30-61 | A search whose raw records the deduplication drops returns nothing. |
| CentralSul.AfterDedupOfNone | src/adapters/central_sul_adapter.py:52-56 | The filter and backfill of no records give no records. |
| CentralSul.FallbackSearchIsEmpty | src/adapters/central_sul_adapter.py:30-373 | As written, a search whose elements give no record returns nothing when the model step is off, even for a query with a known lot. |
| CentralSul.Backfilled | src/adapters/central_sul_adapter.py:81-89 | The backfill keeps the list's length. |
| CentralSul.FetchDescriptions | src/adapters/central_sul_adapter.py:77-94 | Every record of the array is updated in place by the backfill, in order. |
| CentralSul.VisitForDescription | src/adapters/central_sul_adapter.py:82-89 | The loop body assigns the backfilled description or leaves the record as it was. |
| CentralSul.BackfillChanges | src/adapters/central_sul_adapter.py:82-89 | Only `description` can change, and only for a record whose description is absent, `""` or the placeholder. It then takes the detail record's description, which is truthy. |
| CentralSul.BackfillFromPage | src/adapters/central_sul_adapter.py:85-89 | A record needing a description whose URL loads a page takes the page's description unless that is empty. A URL that fails to load leaves the record as it was. |
| CentralSul.Search | src/adapters/central_sul_adapter.py:30-61 | The browser search, deduplication, filter and backfill, with the known-lot branch as the source writes it. |
| CentralSul.FilterAndFetch | src/adapters/central_sul_adapter.py:52-56 | The filter and, when something is kept and the switch is on, the backfill. |
| CentralSul.FetchAll | src/adapters/central_sul_adapter.py:77-94 | The backfill over the kept records. |
| CentralSul.StampKeepsUrl | src/adapters/central_sul_adapter.py:528 | Stamping does not touch the URL. |
| CentralSul.VisitedKeepsUrls | src/adapters/central_sul_adapter.py:511-529 | The filter's in-place stamping keeps every URL. |
| CentralSul.BackfilledKeepsUrls | src/adapters/central_sul_adapter.py:81-89 | The backfill keeps every URL. |
| CentralSul.KeptPrefixUrls | src/adapters/central_sul_adapter.py:526-529 | Kept records carry URLs of the input, and no two alike when the input's are distinct. |
| CentralSul.AfterDedupUrlsUnique | src/adapters/central_sul_adapter.py:52-56 | The steps after the deduplication keep URLs truthy and pairwise distinct. |
| CentralSul.SearchUrlsUnique | src/adapters/central_sul_adapter.py:30-61 | Every record the search returns has a truthy URL, and no two share one. |
| AuctionModel.FieldsDistinct | src/models/auction.py:10-26 | The seventeen dataclass fields have distinct names. |
| AuctionModel.FieldIndexFrom | src/models/auction.py:10-26 | A found field index names that field. |
| AuctionModel.FieldIndexFromNone | src/models/auction.py:37 | No index is found exactly when the name is not declared from there on. |
| AuctionModel.IsFieldSpec | src/models/auction.py:37 | `key in __annotations__` exactly when the key is declared. |
| AuctionModel.IsFieldAt | src/models/auction.py:10-26 | Every declared name is a field. |
| AuctionModel.KeepsKeySpec | src/models/auction.py:37 | The copy keeps exactly the fields, since `images` is one. |
| AuctionModel.ImageUrlNotAField | src/models/auction.py:37 | `image_url` is popped into the metadata. |
| AuctionModel.RemoveAfter | src/models/auction.py:38 | `pop` removes the first pair with the key and returns its value. |
| AuctionModel.KeptKeys | src/models/auction.py:36-38 | Every key the copy keeps is a field. |
| AuctionModel.FieldsFromSpec | src/models/auction.py:58 | The recursive all-fields test agrees with its quantified form. |
| AuctionModel.KeepStep | src/models/auction.py:36-38 | A field stays in the copy, and the metadata is unchanged. |
| AuctionModel.PopStep | src/models/auction.py:36-38 | Any other key is popped from the copy into the metadata with its value. |
| AuctionModel.SplitFields | src/models/auction.py:32-38 | The loop leaves the copy with the fields and the metadata with every other pair. |
| AuctionModel.PopInto | src/models/auction.py:38 | `metadata[key] = auction_data.pop(key)`. |
| AuctionModel.FromDict | src/models/auction.py:29-58 | The method builds the dataclass or reports the constructor's error. |
| AuctionModel.KeptGetUpTo | src/models/auction.py:36-38 | The copy holds, for each field, the value the input holds. |
| AuctionModel.KeptGet | src/models/auction.py:36-38 | Schema keys pass through with their values, and other keys are gone. |
| AuctionModel.ExtrasGetUpTo | src/models/auction.py:36-38 | The metadata holds each non-field key with its value. |
| AuctionModel.ExtrasWellFormed | src/models/auction.py:35-38 | The metadata is a dict. |
| AuctionModel.CoercedImagesAreList | src/models/auction.py:41-45 | After the coercion `images` is a list, and nothing else changes. |
| AuctionModel.ImageUrlNeverFolded | src/models/auction.py:37-53 | Lines 48-53 never fire: the copy has no `image_url` by then. |
| AuctionModel.ArgumentsGet | src/models/auction.py:32-56 | The constructor arguments hold the input's fields, the coerced `images` and the collected metadata, and nothing else. |
| AuctionModel.ArgumentsMetadata | src/models/auction.py:56 | `metadata` is the collected dict, replacing any incoming value. |
| AuctionModel.ArgumentsAreFields | src/models/auction.py:58 | Only fields reach the constructor. |
| AuctionModel.ArgumentKeysAreFields | src/models/auction.py:58 | Every argument key is a field, so the constructor never meets an unexpected argument. |
| AuctionModel.ImagesFrom | src/models/auction.py:41-45 | The coerced `images` is always a list. |
| AuctionModel.ImagesCoerced | src/models/auction.py:41-45 | `None` or a missing key gives `[]`, a list stays, and another value `x` becomes `[x]`. |
| AuctionModel.ConstructFields | src/models/auction.py:10-58 | The constructor fills every field from its argument, or with its default. |
| AuctionModel.ConstructField | src/models/auction.py:10-58 | The constructor fills the j-th field from its argument, or with its default. |
| AuctionModel.ArgumentFields | src/models/auction.py:58 | Each field of the built dataclass is its argument or its default. |
| AuctionModel.FromDictOk | src/models/auction.py:29-58 | `from_dict` fails exactly when `title` or `url` is missing. |
| AuctionModel.FromDictFields | src/models/auction.py:29-58 | Every field except `images` and `metadata` holds the input's value or its default, and `images` is the coerced list. |
| AuctionModel.FromDictCreatedAt | src/models/auction.py:26-58 | `created_at` is the input's, or the clock reading. |
| AuctionModel.FromDictMetadataIs | src/models/auction.py:56 | `metadata` is the collected dict, whatever the input held under `metadata`. |
| AuctionModel.FromDictMetadata | src/models/auction.py:35-56 | `metadata` has exactly the non-field keys, with their values. |
| AuctionModel.ToDict | src/models/auction.py:60-86 | The method computes the dict, or the failure of `isoformat` or of the metadata loop. |
| AuctionModel.FixedFieldsShape | src/models/auction.py:62-79 | The dict literal is a dict with one pair per field except `metadata`. |
| AuctionModel.MergedGet | src/models/auction.py:82-84 | A fixed key keeps its value, and any other key gets its first metadata value. |
| AuctionModel.MergedWellFormed | src/models/auction.py:82-84 | The merge keeps each key once. |
| AuctionModel.ToDictOk | src/models/auction.py:60-86 | `to_dict` fails exactly when `created_at` has no `isoformat` or `metadata` is not a dict, and otherwise gives a dict. |
| AuctionModel.ToDictFixed | src/models/auction.py:62-84 | Fixed fields win over same-named metadata keys, with `created_at` rendered by `isoformat`. |
| AuctionModel.ToDictExtra | src/models/auction.py:82-84 | Every non-field key, and `metadata` itself, appears exactly when the metadata carries it, with the metadata's value. |
| AuctionModel.RoundTripKey | src/models/auction.py:29-86 | Through the round trip, a key other than `images`, `metadata` and `created_at` that the input has, or that is no field at all, keeps its value or stays absent. |
| AuctionModel.RoundTripOk | src/models/auction.py:29-86 | The round trip succeeds exactly when the input has `title` and `url` and its `created_at`, or the clock reading, has an `isoformat`. |
| AuctionModel.RoundTripPreserves | src/models/auction.py:37-84 | Every key but `metadata` is present after the round trip. Non-schema values, `image_url` among them, come back exactly and are not folded into `images`. |
| AuctionModel.RoundTripRendered | src/models/auction.py:41-78 | After the round trip, `images` is the coerced list and `created_at` its rendering, and no incoming `metadata` survives. |
| Handler.SwitchSpec | src/lambda_function.py:92-93 | A switch is on exactly when its value's text lowers to `true`; a boolean switches to itself. |
| Handler.EmptyEventDefaults | src/lambda_function.py:87-93 | An empty event searches `itapiruba` in `Santa Catarina, Brasil`, with the LLM off and the backfill on. |
| Handler.ConvertAll | src/lambda_function.py:46-49 | The loop converts the records up to the first that raises. |
| Handler.ConvertOne | src/lambda_function.py:47-49 | The loop body tags, then runs `from_dict` and `to_dict`. |
| Handler.SearchAllSources | src/lambda_function.py:19-70 | The adapter search, with its known-lot branch as written, then the conversion loop. |
| Handler.LambdaHandler | src/lambda_function.py:72-139 | The settings, the search, the top-level deduplication and the response. |
| Handler.ConvertSucceeds | src/lambda_function.py:46-49 | A record converts exactly when it has `title` and `url` and its `created_at`, or the clock reading, has an `isoformat`. |
| Handler.ConvertTags | src/lambda_function.py:47 | Every converted record names `central_sul` as its source. |
| Handler.ConvertKeeps | src/lambda_function.py:47-49 | A converted dict keeps every value the schema does not rewrite, the URL included. |
| Handler.ConvertAllTagged | src/lambda_function.py:46-49 | Every record `search_all_sources` returns is tagged `central_sul`. |
| Handler.ConvertKeepsUrl | src/lambda_function.py:47-49 | Conversion keeps a record's URL. |
| Handler.ConvertAllKeepsUrls | src/lambda_function.py:46-49 | The converted dicts carry the URLs of the records they came from. |
| Handler.TopLevelDedupKeepsAll | src/lambda_function.py:104-111 | The top-level deduplication drops nothing from converted records whose URLs are truthy and distinct. |
| Handler.AnswerSpec | src/lambda_function.py:104-139 | Every response has the JSON and CORS headers. It is a 200 exactly when no truthy URL is a list or dict, and its body then carries the deduplicated records, their count, the query and the location. Otherwise it is a 500 with the error. |
| Handler.AnswerKeepsConverted | src/lambda_function.py:104-127 | Converted records with truthy, distinct URLs are all answered, in order. |
| Handler.HandlerKeepsConverted | src/lambda_function.py:72-127 | When the search's records are dicts, every successful response carries all converted records. The top-level deduplication is redundant after the adapter's. |

## Left out

- Browser work is not modelled: navigation, waits, keystrokes, screenshots and JavaScript execution. The elements each selector finds, and each page's texts, are inputs.
- `_api_search` and `_extract_auth_tokens` are not modelled: they are HTTP and authentication I/O. Only the mapping of an API response is modelled.
- The DeepSeek client is an oracle. Only its answer without an API key is fixed (`src/llm/deepseek_client.py:31-33`, `55-57`).
- Driver creation and `close_driver` are not modelled, nor a failure to create the driver or the LLM client: they are resource management.
- Logging is not modelled.
- The dead `_extract_lot_data` is not modelled: nothing calls it.
- The LLM generation mode (`src/llm/auction_generator.py`, `src/lambda_function_llm.py`) is not modelled: its output is model-generated.
- `src/local.py` is not part of this model.
- `str.lower` is modelled only on Latin-1: characters above U+00FF are left unchanged.
- Unicode NFD accent stripping is a Latin-1 table.
- `\d` is the ASCII digit class; Python's other Unicode digits are not modelled. `\s` and `strip()` use Python's full Unicode white-space set.
- `datetime.now()` is one clock reading, `now`, shared by every record, and `isoformat` is a parameter.
- `json.dumps` (with and without `ensure_ascii=False`) and `str()` on non-string values are parameters.
- Exception messages are placeholders. The unhashable-URL error reads `"unhashable type"`.
- Environment flags are explicit booleans. `Switch` models the handler writing `str(v).lower()` and the adapter reading it back.
- Dict keys and URLs compare structurally: Python's `True == 1` collisions are not modelled (a `VBool` never equals a `VNum`). Since `1` and `1.0` are both `VNum(1.0)`, they do collide, as in Python.
- Python `int` and `float` are one `VNum(real)` case, so the model cannot tell `5` from `5.0`. The `str()` and `json.dumps` parameters (`Api.LotRecord` at src/adapters/central_sul_adapter.py:226, the `count` of `Handler.Payload`, the `confidence` default `0` of `BaseAdapter.AnnotationDefaults`) therefore render both alike, where Python writes `.../lote/5` and `.../lote/5.0` differently. No proved property depends on this difference.
- Object identity is not modelled: records are values. `from_dict`'s copy needs no modelling. The in-place updates of `_filter_auctions`, `filter_relevant_auctions` and `_fetch_descriptions` are modelled on an array of records, not on dicts shared between lists.
- The model search ignores `location`, as the adapter does. The API search path is never called by `search`.
- Many lemmas require `WellFormed` records (each key once), which holds of every dict.
- `DEFAULT_QUERY` (`src/config.py:101`) is fixed at its fallback `itapiruba`: the environment variable that overrides it is not modelled, so Handler.EmptyEventDefaults holds only when that variable is unset.
- DetailPage.ParagraphPiece: method 4 runs as JavaScript in the browser (`src/adapters/central_sul_adapter.py:673-684`). `textContent.trim().length` counts UTF-16 code units and trims JavaScript's white-space set; the model uses Python's `strip()` and counts characters.
- Members whose row reads "Definition" are reference definitions: their `ensures` restate the comprehension, and the lemmas beside them carry the properties.
- Handler.LambdaHandler: requires the event's `query` to be a string. A non-string query, and an event that is not a dict, are not modelled.

## Findings

| source | as written | input that shows it | evidently intended | confidence | as-written member | corrected member |
|---|---|---|---|---|---|---|
| src/adapters/central_sul_adapter.py:749-763 | `re.findall` with one capture group returns only the label (`Avaliação` and so on). The later search for `R\$\s*([\d.,]+)` in that label never matches, so method 3 sets no price. | A page without price boxes or price labels whose source is `Avaliação: R$ 100.000,00` | Classify and read each whole labelled amount, giving `evaluation = "R$ 100.000,00"` | not executed | DetailPage.EvaluationPageAsWritten | DetailPage.EvaluationPageFinding |
| src/adapters/central_sul_adapter.py:364-373 | The known-lot fallback appends the record `get_auction_details` returns, which has no `url`. The deduplication in `search` drops it at once. | Query `itapiruba`, a results page with no lot elements, and the model step off | Assign the fallback URL to the record so that it survives deduplication | not executed | CentralSul.KnownLotDroppedAsWritten | CentralSul.KnownLotKept |
