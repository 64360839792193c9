/**
 * `_api_response_to_auctions`: the site's JSON lot listing turned into auction
 * records.  The loop runs inside one `try`, so the first lot that cannot be
 * converted ends the conversion and the records built so far are returned.
 * `json.dumps` is a parameter (`dumps`), and so is `str()` on values other
 * than strings, `None` and booleans (`other`).
 */
module Api {
  import opened Wrappers
  import opened Values
  import opened Seqs

  const LOT_URL := "https://www.centralsuldeleiloes.com.br/lote/"
  const AUCTION_URL := "https://www.centralsuldeleiloes.com.br/leilao/"

  /** What `for x in v` visits: a list's items, a string's one-character strings,
      a dict's keys; `None` for a value that is not iterable. */
  function Iterate(v: Value): (r: Option<seq<Value>>)
    ensures v.VList? ==> r == Some(v.items)
    ensures (v.VNone? || v.VBool? || v.VNum?) ==> r.None?
  {
    match v
    case VList(items) => Some(items)
    case VStr(s) => Some(seq(|s|, i requires 0 <= i < |s| => VStr([s[i]])))
    case VMap(m) => Some(seq(|m|, i requires 0 <= i < |m| => VStr(m[i].0)))
    case _ => None
  }

  /** `[img.get('url') for img in images]` over the items from index `i` on;
      `None` when an item has no `get`. */
  function ImageUrlsFrom(items: seq<Value>, i: nat): Option<seq<Value>>
    requires i <= |items|
    decreases |items| - i
  {
    if i == |items| then Some([])
    else if !items[i].VMap? then None
    else
      match ImageUrlsFrom(items, i + 1)
      case None => None
      case Some(urls) => Some([GetOr(items[i].entries, "url", VNone)] + urls)
  }

  function ImageUrls(items: seq<Value>): Option<seq<Value>> {
    ImageUrlsFrom(items, 0)
  }

  /** The comprehension succeeds exactly when every item is a dict, and then holds
      each item's `url` (or `None`) at the item's position. */
  lemma {:induction false} ImageUrlsFromSpec(items: seq<Value>, i: nat)
    requires i <= |items|
    ensures ImageUrlsFrom(items, i).Some? <==> forall j :: i <= j < |items| ==> items[j].VMap?
    ensures ImageUrlsFrom(items, i).Some? ==> (|ImageUrlsFrom(items, i).value| == |items| - i &&
      forall j :: i <= j < |items| ==> ImageUrlsFrom(items, i).value[j - i] == GetOr(items[j].entries, "url", VNone))
    decreases |items| - i
  {
    if i < |items| {
      ImageUrlsFromSpec(items, i + 1);
      if items[i].VMap? && ImageUrlsFrom(items, i + 1).Some? {
        var rest := ImageUrlsFrom(items, i + 1).value;
        var urls := [GetOr(items[i].entries, "url", VNone)] + rest;
        assert ImageUrlsFrom(items, i) == Some(urls);
        forall j | i < j < |items| ensures urls[j - i] == GetOr(items[j].entries, "url", VNone) {
          assert urls[j - i] == rest[j - (i + 1)];
        }
      }
    }
  }

  /** The record for one lot, or `None` when building it raises. */
  function LotToAuction(lot: Value, dumps: Value -> string, other: Value -> string): Option<Record> {
    if !lot.VMap? then None
    else
      var auction := GetOr(lot.entries, "auction", VMap([]));
      if !auction.VMap? then None
      else
        match Iterate(GetOr(lot.entries, "images", VList([])))
        case None => None
        case Some(imgs) =>
          match ImageUrls(imgs)
          case None => None
          case Some(urls) => Some(LotRecord(lot, lot.entries, auction.entries, urls, dumps, other))
  }

  /** The dict literal of the loop body, for a lot `m` whose parts could be read. */
  function LotRecord(lot: Value, m: Record, auction: Record, urls: seq<Value>,
                     dumps: Value -> string, other: Value -> string): Record
  {
    [("title", GetOr(m, "title", VStr("Unknown Title"))),
     ("url", VStr(LOT_URL + PyStr(GetOr(m, "slug", VNone), other))),
     ("description", GetOr(m, "description", VStr(""))),
     ("evaluation", GetOr(m, "evaluation_formated", VNone)),
     ("minimum_bid", GetOr(m, "minimum_bid_formated", VNone)),
     ("current_bid", GetOr(m, "bid_formated", VNone)),
     ("closing_at", GetOr(m, "closing_at", VNone)),
     ("status", GetOr(m, "status", VNone)),
     ("auction_title", GetOr(auction, "title", VStr(""))),
     ("auction_url", VStr(AUCTION_URL + PyStr(GetOr(auction, "slug", VNone), other))),
     ("images", VList(urls)),
     ("html_content", VStr(dumps(lot))),
     ("api_data", lot)]
  }

  lemma LotRecordShape(lot: Value, m: Record, auction: Record, urls: seq<Value>,
                       dumps: Value -> string, other: Value -> string)
    ensures var r := LotRecord(lot, m, auction, urls, dumps, other);
      Get(r, "url") == Some(VStr(LOT_URL + PyStr(GetOr(m, "slug", VNone), other))) &&
      Get(r, "title") == Some(GetOr(m, "title", VStr("Unknown Title"))) &&
      |r| == 13 && r[11] == ("html_content", VStr(dumps(lot))) && r[12] == ("api_data", lot)
  {
    var r := LotRecord(lot, m, auction, urls, dumps, other);
    assert r[0].0 != r[1].0 by {
      assert |"title"| == 5 && |"url"| == 3;
    }
    GetFirstAt(r, 0);
    GetFirstAt(r, 1);
  }

  /** The record is built exactly when the lot is a dict whose `auction` is absent
      or a dict and whose `images` is absent or iterates over dicts only. */
  lemma LotToAuctionSucceeds(lot: Value, dumps: Value -> string, other: Value -> string)
    ensures LotToAuction(lot, dumps, other).Some? <==>
      lot.VMap? && GetOr(lot.entries, "auction", VMap([])).VMap? &&
      Iterate(GetOr(lot.entries, "images", VList([]))).Some? &&
      forall i :: 0 <= i < |Iterate(GetOr(lot.entries, "images", VList([]))).value| ==>
        Iterate(GetOr(lot.entries, "images", VList([]))).value[i].VMap?
  {
    if lot.VMap? {
      var imgs := Iterate(GetOr(lot.entries, "images", VList([])));
      if imgs.Some? {
        ImageUrlsFromSpec(imgs.value, 0);
      }
    }
  }

  /** The record's URL is on the lot page prefix, a truthy string, so no API record is
      lost to, or breaks, URL deduplication; it starts with the lot's title (or
      `"Unknown Title"`), its `auction_url` is on the auction page prefix, and it ends
      with the lot's JSON text under `html_content` and the lot itself under `api_data`. */
  lemma LotToAuctionShape(lot: Value, dumps: Value -> string, other: Value -> string)
    requires LotToAuction(lot, dumps, other).Some?
    ensures var r := LotToAuction(lot, dumps, other).value;
      Get(r, "url") == Some(VStr(LOT_URL + PyStr(GetOr(lot.entries, "slug", VNone), other))) &&
      Truthy(GetOr(r, "url", VNone)) &&
      Get(r, "title") == Some(GetOr(lot.entries, "title", VStr("Unknown Title"))) &&
      |r| == 13 && r[11] == ("html_content", VStr(dumps(lot))) && r[12] == ("api_data", lot) &&
      r[9] == ("auction_url", VStr(AUCTION_URL + PyStr(GetOr(GetOr(lot.entries, "auction", VMap([])).entries, "slug", VNone), other)))
  {
    var auction := GetOr(lot.entries, "auction", VMap([]));
    var urls := ImageUrls(Iterate(GetOr(lot.entries, "images", VList([]))).value).value;
    LotRecordShape(lot, lot.entries, auction.entries, urls, dumps, other);
  }

  /** The record's `images` lists the `url` of each image of the lot, in order. */
  lemma LotToAuctionImages(lot: Value, dumps: Value -> string, other: Value -> string)
    requires LotToAuction(lot, dumps, other).Some?
    ensures var r, imgs := LotToAuction(lot, dumps, other).value, Iterate(GetOr(lot.entries, "images", VList([]))).value;
      |r| == 13 && r[10].0 == "images" && r[10].1.VList? && |r[10].1.items| == |imgs| &&
      forall k :: 0 <= k < |imgs| ==> imgs[k].VMap? && r[10].1.items[k] == GetOr(imgs[k].entries, "url", VNone)
  {
    var auction := GetOr(lot.entries, "auction", VMap([]));
    var imgs := Iterate(GetOr(lot.entries, "images", VList([]))).value;
    var urls := ImageUrls(imgs).value;
    var r := LotRecord(lot, lot.entries, auction.entries, urls, dumps, other);
    assert LotToAuction(lot, dumps, other).value == r;
    assert r[10] == ("images", VList(urls));
    ImageUrlsFromSpec(imgs, 0);
    forall k | 0 <= k < |imgs| ensures imgs[k].VMap? && urls[k] == GetOr(imgs[k].entries, "url", VNone) {
      assert urls[k - 0] == GetOr(imgs[k].entries, "url", VNone);
    }
  }

  /** The lots `api_data.get('data', [])` iterates, or `None` when that raises. */
  function Lots(apiData: Value): Option<seq<Value>> {
    if !apiData.VMap? then None
    else Iterate(GetOr(apiData.entries, "data", VList([])))
  }

  function ApiAuctions(apiData: Value, dumps: Value -> string, other: Value -> string): seq<Record> {
    match Lots(apiData)
    case None => []
    case Some(lots) => MapWhile(lots, 0, lot => LotToAuction(lot, dumps, other))
  }

  /** `_api_response_to_auctions(api_data)`. */
  method ApiResponseToAuctions(apiData: Value, dumps: Value -> string, other: Value -> string)
    returns (rawAuctions: seq<Record>)
    ensures rawAuctions == ApiAuctions(apiData, dumps, other)
  {
    rawAuctions := [];
    var lots := Lots(apiData);
    if lots.None? {
      return;
    }
    var xs := lots.value;
    var convert := lot => LotToAuction(lot, dumps, other);
    var i := 0;
    while i < |xs|
      invariant 0 <= i <= |xs|
      invariant MapWhile(xs, 0, convert) == rawAuctions + MapWhile(xs, i, convert)
    {
      var auctionData := LotToAuction(xs[i], dumps, other);
      assert auctionData == convert(xs[i]);
      if auctionData.None? {
        return;
      }
      rawAuctions := rawAuctions + [auctionData.value];
      i := i + 1;
    }
  }

  // ---------------------------------------------------------------------
  // Properties

  /** A response whose `data` is not a list (a string or dict of lots) yields no
      record, because every item it iterates is a string. */
  lemma NonListDataYieldsNothing(apiData: Value, dumps: Value -> string, other: Value -> string)
    requires apiData.VMap? && !GetOr(apiData.entries, "data", VList([])).VList?
    ensures ApiAuctions(apiData, dumps, other) == []
  {
    var lots := Lots(apiData);
    if lots.Some? && lots.value != [] {
      assert lots.value[0].VStr?;
    }
  }
  /** For a response whose lots can be iterated, the records are the conversions of
      the leading lots, in order, and the first lot left out is one whose conversion
      raises. */
  lemma ApiAuctionsSpec(apiData: Value, dumps: Value -> string, other: Value -> string)
    requires Lots(apiData).Some?
    ensures var lots, r := Lots(apiData).value, ApiAuctions(apiData, dumps, other);
      |r| <= |lots| &&
      (forall k :: 0 <= k < |r| ==> LotToAuction(lots[k], dumps, other) == Some(r[k])) &&
      (|r| < |lots| ==> LotToAuction(lots[|r|], dumps, other).None?)
  {
    LotsConverted(Lots(apiData).value, dumps, other);
  }

  lemma LotsConverted(lots: seq<Value>, dumps: Value -> string, other: Value -> string)
    ensures var r := MapWhile(lots, 0, lot => LotToAuction(lot, dumps, other));
      |r| <= |lots| &&
      (forall k :: 0 <= k < |r| ==> LotToAuction(lots[k], dumps, other) == Some(r[k])) &&
      (|r| < |lots| ==> LotToAuction(lots[|r|], dumps, other).None?)
  {
    var convert := lot => LotToAuction(lot, dumps, other);
    var r := MapWhile(lots, 0, convert);
    MapWhileFromStart(lots, convert);
    forall k | 0 <= k < |r| ensures LotToAuction(lots[k], dumps, other) == Some(r[k]) {
      assert convert(lots[k]) == Some(r[k]);
    }
  }
}
