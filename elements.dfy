/**
 * The page scraping half of the Central Sul adapter, on the elements the
 * browser returned: collecting candidate elements from several selectors
 * (`_find_auction_elements`) and turning one element into an auction record
 * (`_extract_auction_from_element`).
 */
module Elements {
  import opened Wrappers
  import opened Text
  import opened Values
  import opened Seqs
  import opened Prices

  // ---------------------------------------------------------------------
  // Candidate elements

  /** `[e for e in batch if e not in seen]` over the first `n` elements of the batch. */
  function NewOnesUpTo<E(==)>(batch: seq<E>, seen: seq<E>, n: nat): seq<E>
    requires n <= |batch|
    decreases n
  {
    if n == 0 then []
    else NewOnesUpTo(batch, seen, n - 1) + if batch[n - 1] in seen then [] else [batch[n - 1]]
  }

  /** `[e for e in batch if e not in seen]`. */
  function NewOnes<E(==)>(batch: seq<E>, seen: seq<E>): seq<E> {
    NewOnesUpTo(batch, seen, |batch|)
  }

  /** The comprehension keeps exactly the batch elements not yet seen. */
  lemma {:induction false} NewOnesUpToSpec<E>(batch: seq<E>, seen: seq<E>, n: nat)
    requires n <= |batch|
    ensures |NewOnesUpTo(batch, seen, n)| <= n
    ensures forall i :: 0 <= i < |NewOnesUpTo(batch, seen, n)| ==>
      NewOnesUpTo(batch, seen, n)[i] in batch && NewOnesUpTo(batch, seen, n)[i] !in seen
    ensures forall j :: 0 <= j < n && batch[j] !in seen ==> batch[j] in NewOnesUpTo(batch, seen, n)
    decreases n
  {
    if n > 0 {
      NewOnesUpToSpec(batch, seen, n - 1);
      var r0 := NewOnesUpTo(batch, seen, n - 1);
      var r := NewOnesUpTo(batch, seen, n);
      assert r == r0 + if batch[n - 1] in seen then [] else [batch[n - 1]];
      forall i | 0 <= i < |r| ensures r[i] in batch && r[i] !in seen {
        if i < |r0| {
          assert r[i] == r0[i];
        } else {
          assert r[i] == batch[n - 1];
        }
      }
      forall j | 0 <= j < n && batch[j] !in seen ensures batch[j] in r {
        if j < n - 1 {
          assert batch[j] in r0;
        }
      }
    }
  }

  lemma NewOnesSpec<E>(batch: seq<E>, seen: seq<E>)
    ensures |NewOnes(batch, seen)| <= |batch|
    ensures forall i :: 0 <= i < |NewOnes(batch, seen)| ==>
      NewOnes(batch, seen)[i] in batch && NewOnes(batch, seen)[i] !in seen
    ensures forall j :: 0 <= j < |batch| && batch[j] !in seen ==> batch[j] in NewOnes(batch, seen)
  {
    NewOnesUpToSpec(batch, seen, |batch|);
  }

  /** The candidates after the standard lot items and the first `n` alternative
      selectors' batches. */
  function MergedUpTo<E(==)>(lotItems: seq<E>, batches: seq<seq<E>>, n: nat): seq<E>
    requires n <= |batches|
    decreases n
  {
    if n == 0 then lotItems
    else
      var acc := MergedUpTo(lotItems, batches, n - 1);
      acc + NewOnes(batches[n - 1], acc)
  }

  /** The candidates after the standard lot items and every alternative selector's batch. */
  function Merged<E(==)>(lotItems: seq<E>, batches: seq<seq<E>>): seq<E> {
    MergedUpTo(lotItems, batches, |batches|)
  }

  /** `_find_auction_elements()`: `lotItems` is what `.lot-list-item` finds and
      `batches` what the alternative selectors find, in their order. */
  method FindAuctionElements<E(==)>(lotItems: seq<E>, batches: seq<seq<E>>) returns (all: seq<E>)
    ensures all == Merged(lotItems, batches)
  {
    all := lotItems;
    var i := 0;
    while i < |batches|
      invariant 0 <= i <= |batches|
      invariant all == MergedUpTo(lotItems, batches, i)
    {
      var newElements := NewOnes(batches[i], all);
      all := all + newElements;
      i := i + 1;
    }
  }

  /** The standard lot items come first, in their order. */
  lemma {:induction false} MergedStartsWithLotItems<E>(lotItems: seq<E>, batches: seq<seq<E>>, n: nat)
    requires n <= |batches|
    ensures |lotItems| <= |MergedUpTo(lotItems, batches, n)|
    ensures forall k :: 0 <= k < |lotItems| ==> MergedUpTo(lotItems, batches, n)[k] == lotItems[k]
    decreases n
  {
    if n > 0 {
      MergedStartsWithLotItems(lotItems, batches, n - 1);
      var acc := MergedUpTo(lotItems, batches, n - 1);
      assert forall k :: 0 <= k < |acc| ==> (acc + NewOnes(batches[n - 1], acc))[k] == acc[k];
    }
  }

  /** Every candidate is a lot item or in some batch, and every lot item and every
      batch element is a candidate. */
  lemma {:induction false} MergedMembers<E>(lotItems: seq<E>, batches: seq<seq<E>>, n: nat)
    requires n <= |batches|
    ensures forall k :: 0 <= k < |MergedUpTo(lotItems, batches, n)| ==>
      MergedUpTo(lotItems, batches, n)[k] in lotItems ||
      exists b :: 0 <= b < n && MergedUpTo(lotItems, batches, n)[k] in batches[b]
    ensures forall k :: 0 <= k < |lotItems| ==> lotItems[k] in MergedUpTo(lotItems, batches, n)
    ensures forall b, k :: 0 <= b < n && 0 <= k < |batches[b]| ==>
      batches[b][k] in MergedUpTo(lotItems, batches, n)
    decreases n
  {
    if n > 0 {
      var r := MergedUpTo(lotItems, batches, n);
      var acc := MergedUpTo(lotItems, batches, n - 1);
      var fresh_ := NewOnes(batches[n - 1], acc);
      MergedMembers(lotItems, batches, n - 1);
      NewOnesSpec(batches[n - 1], acc);
      assert r == acc + fresh_;
      forall k | 0 <= k < |r|
        ensures r[k] in lotItems || exists b :: 0 <= b < n && r[k] in batches[b]
      {
        if k < |acc| {
          assert r[k] == acc[k];
        } else {
          assert r[k] == fresh_[k - |acc|];
          assert r[k] in batches[n - 1];
        }
      }
      forall b, k | 0 <= b < n && 0 <= k < |batches[b]| ensures batches[b][k] in r {
        if b < n - 1 {
          assert batches[b][k] in acc;
        } else if batches[b][k] !in acc {
          assert batches[b][k] in fresh_;
        }
      }
    }
  }

  lemma DistinctConcat<E>(a: seq<E>, b: seq<E>)
    requires Distinct(a) && Distinct(b)
    requires forall i :: 0 <= i < |b| ==> b[i] !in a
    ensures Distinct(a + b)
  {
    forall i, j | 0 <= i < j < |a + b| ensures (a + b)[i] != (a + b)[j] {
      if j >= |a| && i < |a| {
        assert (a + b)[j] == b[j - |a|];
      }
    }
  }

  lemma {:induction false} NewOnesUpToDistinct<E>(batch: seq<E>, seen: seq<E>, n: nat)
    requires n <= |batch| && Distinct(batch)
    ensures Distinct(NewOnesUpTo(batch, seen, n))
    decreases n
  {
    if n > 0 {
      NewOnesUpToDistinct(batch, seen, n - 1);
      NewOnesUpToSpec(batch, seen, n - 1);
      var r0 := NewOnesUpTo(batch, seen, n - 1);
      var e := batch[n - 1];
      if e !in seen {
        assert e !in r0 by {
          NewOnesUpToPositions(batch, seen, n - 1);
        }
        DistinctSnoc(r0, e);
      } else {
        assert NewOnesUpTo(batch, seen, n) == r0 + [];
      }
    }
  }

  /** What the comprehension keeps of the first `n` elements comes from those `n`. */
  lemma {:induction false} NewOnesUpToPositions<E>(batch: seq<E>, seen: seq<E>, n: nat)
    requires n <= |batch|
    ensures forall i :: 0 <= i < |NewOnesUpTo(batch, seen, n)| ==>
      exists j :: 0 <= j < n && NewOnesUpTo(batch, seen, n)[i] == batch[j]
    decreases n
  {
    if n > 0 {
      NewOnesUpToPositions(batch, seen, n - 1);
      var r0 := NewOnesUpTo(batch, seen, n - 1);
      var r := NewOnesUpTo(batch, seen, n);
      assert r == r0 + if batch[n - 1] in seen then [] else [batch[n - 1]];
      forall i | 0 <= i < |r| ensures exists j :: 0 <= j < n && r[i] == batch[j] {
        if i < |r0| {
          assert r[i] == r0[i];
          var j :| 0 <= j < n - 1 && r0[i] == batch[j];
          assert 0 <= j < n && r[i] == batch[j];
        } else {
          assert r[i] == batch[n - 1];
        }
      }
    } else {
      assert NewOnesUpTo(batch, seen, n) == [];
    }
  }

  /** Duplicate-free lot items and batches give duplicate-free candidates: an
      element found by several selectors is visited once. */
  lemma {:induction false} MergedDistinct<E>(lotItems: seq<E>, batches: seq<seq<E>>, n: nat)
    requires n <= |batches|
    requires Distinct(lotItems)
    requires forall b :: 0 <= b < |batches| ==> Distinct(batches[b])
    ensures Distinct(MergedUpTo(lotItems, batches, n))
    decreases n
  {
    if n > 0 {
      var acc := MergedUpTo(lotItems, batches, n - 1);
      MergedDistinct(lotItems, batches, n - 1);
      NewOnesUpToDistinct(batches[n - 1], acc, |batches[n - 1]|);
      NewOnesSpec(batches[n - 1], acc);
      DistinctConcat(acc, NewOnes(batches[n - 1], acc));
    }
  }

  // ---------------------------------------------------------------------
  // One element to one record

  /** A link inside an element: its `href` attribute (absent is `None`) and text. */
  datatype Link = Link(href: Option<string>, text: string)

  /** What `_extract_auction_from_element` reads from a result element: its tag,
      `href`, text, nested links, the texts of its title-like descendants, its
      first `img` (absent, or present with an optional `src`) and its `outerHTML`
      (`None` when reading it fails). */
  datatype Element = Element(
    tag: string,
    href: Option<string>,
    text: string,
    links: seq<Link>,
    headings: seq<string>,
    image: Option<Option<string>>,
    outerHtml: Option<string>)

  predicate IsLotHref(h: Option<string>) {
    h.Some? && Contains(h.value, "/lote/")
  }

  /** The first nested link from index `i` on whose `href` points at a lot. */
  function FirstLotLinkFrom(links: seq<Link>, i: nat): (r: Option<nat>)
    requires i <= |links|
    ensures r.Some? ==> i <= r.value < |links| && IsLotHref(links[r.value].href)
    ensures r.Some? ==> forall j :: i <= j < r.value ==> !IsLotHref(links[j].href)
    ensures r.None? ==> forall j :: i <= j < |links| ==> !IsLotHref(links[j].href)
    decreases |links| - i
  {
    if i == |links| then None
    else if IsLotHref(links[i].href) then Some(i)
    else FirstLotLinkFrom(links, i + 1)
  }

  /** The first nested link whose `href` points at a lot. */
  function FirstLotLink(links: seq<Link>): (r: Option<nat>)
    ensures r.Some? ==> r.value < |links| && IsLotHref(links[r.value].href)
    ensures r.Some? ==> forall j :: 0 <= j < r.value ==> !IsLotHref(links[j].href)
    ensures r.None? ==> forall j :: 0 <= j < |links| ==> !IsLotHref(links[j].href)
  {
    FirstLotLinkFrom(links, 0)
  }

  /** `not s.strip()`, by `StripEmpty`. */
  predicate Blank(s: string) {
    AllSpace(s)
  }

  /** The first text from index `i` on that is not blank. */
  function FirstNonBlankFrom(texts: seq<string>, i: nat): (r: Option<nat>)
    requires i <= |texts|
    ensures r.Some? ==> i <= r.value < |texts| && !Blank(texts[r.value])
    ensures r.Some? ==> forall j :: i <= j < r.value ==> Blank(texts[j])
    ensures r.None? ==> forall j :: i <= j < |texts| ==> Blank(texts[j])
    decreases |texts| - i
  {
    if i == |texts| then None
    else if !Blank(texts[i]) then Some(i)
    else FirstNonBlankFrom(texts, i + 1)
  }

  /** The first text that is not blank. */
  function FirstNonBlank(texts: seq<string>): (r: Option<nat>)
    ensures r.Some? ==> r.value < |texts| && !Blank(texts[r.value])
    ensures r.Some? ==> forall j :: 0 <= j < r.value ==> Blank(texts[j])
    ensures r.None? ==> forall j :: 0 <= j < |texts| ==> Blank(texts[j])
  {
    FirstNonBlankFrom(texts, 0)
  }

  /** A link's stripped text, or `"Unknown"` when it is blank. */
  function TitleOf(text: string): string {
    if !Blank(text) then Strip(text) else "Unknown"
  }

  /** The two approaches to the lot URL, with the title they suggest. An `a`
      element without `href` makes the `in` test raise. */
  function LotLink(e: Element): Result<Option<(string, string)>> {
    if e.tag == "a" && e.href.None? then Err("argument of type 'NoneType' is not iterable")
    else if e.tag == "a" && Contains(e.href.value, "/lote/") then Ok(Some((e.href.value, TitleOf(e.text))))
    else
      match FirstLotLink(e.links)
      case Some(i) => Ok(Some((e.links[i].href.value, TitleOf(e.links[i].text))))
      case None => Ok(None)
  }

  /** `auction_data['image_url'] = img.get_attribute('src')`, done only when the element has an image. */
  function WithImage(r: Record, image: Option<Option<string>>): Record {
    match image
    case None => r
    case Some(None) => Set(r, "image_url", VNone)
    case Some(Some(src)) => Set(r, "image_url", VStr(src))
  }

  /** The dict the extraction starts from, with the link's title already assigned. */
  function Initial(title: string): Record {
    [("title", VStr(title)), ("description", VStr(""))]
  }

  lemma InitialShape(title: string)
    ensures WellFormed(Initial(title))
    ensures Get(Initial(title), "title") == Some(VStr(title))
    ensures Get(Initial(title), "description") == Some(VStr(""))
  {
    var r := Initial(title);
    WellFormedCons(r[1], []);
    assert [r[1]] + [] == [r[1]];
    assert r[0].0 != r[1].0 by {
      assert |"title"| == 5 && |"description"| == 11;
    }
    assert !HasKey([r[1]], r[0].0) by {
      GetSome([r[1]], r[0].0);
    }
    WellFormedCons(r[0], [r[1]]);
    assert [r[0]] + [r[1]] == r;
    GetFirstAt(r, 0);
    GetFirstAt(r, 1);
  }

  /** The title after the heading fallback. */
  function FinalTitle(e: Element, linkTitle: string): string {
    if linkTitle != "Unknown" then linkTitle
    else
      match FirstNonBlank(e.headings)
      case Some(i) => Strip(e.headings[i])
      case None => "Unknown"
  }

  /** The record built once the lot link is known: the URL assigned, the title
      fallback, the image and the prices, in that order. */
  function Extracted(e: Element, url: string, linkTitle: string): Record {
    var withUrl := Set(Initial(linkTitle), "url", VStr(url));
    var titled := Set(withUrl, "title", VStr(FinalTitle(e, linkTitle)));
    SetAll(WithImage(titled, e.image), PositionalPrices(e.outerHtml))
  }

  /** `_extract_auction_from_element(element)`: `Ok(None)` is the `None` it
      returns for an element without a lot link. */
  function ExtractAuction(e: Element): Result<Option<Record>> {
    match LotLink(e)
    case Err(msg) => Err(msg)
    case Ok(None) => Ok(None)
    case Ok(Some((url, linkTitle))) => Ok(Some(Extracted(e, url, linkTitle)))
  }

  /** The extraction raises exactly for an `a` element without `href`. */
  lemma ExtractAuctionFails(e: Element)
    ensures ExtractAuction(e).Err? <==> e.tag == "a" && e.href.None?
  {
  }

  /** Only the two price keys are assigned by the price step. */
  lemma PricesAssignOnly(html: Option<string>, k: string)
    requires k != "evaluation" && k != "minimum_bid"
    ensures LastValue(PositionalPrices(html), k).None?
  {
    var p := PositionalPrices(html);
    if |p| == 2 {
      assert LastIn(p, k, 2) == LastIn(p, k, 1);
      assert LastIn(p, k, 1) == LastIn(p, k, 0);
    } else if |p| == 1 {
      assert LastIn(p, k, 1) == LastIn(p, k, 0);
    }
  }

  /** The image step assigns `image_url` and nothing else. */
  lemma WithImageGet(r: Record, image: Option<Option<string>>, k: string)
    requires k != "image_url"
    ensures Get(WithImage(r, image), k) == Get(r, k)
  {
    match image
    case None =>
    case Some(None) => SetGet(r, "image_url", VNone);
    case Some(Some(src)) => SetGet(r, "image_url", VStr(src));
  }

  /** Every extracted record is a dict: each key appears once. */
  lemma ExtractedWellFormed(e: Element, url: string, linkTitle: string)
    ensures WellFormed(Extracted(e, url, linkTitle))
  {
    InitialShape(linkTitle);
    var withUrl := Set(Initial(linkTitle), "url", VStr(url));
    SetWellFormed(Initial(linkTitle), "url", VStr(url));
    var titled := Set(withUrl, "title", VStr(FinalTitle(e, linkTitle)));
    SetWellFormed(withUrl, "title", VStr(FinalTitle(e, linkTitle)));
    var imaged := WithImage(titled, e.image);
    match e.image {
      case None =>
      case Some(None) => SetWellFormed(titled, "image_url", VNone);
      case Some(Some(src)) => SetWellFormed(titled, "image_url", VStr(src));
    }
    SetAllWellFormed(imaged, PositionalPrices(e.outerHtml));
  }

  /** What the record holds under the keys every extracted record has. */
  lemma ExtractedGet(e: Element, url: string, linkTitle: string)
    ensures var r := Extracted(e, url, linkTitle);
      Get(r, "title") == Some(VStr(FinalTitle(e, linkTitle))) &&
      Get(r, "description") == Some(VStr("")) &&
      Get(r, "url") == Some(VStr(url))
  {
    InitialShape(linkTitle);
    var withUrl := Set(Initial(linkTitle), "url", VStr(url));
    SetGet(Initial(linkTitle), "url", VStr(url));
    var titled := Set(withUrl, "title", VStr(FinalTitle(e, linkTitle)));
    SetGet(withUrl, "title", VStr(FinalTitle(e, linkTitle)));
    var imaged := WithImage(titled, e.image);
    WithImageGet(titled, e.image, "title");
    WithImageGet(titled, e.image, "description");
    WithImageGet(titled, e.image, "url");
    var prices := PositionalPrices(e.outerHtml);
    PricesAssignOnly(e.outerHtml, "title");
    SetAllGet(imaged, prices, "title");
    PricesAssignOnly(e.outerHtml, "description");
    SetAllGet(imaged, prices, "description");
    PricesAssignOnly(e.outerHtml, "url");
    SetAllGet(imaged, prices, "url");
  }

  /** The prices the element's HTML shows end up under the two price keys. */
  lemma ExtractedPrices(e: Element, url: string, linkTitle: string)
    requires e.outerHtml.Some?
    ensures var r := Extracted(e, url, linkTitle);
      var ms := FindPrices(e.outerHtml.value);
      (|ms| >= 2 ==> Get(r, "evaluation") == Some(VStr("R$ " + ms[0])) &&
                     Get(r, "minimum_bid") == Some(VStr("R$ " + ms[1]))) &&
      (|ms| == 1 ==> Get(r, "minimum_bid") == Some(VStr("R$ " + ms[0])))
  {
    var withUrl := Set(Initial(linkTitle), "url", VStr(url));
    var titled := Set(withUrl, "title", VStr(FinalTitle(e, linkTitle)));
    var imaged := WithImage(titled, e.image);
    var p := PositionalPrices(e.outerHtml);
    SetAllGet(imaged, p, "evaluation");
    SetAllGet(imaged, p, "minimum_bid");
    if |p| == 2 {
      assert LastIn(p, "evaluation", 2) == LastIn(p, "evaluation", 1);
    }
  }

  /** An element yields a record exactly when it is itself a lot link or holds one;
      the record's URL is the element's own `href` in the first case and the first
      lot link's otherwise. */
  lemma ExtractAuctionFinds(e: Element)
    requires ExtractAuction(e).Ok?
    ensures ExtractAuction(e).value.Some? <==>
      (e.tag == "a" && IsLotHref(e.href)) || exists j :: 0 <= j < |e.links| && IsLotHref(e.links[j].href)
    ensures e.tag == "a" && IsLotHref(e.href) ==>
      Get(ExtractAuction(e).value.value, "url") == Some(VStr(e.href.value))
    ensures !(e.tag == "a" && IsLotHref(e.href)) && ExtractAuction(e).value.Some? ==>
      exists j :: 0 <= j < |e.links| && IsLotHref(e.links[j].href) &&
        (forall j' :: 0 <= j' < j ==> !IsLotHref(e.links[j'].href)) &&
        Get(ExtractAuction(e).value.value, "url") == Some(VStr(e.links[j].href.value))
  {
    if e.tag == "a" && IsLotHref(e.href) {
      ExtractedGet(e, e.href.value, TitleOf(e.text));
    } else {
      match FirstLotLink(e.links)
      case Some(i) =>
        ExtractedGet(e, e.links[i].href.value, TitleOf(e.links[i].text));
      case None =>
    }
  }

  /** The URL of an extracted record is truthy and mentions `/lote/` (so the
      search keeps every record extracted), and the title is `"Unknown"` or a
      non-blank stripped text. */
  lemma ExtractedRecordShape(e: Element)
    requires ExtractAuction(e).Ok? && ExtractAuction(e).value.Some?
    ensures var r := ExtractAuction(e).value.value;
      exists url :: Get(r, "url") == Some(VStr(url)) && Contains(url, "/lote/") && Truthy(VStr(url))
    ensures var r := ExtractAuction(e).value.value;
      exists t :: Get(r, "title") == Some(VStr(t)) && (t == "Unknown" || (t != "" && Strip(t) == t))
  {
    var url, linkTitle := LotLink(e).value.value.0, LotLink(e).value.value.1;
    ExtractedGet(e, url, linkTitle);
    assert Contains(url, "/lote/");
    assert |url| >= 6 by {
      var i :| 0 <= i <= |url| - 6 && OccursAt(url, "/lote/", i);
    }
    if e.tag == "a" && IsLotHref(e.href) {
      NonBlankStripped(e.text);
    } else {
      NonBlankStripped(e.links[FirstLotLink(e.links).value].text);
    }
    var i := FirstNonBlank(e.headings);
    if i.Some? {
      NonBlankStripped(e.headings[i.value]);
    }
  }

  lemma NonBlankStripped(s: string)
    ensures !Blank(s) ==> Strip(s) != "" && Strip(Strip(s)) == Strip(s)
  {
    StripEmpty(s);
    StripIdempotent(s);
  }
}
