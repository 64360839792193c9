/**
 * `get_auction_details`: the detail page of one lot read into a record.  The
 * page is given as what the browser's selectors return (`Page`); a page that
 * fails to load, or a lookup that raises outside the guarded blocks, is
 * `Failed` and yields `{"error": message}`.  The description and the prices are
 * both found by cascades whose later stages run only when the earlier ones came
 * up empty.
 */
module DetailPage {
  import opened Wrappers
  import opened Text
  import opened Values
  import opened Prices
  import opened Elements
  import opened BaseAdapter

  /** A description caption, with the text of its parent and of its next sibling
      (`None` when that lookup raises). */
  datatype DescLabel = DescLabel(text: string, parent: Option<string>, sibling: Option<string>)

  /** A price box: the texts of its label and of its value element, when found. */
  datatype PriceBox = PriceBox(labelText: Option<string>, valueText: Option<string>)

  /** A price label and the text of its next sibling, when found. */
  datatype PriceLabel = PriceLabel(text: string, sibling: Option<string>)

  datatype Page = Page(
    mainTitle: Option<string>,           // h1.lot-page-title
    altTitle: Option<string>,            // h1, .lot-title, ...
    mainDescription: Option<string>,     // div.lot-description
    altDescriptions: seq<string>,        // .description, .lot-info, ...
    descriptionLabels: seq<DescLabel>,   // 'Descrição', 'Detalhes', 'Informações'
    paragraphs: Option<seq<string>>,     // the script's paragraphs; None when it fails
    imageSources: Option<seq<Option<string>>>,
    priceBoxes: seq<PriceBox>,
    priceLabels: seq<PriceLabel>,
    dates: Option<seq<string>>,
    source: string)                      // page_source

  datatype Load = Failed(message: string) | Loaded(page: Page)

  // ---------------------------------------------------------------------
  // Title

  function Title(p: Page): string {
    match p.mainTitle
    case Some(t) => Strip(t)
    case None =>
      match p.altTitle
      case Some(t) => Strip(t)
      case None => "Unknown"
  }

  // ---------------------------------------------------------------------
  // Description

  /** Pieces appended one after the other (`description += ...`, successive
      dict assignments). */
  function Concat<T>(pieces: seq<seq<T>>): seq<T>
    decreases |pieces|
  {
    if pieces == [] then [] else Concat(pieces[..|pieces| - 1]) + pieces[|pieces| - 1]
  }

  /** The concatenation is empty exactly when every piece is. */
  lemma {:induction false} ConcatEmpty<T>(pieces: seq<seq<T>>)
    ensures Concat(pieces) == [] <==> forall i :: 0 <= i < |pieces| ==> pieces[i] == []
    decreases |pieces|
  {
    if pieces != [] {
      var init := pieces[..|pieces| - 1];
      ConcatEmpty(init);
      if Concat(pieces) == [] {
        forall i | 0 <= i < |pieces| ensures pieces[i] == [] {
          if i < |init| {
            assert pieces[i] == init[i];
          }
        }
      } else if Concat(init) != [] {
        var i :| 0 <= i < |init| && init[i] != [];
        assert pieces[i] == init[i];
      }
    }
  }

  /** Whatever the concatenation holds comes from one of the pieces. */
  lemma {:induction false} ConcatMember<T>(pieces: seq<seq<T>>, x: T)
    requires x in Concat(pieces)
    ensures exists i :: 0 <= i < |pieces| && x in pieces[i]
    decreases |pieces|
  {
    var init := pieces[..|pieces| - 1];
    if x in Concat(init) {
      ConcatMember(init, x);
      var i :| 0 <= i < |init| && x in init[i];
      assert pieces[i] == init[i];
    } else {
      assert x in pieces[|pieces| - 1];
    }
  }

  /** Method 2: a text counts only when it is longer than 20 characters. */
  function AltPiece(t: string): (r: string)
    ensures r == "" <==> |t| <= 20
  {
    if |t| > 20 then Strip(t) + "\n\n" else ""
  }

  /** Method 3: the parent's text without the label's, when the parent says
      more than 20 characters beyond the label; otherwise the sibling's text
      when longer than 20 characters. */
  function LabelPiece(l: DescLabel): (r: string)
    ensures r == "" <==>
      (l.parent.None? || |l.parent.value| <= |l.text| + 20) &&
      (l.sibling.None? || |l.sibling.value| <= 20)
  {
    if l.parent.Some? && |l.parent.value| > |l.text| + 20 then Strip(RemoveAll(l.parent.value, l.text)) + "\n\n"
    else if l.sibling.Some? && |l.sibling.value| > 20 then Strip(l.sibling.value) + "\n\n"
    else ""
  }

  /** Method 4: a paragraph counts when its trimmed text is longer than 50 characters. */
  function ParagraphPiece(t: string): (r: string)
    ensures r == "" <==> |Strip(t)| <= 50
  {
    if |Strip(t)| > 50 then Strip(t) + "\n\n" else ""
  }

  function AltDescription(alts: seq<string>): string {
    Concat(seq(|alts|, i requires 0 <= i < |alts| => AltPiece(alts[i])))
  }

  function LabelDescription(labels: seq<DescLabel>): string {
    Concat(seq(|labels|, i requires 0 <= i < |labels| => LabelPiece(labels[i])))
  }

  function ParagraphDescription(ps: seq<string>): string {
    Concat(seq(|ps|, i requires 0 <= i < |ps| => ParagraphPiece(ps[i])))
  }

  /** The description before the final `strip()`: method 1, or else method 2;
      then method 3 if that is empty, then method 4 if that is empty too. */
  function RawDescription(p: Page): string {
    var d1 := match p.mainDescription
      case Some(t) => Strip(t)
      case None => AltDescription(p.altDescriptions);
    var d3 := if d1 == "" then LabelDescription(p.descriptionLabels) else d1;
    if d3 == "" && p.paragraphs.Some? && ParagraphDescription(p.paragraphs.value) != "" then
      ParagraphDescription(p.paragraphs.value)
    else d3
  }

  /** `description.strip() if description else "No description available"`: the
      stored text carries no leading or trailing white space, and is the
      placeholder when nothing was found. */
  function Finalize(raw: string): (d: string)
    ensures Stripped(d)
    ensures raw == "" ==> d == "No description available"
    ensures raw != "" ==> d == Strip(raw)
  {
    StripIsStripped(raw);
    if raw != "" then Strip(raw) else "No description available"
  }

  function Description(p: Page): string {
    Finalize(RawDescription(p))
  }

  /** A non-blank dedicated description element is the description: the other
      methods are not consulted. */
  lemma {:induction false} MainDescriptionWins(p: Page)
    requires p.mainDescription.Some? && !AllSpace(p.mainDescription.value)
    ensures Description(p) == Strip(p.mainDescription.value)
  {
    StripEmpty(p.mainDescription.value);
    StripIdempotent(p.mainDescription.value);
  }

  /** Without a dedicated element, any alternative text over 20 characters makes
      method 2 the description, and methods 3 and 4 are skipped. */
  lemma {:induction false} AltDescriptionsUsed(p: Page, i: nat)
    requires p.mainDescription.None? && i < |p.altDescriptions| && |p.altDescriptions[i]| > 20
    ensures Description(p) == Strip(AltDescription(p.altDescriptions))
  {
    var alts := p.altDescriptions;
    var pieces := seq(|alts|, i requires 0 <= i < |alts| => AltPiece(alts[i]));
    assert pieces[i] != "";
    ConcatEmpty(pieces);
  }

  /** A page where every candidate text is too short, or blank, gets the placeholder. */
  lemma {:induction false} ShortTextsGivePlaceholder(p: Page)
    requires p.mainDescription.Some? ==> AllSpace(p.mainDescription.value)
    requires p.mainDescription.None? ==> forall i :: 0 <= i < |p.altDescriptions| ==> |p.altDescriptions[i]| <= 20
    requires forall i :: 0 <= i < |p.descriptionLabels| ==>
      var l := p.descriptionLabels[i];
      (l.parent.None? || |l.parent.value| <= |l.text| + 20) && (l.sibling.None? || |l.sibling.value| <= 20)
    requires p.paragraphs.Some? ==> forall i :: 0 <= i < |p.paragraphs.value| ==> |Strip(p.paragraphs.value[i])| <= 50
    ensures Description(p) == "No description available"
  {
    if p.mainDescription.Some? {
      StripEmpty(p.mainDescription.value);
    } else {
      var alts := p.altDescriptions;
      var pieces := seq(|alts|, i requires 0 <= i < |alts| => AltPiece(alts[i]));
      assert forall i :: 0 <= i < |pieces| ==> pieces[i] == "";
      ConcatEmpty(pieces);
      assert AltDescription(alts) == "";
    }
    var labels := p.descriptionLabels;
    var pieces := seq(|labels|, i requires 0 <= i < |labels| => LabelPiece(labels[i]));
    assert forall i :: 0 <= i < |pieces| ==> pieces[i] == "";
    ConcatEmpty(pieces);
    assert LabelDescription(labels) == "";
    if p.paragraphs.Some? {
      var ps := p.paragraphs.value;
      var pieces := seq(|ps|, i requires 0 <= i < |ps| => ParagraphPiece(ps[i]));
      assert forall i :: 0 <= i < |pieces| ==> pieces[i] == "";
      ConcatEmpty(pieces);
      assert ParagraphDescription(ps) == "";
    }
    assert RawDescription(p) == "";
  }

  // ---------------------------------------------------------------------
  // Images and closing date

  /** `[src for img if src]`: the sources that are present and non-empty. */
  function Images(srcs: seq<Option<string>>): (r: seq<Value>)
    ensures |r| <= |srcs|
    ensures forall i :: 0 <= i < |r| ==> r[i].VStr? && r[i].s != "" && Some(r[i].s) in srcs
    decreases |srcs|
  {
    if srcs == [] then []
    else
      var init := Images(srcs[..|srcs| - 1]);
      var last := srcs[|srcs| - 1];
      assert forall x :: x in srcs[..|srcs| - 1] ==> x in srcs;
      if last.Some? && last.value != "" then init + [VStr(last.value)] else init
  }

  /** The sources of two lists in a row are the sources of the first, then those
      of the second. */
  lemma {:induction false} ImagesAppend(a: seq<Option<string>>, b: seq<Option<string>>)
    ensures Images(a + b) == Images(a) + Images(b)
    decreases |b|
  {
    if b == [] {
      assert a + b == a;
    } else {
      var b' := b[..|b| - 1];
      assert (a + b)[..|a + b| - 1] == a + b';
      assert (a + b)[|a + b| - 1] == b[|b| - 1];
      ImagesAppend(a, b');
    }
  }

  /** Every present, non-empty source is among the images, and the images keep
      the order of their sources. */
  lemma ImagesKeep(srcs: seq<Option<string>>, i: nat, j: nat)
    requires i < j < |srcs|
    requires srcs[i].Some? && srcs[i].value != "" && srcs[j].Some? && srcs[j].value != ""
    ensures var r := Images(srcs);
      exists m, n :: 0 <= m < n < |r| && r[m] == VStr(srcs[i].value) && r[n] == VStr(srcs[j].value)
  {
    var one := [srcs[i]];
    var two := [srcs[j]];
    var mid := srcs[i + 1..j];
    assert srcs == srcs[..i] + one + mid + two + srcs[j + 1..];
    assert one == [] + one && two == [] + two;
    assert Images(one) == [VStr(srcs[i].value)] && Images(two) == [VStr(srcs[j].value)];
    ImagesAppend(srcs[..i], one);
    ImagesAppend(srcs[..i] + one, mid);
    ImagesAppend(srcs[..i] + one + mid, two);
    ImagesAppend(srcs[..i] + one + mid + two, srcs[j + 1..]);
    var r := Images(srcs);
    var m := |Images(srcs[..i])|;
    var n := m + 1 + |Images(mid)|;
    assert r[m] == VStr(srcs[i].value) && r[n] == VStr(srcs[j].value);
  }

  /** Each present, non-empty source gives an image. */
  lemma ImagesComplete(srcs: seq<Option<string>>, i: nat)
    requires i < |srcs| && srcs[i].Some? && srcs[i].value != ""
    ensures VStr(srcs[i].value) in Images(srcs)
  {
    var one := [srcs[i]];
    assert srcs == srcs[..i] + one + srcs[i + 1..];
    assert one == [] + one;
    assert Images(one) == [VStr(srcs[i].value)];
    ImagesAppend(srcs[..i], one);
    ImagesAppend(srcs[..i] + one, srcs[i + 1..]);
    assert Images(srcs)[|Images(srcs[..i])|] == VStr(srcs[i].value);
  }

  /** The first date text that is not blank, stripped; `"Unknown"` when reading
      the dates raises; `None`, and no key, when every date is blank. */
  function ClosingAt(p: Page): Option<string> {
    match p.dates
    case None => Some("Unknown")
    case Some(ds) =>
      match FirstNonBlank(ds)
      case Some(i) => Some(Strip(ds[i]))
      case None => None
  }

  /** A date read from the page is non-empty and carries no surrounding white
      space; no date is stored exactly when every date text is blank. */
  lemma {:induction false} ClosingAtSpec(p: Page)
    requires p.dates.Some?
    ensures ClosingAt(p).None? <==> forall i :: 0 <= i < |p.dates.value| ==> Blank(p.dates.value[i])
    ensures ClosingAt(p).Some? ==> ClosingAt(p).value != "" && Stripped(ClosingAt(p).value)
  {
    var ds := p.dates.value;
    match FirstNonBlank(ds)
    case Some(i) =>
      StripEmpty(ds[i]);
      StripIsStripped(ds[i]);
    case None =>
  }

  // ---------------------------------------------------------------------
  // Prices

  const PRICE_KEYS: set<string> := {"evaluation", "minimum_bid", "current_bid"}

  /** Method 1's classification of a lowered, stripped box label. */
  function BoxKey(caption: string): (k: Option<string>)
    ensures k.Some? ==> k.value in PRICE_KEYS
    ensures k == Some("evaluation") <==> Contains(caption, "avalia")
  {
    if Contains(caption, "avalia") then Some("evaluation")
    else if Contains(caption, "lance") && Contains(caption, "mínimo") then Some("minimum_bid")
    else if Contains(caption, "lance") && Contains(caption, "atual") then Some("current_bid")
    else None
  }

  /** Methods 2 and 3 classify by a single word. */
  function LabelKey(caption: string): (k: Option<string>)
    ensures k.Some? ==> k.value in PRICE_KEYS
    ensures k == Some("evaluation") <==> Contains(caption, "avalia")
  {
    if Contains(caption, "avalia") then Some("evaluation")
    else if Contains(caption, "mínimo") then Some("minimum_bid")
    else if Contains(caption, "atual") then Some("current_bid")
    else None
  }

  /** The assignments of one price box: both elements found and the label classified. */
  function BoxAssignment(b: PriceBox): (r: Record)
    ensures forall j :: 0 <= j < |r| ==> r[j].0 in PRICE_KEYS
  {
    if b.labelText.Some? && b.valueText.Some? then
      match BoxKey(Lower(Strip(b.labelText.value)))
      case Some(k) => [(k, VStr(Strip(b.valueText.value)))]
      case None => []
    else []
  }

  function LabelAssignment(l: PriceLabel): (r: Record)
    ensures forall j :: 0 <= j < |r| ==> r[j].0 in PRICE_KEYS
  {
    if l.sibling.Some? then
      match LabelKey(Lower(Strip(l.text)))
      case Some(k) => [(k, VStr(Strip(l.sibling.value)))]
      case None => []
    else []
  }

  /** Method 3's assignment for one text the regular expression returned: its
      class, then the first amount in it as `R$ <amount>`. */
  function MatchAssignment(m: string): (r: Record)
    ensures forall j :: 0 <= j < |r| ==> r[j].0 in PRICE_KEYS
  {
    match LabelKey(Lower(m))
    case Some(k) =>
      var ps := FindPrices(m);
      if ps != [] then [(k, VStr("R$ " + ps[0]))] else []
    case None => []
  }

  function Stage1(bs: seq<PriceBox>): Record {
    SetAll([], Concat(seq(|bs|, i requires 0 <= i < |bs| => BoxAssignment(bs[i]))))
  }

  function Stage2(ls: seq<PriceLabel>): Record {
    SetAll([], Concat(seq(|ls|, i requires 0 <= i < |ls| => LabelAssignment(ls[i]))))
  }

  function Stage3(ms: seq<string>): Record {
    SetAll([], Concat(seq(|ms|, i requires 0 <= i < |ms| => MatchAssignment(ms[i]))))
  }

  /** Every stage is a dict that sets price keys only, each to the value of its
      last assignment. */
  lemma {:induction false} StageShape(assignments: seq<Record>, k: string)
    requires forall i, j :: 0 <= i < |assignments| && 0 <= j < |assignments[i]| ==> assignments[i][j].0 in PRICE_KEYS
    ensures var r := SetAll([], Concat(assignments));
      WellFormed(r) &&
      (HasKey(r, k) ==> k in PRICE_KEYS) &&
      Get(r, k) == LastValue(Concat(assignments), k)
  {
    var pairs := Concat(assignments);
    SetAllWellFormed([], pairs);
    SetAllGet([], pairs, k);
    SetAllKeys([], pairs, k);
    if HasKey(pairs, k) {
      HasKeyAt(pairs, k);
      var i :| 0 <= i < |pairs| && pairs[i].0 == k;
      assert pairs[i] in pairs;
      ConcatMember(assignments, pairs[i]);
    }
  }

  /** A stage is empty exactly when nothing was assigned. */
  lemma {:induction false} StageEmpty(assignments: seq<Record>)
    ensures SetAll([], Concat(assignments)) == [] <==> forall i :: 0 <= i < |assignments| ==> assignments[i] == []
  {
    ConcatEmpty(assignments);
    SetAllEmpty([], Concat(assignments));
  }

  /** The price dict `details.update` receives: method 2 only when method 1 found
      nothing, method 3 only when neither did.  Method 3 is written as the source
      has it: `findall` with one group returns the labels alone, and those are
      what it classifies and scans for an amount (see the findings). */
  function PriceInfo(p: Page): Record {
    var s1 := Stage1(p.priceBoxes);
    if s1 != [] then s1
    else
      var s2 := Stage2(p.priceLabels);
      if s2 != [] then s2
      else Stage3(MatchLabels(PriceMatches(p.source)))
  }

  /** The corrected price dict: method 3 classifies and scans the whole text of
      each labelled amount. */
  function PriceInfoCorrected(p: Page): Record {
    var s1 := Stage1(p.priceBoxes);
    if s1 != [] then s1
    else
      var s2 := Stage2(p.priceLabels);
      if s2 != [] then s2
      else Stage3(MatchTexts(PriceMatches(p.source)))
  }

  /** Both price dicts only ever set the three price keys. */
  lemma {:induction false} PriceInfoShape(p: Page, k: string)
    ensures WellFormed(PriceInfo(p)) && WellFormed(PriceInfoCorrected(p))
    ensures HasKey(PriceInfo(p), k) ==> k in PRICE_KEYS
    ensures HasKey(PriceInfoCorrected(p), k) ==> k in PRICE_KEYS
  {
    var bs, ls := p.priceBoxes, p.priceLabels;
    var ms := MatchTexts(PriceMatches(p.source));
    var ns := MatchLabels(PriceMatches(p.source));
    StageShape(seq(|bs|, i requires 0 <= i < |bs| => BoxAssignment(bs[i])), k);
    StageShape(seq(|ls|, i requires 0 <= i < |ls| => LabelAssignment(ls[i])), k);
    StageShape(seq(|ms|, i requires 0 <= i < |ms| => MatchAssignment(ms[i])), k);
    StageShape(seq(|ns|, i requires 0 <= i < |ns| => MatchAssignment(ns[i])), k);
  }

  /** One complete, classified price box makes method 1's dict non-empty. */
  lemma {:induction false} Stage1NonEmpty(bs: seq<PriceBox>, i: nat)
    requires i < |bs| && BoxAssignment(bs[i]) != []
    ensures Stage1(bs) != []
  {
    var a := seq(|bs|, i requires 0 <= i < |bs| => BoxAssignment(bs[i]));
    assert a[i] != [];
    StageEmpty(a);
  }

  /** Method 2 runs only when no price box is complete and classified. */
  lemma {:induction false} BoxesDecide(p: Page, i: nat)
    requires i < |p.priceBoxes| && BoxAssignment(p.priceBoxes[i]) != []
    ensures PriceInfo(p) == Stage1(p.priceBoxes) && PriceInfo(p) != []
    ensures PriceInfoCorrected(p) == PriceInfo(p)
  {
    Stage1NonEmpty(p.priceBoxes, i);
  }

  // ---------------------------------------------------------------------
  // The scanner behind method 3

  const PRICE_LABELS: seq<string> := ["Avaliação", "Lance Mínimo", "Lance Atual", "Valor"]

  /** `s` agrees with `p` from index `i + k` on, for the rest of `p`. */
  predicate AgreesFrom(s: string, p: string, i: nat, k: nat)
    requires i + |p| <= |s|
    decreases |p| - k
  {
    k >= |p| || (s[i + k] == p[k] && AgreesFrom(s, p, i, k + 1))
  }

  /** `p` occurs in `s` at index `i`. */
  predicate MatchesAt(s: string, p: string, i: nat) {
    i + |p| <= |s| && AgreesFrom(s, p, i, 0)
  }

  /** The first of the labels from the `n`th on that occurs in `s` at index `i`. */
  function LabelFrom(s: string, i: nat, n: nat): (r: Option<string>)
    requires n <= |PRICE_LABELS|
    decreases |PRICE_LABELS| - n
  {
    if n == |PRICE_LABELS| then None
    else if MatchesAt(s, PRICE_LABELS[n], i) then Some(PRICE_LABELS[n])
    else LabelFrom(s, i, n + 1)
  }

  /** The alternative `(Avaliação|Lance Mínimo|Lance Atual|Valor)` that matches at
      index `i` of `s`, tried in that order. */
  function LabelAt(s: string, i: nat): Option<string> {
    LabelFrom(s, i, 0)
  }

  /** The label found is one of the four and fits in the text. */
  lemma {:induction false} LabelFromSpec(s: string, i: nat, n: nat)
    requires n <= |PRICE_LABELS|
    ensures LabelFrom(s, i, n).Some? ==>
      LabelFrom(s, i, n).value in PRICE_LABELS && MatchesAt(s, LabelFrom(s, i, n).value, i)
    decreases |PRICE_LABELS| - n
  {
    if n < |PRICE_LABELS| && !MatchesAt(s, PRICE_LABELS[n], i) {
      LabelFromSpec(s, i, n + 1);
    }
  }

  /** `[\s:]`. */
  predicate IsColonSpace(c: char) {
    IsSpace(c) || c == ':'
  }

  /** Length of the run of `[\s:]` that starts at index `i`. */
  function ColonSpaceRun(s: string, i: nat): (n: nat)
    requires i <= |s|
    ensures i + n <= |s|
    decreases |s| - i
  {
    if i == |s| || !IsColonSpace(s[i]) then 0 else 1 + ColonSpaceRun(s, i + 1)
  }

  /** The run from `i` is `s[i..j]` when every character there is `[\s:]` and the
      one at `j`, if any, is not. */
  lemma {:induction false} ColonSpaceRunOf(s: string, i: nat, j: nat)
    requires i <= j <= |s|
    requires forall k :: i <= k < j ==> IsColonSpace(s[k])
    requires j == |s| || !IsColonSpace(s[j])
    ensures ColonSpaceRun(s, i) == j - i
    decreases j - i
  {
    if i < j {
      ColonSpaceRunOf(s, i + 1, j);
    }
  }

  /** A match of the whole pattern at index `i`: its label and where it ends.
      `[\s:]*` is greedy and `R` is not in its class, so the amount, if any,
      starts right after the separators. */
  function LabelledAt(s: string, i: nat): (r: Option<(string, nat)>)
    requires i <= |s|
    ensures r.Some? ==> i < r.value.1 <= |s|
  {
    LabelledWith(s, i, LabelAt(s, i))
  }

  /** The rest of the pattern after the label `found` at `i`, if any. */
  function LabelledWith(s: string, i: nat, found: Option<string>): (r: Option<(string, nat)>)
    requires i <= |s|
    ensures r.Some? ==> i < r.value.1 <= |s|
  {
    match found
    case None => None
    case Some(l) =>
      if i + |l| <= |s| then
        var q := i + |l| + ColonSpaceRun(s, i + |l|);
        match CurrencyAt(s, q)
        case Some((_, k)) => Some((l, k))
        case None => None
      else None
  }

  lemma {:induction false} LabelledAtLabel(s: string, i: nat)
    requires i <= |s| && LabelledAt(s, i).Some?
    ensures LabelledAt(s, i).value.0 in PRICE_LABELS
  {
    LabelFromSpec(s, i, 0);
  }

  /** One match: its group 1 (the caption) and its group 0 (the whole text). */
  datatype PriceMatch = PriceMatch(name: string, whole: string)

  /** The matches of `(Avaliação|Lance Mínimo|Lance Atual|Valor)[\s:]*R\$\s*[\d.,]+`
      from index `i` on, left to right, without overlap. */
  function PriceMatchesFrom(s: string, i: nat): seq<PriceMatch>
    requires i <= |s|
    decreases |s| - i
  {
    if i == |s| then []
    else
      match LabelledAt(s, i)
      case Some((l, n)) => [PriceMatch(l, s[i..n])] + PriceMatchesFrom(s, n)
      case None => PriceMatchesFrom(s, i + 1)
  }

  function PriceMatches(s: string): seq<PriceMatch> {
    PriceMatchesFrom(s, 0)
  }

  /** Group 1 of every match is one of the four labels. */
  lemma {:induction false} PriceMatchesLabels(s: string, i: nat)
    requires i <= |s|
    ensures forall j :: 0 <= j < |PriceMatchesFrom(s, i)| ==> PriceMatchesFrom(s, i)[j].name in PRICE_LABELS
    decreases |s| - i
  {
    if i < |s| {
      match LabelledAt(s, i)
      case Some((l, n)) =>
        LabelledAtLabel(s, i);
        PriceMatchesLabels(s, n);
        var ms, rest := PriceMatchesFrom(s, i), PriceMatchesFrom(s, n);
        assert ms == [PriceMatch(l, s[i..n])] + rest;
        forall j | 0 <= j < |ms| ensures ms[j].name in PRICE_LABELS {
          if j > 0 {
            assert ms[j] == rest[j - 1];
          }
        }
      case None =>
        PriceMatchesLabels(s, i + 1);
    }
  }

  function MatchTexts(ms: seq<PriceMatch>): (r: seq<string>)
    ensures |r| == |ms| && forall i :: 0 <= i < |ms| ==> r[i] == ms[i].whole
  {
    seq(|ms|, i requires 0 <= i < |ms| => ms[i].whole)
  }

  function MatchLabels(ms: seq<PriceMatch>): (r: seq<string>)
    ensures |r| == |ms| && forall i :: 0 <= i < |ms| ==> r[i] == ms[i].name
  {
    seq(|ms|, i requires 0 <= i < |ms| => ms[i].name)
  }

  /** A lone label holds no `R$`, so method 3 as written never assigns anything. */
  lemma {:induction false} Stage3OfLabelsIsEmpty(s: string)
    ensures Stage3(MatchLabels(PriceMatches(s))) == []
  {
    PriceMatchesLabels(s, 0);
    var ls := MatchLabels(PriceMatches(s));
    var a := seq(|ls|, i requires 0 <= i < |ls| => MatchAssignment(ls[i]));
    forall i | 0 <= i < |ls| ensures a[i] == [] {
      LabelHasNoAmount(ls[i]);
    }
    StageEmpty(a);
  }

  lemma {:induction false} LabelHasNoAmount(l: string)
    requires l in PRICE_LABELS
    ensures FindPrices(l) == []
  {
    assert 'R' !in l;
    FindPricesNone(l);
  }

  /** After a label that ends at `i + |l|`, separators up to `q` and a currency
      amount from `q` that ends at `k`, the pattern matches up to `k`. */
  lemma {:induction false} LabelledWithOf(s: string, i: nat, l: string, q: nat, j: nat, k: nat)
    requires i + |l| <= q <= |s| && ColonSpaceRun(s, i + |l|) == q - i - |l|
    requires CurrencyAt(s, q) == Some((j, k))
    ensures LabelledWith(s, i, Some(l)) == Some((l, k))
  {
  }

  /** `s` shows a price from index `i` to `k`: the label `l`, separators `[\s:]`
      up to `q`, `R$`, white space up to `j`, and the amount `s[j..k]`, which
      does not go on. */
  predicate ShowsPrice(s: string, i: nat, l: string, q: nat, j: nat, k: nat) {
    i + |l| <= q && q + 2 <= j < k <= |s| &&
    (forall n :: i + |l| <= n < q ==> IsColonSpace(s[n])) &&
    s[q] == 'R' && s[q + 1] == '$' &&
    (forall n :: q + 2 <= n < j ==> IsSpace(s[n])) &&
    (forall n :: j <= n < k ==> IsPriceChar(s[n])) &&
    (k == |s| || !IsPriceChar(s[k]))
  }

  /** A shown price after a label that opens the pattern is one match, and the
      currency scanner reads its amount. */
  lemma {:induction false} ShownLabelled(s: string, i: nat, l: string, q: nat, j: nat, k: nat)
    requires LabelAt(s, i) == Some(l) && ShowsPrice(s, i, l, q, j, k)
    ensures LabelledAt(s, i) == Some((l, k))
    ensures FindPricesFrom(s, q) == [s[j..k]] + FindPricesFrom(s, k)
  {
    assert ColonSpaceRun(s, i + |l|) == q - i - |l| by {
      ColonSpaceRunOf(s, i + |l|, q);
    }
    assert CurrencyAt(s, q) == Some((j, k)) by {
      CurrencyAtOf(s, q, j, k);
    }
    FindPricesAt(s, q, j, k);
    LabelledWithOf(s, i, l, q, j, k);
  }

  /** A text that is one shown price from start to end holds exactly one match,
      the whole text. */
  lemma {:induction false} PriceMatchesOfShown(s: string, l: string, q: nat, j: nat)
    requires LabelAt(s, 0) == Some(l) && ShowsPrice(s, 0, l, q, j, |s|)
    ensures PriceMatches(s) == [PriceMatch(l, s)]
    ensures FindPricesFrom(s, q) == [s[j..]]
  {
    ShownLabelled(s, 0, l, q, j, |s|);
    assert PriceMatchesFrom(s, 0) == [PriceMatch(l, s[0..|s|])] + PriceMatchesFrom(s, |s|);
    assert s[0..|s|] == s && s[j..|s|] == s[j..];
  }

  lemma {:induction false} AgreesFromAll(s: string, p: string, i: nat, k: nat)
    requires i + |p| <= |s| && AgreesFrom(s, p, i, k)
    ensures forall n :: k <= n < |p| ==> s[i + n] == p[n]
    decreases |p| - k
  {
    if k < |p| {
      AgreesFromAll(s, p, i, k + 1);
    }
  }

  /** A text that opens with `Avaliação` has that label, is classified as an
      evaluation, and holds no `R` before the label ends. */
  lemma {:induction false} EvaluationAt(s: string)
    requires MatchesAt(s, "Avaliação", 0)
    ensures LabelAt(s, 0) == Some("Avaliação")
    ensures LabelKey(Lower(s)) == Some("evaluation")
    ensures forall n :: 0 <= n < |"Avaliação"| ==> s[n] != 'R'
  {
    var l := "Avaliação";
    AgreesFromAll(s, l, 0, 0);
    assert PRICE_LABELS[0] == l;
    var t := Lower(s);
    assert t[..6] == "avalia" by {
      forall n | 0 <= n < 6 ensures t[n] == "avalia"[n] {
        assert s[n] == l[n];
      }
    }
    ContainsPrefix("avalia", t);
  }

  /** A page without price boxes or labels whose source opens with `Avaliação`
      and is one shown price: the corrected method 3 reads the evaluation as
      `R$ <amount>`. */
  lemma {:induction false} EvaluationPageFinding(p: Page, q: nat, j: nat)
    requires p.priceBoxes == [] && p.priceLabels == []
    requires MatchesAt(p.source, "Avaliação", 0) && ShowsPrice(p.source, 0, "Avaliação", q, j, |p.source|)
    ensures PriceInfoCorrected(p) == [("evaluation", VStr("R$ " + p.source[j..]))]
  {
    var s := p.source;
    var r := [("evaluation", VStr("R$ " + s[j..]))];
    EvaluationAt(s);
    PriceMatchesOfShown(s, "Avaliação", q, j);
    forall n | 0 <= n < q ensures s[n] != 'R' {
      if n >= |"Avaliação"| {
        assert IsColonSpace(s[n]);
      }
    }
    FindPricesFromSkip(s, 0, q);
    assert MatchAssignment(s) == r;
    SingleMatchPage(p, r);
    WellFormedCons(r[0], []);
    assert [r[0]] + [] == r;
    SetAllCopies(r);
  }

  lemma {:induction false} Stage3Single(t: string, r: Record)
    requires MatchAssignment(t) == r
    ensures Stage3([t]) == SetAll([], r)
  {
    var a := seq(1, i requires 0 <= i < 1 => MatchAssignment([t][i]));
    assert a == [r];
    assert Concat(a) == Concat(a[..0]) + r;
  }

  /** A page without price boxes or labels whose source is one labelled amount
      gets, under the corrected method 3, the dict of that amount's assignment. */
  lemma {:induction false} SingleMatchPage(p: Page, r: Record)
    requires p.priceBoxes == [] && p.priceLabels == []
    requires MatchTexts(PriceMatches(p.source)) == [p.source] && MatchAssignment(p.source) == r
    ensures PriceInfoCorrected(p) == SetAll([], r)
  {
    Stage3Single(p.source, r);
    assert Stage1([]) == [] && Stage2([]) == [];
  }

  /** On the same page, method 3 as written reads nothing. */
  lemma {:induction false} EvaluationPageAsWritten(p: Page)
    requires p.priceBoxes == [] && p.priceLabels == []
    ensures PriceInfo(p) == []
  {
    Stage3OfLabelsIsEmpty(p.source);
    assert Stage1([]) == [] && Stage2([]) == [];
  }

  /** Method 3 as written contributes nothing: the price dict is method 1's or
      method 2's, whatever the page source says. */
  lemma {:induction false} AsWrittenIgnoresSource(p: Page)
    ensures PriceInfo(p) == (if Stage1(p.priceBoxes) != [] then Stage1(p.priceBoxes) else Stage2(p.priceLabels))
  {
    Stage3OfLabelsIsEmpty(p.source);
  }

  // ---------------------------------------------------------------------
  // The record

  /** The record as the method builds it: title, description and images, then
      `details.update(price_info)`, then the closing date if found, then the page
      source. */
  function Assemble(title: string, description: string, images: seq<Value>, prices: Record,
                    closing: Option<string>, source: string): Record
  {
    Finish(SetAll(Head(title, description, images), prices), closing, source)
  }

  /** Title, description and images, in that order. */
  function Head(title: string, description: string, images: seq<Value>): Record {
    Set(Set(Set([], "title", VStr(title)), "description", VStr(description)), "images", VList(images))
  }

  lemma {:induction false} HeadGet(title: string, description: string, images: seq<Value>, k: string)
    ensures WellFormed(Head(title, description, images))
    ensures Get(Head(title, description, images), k) ==
      if k == "images" then Some(VList(images))
      else if k == "description" then Some(VStr(description))
      else if k == "title" then Some(VStr(title))
      else None
  {
    var d0 := Set([], "title", VStr(title));
    var d1 := Set(d0, "description", VStr(description));
    SetWellFormed([], "title", VStr(title));
    SetWellFormed(d0, "description", VStr(description));
    SetWellFormed(d1, "images", VList(images));
    SetGet([], "title", VStr(title));
    SetGet(d0, "description", VStr(description));
    SetGet(d1, "images", VList(images));
  }

  /** The closing date, when found, and the page source go last. */
  function Finish(d1: Record, closing: Option<string>, source: string): Record {
    var d2 := if closing.Some? then Set(d1, "closing_at", VStr(closing.value)) else d1;
    Set(d2, "html_content", VStr(source))
  }

  lemma {:induction false} FinishGet(d1: Record, closing: Option<string>, source: string, k: string)
    ensures WellFormed(d1) ==> WellFormed(Finish(d1, closing, source))
    ensures Get(Finish(d1, closing, source), k) ==
      if k == "html_content" then Some(VStr(source))
      else if k == "closing_at" && closing.Some? then Some(VStr(closing.value))
      else Get(d1, k)
  {
    var d2 := if closing.Some? then Set(d1, "closing_at", VStr(closing.value)) else d1;
    if closing.Some? {
      SetGet(d1, "closing_at", VStr(closing.value));
      if WellFormed(d1) {
        SetWellFormed(d1, "closing_at", VStr(closing.value));
      }
    }
    SetGet(d2, "html_content", VStr(source));
    if WellFormed(d2) {
      SetWellFormed(d2, "html_content", VStr(source));
    }
  }

  /** Where each key of the assembled record gets its value: the page source,
      the closing date, the price dict, or the head. */
  lemma {:induction false} AssembleAt(title: string, description: string, images: seq<Value>, prices: Record,
                   closing: Option<string>, source: string, k: string)
    requires WellFormed(prices)
    ensures var r := Assemble(title, description, images, prices, closing, source);
      Get(r, k) ==
        if k == "html_content" then Some(VStr(source))
        else if k == "closing_at" && closing.Some? then Some(VStr(closing.value))
        else if HasKey(prices, k) then Get(prices, k)
        else Get(Head(title, description, images), k)
  {
    var d0 := Head(title, description, images);
    PriceOnly(prices, d0, k);
    FinishGet(SetAll(d0, prices), closing, source, k);
  }

  /** The head's three keys and the page source land under their own keys. */
  lemma {:induction false} AssembleFixed(title: string, description: string, images: seq<Value>, prices: Record,
                      closing: Option<string>, source: string)
    requires WellFormed(prices)
    requires forall k' :: HasKey(prices, k') ==> k' in PRICE_KEYS
    ensures var r := Assemble(title, description, images, prices, closing, source);
      Get(r, "title") == Some(VStr(title)) &&
      Get(r, "description") == Some(VStr(description)) &&
      Get(r, "images") == Some(VList(images)) &&
      Get(r, "html_content") == Some(VStr(source))
  {
    assert !HasKey(prices, "title") && !HasKey(prices, "description") && !HasKey(prices, "images");
    AssembleAt(title, description, images, prices, closing, source, "title");
    AssembleAt(title, description, images, prices, closing, source, "description");
    AssembleAt(title, description, images, prices, closing, source, "images");
    AssembleAt(title, description, images, prices, closing, source, "html_content");
    HeadGet(title, description, images, "title");
    HeadGet(title, description, images, "description");
    HeadGet(title, description, images, "images");
  }

  /** The closing date is stored exactly when one was found; no `url` and no
      `error` key is ever stored. */
  lemma {:induction false} AssembleOptional(title: string, description: string, images: seq<Value>, prices: Record,
                         closing: Option<string>, source: string)
    requires WellFormed(prices)
    requires forall k' :: HasKey(prices, k') ==> k' in PRICE_KEYS
    ensures var r := Assemble(title, description, images, prices, closing, source);
      (closing.Some? <==> HasKey(r, "closing_at")) &&
      (closing.Some? ==> Get(r, "closing_at") == Some(VStr(closing.value))) &&
      !HasKey(r, "url") && !HasKey(r, "error")
  {
    var r := Assemble(title, description, images, prices, closing, source);
    assert !HasKey(prices, "closing_at") && !HasKey(prices, "url") && !HasKey(prices, "error");
    AssembleAt(title, description, images, prices, closing, source, "closing_at");
    AssembleAt(title, description, images, prices, closing, source, "url");
    AssembleAt(title, description, images, prices, closing, source, "error");
    HeadGet(title, description, images, "closing_at");
    HeadGet(title, description, images, "url");
    HeadGet(title, description, images, "error");
    GetSome(r, "closing_at");
    GetSome(r, "url");
    GetSome(r, "error");
  }

  /** A price key holds what the price dict holds for it. */
  lemma {:induction false} AssemblePrice(title: string, description: string, images: seq<Value>, prices: Record,
                      closing: Option<string>, source: string, k: string)
    requires WellFormed(prices) && k in PRICE_KEYS
    ensures Get(Assemble(title, description, images, prices, closing, source), k) == Get(prices, k)
  {
    AssembleAt(title, description, images, prices, closing, source, k);
    HeadGet(title, description, images, k);
    GetSome(prices, k);
  }

  /** With a price dict that sets price keys only, every part lands under its own
      key, and nothing lands under `url` or `error`. */
  lemma {:induction false} AssembleGet(title: string, description: string, images: seq<Value>, prices: Record,
                    closing: Option<string>, source: string, k: string)
    requires WellFormed(prices)
    requires forall k' :: HasKey(prices, k') ==> k' in PRICE_KEYS
    ensures var r := Assemble(title, description, images, prices, closing, source);
      Get(r, "title") == Some(VStr(title)) &&
      Get(r, "description") == Some(VStr(description)) &&
      Get(r, "images") == Some(VList(images)) &&
      Get(r, "html_content") == Some(VStr(source)) &&
      (k in PRICE_KEYS ==> Get(r, k) == Get(prices, k)) &&
      (closing.Some? <==> HasKey(r, "closing_at")) &&
      (closing.Some? ==> Get(r, "closing_at") == Some(VStr(closing.value))) &&
      !HasKey(r, "url") && !HasKey(r, "error")
  {
    AssembleFixed(title, description, images, prices, closing, source);
    AssembleOptional(title, description, images, prices, closing, source);
    if k in PRICE_KEYS {
      AssemblePrice(title, description, images, prices, closing, source, k);
    }
  }

  /** `update` with the price dict leaves every other key alone. */
  lemma {:induction false} PriceOnly(pi: Record, d0: Record, k: string)
    requires WellFormed(pi)
    ensures HasKey(SetAll(d0, pi), k) <==> HasKey(d0, k) || HasKey(pi, k)
    ensures Get(SetAll(d0, pi), k) == if HasKey(pi, k) then Get(pi, k) else Get(d0, k)
  {
    SetAllGet(d0, pi, k);
    SetAllKeys(d0, pi, k);
    LastValueIsGet(pi, k);
    GetSome(pi, k);
  }

  /** The record before the model step. */
  function PageRecord(p: Page): Record {
    Assemble(Title(p), Description(p), if p.imageSources.Some? then Images(p.imageSources.value) else [],
             PriceInfo(p), ClosingAt(p), p.source)
  }

  /** `get_auction_details(url)` for the page the URL loads.  `useLlm` is the
      environment switch; the model only runs with an API key. */
  function AuctionDetails(load: Load, client: Option<LlmClient>, useLlm: bool): (r: Record)
    ensures load.Failed? ==> r == [("error", VStr(load.message))]
  {
    match load
    case Failed(msg) => [("error", VStr(msg))]
    case Loaded(p) =>
      if client.Some? && client.value.apiKey != "" && useLlm then
        EnrichAuctionData(client, PageRecord(p), "")
      else PageRecord(p)
  }

  /** What the record holds: title, description, the price dict's keys, the
      closing date when there is one, and the page source; no URL. */
  lemma {:induction false} PageRecordGet(p: Page, k: string)
    ensures var r := PageRecord(p);
      Get(r, "title") == Some(VStr(Title(p))) &&
      Get(r, "description") == Some(VStr(Description(p))) &&
      Get(r, "html_content") == Some(VStr(p.source)) &&
      (k in PRICE_KEYS ==> Get(r, k) == Get(PriceInfo(p), k)) &&
      (ClosingAt(p).Some? <==> HasKey(r, "closing_at")) &&
      (ClosingAt(p).Some? ==> Get(r, "closing_at") == Some(VStr(ClosingAt(p).value))) &&
      !HasKey(r, "url") && !HasKey(r, "error")
  {
    forall k' | HasKey(PriceInfo(p), k') ensures k' in PRICE_KEYS {
      PriceInfoShape(p, k');
    }
    PriceInfoShape(p, k);
    AssembleGet(Title(p), Description(p), if p.imageSources.Some? then Images(p.imageSources.value) else [],
                PriceInfo(p), ClosingAt(p), p.source, k);
  }

  /** On a page without price boxes or price labels the record holds no price at
      all, whatever amounts its source shows. */
  lemma EvaluationPageRecord(p: Page, k: string)
    requires p.priceBoxes == [] && p.priceLabels == [] && k in PRICE_KEYS
    ensures !HasKey(PageRecord(p), k)
  {
    PageRecordGet(p, k);
    EvaluationPageAsWritten(p);
    GetSome(PageRecord(p), k);
  }

  /** With the model step, every key the page gave keeps the page's value. */
  lemma {:induction false} EnrichedKeepsPage(p: Page, client: Option<LlmClient>, useLlm: bool, k: string)
    requires HasKey(PageRecord(p), k)
    ensures Get(AuctionDetails(Loaded(p), client, useLlm), k) == Get(PageRecord(p), k)
  {
    if client.Some? && client.value.apiKey != "" && useLlm {
      PageRecordSource(p);
      EnrichMerges(client, PageRecord(p), "", k);
    }
  }

  lemma {:induction false} PageRecordSource(p: Page)
    ensures WellFormed(PageRecord(p)) && Get(PageRecord(p), "html_content") == Some(VStr(p.source))
    ensures HasKey(PageRecord(p), "html_content")
  {
    var images := if p.imageSources.Some? then Images(p.imageSources.value) else [];
    var d0 := Head(Title(p), Description(p), images);
    HeadGet(Title(p), Description(p), images, "html_content");
    SetAllWellFormed(d0, PriceInfo(p));
    FinishGet(SetAll(d0, PriceInfo(p)), ClosingAt(p), p.source, "html_content");
    GetSome(PageRecord(p), "html_content");
  }
}
