/**
 * The currency scanner behind `re.findall(r'R\$\s*([\d.,]+)', html)` and the
 * positional price rule of `_extract_auction_from_element`: with two or more
 * amounts the first is the evaluation and the second the minimum bid, with
 * exactly one it is the minimum bid.
 */
module Prices {
  import opened Wrappers
  import opened Text
  import opened Values

  /** `[\d.,]`. */
  predicate IsPriceChar(c: char) {
    ('0' <= c <= '9') || c == '.' || c == ','
  }

  predicate AllPrice(s: string) {
    forall i :: 0 <= i < |s| ==> IsPriceChar(s[i])
  }

  /** Length of the run of `[\d.,]` that starts at index `i`. */
  function PriceRun(s: string, i: nat): (n: nat)
    requires i <= |s|
    ensures i + n <= |s|
    decreases |s| - i
  {
    if i == |s| || !IsPriceChar(s[i]) then 0 else 1 + PriceRun(s, i + 1)
  }

  /** A match of `R\$\s*([\d.,]+)` at index `i`: where its amount starts and ends. */
  function CurrencyAt(s: string, i: nat): (r: Option<(nat, nat)>)
    requires i <= |s|
    ensures r.Some? ==> i + 2 <= r.value.0 < r.value.1 <= |s|
  {
    if i + 2 <= |s| && s[i] == 'R' && s[i + 1] == '$' then
      var j := i + 2 + SpaceRun(s, i + 2);
      var k := j + PriceRun(s, j);
      if j < k then Some((j, k)) else None
    else None
  }

  /** `re.findall(r'R\$\s*([\d.,]+)', s)` from index `i` on: the amounts, left to
      right, without overlap. */
  function FindPricesFrom(s: string, i: nat): seq<string>
    requires i <= |s|
    decreases |s| - i
  {
    if i == |s| then []
    else
      match CurrencyAt(s, i)
      case Some((j, k)) => [s[j..k]] + FindPricesFrom(s, k)
      case None => FindPricesFrom(s, i + 1)
  }

  function FindPrices(s: string): seq<string> {
    FindPricesFrom(s, 0)
  }

  /** A run is exactly the stretch of characters its class admits. */
  lemma {:induction false} PriceRunOf(s: string, i: nat, j: nat)
    requires i <= j <= |s|
    requires forall n :: i <= n < j ==> IsPriceChar(s[n])
    requires j == |s| || !IsPriceChar(s[j])
    ensures PriceRun(s, i) == j - i
    decreases j - i
  {
    if i < j {
      PriceRunOf(s, i + 1, j);
    }
  }

  lemma {:induction false} PriceRunAll(s: string, i: nat)
    requires i <= |s|
    ensures forall n :: i <= n < i + PriceRun(s, i) ==> IsPriceChar(s[n])
    decreases |s| - i
  {
    if i < |s| && IsPriceChar(s[i]) {
      PriceRunAll(s, i + 1);
    }
  }

  /** `R$` at `i`, white space up to `j` and an amount from `j` to `k` that does
      not go on: the match at `i` has exactly that amount. */
  lemma CurrencyAtOf(s: string, i: nat, j: nat, k: nat)
    requires i + 2 <= j < k <= |s| && s[i] == 'R' && s[i + 1] == '$'
    requires forall n :: i + 2 <= n < j ==> IsSpace(s[n])
    requires forall n :: j <= n < k ==> IsPriceChar(s[n])
    requires k == |s| || !IsPriceChar(s[k])
    ensures CurrencyAt(s, i) == Some((j, k))
  {
    assert IsPriceChar(s[j]);
    SpaceRunOf(s, i + 2, j);
    PriceRunOf(s, j, k);
  }

  /** Every amount the scanner returns is a non-empty run of `[\d.,]`. */
  lemma {:induction false} FindPricesAmounts(s: string, i: nat)
    requires i <= |s|
    ensures forall n :: 0 <= n < |FindPricesFrom(s, i)| ==>
      FindPricesFrom(s, i)[n] != [] && AllPrice(FindPricesFrom(s, i)[n])
    decreases |s| - i
  {
    if i < |s| {
      match CurrencyAt(s, i)
      case Some((j, k)) =>
        FindPricesAmounts(s, k);
        PriceRunAll(s, j);
        assert AllPrice(s[j..k]) by {
          forall n | 0 <= n < k - j ensures IsPriceChar(s[j..k][n]) {
            assert s[j..k][n] == s[j + n];
          }
        }
        var ms, rest := FindPricesFrom(s, i), FindPricesFrom(s, k);
        assert ms == [s[j..k]] + rest;
        forall n | 0 <= n < |ms| ensures ms[n] != [] && AllPrice(ms[n]) {
          if n > 0 {
            assert ms[n] == rest[n - 1];
          }
        }
      case None =>
        FindPricesAmounts(s, i + 1);
    }
  }

  /** Text without an `R` between `i` and `j` contributes no amount. */
  lemma {:induction false} FindPricesFromSkip(s: string, i: nat, j: nat)
    requires i <= j <= |s|
    requires forall n :: i <= n < j ==> s[n] != 'R'
    ensures FindPricesFrom(s, i) == FindPricesFrom(s, j)
    decreases j - i
  {
    if i < j {
      FindPricesFromSkip(s, i + 1, j);
    }
  }

  /** `b` is what `s` holds from index `d` to its end. */
  predicate ShiftedBy(s: string, d: nat, b: string) {
    d + |b| == |s| && forall n :: 0 <= n < |b| ==> s[d + n] == b[n]
  }

  /** A match at `i` contributes its amount and the scan resumes where it ends. */
  lemma FindPricesAt(s: string, i: nat, j: nat, k: nat)
    requires i + 2 <= j < k <= |s| && s[i] == 'R' && s[i + 1] == '$'
    requires forall n :: i + 2 <= n < j ==> IsSpace(s[n])
    requires forall n :: j <= n < k ==> IsPriceChar(s[n])
    requires k == |s| || !IsPriceChar(s[k])
    ensures FindPricesFrom(s, i) == [s[j..k]] + FindPricesFrom(s, k)
  {
    CurrencyAtOf(s, i, j, k);
  }

  /** Text without an `R` contributes no amount. */
  lemma FindPricesNone(s: string)
    requires 'R' !in s
    ensures FindPrices(s) == []
  {
    FindPricesFromSkip(s, 0, |s|);
  }

  /** The amounts written as `R$ <amount>` separated by spaces. */
  function Render(ms: seq<string>): string {
    if ms == [] then "" else "R$ " + ms[0] + " " + Render(ms[1..])
  }

  /** The characters `s` holds from `j` on spell `m`. */
  lemma SliceOf(s: string, j: nat, m: string)
    requires j + |m| <= |s| && forall n :: 0 <= n < |m| ==> s[j + n] == m[n]
    ensures s[j..j + |m|] == m
  {
    forall n | 0 <= n < |m| ensures s[j..j + |m|][n] == m[n] {
      assert s[j..j + |m|][n] == s[j + n];
    }
  }

  /** Where the pieces of `R$ <m> <t>` sit in a text that holds it from `i` on. */
  lemma RenderedPieces(s: string, i: nat, m: string, t: string)
    requires ShiftedBy(s, i, "R$ " + m + " " + t)
    ensures i + 4 + |m| + |t| == |s|
    ensures s[i] == 'R' && s[i + 1] == '$' && s[i + 2] == ' ' && s[i + 3 + |m|] == ' '
    ensures forall n :: 0 <= n < |m| ==> s[i + 3 + n] == m[n]
    ensures ShiftedBy(s, i + 4 + |m|, t)
  {
    var r := "R$ " + m + " " + t;
    assert s[i] == r[0] && s[i + 1] == r[1] && s[i + 2] == r[2] && s[i + 3 + |m|] == r[3 + |m|];
    forall n | 0 <= n < |m| ensures s[i + 3 + n] == m[n] {
      assert s[i + 3 + n] == r[3 + n];
    }
    forall n | 0 <= n < |t| ensures s[i + 4 + |m| + n] == t[n] {
      assert s[i + 4 + |m| + n] == r[4 + |m| + n];
    }
  }

  /** One rendered amount is read back and the scan goes on after its space. */
  lemma FindPricesRenderedHead(s: string, i: nat, m: string, t: string)
    requires m != [] && AllPrice(m)
    requires ShiftedBy(s, i, "R$ " + m + " " + t)
    ensures FindPricesFrom(s, i) == [m] + FindPricesFrom(s, i + 4 + |m|)
    ensures ShiftedBy(s, i + 4 + |m|, t)
  {
    RenderedPieces(s, i, m, t);
    var k := i + 3 + |m|;
    forall n | i + 3 <= n < k ensures IsPriceChar(s[n]) {
      assert s[i + 3 + (n - i - 3)] == m[n - i - 3];
    }
    assert IsSpace(s[i + 2]);
    FindPricesAt(s, i, i + 3, k);
    SliceOf(s, i + 3, m);
    FindPricesFromSkip(s, k, k + 1);
  }

  /** Rendered amounts that end the text are read back, in order, from where
      they start. */
  lemma {:induction false} FindPricesRenderAt(s: string, i: nat, ms: seq<string>)
    requires forall n :: 0 <= n < |ms| ==> ms[n] != [] && AllPrice(ms[n])
    requires ShiftedBy(s, i, Render(ms))
    ensures FindPricesFrom(s, i) == ms
    decreases |ms|
  {
    if ms != [] {
      assert Render(ms) == "R$ " + ms[0] + " " + Render(ms[1..]);
      FindPricesRenderedHead(s, i, ms[0], Render(ms[1..]));
      FindPricesRenderAt(s, i + 4 + |ms[0]|, ms[1..]);
    }
  }

  /** The scanner reads back every amount it is given, in order. */
  lemma FindPricesRender(ms: seq<string>)
    requires forall i :: 0 <= i < |ms| ==> ms[i] != [] && AllPrice(ms[i])
    ensures FindPrices(Render(ms)) == ms
  {
    FindPricesRenderAt(Render(ms), 0, ms);
  }

  /** The price keys `_extract_auction_from_element` adds for the element's HTML;
      `None` is an unreadable `outerHTML`, whose exception is swallowed. */
  function PositionalPrices(html: Option<string>): (r: Record)
    ensures html.Some? && |FindPrices(html.value)| >= 2 ==>
      r == [("evaluation", VStr("R$ " + FindPrices(html.value)[0])),
            ("minimum_bid", VStr("R$ " + FindPrices(html.value)[1]))]
    ensures html.Some? && |FindPrices(html.value)| == 1 ==>
      r == [("minimum_bid", VStr("R$ " + FindPrices(html.value)[0]))]
    ensures (html.None? || FindPrices(html.value) == []) ==> r == []
  {
    match html
    case None => []
    case Some(s) =>
      var ms := FindPrices(s);
      if |ms| >= 2 then [("evaluation", VStr("R$ " + ms[0])), ("minimum_bid", VStr("R$ " + ms[1]))]
      else if |ms| == 1 then [("minimum_bid", VStr("R$ " + ms[0]))]
      else []
  }

  /** Given HTML that shows amounts as `R$ <amount>`, the element's prices are read back positionally. */
  lemma PositionalPricesOfRendered(ms: seq<string>)
    requires forall i :: 0 <= i < |ms| ==> ms[i] != [] && AllPrice(ms[i])
    ensures |ms| >= 2 ==> (PositionalPrices(Some(Render(ms))) ==
      [("evaluation", VStr("R$ " + ms[0])), ("minimum_bid", VStr("R$ " + ms[1]))])
    ensures |ms| == 1 ==> PositionalPrices(Some(Render(ms))) == [("minimum_bid", VStr("R$ " + ms[0]))]
  {
    FindPricesRender(ms);
  }
}
