/**
 * The handful of Python string operations the pipeline relies on:
 * `str.lower`, `str.strip`, the `in` substring test, `str.replace(x, "")`,
 * `"\n".join` and its inverse.
 *
 * `Lower` covers the Latin-1 letters (ASCII and the accented capitals
 * U+00C0..U+00DE, the range the site's Portuguese text uses); `IsSpace` is
 * the full set of characters for which Python's `str.isspace()` holds, which
 * is also what `\s` matches in Python's `re` module.
 */
module Text {

  // ---------------------------------------------------------------------
  // Whitespace and strip()

  /** Python's `str.isspace()` on one character (and the `\s` regex class). */
  predicate IsSpace(c: char) {
    || c == ' '
    || ('\t' <= c <= '\r')
    || ('\U{1C}' <= c <= '\U{1F}')
    || c == '\U{85}' || c == '\U{A0}' || c == '\U{1680}'
    || ('\U{2000}' <= c <= '\U{200A}')
    || c == '\U{2028}' || c == '\U{2029}' || c == '\U{202F}' || c == '\U{205F}' || c == '\U{3000}'
  }

  predicate AllSpace(s: string) {
    forall k :: 0 <= k < |s| ==> IsSpace(s[k])
  }

  /** Length of the run of whitespace that starts at index `i`. */
  function SpaceRun(s: string, i: nat): (n: nat)
    requires i <= |s|
    ensures i + n <= |s|
    decreases |s| - i
  {
    if i == |s| || !IsSpace(s[i]) then 0 else 1 + SpaceRun(s, i + 1)
  }

  /** Length of the run of whitespace that ends just before index `j`. */
  function SpaceRunBack(s: string, j: nat): (n: nat)
    requires j <= |s|
    ensures n <= j
    decreases j
  {
    if j == 0 || !IsSpace(s[j - 1]) then 0 else 1 + SpaceRunBack(s, j - 1)
  }

  /** `s.strip()`: what lies between the leading and the trailing whitespace. */
  function Strip(s: string): string {
    var i := SpaceRun(s, 0);
    var j := |s| - SpaceRunBack(s, |s|);
    if i < j then s[i..j] else ""
  }

  /** A string whose first and last characters are not whitespace. */
  predicate Stripped(s: string) {
    s == [] || (!IsSpace(s[0]) && !IsSpace(s[|s| - 1]))
  }

  /** A run is exactly the stretch of whitespace in front of `j`. */
  lemma {:induction false} SpaceRunOf(s: string, i: nat, j: nat)
    requires i <= j <= |s|
    requires forall n :: i <= n < j ==> IsSpace(s[n])
    requires j == |s| || !IsSpace(s[j])
    ensures SpaceRun(s, i) == j - i
    decreases j - i
  {
    if i < j {
      SpaceRunOf(s, i + 1, j);
    }
  }

  lemma {:induction false} SpaceRunBackOf(s: string, i: nat, j: nat)
    requires i <= j <= |s|
    requires forall n :: i <= n < j ==> IsSpace(s[n])
    requires i == 0 || !IsSpace(s[i - 1])
    ensures SpaceRunBack(s, j) == j - i
    decreases j - i
  {
    if i < j {
      SpaceRunBackOf(s, i, j - 1);
    }
  }

  /** What a run covers is whitespace, and it stops at a non-space or the end. */
  lemma {:induction false} SpaceRunSpans(s: string, i: nat)
    requires i <= |s|
    ensures forall n :: i <= n < i + SpaceRun(s, i) ==> IsSpace(s[n])
    ensures i + SpaceRun(s, i) == |s| || !IsSpace(s[i + SpaceRun(s, i)])
    decreases |s| - i
  {
    if i < |s| && IsSpace(s[i]) {
      SpaceRunSpans(s, i + 1);
    }
  }

  lemma {:induction false} SpaceRunBackSpans(s: string, j: nat)
    requires j <= |s|
    ensures forall n :: j - SpaceRunBack(s, j) <= n < j ==> IsSpace(s[n])
    ensures j - SpaceRunBack(s, j) == 0 || !IsSpace(s[j - SpaceRunBack(s, j) - 1])
    decreases j
  {
    if j > 0 && IsSpace(s[j - 1]) {
      SpaceRunBackSpans(s, j - 1);
    }
  }

  /** Every string is whitespace, its stripped core, whitespace: the core
      starts at `i` and ends at `j`. */
  lemma StripBounds(s: string) returns (i: nat, j: nat)
    ensures i <= j <= |s| && Strip(s) == s[i..j]
    ensures forall n :: 0 <= n < i ==> IsSpace(s[n])
    ensures forall n :: j <= n < |s| ==> IsSpace(s[n])
    ensures i < j ==> !IsSpace(s[i]) && !IsSpace(s[j - 1])
  {
    i := SpaceRun(s, 0);
    var back := SpaceRunBack(s, |s|);
    SpaceRunSpans(s, 0);
    SpaceRunBackSpans(s, |s|);
    j := |s| - back;
    if j <= i {
      j := i;
      assert Strip(s) == "";
    } else {
      assert Strip(s) == s[i..j];
    }
  }

  /** strip() leaves nothing exactly when the string is all whitespace. */
  lemma StripEmpty(s: string)
    ensures Strip(s) == "" <==> AllSpace(s)
  {
    var i, j := StripBounds(s);
  }

  /** Appending whitespace (the cascade's "\n\n" separators) does not survive strip(). */
  lemma StripIsStripped(s: string)
    ensures Stripped(Strip(s))
  {
    var i, j := StripBounds(s);
    if i < j {
      assert Strip(s)[0] == s[i] && Strip(s)[j - i - 1] == s[j - 1];
    }
  }

  /** Where the pieces of `w1 + m + w2` sit. */
  lemma ConcatPieces(w1: string, m: string, w2: string)
    ensures var s := w1 + m + w2;
      |s| == |w1| + |m| + |w2| &&
      (forall n :: 0 <= n < |w1| ==> s[n] == w1[n]) &&
      (forall n :: 0 <= n < |m| ==> s[|w1| + n] == m[n]) &&
      (forall n :: 0 <= n < |w2| ==> s[|w1| + |m| + n] == w2[n])
  {
  }

  /** Whitespace before `a` and from `b` on, with a core that neither starts nor
      ends with whitespace: strip() keeps exactly the core. */
  lemma StripAt(s: string, a: nat, b: nat)
    requires a <= b <= |s|
    requires forall n :: 0 <= n < a ==> IsSpace(s[n])
    requires forall n :: b <= n < |s| ==> IsSpace(s[n])
    requires a < b ==> !IsSpace(s[a]) && !IsSpace(s[b - 1])
    ensures Strip(s) == s[a..b]
  {
    if a == b {
      assert AllSpace(s) by {
        forall n | 0 <= n < |s| ensures IsSpace(s[n]) {
          if n >= a {
            assert n >= b;
          }
        }
      }
      StripEmpty(s);
    } else {
      SpaceRunOf(s, 0, a);
      SpaceRunBackOf(s, b, |s|);
    }
  }

  /** strip() removes exactly the whitespace around a stripped core. */
  lemma StripOf(w1: string, m: string, w2: string)
    requires AllSpace(w1) && AllSpace(w2) && Stripped(m)
    ensures Strip(w1 + m + w2) == m
  {
    var s := w1 + m + w2;
    var a, b := |w1|, |w1| + |m|;
    ConcatPieces(w1, m, w2);
    forall n | 0 <= n < a ensures IsSpace(s[n]) {
      assert s[n] == w1[n];
    }
    forall n | b <= n < |s| ensures IsSpace(s[n]) {
      assert s[n] == w2[n - b];
    }
    if a < b {
      assert s[a] == m[0] && s[b - 1] == m[|m| - 1];
    }
    StripAt(s, a, b);
    assert s[a..b] == m;
  }

  lemma StripIdempotent(s: string)
    ensures Strip(Strip(s)) == Strip(s)
  {
    StripIsStripped(s);
    StripOf([], Strip(s), []);
    assert [] + Strip(s) + [] == Strip(s);
  }

  /** strip() ignores whitespace appended at the end. */
  lemma StripAppendSpace(t: string, w: string)
    requires AllSpace(w)
    ensures Strip(t + w) == Strip(t)
  {
    var i, j := StripBounds(t);
    StripIsStripped(t);
    var w1, m, w2 := t[..i], t[i..j], t[j..] + w;
    assert AllSpace(w1);
    assert AllSpace(w2) by {
      forall n | 0 <= n < |w2| ensures IsSpace(w2[n]) {
        if n < |t| - j {
          assert w2[n] == t[j + n];
        } else {
          assert w2[n] == w[n - (|t| - j)];
        }
      }
    }
    assert t + w == w1 + m + w2;
    StripOf(w1, m, w2);
  }

  // ---------------------------------------------------------------------
  // lower()

  predicate IsUpper(c: char) {
    ('A' <= c <= 'Z') || ('\U{C0}' <= c <= '\U{DE}' && c != '\U{D7}')
  }

  function LowerChar(c: char): (d: char)
  {
    if IsUpper(c) then (c as int + 32) as char else c
  }

  /** `s.lower()`, character by character. */
  function Lower(s: string): (r: string)
    ensures |r| == |s|
    ensures forall k :: 0 <= k < |s| ==> r[k] == LowerChar(s[k])
  {
    seq(|s|, k requires 0 <= k < |s| => LowerChar(s[k]))
  }

  /** A string `lower()` leaves as it is. */
  predicate IsLower(s: string) {
    Lower(s) == s
  }

  lemma LowerIdempotent(s: string)
    ensures Lower(Lower(s)) == Lower(s)
  {
    assert forall k :: 0 <= k < |s| ==> LowerChar(LowerChar(s[k])) == LowerChar(s[k]);
  }

  lemma LowerAppend(a: string, b: string)
    ensures Lower(a + b) == Lower(a) + Lower(b)
  {
  }

  lemma LowerAllSpace(w: string)
    requires AllSpace(w)
    ensures AllSpace(Lower(w))
  {
  }

  /** lower() neither makes nor removes whitespace. */
  lemma LowerCharSpace(c: char)
    ensures IsSpace(LowerChar(c)) <==> IsSpace(c)
  {
  }

  /** lower() and strip() commute, so `q.lower().strip()` is stable under a second pass. */
  lemma LowerStripCommute(s: string)
    ensures Strip(Lower(s)) == Lower(Strip(s))
  {
    var i, j := StripBounds(s);
    var l := Lower(s);
    forall n | 0 <= n < |s| ensures IsSpace(l[n]) <==> IsSpace(s[n]) {
      LowerCharSpace(s[n]);
    }
    StripAt(l, i, j);
    assert l[i..j] == Lower(s[i..j]);
  }

  /** The normal form both the registry and the query expansion apply: `q.lower().strip()`. */
  function Normalize(q: string): string {
    Strip(Lower(q))
  }

  lemma NormalizeIdempotent(q: string)
    ensures Normalize(Normalize(q)) == Normalize(q)
    ensures IsLower(Normalize(q))
  {
    LowerStripCommute(Lower(q));
    LowerIdempotent(q);
    StripIdempotent(Lower(q));
    LowerStripCommute(q);
    LowerIdempotent(Strip(q));
  }

  // ---------------------------------------------------------------------
  // Substrings

  predicate IsPrefix(p: string, s: string) {
    |p| <= |s| && s[..|p|] == p
  }

  /** `p` occurs in `s` starting at index `i`. */
  predicate OccursAt(s: string, p: string, i: int) {
    0 <= i && i + |p| <= |s| && s[i..i + |p|] == p
  }

  /** Python's `p in s` for two strings. */
  predicate Contains(s: string, p: string) {
    exists i | 0 <= i <= |s| - |p| :: OccursAt(s, p, i)
  }

  lemma ContainsEmpty(s: string)
    ensures Contains(s, "")
  {
    assert OccursAt(s, "", 0);
  }

  lemma ContainsPrefix(p: string, s: string)
    requires IsPrefix(p, s)
    ensures Contains(s, p)
  {
    assert OccursAt(s, p, 0);
  }

  lemma ContainsLonger(s: string, p: string)
    requires |p| > |s|
    ensures !Contains(s, p)
  {
  }

  lemma ContainsInLeft(a: string, b: string, p: string)
    requires Contains(a, p)
    ensures Contains(a + b, p)
  {
    var i :| 0 <= i <= |a| - |p| && OccursAt(a, p, i);
    assert (a + b)[i..i + |p|] == a[i..i + |p|];
    assert OccursAt(a + b, p, i);
  }

  /** `s.replace(pat, "")`: occurrences removed left to right, without overlap;
      an empty pattern leaves the string as it is. */
  function RemoveAll(s: string, pat: string): (r: string)
    ensures |r| <= |s|
    decreases |s|
  {
    if pat == [] || s == [] then s
    else if IsPrefix(pat, s) then RemoveAll(s[|pat|..], pat)
    else [s[0]] + RemoveAll(s[1..], pat)
  }

  lemma {:induction false} RemoveAllGone(s: string, c: char)
    ensures c !in RemoveAll(s, [c])
    decreases |s|
  {
    if s != [] {
      if IsPrefix([c], s) {
        RemoveAllGone(s[1..], c);
      } else {
        RemoveAllGone(s[1..], c);
      }
    }
  }

  // ---------------------------------------------------------------------
  // "\n".join(lines) and its inverse

  function Join(lines: seq<string>, sep: char): (r: string)
  {
    if lines == [] then ""
    else if |lines| == 1 then lines[0]
    else lines[0] + [sep] + Join(lines[1..], sep)
  }

  /** Cuts a string at every `sep`; the inverse of `Join` for separator-free lines. */
  function Split(s: string, sep: char): (r: seq<string>)
    ensures |r| >= 1
    decreases |s|
  {
    if s == [] then [""]
    else
      var rest := Split(s[1..], sep);
      if s[0] == sep then [""] + rest
      else [[s[0]] + rest[0]] + rest[1..]
  }

  lemma {:induction false} SplitNoSep(a: string, sep: char, tail: string)
    requires sep !in a
    ensures Split(a + tail, sep) == [a + Split(tail, sep)[0]] + Split(tail, sep)[1..]
    decreases |a|
  {
    if a != [] {
      assert (a + tail)[1..] == a[1..] + tail;
      SplitNoSep(a[1..], sep, tail);
      assert [a[0]] + (a[1..] + Split(tail, sep)[0]) == a + Split(tail, sep)[0];
    } else {
      assert a + tail == tail;
      var r := Split(tail, sep);
      assert r == [r[0]] + r[1..];
      assert a + r[0] == r[0];
    }
  }

  lemma {:induction false} SplitJoin(lines: seq<string>, sep: char)
    requires lines != []
    requires forall k :: 0 <= k < |lines| ==> sep !in lines[k]
    ensures Split(Join(lines, sep), sep) == lines
    decreases |lines|
  {
    if |lines| == 1 {
      SplitNoSep(lines[0], sep, "");
      assert lines[0] + "" == lines[0];
    } else {
      var rest := Join(lines[1..], sep);
      SplitJoin(lines[1..], sep);
      assert lines[0] + [sep] + rest == lines[0] + ([sep] + rest);
      SplitNoSep(lines[0], sep, [sep] + rest);
      assert ([sep] + rest)[1..] == rest;
      assert Split([sep] + rest, sep) == [""] + Split(rest, sep);
      assert lines[0] + "" == lines[0];
      assert lines == [lines[0]] + lines[1..];
    }
  }
}
