/**
 * Query expansion (`_generate_query_variations`): the normalised query first,
 * then either the registry entry's lowered name, aliases and `name/state`, or,
 * with no registry entry, the accent-stripped query and the query without
 * slashes; finally every candidate is lowered and duplicates are removed,
 * keeping first-seen order.
 */
module Variations {
  import opened Wrappers
  import opened Text
  import opened Seqs
  import opened Config

  // ---------------------------------------------------------------------
  // Accent stripping: canonical decomposition followed by dropping the
  // non-spacing marks, over the Latin-1 letters and the combining
  // diacritical marks block.

  /** Combining diacritical marks (U+0300 to U+036F), all of category Mn. */
  predicate IsCombiningMark(c: char) {
    '\U{0300}' <= c <= '\U{036F}'
  }

  /** The base letter a Latin-1 letter decomposes to, or the character itself
      when it has no canonical decomposition. */
  function BaseLetter(c: char): (b: char)
    ensures c < '\U{00C0}' ==> b == c
  {
    if '\U{00C0}' <= c <= '\U{00C5}' then 'A'
    else if c == '\U{00C7}' then 'C'
    else if '\U{00C8}' <= c <= '\U{00CB}' then 'E'
    else if '\U{00CC}' <= c <= '\U{00CF}' then 'I'
    else if c == '\U{00D1}' then 'N'
    else if '\U{00D2}' <= c <= '\U{00D6}' then 'O'
    else if '\U{00D9}' <= c <= '\U{00DC}' then 'U'
    else if c == '\U{00DD}' then 'Y'
    else if '\U{00E0}' <= c <= '\U{00E5}' then 'a'
    else if c == '\U{00E7}' then 'c'
    else if '\U{00E8}' <= c <= '\U{00EB}' then 'e'
    else if '\U{00EC}' <= c <= '\U{00EF}' then 'i'
    else if c == '\U{00F1}' then 'n'
    else if '\U{00F2}' <= c <= '\U{00F6}' then 'o'
    else if '\U{00F9}' <= c <= '\U{00FC}' then 'u'
    else if c == '\U{00FD}' || c == '\U{00FF}' then 'y'
    else c
  }

  function StripAccents(s: string): (r: string)
    ensures |r| <= |s|
    ensures forall i :: 0 <= i < |r| ==> !IsCombiningMark(r[i])
  {
    if s == [] then []
    else if IsCombiningMark(s[0]) then StripAccents(s[1..])
    else
      assert !IsCombiningMark(BaseLetter(s[0]));
      [BaseLetter(s[0])] + StripAccents(s[1..])
  }

  /** Plain ASCII text is left as it is. */
  lemma {:induction false} StripAccentsAscii(s: string)
    requires forall i :: 0 <= i < |s| ==> s[i] < '\U{0080}'
    ensures StripAccents(s) == s
  {
    if s != [] {
      StripAccentsAscii(s[1..]);
      assert s == [s[0]] + s[1..];
    }
  }

  // ---------------------------------------------------------------------
  // The candidate list and its deduplication

  function LowerAll(xs: seq<string>): (r: seq<string>)
    ensures |r| == |xs|
    ensures forall i :: 0 <= i < |xs| ==> r[i] == Lower(xs[i])
  {
    seq(|xs|, i requires 0 <= i < |xs| => Lower(xs[i]))
  }

  /** The state-code heuristic: `query/state` for the first entry that lists the
      query among its aliases or whose id contains it. */
  function StateCode(q: string, locs: seq<Location>): (r: seq<string>)
    ensures |r| <= 1
  {
    if locs == [] then []
    else if q in locs[0].aliases || Contains(locs[0].id, q) then [q + "/" + Lower(locs[0].state)]
    else StateCode(q, locs[1..])
  }

  /** Every candidate in the order the source appends them, before lowering and deduplication. */
  function RawVariations(query: string): (r: seq<string>)
    ensures r != [] && r[0] == Normalize(query)
  {
    Candidates(Normalize(query))
  }

  function Candidates(q: string): (r: seq<string>)
    ensures r != [] && r[0] == q
  {
    match GetLocationConfig(q)
    case Some(loc) =>
      [q, Lower(loc.name)] + LowerAll(loc.aliases) + [Lower(loc.name) + "/" + Lower(loc.state)]
    case None =>
      var normalized := StripAccents(q);
      [q] + (if normalized != q then [normalized] else [])
        + (if '/' in q then [RemoveAll(q, "/")] else StateCode(q, LOCATIONS))
  }

  function QueryVariations(query: string): seq<string> {
    Dedupe(LowerAll(RawVariations(query)))
  }

  /** `_generate_query_variations(query)`. */
  method GenerateQueryVariations(query: string) returns (unique: seq<string>)
    ensures unique == QueryVariations(query)
  {
    var q := Normalize(query);
    var variations := [q];
    var config := GetLocationConfig(q);
    if config.Some? {
      var loc := config.value;
      variations := variations + [Lower(loc.name)];
      variations := variations + LowerAll(loc.aliases);
      variations := variations + [Lower(loc.name) + "/" + Lower(loc.state)];
      AppendShape(q, Lower(loc.name), LowerAll(loc.aliases), Lower(loc.name) + "/" + Lower(loc.state));
    } else {
      var normalized := StripAccents(q);
      if normalized != q {
        variations := variations + [normalized];
      }
      ghost var accent := variations;
      assert accent == [q] + (if normalized != q then [normalized] else []);
      if '/' in q {
        variations := variations + [RemoveAll(q, "/")];
      } else {
        var extra := AddStateCode(q);
        variations := variations + extra;
      }
      assert variations == accent + (if '/' in q then [RemoveAll(q, "/")] else StateCode(q, LOCATIONS));
    }
    assert variations == Candidates(q);
    unique := LowerUnique(variations);
  }

  lemma AppendShape<T>(a: T, b: T, m: seq<T>, c: T)
    ensures [a] + [b] + m + [c] == [a, b] + m + [c]
  {
    assert [a] + [b] == [a, b];
  }

  /** The loop over the registry that appends `query/state` for the first entry it fits. */
  method AddStateCode(q: string) returns (extra: seq<string>)
    ensures extra == StateCode(q, LOCATIONS)
  {
    extra := [];
    var i := 0;
    while i < |LOCATIONS|
      invariant 0 <= i <= |LOCATIONS|
      invariant StateCode(q, LOCATIONS) == StateCode(q, LOCATIONS[i..])
    {
      var loc := LOCATIONS[i];
      if q in loc.aliases || Contains(loc.id, q) {
        extra := [q + "/" + Lower(loc.state)];
        return;
      }
      assert LOCATIONS[i..][1..] == LOCATIONS[i + 1..];
      i := i + 1;
    }
  }

  /** The closing loop: lower every candidate and keep it unless already kept. */
  method LowerUnique(variations: seq<string>) returns (unique: seq<string>)
    ensures unique == Dedupe(LowerAll(variations))
  {
    unique := [];
    var j := 0;
    while j < |variations|
      invariant 0 <= j <= |variations|
      invariant unique == Dedupe(LowerAll(variations[..j]))
    {
      var v := Lower(variations[j]);
      assert LowerAll(variations[..j + 1])[..j] == LowerAll(variations[..j]);
      if v !in unique {
        unique := unique + [v];
      }
      j := j + 1;
    }
    assert variations[..j] == variations;
  }

  // ---------------------------------------------------------------------
  // Properties

  /** The first variation is the query lowered and stripped. */
  lemma VariationsStartWithQuery(query: string)
    ensures |QueryVariations(query)| >= 1
    ensures QueryVariations(query)[0] == Normalize(query)
  {
    NormalizeIdempotent(query);
  }

  /** Every variation is lower case, none occurs twice, and there are no more
      variations than candidates. */
  lemma {:induction false} VariationsLowerDistinct(query: string, i: nat)
    requires i < |QueryVariations(query)|
    ensures IsLower(QueryVariations(query)[i])
    ensures Distinct(QueryVariations(query))
    ensures |QueryVariations(query)| <= |RawVariations(query)|
  {
    var lowered := LowerAll(RawVariations(query));
    var v := QueryVariations(query)[i];
    assert v in lowered;
    var k :| 0 <= k < |lowered| && lowered[k] == v;
    LowerIdempotent(RawVariations(query)[k]);
  }

  /** A query the registry resolves contributes the entry's lowered name, every
      lowered alias and `name/state` to the variations. */
  lemma VariationsCoverLocation(query: string, loc: Location)
    requires GetLocationConfig(Normalize(query)) == Some(loc)
    ensures Lower(loc.name) in QueryVariations(query)
    ensures forall a :: a in loc.aliases ==> Lower(a) in QueryVariations(query)
    ensures Lower(loc.name) + "/" + Lower(loc.state) in QueryVariations(query)
  {
    var raw := RawVariations(query);
    NameCandidateKept(raw, Normalize(query), loc);
    StateCandidateKept(raw, Normalize(query), loc);
    AliasCandidatesKept(raw, Normalize(query), loc);
  }

  /** The lowered name sits right after the query. */
  lemma NameCandidateKept(raw: seq<string>, q: string, loc: Location)
    requires raw == [q, Lower(loc.name)] + LowerAll(loc.aliases) + [Lower(loc.name) + "/" + Lower(loc.state)]
    ensures Lower(loc.name) in Dedupe(LowerAll(raw))
  {
    assert raw[1] == Lower(loc.name);
    LowerIdempotent(loc.name);
    LoweredKept(raw, 1);
  }

  /** `name/state` comes last and is already lower case. */
  lemma StateCandidateKept(raw: seq<string>, q: string, loc: Location)
    requires raw == [q, Lower(loc.name)] + LowerAll(loc.aliases) + [Lower(loc.name) + "/" + Lower(loc.state)]
    ensures Lower(loc.name) + "/" + Lower(loc.state) in Dedupe(LowerAll(raw))
  {
    var n := |loc.aliases|;
    var ns := Lower(loc.name) + "/" + Lower(loc.state);
    assert raw[n + 2] == ns;
    LowerAppend(Lower(loc.name) + "/", Lower(loc.state));
    LowerAppend(Lower(loc.name), "/");
    LowerIdempotent(loc.name);
    LowerIdempotent(loc.state);
    assert Lower("/") == "/";
    LoweredKept(raw, n + 2);
  }

  /** The lowered aliases follow the name, in the registry's order. */
  lemma AliasCandidatesKept(raw: seq<string>, q: string, loc: Location)
    requires raw == [q, Lower(loc.name)] + LowerAll(loc.aliases) + [Lower(loc.name) + "/" + Lower(loc.state)]
    ensures forall a :: a in loc.aliases ==> Lower(a) in Dedupe(LowerAll(raw))
  {
    forall a | a in loc.aliases ensures Lower(a) in Dedupe(LowerAll(raw)) {
      var k :| 0 <= k < |loc.aliases| && loc.aliases[k] == a;
      assert raw[k + 2] == Lower(a);
      LowerIdempotent(a);
      LoweredKept(raw, k + 2);
    }
  }

  /** A candidate that is already lower case survives into the deduplicated list. */
  lemma LoweredKept(raw: seq<string>, k: nat)
    requires k < |raw| && IsLower(raw[k])
    ensures raw[k] in Dedupe(LowerAll(raw))
  {
    assert LowerAll(raw)[k] == raw[k];
  }

  /** With no registry entry the state-code loop never adds anything: the lookup's
      alias and partial tiers already test both of its conditions. */
  lemma {:induction false} StateCodeLoopIsDead(query: string)
    requires GetLocationConfig(Normalize(query)).None?
    ensures StateCode(Normalize(query), LOCATIONS) == []
  {
    EmptyLookupExcludesAliasAndId(query);
    StateCodeNone(Normalize(query), LOCATIONS);
  }

  lemma {:induction false} StateCodeNone(q: string, locs: seq<Location>)
    requires forall j :: 0 <= j < |locs| ==> q !in locs[j].aliases && !Contains(locs[j].id, q)
    ensures StateCode(q, locs) == []
    decreases |locs|
  {
    if locs != [] {
      assert q !in locs[0].aliases && !Contains(locs[0].id, q);
      StateCodeNone(q, locs[1..]);
    }
  }
}
