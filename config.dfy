/**
 * The location registry (`LOCATIONS`) and its three-tier lookup
 * `get_location_config`: an exact id-or-name match, then an exact alias
 * match, then a substring match in either direction; within a tier the first
 * entry in table order wins, and no match at all is the empty config.
 */
module Config {
  import opened Wrappers
  import opened Text

  /** One registry entry; `id` is the dict key the entry is stored under. */
  datatype Location = Location(
    id: string,
    name: string,
    state: string,
    aliases: seq<string>,
    fallbackUrl: Option<string>)

  const ITAPIRUBA_FALLBACK_URL: string :=
    "https://www.centralsuldeleiloes.com.br/leilao/9867/lote/235407/imovel-com-area-de-375-00m2-no-loteamento-balneario-itapiruba-no-municipio-de-laguna-sc"

  const ITAPIRUBA: Location := Location("itapiruba", "Itapiruba", "SC",
    ["itapirubá", "itapiruba/sc", "itapirubá/sc"], Some(ITAPIRUBA_FALLBACK_URL))
  const FLORIANOPOLIS: Location := Location("florianopolis", "Florianópolis", "SC",
    ["floripa", "florianopolis/sc", "florianópolis/sc"], None)
  const BALNEARIO_CAMBORIU: Location := Location("balneario-camboriu", "Balneário Camboriú", "SC",
    ["balneario camboriu", "bc", "balneario", "camboriú", "camboriu"], None)
  const SAO_PAULO: Location := Location("sao-paulo", "São Paulo", "SP",
    ["sao paulo", "sp", "sao paulo/sp", "são paulo/sp"], None)
  const RIO_DE_JANEIRO: Location := Location("rio-de-janeiro", "Rio de Janeiro", "RJ",
    ["rio", "rj", "rio de janeiro", "rio de janeiro/rj"], None)

  lemma FallbackUrlNonEmpty()
    ensures ITAPIRUBA_FALLBACK_URL != ""
  {
    assert |ITAPIRUBA_FALLBACK_URL| > 0;
  }

  /** The registry, in the insertion order of the source's dict. */
  const LOCATIONS: seq<Location> := [ITAPIRUBA, FLORIANOPOLIS, BALNEARIO_CAMBORIU, SAO_PAULO, RIO_DE_JANEIRO]

  /** The three passes of the lookup, in the order they run. */
  datatype Tier = Exact | Alias | Partial

  function Rank(t: Tier): nat {
    match t
    case Exact => 0
    case Alias => 1
    case Partial => 2
  }

  /** Whether entry `loc` is a hit for the normalised query `q` on tier `t`. */
  predicate Matches(t: Tier, loc: Location, q: string) {
    match t
    case Exact => q == loc.id || q == Lower(loc.name)
    case Alias => exists a | a in loc.aliases :: Lower(a) == q
    case Partial =>
      Contains(q, loc.id) || Contains(loc.id, q) ||
      exists a | a in loc.aliases :: Contains(q, Lower(a)) || Contains(Lower(a), q)
  }

  /** The index of the first entry of `locs` that is a hit on tier `t`. */
  function FirstMatch(t: Tier, locs: seq<Location>, q: string): (r: Option<nat>)
    ensures r.Some? ==> r.value < |locs| && Matches(t, locs[r.value], q)
    ensures r.Some? ==> forall j :: 0 <= j < r.value ==> !Matches(t, locs[j], q)
    ensures r.None? ==> forall j :: 0 <= j < |locs| ==> !Matches(t, locs[j], q)
  {
    if locs == [] then None
    else if Matches(t, locs[0], q) then Some(0)
    else
      match FirstMatch(t, locs[1..], q)
      case None => None
      case Some(i) => Some(i + 1)
  }

  /** `i` is the first registry entry that is a hit on tier `t`. */
  ghost predicate FirstIn(t: Tier, q: string, i: nat) {
    i < |LOCATIONS| && Matches(t, LOCATIONS[i], q) &&
    forall j :: 0 <= j < i ==> !Matches(t, LOCATIONS[j], q)
  }

  ghost predicate NoneIn(t: Tier, q: string) {
    forall j :: 0 <= j < |LOCATIONS| ==> !Matches(t, LOCATIONS[j], q)
  }

  /** `get_location_config(query)`; `None` is the empty config `{}`. */
  function GetLocationConfig(query: string): (r: Option<Location>)
    ensures r.Some? ==> r.value in LOCATIONS
    ensures r.None? <==> NoneIn(Exact, Normalize(query)) && NoneIn(Alias, Normalize(query)) && NoneIn(Partial, Normalize(query))
  {
    Lookup(Normalize(query))
  }

  /** The three passes over the registry for the already normalised query `q`. */
  function Lookup(q: string): (r: Option<Location>)
    ensures r.Some? ==> r.value in LOCATIONS
    ensures r.None? <==> NoneIn(Exact, q) && NoneIn(Alias, q) && NoneIn(Partial, q)
  {
    match FirstMatch(Exact, LOCATIONS, q)
    case Some(i) => Some(LOCATIONS[i])
    case None =>
      match FirstMatch(Alias, LOCATIONS, q)
      case Some(i) => Some(LOCATIONS[i])
      case None =>
        match FirstMatch(Partial, LOCATIONS, q)
        case Some(i) => Some(LOCATIONS[i])
        case None => None
  }

  /** Tier precedence: the first hit of the first tier that has any hit is the result. */
  lemma {:induction false} TierPrecedence(query: string, t: Tier, i: nat)
    requires FirstIn(t, Normalize(query), i)
    requires forall t' :: Rank(t') < Rank(t) ==> NoneIn(t', Normalize(query))
    ensures GetLocationConfig(query) == Some(LOCATIONS[i])
  {
    var q := Normalize(query);
    FirstMatchFinds(t, q, i);
    match t
    case Exact =>
    case Alias =>
      assert NoneIn(Exact, q);
    case Partial =>
      assert NoneIn(Exact, q) && Rank(Alias) < Rank(Partial);
  }

  lemma FirstMatchFinds(t: Tier, q: string, i: nat)
    requires FirstIn(t, q, i)
    ensures FirstMatch(t, LOCATIONS, q) == Some(i)
  {
    assert Matches(t, LOCATIONS[i], q);
  }

  /** An entry whose id, name and aliases are all non-empty is no exact or alias hit
      for the empty query. */
  lemma NoBlankExactOrAlias(loc: Location)
    requires loc.id != "" && loc.name != "" && forall a | a in loc.aliases :: a != ""
    ensures !Matches(Exact, loc, "") && !Matches(Alias, loc, "")
  {
    assert |Lower(loc.name)| == |loc.name|;
    forall a | a in loc.aliases ensures Lower(a) != "" {
      assert |Lower(a)| == |a|;
    }
  }

  /** A query made only of white space (the empty query included) resolves to the first entry,
      through the partial tier: the empty string occurs in every id. */
  lemma BlankQueryResolvesToFirst(query: string)
    requires AllSpace(query)
    ensures GetLocationConfig(query) == Some(LOCATIONS[0])
  {
    LowerAllSpace(query);
    StripEmpty(Lower(query));
    assert Normalize(query) == "";
    ContainsEmpty(LOCATIONS[0].id);
    assert FirstIn(Partial, "", 0);
    forall j | 0 <= j < |LOCATIONS|
      ensures !Matches(Exact, LOCATIONS[j], "") && !Matches(Alias, LOCATIONS[j], "")
    {
      NoBlankExactOrAlias(LOCATIONS[j]);
    }
    TierPrecedence(query, Partial, 0);
  }

  /** Only the first entry carries a fallback URL, so only a query that resolves to it yields one. */
  lemma FallbackOnlyForFirst(query: string)
    requires GetLocationConfig(query).Some? && GetLocationConfig(query).value.fallbackUrl.Some?
    ensures GetLocationConfig(query) == Some(LOCATIONS[0])
    ensures GetLocationConfig(query).value.fallbackUrl == Some(ITAPIRUBA_FALLBACK_URL)
  {
  }

  /** The lookup is insensitive to case and to surrounding white space: it sees only the normalised query. */
  lemma {:induction false} LookupSeesNormalized(query: string)
    ensures GetLocationConfig(Normalize(query)) == GetLocationConfig(query)
  {
    NormalizeIdempotent(query);
  }

  /** Every substring of a registry id, the empty query included, resolves to some entry. */
  lemma SubstringOfIdResolves(query: string, i: nat)
    requires i < |LOCATIONS| && Contains(LOCATIONS[i].id, Normalize(query))
    ensures GetLocationConfig(query).Some?
  {
    assert Matches(Partial, LOCATIONS[i], Normalize(query));
  }

  /** When the lookup of an already normalised query comes back empty, no entry lists the query
      among its aliases and no id contains it: the alias tier and the partial tier test exactly that. */
  lemma {:induction false} EmptyLookupExcludesAliasAndId(query: string)
    requires GetLocationConfig(Normalize(query)).None?
    ensures forall j :: 0 <= j < |LOCATIONS| ==>
      Normalize(query) !in LOCATIONS[j].aliases && !Contains(LOCATIONS[j].id, Normalize(query))
  {
    var q := Normalize(query);
    NormalizeIdempotent(query);
    assert NoneIn(Alias, q) && NoneIn(Partial, q);
    forall j | 0 <= j < |LOCATIONS|
      ensures q !in LOCATIONS[j].aliases && !Contains(LOCATIONS[j].id, q)
    {
      NoHitExcludes(LOCATIONS[j], q);
    }
  }

  /** A lower-case query that is neither an alias-tier nor a partial-tier hit is not
      listed verbatim among the aliases and does not occur in the id. */
  lemma NoHitExcludes(loc: Location, q: string)
    requires IsLower(q) && !Matches(Alias, loc, q) && !Matches(Partial, loc, q)
    ensures q !in loc.aliases && !Contains(loc.id, q)
  {
    assert q in loc.aliases ==> Lower(q) == q;
  }
}
