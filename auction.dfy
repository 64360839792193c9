/**
 * The `Auction` dataclass and its two conversions.  `from_dict` works on a copy
 * of its argument: every key that is not a dataclass field is popped into a
 * fresh `metadata` dict, a non-list `images` is coerced to a list, and the
 * constructor is called with what is left.  `to_dict` writes the fixed fields
 * and then every metadata key that is not already present.
 *
 * The dataclass does not check types, so every field holds a `Value`.  The
 * clock (`datetime.now()`, the `created_at` default) is the parameter `now`,
 * and `created_at.isoformat()` is the parameter `isoformat` (`None` when the
 * stored value has no such method).
 */
module AuctionModel {
  import opened Wrappers
  import opened Values

  /** The dataclass fields in declaration order (`Auction.__annotations__`). */
  const FIELDS: seq<string> := ["title", "url", "auction_title", "auction_url", "description",
    "evaluation", "minimum_bid", "current_bid", "next_session", "closing_at", "status",
    "images", "source", "location", "relevance", "metadata", "created_at"]

  const IMAGES := 11
  const METADATA := 15
  const CREATED_AT := 16

  datatype Auction = Auction(
    title: Value, url: Value, auctionTitle: Value, auctionUrl: Value, description: Value,
    evaluation: Value, minimumBid: Value, currentBid: Value, nextSession: Value,
    closingAt: Value, status: Value, images: Value, source: Value, location: Value,
    relevance: Value, metadata: Value, createdAt: Value)

  /** The field declared `j`-th. */
  function FieldAt(a: Auction, j: nat): Value
    requires j < |FIELDS|
  {
    match j
    case 0 => a.title
    case 1 => a.url
    case 2 => a.auctionTitle
    case 3 => a.auctionUrl
    case 4 => a.description
    case 5 => a.evaluation
    case 6 => a.minimumBid
    case 7 => a.currentBid
    case 8 => a.nextSession
    case 9 => a.closingAt
    case 10 => a.status
    case 11 => a.images
    case 12 => a.source
    case 13 => a.location
    case 14 => a.relevance
    case 15 => a.metadata
    case _ => a.createdAt
  }

  /** The default of the field declared `j`-th; `title` and `url` have none. */
  function DefaultAt(j: nat, now: Value): Value
    requires j < |FIELDS|
  {
    match j
    case 2 => VStr("")
    case 3 => VStr("")
    case 4 => VStr("")
    case 11 => VList([])
    case 12 => VStr("")
    case 14 => VMap([])
    case 15 => VMap([])
    case 16 => now
    case _ => VNone
  }

  /** Every declared name is a different one. */
  lemma FieldsDistinct()
    ensures forall i, j :: 0 <= i < j < |FIELDS| ==> FIELDS[i] != FIELDS[j]
  {
    forall i, j | 0 <= i < j < |FIELDS| ensures FIELDS[i] != FIELDS[j] {
      if |FIELDS[i]| == |FIELDS[j]| {
        assert FIELDS[i][0] != FIELDS[j][0] || FIELDS[i][1] != FIELDS[j][1] || FIELDS[i][2] != FIELDS[j][2];
      }
    }
  }

  /** Where `k` is declared among the fields from the `i`-th on. */
  function FieldIndexFrom(k: string, i: nat): (o: Option<nat>)
    requires i <= |FIELDS|
    ensures o.Some? ==> i <= o.value < |FIELDS| && FIELDS[o.value] == k
    decreases |FIELDS| - i
  {
    if i == |FIELDS| then None else if FIELDS[i] == k then Some(i) else FieldIndexFrom(k, i + 1)
  }

  /** `k in cls.__annotations__`. */
  predicate IsField(k: string) {
    FieldIndexFrom(k, 0).Some?
  }

  lemma {:induction false} FieldIndexFromNone(k: string, i: nat)
    requires i <= |FIELDS|
    ensures FieldIndexFrom(k, i).None? <==> forall j :: i <= j < |FIELDS| ==> FIELDS[j] != k
    decreases |FIELDS| - i
  {
    if i < |FIELDS| && FIELDS[i] != k {
      FieldIndexFromNone(k, i + 1);
    }
  }

  /** A name is a field exactly when it is declared. */
  lemma IsFieldSpec(k: string)
    ensures IsField(k) <==> exists j :: 0 <= j < |FIELDS| && FIELDS[j] == k
  {
    FieldIndexFromNone(k, 0);
  }

  lemma IsFieldAt(j: nat)
    requires j < |FIELDS|
    ensures IsField(FIELDS[j])
  {
    IsFieldSpec(FIELDS[j]);
  }

  /** `key in cls.__annotations__ or key == 'images'`: the key stays in the copy. */
  predicate KeepsKey(k: string) {
    IsField(k) || k == "images"
  }

  /** The copy keeps exactly the fields. */
  lemma KeepsKeySpec(k: string)
    ensures KeepsKey(k) <==> IsField(k)
  {
    IsFieldAt(IMAGES);
  }

  /** `image_url` is not a field. */
  lemma ImageUrlNotAField()
    ensures !KeepsKey("image_url")
  {
    forall j | 0 <= j < |FIELDS| ensures FIELDS[j] != "image_url" {
      if |FIELDS[j]| == 9 {
        assert FIELDS[j][0] != 'i';
      }
    }
    IsFieldSpec("image_url");
    KeepsKeySpec("image_url");
  }

  // ---------------------------------------------------------------------
  // Lookups on records

  /** Looking a key up after one more pair. */
  lemma GetSnoc(p: Record, x: (string, Value), k: string)
    ensures Get(p + [x], k) == if HasKey(p, k) then Get(p, k) else if x.0 == k then Some(x.1) else None
  {
    FindFromSnoc(p, x, k, 0);
    FindFromFirst(p, k, 0);
    HasKeyAt(p, k);
    match FindFrom(p, k, 0)
    case Some(i) =>
      assert (p + [x])[i] == p[i];
    case None =>
      assert (p + [x])[|p|] == x;
  }

  /** `r.pop(k)` for the value already read: the first pair with the key goes. */
  function Remove(r: Record, k: string): Record {
    match FindFrom(r, k, 0)
    case Some(j) => r[..j] + r[j + 1..]
    case None => r
  }

  /** A key found right after a run of other keys is popped from that position. */
  lemma RemoveAfter(p: Record, rest: Record, k: string)
    requires forall j :: 0 <= j < |p| ==> p[j].0 != k
    requires rest != [] && rest[0].0 == k
    ensures Get(p + rest, k) == Some(rest[0].1)
    ensures Remove(p + rest, k) == p + rest[1..]
  {
    var s := p + rest;
    FindFromFirst(s, k, 0);
    assert s[|p|] == rest[0];
    assert forall j :: 0 <= j < |p| ==> s[j] == p[j];
    assert s[..|p|] == p;
    assert s[|p| + 1..] == rest[1..];
  }

  // ---------------------------------------------------------------------
  // from_dict

  /** The pairs of the first `n` that the copy keeps, in order. */
  function Kept(data: Record, n: nat): Record
    requires n <= |data|
  {
    if n == 0 then []
    else if KeepsKey(data[n - 1].0) then Kept(data, n - 1) + [data[n - 1]]
    else Kept(data, n - 1)
  }

  lemma {:induction false} KeptKeys(data: Record, n: nat)
    requires n <= |data|
    ensures forall j :: 0 <= j < |Kept(data, n)| ==> KeepsKey(Kept(data, n)[j].0)
  {
    if n > 0 {
      KeptKeys(data, n - 1);
    }
  }

  /** `metadata[key] = value` for every other pair of the first `n`, in order. */
  function Extras(data: Record, n: nat): Record
    requires n <= |data|
  {
    if n == 0 then []
    else if KeepsKey(data[n - 1].0) then Extras(data, n - 1)
    else Set(Extras(data, n - 1), data[n - 1].0, data[n - 1].1)
  }

  /** `images` after lines 41-45: `None` becomes `[]`, another non-list `x` becomes `[x]`. */
  function CoerceImages(d: Record): Record {
    var images := GetOr(d, "images", VNone);
    if HasKey(d, "images") && !images.VList? then
      Set(d, "images", if images.VNone? then VList([]) else VList([images]))
    else d
  }

  /** `images` is absent or a list. */
  predicate ImagesAreList(d: Record) {
    HasKey(d, "images") ==> GetOr(d, "images", VNone).VList?
  }

  /** Lines 48-53: a truthy `image_url` replaces a falsy `images`, or else is appended
      to it, and is popped. */
  function FoldImageUrl(d: Record): Record
    requires ImagesAreList(d)
  {
    var imageUrl := GetOr(d, "image_url", VNone);
    if HasKey(d, "image_url") && Truthy(imageUrl) then
      var images := GetOr(d, "images", VNone);
      var d' := if !HasKey(d, "images") || !Truthy(images) then Set(d, "images", VList([imageUrl]))
                else Set(d, "images", VList(images.items + [imageUrl]));
      Remove(d', "image_url")
    else d
  }

  /** The keyword argument for the field declared `j`-th, or the field's default. */
  function Argument(d: Record, j: nat, now: Value): Value
    requires j < |FIELDS|
  {
    GetOr(d, FIELDS[j], DefaultAt(j, now))
  }

  /** Every key of `d` from the `i`-th on is a field. */
  predicate FieldsFrom(d: Record, i: nat)
    requires i <= |d|
    decreases |d| - i
  {
    i == |d| || (IsField(d[i].0) && FieldsFrom(d, i + 1))
  }

  lemma {:induction false} FieldsFromSpec(d: Record, i: nat)
    requires i <= |d|
    ensures FieldsFrom(d, i) <==> forall j :: i <= j < |d| ==> IsField(d[j].0)
    decreases |d| - i
  {
    if i < |d| {
      FieldsFromSpec(d, i + 1);
    }
  }

  /** `cls(**d)`: a key that is not a field is an unexpected argument, and a missing
      `title` or `url` a missing one; every other field takes its default. */
  function Construct(d: Record, now: Value): Result<Auction> {
    if !FieldsFrom(d, 0) then Err("unexpected keyword argument")
    else if !HasKey(d, FIELDS[0]) || !HasKey(d, FIELDS[1]) then Err("missing required positional argument")
    else Ok(Auction(
      Argument(d, 0, now), Argument(d, 1, now), Argument(d, 2, now), Argument(d, 3, now),
      Argument(d, 4, now), Argument(d, 5, now), Argument(d, 6, now), Argument(d, 7, now),
      Argument(d, 8, now), Argument(d, 9, now), Argument(d, 10, now), Argument(d, 11, now),
      Argument(d, 12, now), Argument(d, 13, now), Argument(d, 14, now), Argument(d, 15, now),
      Argument(d, 16, now)))
  }

  /** The arguments `from_dict` passes to the constructor.  The `image_url` step of
      lines 48-53 is left out: `ImageUrlNeverFolded` shows it changes nothing. */
  function Arguments(data: Record): Record {
    Set(CoerceImages(Kept(data, |data|)), "metadata", VMap(Extras(data, |data|)))
  }

  function FromDictOf(data: Record, now: Value): Result<Auction> {
    Construct(Arguments(data), now)
  }

  /** A turn of the loop of lines 36-38 on a field: it stays in the copy. */
  lemma KeepStep(data: Record, i: nat)
    requires i < |data| && KeepsKey(data[i].0)
    ensures Kept(data, i + 1) + data[i + 1..] == Kept(data, i) + data[i..]
    ensures Extras(data, i + 1) == Extras(data, i)
  {
    assert data[i..] == [data[i]] + data[i + 1..];
  }

  /** A turn on any other key: it is popped from the copy into the metadata. */
  lemma PopStep(data: Record, i: nat)
    requires i < |data| && !KeepsKey(data[i].0)
    ensures Get(Kept(data, i) + data[i..], data[i].0) == Some(data[i].1)
    ensures Remove(Kept(data, i) + data[i..], data[i].0) == Kept(data, i + 1) + data[i + 1..]
    ensures Extras(data, i + 1) == Set(Extras(data, i), data[i].0, data[i].1)
  {
    KeptKeys(data, i);
    RemoveAfter(Kept(data, i), data[i..], data[i].0);
    assert data[i..][1..] == data[i + 1..];
  }

  /** Lines 32-38: the copy of `data` with every key that is not a field popped, and
      the `metadata` dict they were popped into.  The loop walks a snapshot of the keys,
      which are the keys of `data` in order. */
  method SplitFields(data: Record) returns (auctionData: Record, metadata: Record)
    ensures auctionData == Kept(data, |data|)
    ensures metadata == Extras(data, |data|)
  {
    auctionData := data;
    metadata := [];
    for i := 0 to |data|
      invariant auctionData == Kept(data, i) + data[i..]
      invariant metadata == Extras(data, i)
    {
      var key := data[i].0;
      if !KeepsKey(key) {
        PopStep(data, i);
        auctionData, metadata := PopInto(auctionData, metadata, key);
      } else {
        KeepStep(data, i);
      }
    }
    assert data[|data|..] == [];
  }

  /** `metadata[key] = auction_data.pop(key)`. */
  method PopInto(auctionData: Record, metadata: Record, key: string) returns (rest: Record, metadata': Record)
    ensures rest == Remove(auctionData, key)
    ensures metadata' == Set(metadata, key, GetOr(auctionData, key, VNone))
  {
    var value := GetOr(auctionData, key, VNone);
    rest := Remove(auctionData, key);
    metadata' := Set(metadata, key, value);
  }

  /** `Auction.from_dict(data)`, with `now` the clock reading of the `created_at` default. */
  method FromDict(data: Record, now: Value) returns (r: Result<Auction>)
    ensures r == FromDictOf(data, now)
  {
    var auctionData, metadata := SplitFields(data);
    CoercedImagesAreList(auctionData);
    auctionData := CoerceImages(auctionData);
    ImageUrlNeverFolded(data);
    auctionData := FoldImageUrl(auctionData);
    auctionData := Set(auctionData, "metadata", VMap(metadata));
    r := Construct(auctionData, now);
  }

  // ---------------------------------------------------------------------
  // Properties of from_dict

  /** The copy keeps, for each key it keeps, the value `data` holds. */
  lemma {:induction false} KeptGetUpTo(data: Record, n: nat, k: string)
    requires n <= |data|
    ensures Get(Kept(data, n), k) == if KeepsKey(k) then Get(data[..n], k) else None
  {
    if n == 0 {
      assert FindFrom([], k, 0).None?;
    } else {
      KeptGetUpTo(data, n - 1, k);
      var p, x := Kept(data, n - 1), data[n - 1];
      assert data[..n] == data[..n - 1] + [x];
      GetSnoc(data[..n - 1], x, k);
      GetSome(data[..n - 1], k);
      GetSome(p, k);
      if KeepsKey(x.0) {
        GetSnoc(p, x, k);
      }
    }
  }

  lemma KeptGet(data: Record, k: string)
    ensures Get(Kept(data, |data|), k) == if KeepsKey(k) then Get(data, k) else None
  {
    KeptGetUpTo(data, |data|, k);
    assert data[..|data|] == data;
  }

  /** The metadata holds, for each key the copy drops, the last value `data` gives it. */
  lemma {:induction false} ExtrasGetUpTo(data: Record, n: nat, k: string)
    requires n <= |data|
    ensures Get(Extras(data, n), k) == if KeepsKey(k) then None else LastIn(data, k, n)
  {
    if n == 0 {
      assert FindFrom([], k, 0).None?;
    } else {
      ExtrasGetUpTo(data, n - 1, k);
      var x := data[n - 1];
      if !KeepsKey(x.0) {
        SetGet(Extras(data, n - 1), x.0, x.1);
      }
    }
  }

  lemma {:induction false} ExtrasWellFormed(data: Record, n: nat)
    requires n <= |data|
    ensures WellFormed(Extras(data, n))
  {
    if n > 0 {
      ExtrasWellFormed(data, n - 1);
      if !KeepsKey(data[n - 1].0) {
        SetWellFormed(Extras(data, n - 1), data[n - 1].0, data[n - 1].1);
      }
    }
  }

  lemma CoercedImagesAreList(d: Record)
    ensures ImagesAreList(CoerceImages(d))
    ensures forall k :: k != "images" ==> Get(CoerceImages(d), k) == Get(d, k)
    ensures forall j :: 0 <= j < |CoerceImages(d)| ==> CoerceImages(d)[j].0 == "images" || exists i :: 0 <= i < |d| && CoerceImages(d)[j].0 == d[i].0
  {
    var images := GetOr(d, "images", VNone);
    if HasKey(d, "images") && !images.VList? {
      var v := if images.VNone? then VList([]) else VList([images]);
      SetGet(d, "images", v);
      GetSome(Set(d, "images", v), "images");
      FindFromFirst(d, "images", 0);
      if FindFrom(d, "images", 0).Some? {
        assert forall j :: 0 <= j < |d| ==> Set(d, "images", v)[j].0 == d[j].0;
      }
    }
  }

  /** Lines 48-53 never fire: `image_url` is not a field, so the copy no longer has it. */
  lemma ImageUrlNeverFolded(data: Record)
    ensures ImagesAreList(CoerceImages(Kept(data, |data|)))
    ensures !HasKey(CoerceImages(Kept(data, |data|)), "image_url")
    ensures FoldImageUrl(CoerceImages(Kept(data, |data|))) == CoerceImages(Kept(data, |data|))
  {
    var p := Kept(data, |data|);
    CoercedImagesAreList(p);
    KeptGet(data, "image_url");
    ImageUrlNotAField();
    GetSome(p, "image_url");
    GetSome(CoerceImages(p), "image_url");
  }

  /** The arguments hold the fields `data` holds, the coerced `images`, and the collected
      metadata; nothing else. */
  lemma ArgumentsGet(data: Record, k: string)
    ensures Get(Arguments(data), k) ==
      if k == "metadata" then Some(VMap(Extras(data, |data|)))
      else if k == "images" then Get(CoerceImages(Kept(data, |data|)), k)
      else if KeepsKey(k) then Get(data, k)
      else None
  {
    var p := Kept(data, |data|);
    ImageUrlNeverFolded(data);
    CoercedImagesAreList(p);
    SetGet(CoerceImages(p), "metadata", VMap(Extras(data, |data|)));
    KeptGet(data, k);
  }

  /** Only fields reach the constructor, so it never meets an unexpected argument. */
  lemma ArgumentsMetadata(data: Record)
    ensures Get(Arguments(data), FIELDS[METADATA]) == Some(VMap(Extras(data, |data|)))
  {
    ArgumentsGet(data, "metadata");
  }

  lemma ArgumentsAreFields(data: Record)
    ensures FieldsFrom(Arguments(data), 0)
  {
    ArgumentKeysAreFields(data);
    FieldsFromSpec(Arguments(data), 0);
  }

  lemma ArgumentKeysAreFields(data: Record)
    ensures forall j :: 0 <= j < |Arguments(data)| ==> IsField(Arguments(data)[j].0)
  {
    var p := Kept(data, |data|);
    ImageUrlNeverFolded(data);
    CoercedImagesAreList(p);
    KeptKeys(data, |data|);
    IsFieldAt(IMAGES);
    IsFieldAt(METADATA);
    var c := CoerceImages(p);
    var m := VMap(Extras(data, |data|));
    forall j | 0 <= j < |c| ensures IsField(c[j].0) {
      if c[j].0 != "images" {
        var i :| 0 <= i < |p| && c[j].0 == p[i].0;
        KeepsKeySpec(p[i].0);
      }
    }
    FindFromFirst(c, "metadata", 0);
    if FindFrom(c, "metadata", 0).Some? {
      assert forall j :: 0 <= j < |c| ==> Set(c, "metadata", m)[j].0 == c[j].0;
    } else {
      assert Set(c, "metadata", m) == c + [("metadata", m)];
    }
  }

  /** The coerced `images`: a list stays, `None` or a missing key becomes `[]`, any
      other value `x` becomes `[x]`. */
  function ImagesFrom(v: Option<Value>): (images: Value)
    ensures images.VList?
  {
    match v
    case None => VList([])
    case Some(VList(xs)) => VList(xs)
    case Some(VNone) => VList([])
    case Some(x) => VList([x])
  }

  lemma ImagesCoerced(data: Record)
    ensures GetOr(Arguments(data), "images", VList([])) == ImagesFrom(Get(data, "images"))
  {
    var p := Kept(data, |data|);
    ArgumentsGet(data, "images");
    KeptGet(data, "images");
    GetSome(p, "images");
    var images := GetOr(p, "images", VNone);
    if HasKey(p, "images") && !images.VList? {
      SetGet(p, "images", if images.VNone? then VList([]) else VList([images]));
    }
  }

  /** The constructor fills every field from its argument or with the field's default. */
  lemma ConstructFields(d: Record, now: Value)
    requires Construct(d, now).Ok?
    ensures forall j :: 0 <= j < |FIELDS| ==> FieldAt(Construct(d, now).value, j) == Argument(d, j, now)
  {
    ArgumentFields(Construct(d, now).value, d, now);
  }

  lemma ConstructField(d: Record, now: Value, j: nat)
    requires Construct(d, now).Ok? && j < |FIELDS|
    ensures FieldAt(Construct(d, now).value, j) == Argument(d, j, now)
  {
    ConstructFields(d, now);
  }

  lemma ArgumentFields(a: Auction, d: Record, now: Value)
    requires a == Auction(
      Argument(d, 0, now), Argument(d, 1, now), Argument(d, 2, now), Argument(d, 3, now),
      Argument(d, 4, now), Argument(d, 5, now), Argument(d, 6, now), Argument(d, 7, now),
      Argument(d, 8, now), Argument(d, 9, now), Argument(d, 10, now), Argument(d, 11, now),
      Argument(d, 12, now), Argument(d, 13, now), Argument(d, 14, now), Argument(d, 15, now),
      Argument(d, 16, now))
    ensures forall j :: 0 <= j < |FIELDS| ==> FieldAt(a, j) == Argument(d, j, now)
  {
  }

  /** `from_dict` fails exactly when `title` or `url` is missing. */
  lemma FromDictOk(data: Record, now: Value)
    ensures FromDictOf(data, now).Ok? <==> HasKey(data, "title") && HasKey(data, "url")
  {
    var d := Arguments(data);
    ArgumentsAreFields(data);
    ArgumentsGet(data, "title");
    ArgumentsGet(data, "url");
    IsFieldAt(0);
    IsFieldAt(1);
    GetSome(d, "title");
    GetSome(d, "url");
    GetSome(data, "title");
    GetSome(data, "url");
  }

  /** Every field but `images` and `metadata` holds what `data` gives it, or its
      default; `images` is the coerced list. */
  lemma FromDictFields(data: Record, now: Value)
    requires FromDictOf(data, now).Ok?
    ensures var a := FromDictOf(data, now).value;
      (forall j :: 0 <= j < |FIELDS| && j != IMAGES && j != METADATA ==>
         FieldAt(a, j) == GetOr(data, FIELDS[j], DefaultAt(j, now))) &&
      a.images == ImagesFrom(Get(data, "images"))
  {
    var d := Arguments(data);
    ConstructFields(d, now);
    FieldsDistinct();
    forall j | 0 <= j < |FIELDS| && j != IMAGES && j != METADATA
      ensures GetOr(d, FIELDS[j], DefaultAt(j, now)) == GetOr(data, FIELDS[j], DefaultAt(j, now))
    {
      IsFieldAt(j);
      ArgumentsGet(data, FIELDS[j]);
    }
    ImagesCoerced(data);
  }

  /** `created_at` is what `data` gives it, or the clock reading. */
  lemma FromDictCreatedAt(data: Record, now: Value)
    requires FromDictOf(data, now).Ok?
    ensures FromDictOf(data, now).value.createdAt == GetOr(data, "created_at", now)
  {
    IsFieldAt(CREATED_AT);
    ArgumentsGet(data, FIELDS[CREATED_AT]);
    ConstructField(Arguments(data), now, CREATED_AT);
  }

  /** `metadata` is the dict the loop collected, whatever `data` held under `metadata`. */
  lemma FromDictMetadataIs(data: Record, now: Value)
    requires FromDictOf(data, now).Ok?
    ensures FromDictOf(data, now).value.metadata == VMap(Extras(data, |data|))
  {
    var d := Arguments(data);
    ArgumentsMetadata(data);
    assert Argument(d, METADATA, now) == VMap(Extras(data, |data|));
    assert FromDictOf(data, now) == Construct(d, now);
    var a := Construct(d, now).value;
    ConstructField(d, now, METADATA);
    assert FieldAt(a, METADATA) == a.metadata;
  }

  /** `metadata` is a dict of exactly the keys that are not fields, with their values. */
  lemma FromDictMetadata(data: Record, now: Value)
    requires WellFormed(data) && FromDictOf(data, now).Ok?
    ensures var a := FromDictOf(data, now).value;
      a.metadata.VMap? && WellFormed(a.metadata.entries) &&
      forall k :: Get(a.metadata.entries, k) == if KeepsKey(k) then None else Get(data, k)
  {
    FromDictMetadataIs(data, now);
    forall k ensures Get(Extras(data, |data|), k) == if KeepsKey(k) then None else Get(data, k) {
      ExtrasGetUpTo(data, |data|, k);
      LastValueIsGet(data, k);
    }
    ExtrasWellFormed(data, |data|);
  }

  // ---------------------------------------------------------------------
  // to_dict

  /** The dict literal of `to_dict`: every field but `metadata`, in declaration order,
      with `created_at` rendered by `isoformat`. */
  function FixedFields(a: Auction, createdAt: string): Record {
    seq(CREATED_AT, j requires 0 <= j < CREATED_AT =>
      if j == METADATA then (FIELDS[CREATED_AT], VStr(createdAt)) else (FIELDS[j], FieldAt(a, j)))
  }

  /** The first `n` metadata pairs added to `base` when their key is not yet there. */
  function MergedUpTo(base: Record, items: Record, n: nat): Record
    requires n <= |items|
  {
    if n == 0 then base
    else
      var m := MergedUpTo(base, items, n - 1);
      if HasKey(m, items[n - 1].0) then m else Set(m, items[n - 1].0, items[n - 1].1)
  }

  function ToDictOf(a: Auction, isoformat: Value -> Option<string>): Result<Record> {
    match isoformat(a.createdAt)
    case None => Err("created_at has no isoformat()")
    case Some(createdAt) =>
      if !a.metadata.VMap? then Err("metadata has no items()")
      else Ok(MergedUpTo(FixedFields(a, createdAt), a.metadata.entries, |a.metadata.entries|))
  }

  /** `auction.to_dict()`. */
  method ToDict(a: Auction, isoformat: Value -> Option<string>) returns (r: Result<Record>)
    ensures r == ToDictOf(a, isoformat)
  {
    var createdAt := isoformat(a.createdAt);
    if createdAt.None? {
      return Err("created_at has no isoformat()");
    }
    var result := FixedFields(a, createdAt.value);
    if !a.metadata.VMap? {
      return Err("metadata has no items()");
    }
    var items := a.metadata.entries;
    for i := 0 to |items|
      invariant result == MergedUpTo(FixedFields(a, createdAt.value), items, i)
    {
      var (key, value) := items[i];
      if !HasKey(result, key) {
        result := Set(result, key, value);
      }
    }
    r := Ok(result);
  }

  // ---------------------------------------------------------------------
  // Properties of to_dict

  /** The fixed part is a dict with one pair per field but `metadata`. */
  lemma FixedFieldsShape(a: Auction, createdAt: string)
    ensures var f := FixedFields(a, createdAt);
      |f| == 16 && WellFormed(f) &&
      (forall j :: 0 <= j < 15 ==> f[j] == (FIELDS[j], FieldAt(a, j))) &&
      f[15] == (FIELDS[CREATED_AT], VStr(createdAt))
  {
    FieldsDistinct();
    var f := FixedFields(a, createdAt);
    forall i, j | 0 <= i < j < |f| ensures f[i].0 != f[j].0 {
      assert f[i].0 == FIELDS[i] && f[j].0 == FIELDS[if j == METADATA then CREATED_AT else j];
    }
  }

  /** A fixed key keeps its value, and any other key gets the value of the first
      metadata pair carrying it. */
  lemma {:induction false} MergedGet(base: Record, items: Record, n: nat, k: string)
    requires n <= |items|
    ensures Get(MergedUpTo(base, items, n), k) == if HasKey(base, k) then Get(base, k) else Get(items[..n], k)
  {
    if n == 0 {
      assert FindFrom(items[..0], k, 0).None?;
      GetSome(base, k);
    } else {
      MergedGet(base, items, n - 1, k);
      var m, x := MergedUpTo(base, items, n - 1), items[n - 1];
      assert items[..n] == items[..n - 1] + [x];
      GetSnoc(items[..n - 1], x, k);
      MergedGet(base, items, n - 1, x.0);
      GetSnoc(items[..n - 1], x, x.0);
      GetSome(m, x.0);
      GetSome(base, x.0);
      GetSome(items[..n - 1], x.0);
      GetSome(items[..n - 1], k);
      if !HasKey(m, x.0) {
        SetGet(m, x.0, x.1);
      }
    }
  }

  lemma {:induction false} MergedWellFormed(base: Record, items: Record, n: nat)
    requires n <= |items| && WellFormed(base)
    ensures WellFormed(MergedUpTo(base, items, n))
  {
    if n > 0 {
      MergedWellFormed(base, items, n - 1);
      var m := MergedUpTo(base, items, n - 1);
      if !HasKey(m, items[n - 1].0) {
        SetWellFormed(m, items[n - 1].0, items[n - 1].1);
      }
    }
  }

  /** `to_dict` fails exactly when `created_at` has no `isoformat` or `metadata` is not
      a dict, and otherwise yields a dict. */
  lemma ToDictOk(a: Auction, isoformat: Value -> Option<string>)
    ensures ToDictOf(a, isoformat).Ok? <==> isoformat(a.createdAt).Some? && a.metadata.VMap?
    ensures ToDictOf(a, isoformat).Ok? ==> WellFormed(ToDictOf(a, isoformat).value)
  {
    if ToDictOf(a, isoformat).Ok? {
      var c := isoformat(a.createdAt).value;
      FixedFieldsShape(a, c);
      MergedWellFormed(FixedFields(a, c), a.metadata.entries, |a.metadata.entries|);
    }
  }

  /** The fixed fields win over same-named metadata keys: each field but `metadata` is
      there with its value, `created_at` rendered by `isoformat`. */
  lemma ToDictFixed(a: Auction, isoformat: Value -> Option<string>)
    requires ToDictOf(a, isoformat).Ok?
    ensures var r := ToDictOf(a, isoformat).value;
      (forall j :: 0 <= j < METADATA ==> Get(r, FIELDS[j]) == Some(FieldAt(a, j))) &&
      Get(r, FIELDS[CREATED_AT]) == Some(VStr(isoformat(a.createdAt).value))
  {
    var c := isoformat(a.createdAt).value;
    var f, items := FixedFields(a, c), a.metadata.entries;
    FixedFieldsShape(a, c);
    forall j | 0 <= j < METADATA ensures Get(ToDictOf(a, isoformat).value, FIELDS[j]) == Some(FieldAt(a, j)) {
      MergedGet(f, items, |items|, FIELDS[j]);
      GetAt(f, j);
      GetSome(f, FIELDS[j]);
    }
    MergedGet(f, items, |items|, FIELDS[CREATED_AT]);
    GetAt(f, METADATA);
    GetSome(f, FIELDS[CREATED_AT]);
  }

  /** Every key that is not a field, and `metadata` itself, appears exactly when the
      metadata carries it, with the metadata's value. */
  lemma ToDictExtra(a: Auction, isoformat: Value -> Option<string>, k: string)
    requires ToDictOf(a, isoformat).Ok? && (!IsField(k) || k == FIELDS[METADATA])
    ensures Get(ToDictOf(a, isoformat).value, k) == Get(a.metadata.entries, k)
  {
    var c := isoformat(a.createdAt).value;
    var f, items := FixedFields(a, c), a.metadata.entries;
    FixedFieldsShape(a, c);
    FieldsDistinct();
    forall j | 0 <= j < |f| ensures f[j].0 != k {
      var i := if j == METADATA then CREATED_AT else j;
      assert f[j].0 == FIELDS[i];
      IsFieldAt(i);
    }
    HasKeyAt(f, k);
    MergedGet(f, items, |items|, k);
    assert items[..|items|] == items;
  }

  // ---------------------------------------------------------------------
  // The round trip

  /** The dict a record becomes after `Auction.from_dict(d).to_dict()`. */
  function RoundTrip(data: Record, now: Value, isoformat: Value -> Option<string>): Result<Record> {
    match FromDictOf(data, now)
    case Err(e) => Err(e)
    case Ok(a) => ToDictOf(a, isoformat)
  }

  /** A key whose value the round trip does not rewrite. */
  predicate NotRendered(k: string) {
    k != "images" && k != "metadata" && k != "created_at"
  }

  /** One key through the round trip: a key other than `images`, `metadata` and
      `created_at` that `data` has, or that is no field at all, comes back with the value
      `data` gives it (or stays absent); `images` comes back as the coerced list. */
  lemma RoundTripKey(data: Record, now: Value, isoformat: Value -> Option<string>, k: string)
    requires WellFormed(data) && RoundTrip(data, now, isoformat).Ok?
    ensures var r := RoundTrip(data, now, isoformat).value;
      (NotRendered(k) && (HasKey(data, k) || !IsField(k)) ==> Get(r, k) == Get(data, k)) &&
      (HasKey(data, k) && k != FIELDS[METADATA] ==> HasKey(r, k))
  {
    var a := FromDictOf(data, now).value;
    var r := RoundTrip(data, now, isoformat).value;
    FromDictFields(data, now);
    FromDictMetadata(data, now);
    ToDictFixed(a, isoformat);
    GetSome(r, k);
    GetSome(data, k);
    IsFieldSpec(k);
    if IsField(k) {
      var j :| 0 <= j < |FIELDS| && FIELDS[j] == k;
      if j != METADATA {
        KeepsKeySpec(k);
      }
    } else {
      KeepsKeySpec(k);
      ToDictExtra(a, isoformat, k);
    }
  }

  /** `to_dict(from_dict(d))` succeeds exactly when `d` has `title` and `url` and its
      `created_at` (or the clock reading) has an `isoformat`. */
  lemma RoundTripOk(data: Record, now: Value, isoformat: Value -> Option<string>)
    ensures RoundTrip(data, now, isoformat).Ok? <==>
      HasKey(data, "title") && HasKey(data, "url") && isoformat(GetOr(data, "created_at", now)).Some?
  {
    FromDictOk(data, now);
    if FromDictOf(data, now).Ok? {
      var a := FromDictOf(data, now).value;
      FromDictCreatedAt(data, now);
      FromDictMetadataIs(data, now);
      ToDictOk(a, isoformat);
    }
  }

  /** After the round trip every key of `d` but `metadata` is there, and every value
      but those of `images`, `metadata` and `created_at` comes back exactly, so
      `image_url` is kept as it was and not folded into `images`. */
  lemma RoundTripPreserves(data: Record, now: Value, isoformat: Value -> Option<string>)
    requires WellFormed(data) && RoundTrip(data, now, isoformat).Ok?
    ensures var r := RoundTrip(data, now, isoformat).value;
      (forall k :: NotRendered(k) && (HasKey(data, k) || !IsField(k)) ==> Get(r, k) == Get(data, k)) &&
      (forall k :: HasKey(data, k) && k != "metadata" ==> HasKey(r, k)) &&
      Get(r, "image_url") == Get(data, "image_url")
  {
    var r := RoundTrip(data, now, isoformat).value;
    forall k | NotRendered(k) && (HasKey(data, k) || !IsField(k)) ensures Get(r, k) == Get(data, k) {
      RoundTripKey(data, now, isoformat, k);
    }
    forall k | HasKey(data, k) && k != "metadata" ensures HasKey(r, k) {
      RoundTripKey(data, now, isoformat, k);
    }
    ImageUrlNotAField();
    KeepsKeySpec("image_url");
    RoundTripKey(data, now, isoformat, "image_url");
  }

  /** After the round trip `images` is the coerced list, `created_at` its rendering, and
      no incoming `metadata` survives. */
  lemma RoundTripRendered(data: Record, now: Value, isoformat: Value -> Option<string>)
    requires WellFormed(data) && RoundTrip(data, now, isoformat).Ok?
    ensures var r := RoundTrip(data, now, isoformat).value;
      Get(r, "images") == Some(ImagesFrom(Get(data, "images"))) &&
      isoformat(GetOr(data, "created_at", now)).Some? &&
      Get(r, "created_at") == Some(VStr(isoformat(GetOr(data, "created_at", now)).value)) &&
      !HasKey(r, "metadata")
  {
    var a := FromDictOf(data, now).value;
    var r := RoundTrip(data, now, isoformat).value;
    FromDictFields(data, now);
    FromDictCreatedAt(data, now);
    FromDictMetadata(data, now);
    ToDictFixed(a, isoformat);
    assert a.images == FieldAt(a, IMAGES);
    IsFieldAt(METADATA);
    ToDictExtra(a, isoformat, "metadata");
    KeepsKeySpec("metadata");
    GetSome(r, "metadata");
  }
}
