/**
 * Creating a listing from a parsed page through the admin API
 * (house/api/views.py, lines 87-127 and 175-196): the parsed record is turned into a
 * field payload, validated with the lenient readers, and saved only when no error was
 * recorded; type and deal names are matched case-insensitively or created; the images
 * are transferred afterwards.
 */
module AdminImport {
  import opened Wrappers
  import opened Text
  import opened Json
  import opened Models
  import opened AdminFields
  import ImageTransfer
  import ListingParser

  // ------------------------------------------------------------- names, case-insensitively

  /** `filter(name__iexact=name).first()` over rows in id order: the first row whose name
      equals `name` up to case. */
  function FindNamed(names: seq<string>, name: string): (r: Option<nat>)
    ensures r.Some? ==> r.value < |names| && Lower(names[r.value]) == Lower(name)
                        && forall j :: 0 <= j < r.value ==> Lower(names[j]) != Lower(name)
    ensures r.None? ==> forall j :: 0 <= j < |names| ==> Lower(names[j]) != Lower(name)
    decreases |names|
  {
    if names == [] then None
    else if Lower(names[0]) == Lower(name) then Some(0)
    else match FindNamed(names[1..], name)
      case Some(k) => Some(k + 1)
      case None => None
  }

  /** A row appended with a matching name is found by the next lookup, and a name found
      before is still found at the same row. */
  lemma FindNamedAppend(names: seq<string>, name: string, added: string)
    ensures FindNamed(names, name).Some? ==> FindNamed(names + [added], name) == FindNamed(names, name)
    ensures FindNamed(names, name).None? && Lower(added) == Lower(name) ==>
              FindNamed(names + [added], name) == Some(|names|)
  {
    var r := FindNamed(names + [added], name);
    if FindNamed(names, name).Some? {
      var k := FindNamed(names, name).value;
      assert (names + [added])[k] == names[k];
      assert forall j :: 0 <= j < k ==> (names + [added])[j] == names[j];
      FindNamedFirst(names + [added], name, k);
    } else if Lower(added) == Lower(name) {
      assert (names + [added])[|names|] == added;
      assert forall j :: 0 <= j < |names| ==> (names + [added])[j] == names[j];
      FindNamedFirst(names + [added], name, |names|);
    }
  }

  /** The index of the first match is the lookup's answer. */
  lemma FindNamedFirst(names: seq<string>, name: string, k: nat)
    requires k < |names| && Lower(names[k]) == Lower(name)
    requires forall j :: 0 <= j < k ==> Lower(names[j]) != Lower(name)
    ensures FindNamed(names, name) == Some(k)
  {
  }

  function TypeNames(types: seq<TypeRow>): (r: seq<string>)
    ensures |r| == |types| && forall i :: 0 <= i < |types| ==> r[i] == types[i].name
  {
    if types == [] then [] else [types[0].name] + TypeNames(types[1..])
  }

  function DealNames(deals: seq<DealRow>): (r: seq<string>)
    ensures |r| == |deals| && forall i :: 0 <= i < |deals| ==> r[i] == deals[i].name
  {
    if deals == [] then [] else [deals[0].name] + DealNames(deals[1..])
  }

  /** `_resolve_property_type_by_name` on the type table, with `lastId` the largest id
      handed out: the id resolved to and the table afterwards. A blank name resolves to
      nothing; otherwise the first type named like the stripped name up to case, or a new
      one under the stripped name. */
  function ResolveType(types: seq<TypeRow>, lastId: nat, name: string, slugify: string -> string)
    : (r: (Option<nat>, seq<TypeRow>))
    ensures r.0.Some? <==> Strip(name) != ""
  {
    var normalized := Strip(name);
    if normalized == "" then (None, types)
    else match FindNamed(TypeNames(types), normalized)
      case Some(k) => (Some(types[k].id), types)
      case None =>
        (Some(lastId + 1), types + [TypeRow(lastId + 1, normalized, TypeSlugOnSave(normalized, "", None, types, slugify))])
  }

  /** Resolving a name never removes or alters a row, adds at most one, and a second
      resolution of the same name returns the same row and changes nothing. */
  lemma ResolveTypeIdempotent(types: seq<TypeRow>, lastId: nat, later: nat, name: string, slugify: string -> string)
    ensures var (id, after) := ResolveType(types, lastId, name, slugify);
            after[..|types|] == types && |types| <= |after| <= |types| + 1
            && ResolveType(after, later, name, slugify) == (id, after)
  {
    var normalized := Strip(name);
    if normalized != "" && FindNamed(TypeNames(types), normalized).None? {
      var row := TypeRow(lastId + 1, normalized, TypeSlugOnSave(normalized, "", None, types, slugify));
      var after := types + [row];
      assert ResolveType(types, lastId, name, slugify) == (Some(lastId + 1), after);
      assert after[..|types|] == types;
      NamesAppended(types, row);
      FindNamedAppend(TypeNames(types), normalized, normalized);
      assert FindNamed(TypeNames(after), normalized) == Some(|types|);
      assert after[|types|].id == lastId + 1;
    }
  }

  /** Appending a row appends its name. */
  lemma NamesAppended(types: seq<TypeRow>, row: TypeRow)
    ensures TypeNames(types + [row]) == TypeNames(types) + [row.name]
  {
    var after := types + [row];
    assert forall i :: 0 <= i < |types| ==> after[i] == types[i];
  }

  /** The resolved row carries the stripped name up to case. */
  lemma ResolveTypeMatches(types: seq<TypeRow>, lastId: nat, name: string, slugify: string -> string)
    ensures var (id, after) := ResolveType(types, lastId, name, slugify);
            (id.Some? <==> Strip(name) != "")
            && (id.Some? ==> exists t :: t in after && t.id == id.value && Lower(t.name) == Lower(Strip(name)))
  {
    var normalized := Strip(name);
    var (id, after) := ResolveType(types, lastId, name, slugify);
    if normalized != "" {
      match FindNamed(TypeNames(types), normalized)
      case Some(k) => assert types[k] in after;
      case None => assert after[|types|] in after;
    }
  }

  method ResolveTypeByName(store: Store, name: string, slugify: string -> string) returns (id: Option<nat>)
    requires store.Valid()
    modifies store
    ensures store.Valid()
    ensures (id, store.types) == ResolveType(old(store.types), old(store.lastId), name, slugify)
    ensures store.lastId == old(store.lastId) + |store.types| - |old(store.types)|
    ensures store.deals == old(store.deals) && store.listings == old(store.listings) && store.images == old(store.images)
  {
    var normalized := Strip(name);
    if normalized == "" {
      return None;
    }
    var found := FindNamed(TypeNames(store.types), normalized);
    if found.Some? {
      return Some(store.types[found.value].id);
    }
    var row := store.CreateType(normalized, slugify);
    id := Some(row.id);
  }

  /** `_resolve_deal_type_by_name`: the same rule over deal types. */
  function ResolveDeal(deals: seq<DealRow>, lastId: nat, name: string): (r: (Option<nat>, seq<DealRow>))
    ensures r.0.Some? <==> Strip(name) != ""
  {
    var normalized := Strip(name);
    if normalized == "" then (None, deals)
    else match FindNamed(DealNames(deals), normalized)
      case Some(k) => (Some(deals[k].id), deals)
      case None => (Some(lastId + 1), deals + [DealRow(lastId + 1, normalized)])
  }

  lemma ResolveDealIdempotent(deals: seq<DealRow>, lastId: nat, later: nat, name: string)
    ensures var (id, after) := ResolveDeal(deals, lastId, name);
            after[..|deals|] == deals && |deals| <= |after| <= |deals| + 1
            && ResolveDeal(after, later, name) == (id, after)
  {
    var normalized := Strip(name);
    var (id, after) := ResolveDeal(deals, lastId, name);
    if normalized != "" && FindNamed(DealNames(deals), normalized).None? {
      assert DealNames(after) == DealNames(deals) + [normalized];
      FindNamedAppend(DealNames(deals), normalized, normalized);
    }
  }

  lemma ResolveDealMatches(deals: seq<DealRow>, lastId: nat, name: string)
    ensures var (id, after) := ResolveDeal(deals, lastId, name);
            (id.Some? <==> Strip(name) != "")
            && (id.Some? ==> exists d :: d in after && d.id == id.value && Lower(d.name) == Lower(Strip(name)))
  {
    var normalized := Strip(name);
    var (id, after) := ResolveDeal(deals, lastId, name);
    if normalized != "" {
      match FindNamed(DealNames(deals), normalized)
      case Some(k) => assert deals[k] in after;
      case None => assert after[|deals|] in after;
    }
  }

  method ResolveDealByName(store: Store, name: string) returns (id: Option<nat>)
    requires store.Valid()
    modifies store
    ensures store.Valid()
    ensures (id, store.deals) == ResolveDeal(old(store.deals), old(store.lastId), name)
    ensures store.lastId == old(store.lastId) + |store.deals| - |old(store.deals)|
    ensures store.types == old(store.types) && store.listings == old(store.listings) && store.images == old(store.images)
  {
    var normalized := Strip(name);
    if normalized == "" {
      return None;
    }
    var found := FindNamed(DealNames(store.deals), normalized);
    if found.Some? {
      return Some(store.deals[found.value].id);
    }
    var row := store.CreateDeal(normalized);
    id := Some(row.id);
  }

  // ------------------------------------------------------------- from a parsed record

  /** Python's `round` of a float to an integer: to the nearest, ties to even. */
  function RoundHalfEven(x: real): (r: int)
    ensures x - 1.0 / 2.0 <= r as real <= x + 1.0 / 2.0
    ensures (r as real - x == 1.0 / 2.0 || x - r as real == 1.0 / 2.0) ==> r % 2 == 0
  {
    var f := x.Floor;
    var d := x - f as real;
    if d < 1.0 / 2.0 then f
    else if d > 1.0 / 2.0 then f + 1
    else if f % 2 == 0 then f else f + 1
  }

  /** `s[:n]`. */
  function Take(s: string, n: nat): (r: string)
    ensures |r| <= n && |r| <= |s| && r == s[..|r|]
    ensures |s| <= n ==> r == s
  {
    if |s| <= n then s else s[..n]
  }

  const DescriptionLimit := 4000
  const MissingTitleMessage := "Не вдалося визначити назву."
  const MissingAddressMessage := "Не вдалося визначити адресу."

  /** `payload` of `_create_property_from_parsed`; `stripTags` is Django's `strip_tags`. */
  function ParsedPayload(data: ListingParser.ParsedProperty, stripTags: string -> string): map<string, Value> {
    map["title" := Str(data.title), "address" := Str(data.address),
        "description" := Str(Take(stripTags(data.descriptionHtml), DescriptionLimit)),
        "price" := Float(data.price), "area" := Int(RoundHalfEven(data.area)),
        "rooms" := Int(if data.rooms == 0 then 1 else data.rooms),   // `rooms or 1`
        "latitude" := OptFloat(data.latitude), "longitude" := OptFloat(data.longitude)]
  }

  /** The missing-title and missing-address errors, recorded together. */
  function NameErrors(title: string, address: string): (r: Errors)
    ensures "title" in r <==> title == ""
    ensures "address" in r <==> address == ""
    ensures "title" in r ==> r["title"] == MissingTitleMessage
    ensures "address" in r ==> r["address"] == MissingAddressMessage
    ensures forall k :: k in r ==> k == "title" || k == "address"
  {
    var e: Errors := if title == "" then map["title" := MissingTitleMessage] else map[];
    if address == "" then e["address" := MissingAddressMessage] else e
  }

  /** The name errors of a parsed record. */
  function MissingNames(data: ListingParser.ParsedProperty): (r: Errors)
    ensures r == map[] <==> data.title != "" && data.address != ""
  {
    NameErrors(data.title, data.address)
  }

  /** `Property()` before any field is set. */
  const Unsaved := Listing("", "", "", None, None, 0.0, 0, 0, false, false, None, None, {}, "")

  /** The listing and the errors after `_update_fields` on the payload. */
  function Validated(data: ListingParser.ParsedProperty, stripTags: string -> string): (r: (Listing, Errors))
  {
    var payload := ParsedPayload(data, stripTags);
    assert ReadText(payload, "title", "").Some? && ReadText(payload, "description", "").Some?
           && ReadText(payload, "address", "").Some?;
    UpdateFields(Unsaved, payload, MissingNames(data)).value
  }

  /** Every value of a parsed record's payload is one the readers accept. */
  lemma PayloadReadable(data: ListingParser.ParsedProperty, stripTags: string -> string)
    ensures forall k :: !FieldRejected(ParsedPayload(data, stripTags), k)
  {
    var payload := ParsedPayload(data, stripTags);
    assert Get(payload, "price") == Float(data.price);
    assert Get(payload, "area").Int? && Get(payload, "rooms").Int?;
    assert payload["latitude"] == Null || payload["latitude"].Float?;
    assert payload["longitude"] == Null || payload["longitude"].Float?;
    assert "featured_homepage" !in payload && "is_archived" !in payload;
  }

  /** A parsed record can only be rejected for its title or address: the numbers it
      carries always read. */
  lemma ValidatedErrors(data: ListingParser.ParsedProperty, stripTags: string -> string)
    ensures Validated(data, stripTags).1 == MissingNames(data)
  {
    var payload := ParsedPayload(data, stripTags);
    PayloadReadable(data, stripTags);
    assert ReadText(payload, "title", "").Some? && ReadText(payload, "description", "").Some?
           && ReadText(payload, "address", "").Some?;
    UpdateFieldsAccepts(Unsaved, payload, MissingNames(data));
  }

  /** The listing holds the stripped title and address and a description of at most
      4000 characters. */
  lemma ValidatedTexts(data: ListingParser.ParsedProperty, stripTags: string -> string)
    ensures var p := Validated(data, stripTags).0;
            p.title == Strip(data.title) && p.address == Strip(data.address)
            && |p.description| <= DescriptionLimit
  {
    var description := Take(stripTags(data.descriptionHtml), DescriptionLimit);
    PayloadTexts(data, stripTags);
    ValidatedIsUpdate(data, stripTags);
    UpdateFieldsTexts(Unsaved, ParsedPayload(data, stripTags), MissingNames(data), data.title, data.address,
                      description);
  }

  lemma PayloadTexts(data: ListingParser.ParsedProperty, stripTags: string -> string)
    ensures var payload := ParsedPayload(data, stripTags);
            "title" in payload && payload["title"] == Str(data.title)
            && "address" in payload && payload["address"] == Str(data.address)
            && "description" in payload
            && payload["description"] == Str(Take(stripTags(data.descriptionHtml), DescriptionLimit))
  {
  }

  /** The listing holds at least one room (a parsed 0 becomes 1), the parsed price, the
      rounded area and the parsed coordinates. */
  lemma ValidatedNumbers(data: ListingParser.ParsedProperty, stripTags: string -> string)
    ensures var p := Validated(data, stripTags).0;
            p.rooms == (if data.rooms == 0 then 1 else data.rooms) && p.rooms >= 1
            && p.price == data.price && p.area == RoundHalfEven(data.area)
  {
    PayloadNumbers(data, stripTags);
    ValidatedIsUpdate(data, stripTags);
    UpdateFieldsNumbers(Unsaved, ParsedPayload(data, stripTags), MissingNames(data), data.price, RoundHalfEven(data.area),
                        if data.rooms == 0 then 1 else data.rooms);
  }

  lemma PayloadNumbers(data: ListingParser.ParsedProperty, stripTags: string -> string)
    ensures var payload := ParsedPayload(data, stripTags);
            Get(payload, "price") == Float(data.price) && Get(payload, "area") == Int(RoundHalfEven(data.area))
            && Get(payload, "rooms") == Int(if data.rooms == 0 then 1 else data.rooms)
  {
  }

  lemma ValidatedIsUpdate(data: ListingParser.ParsedProperty, stripTags: string -> string)
    ensures UpdateFields(Unsaved, ParsedPayload(data, stripTags), MissingNames(data)).Some?
    ensures Validated(data, stripTags) == UpdateFields(Unsaved, ParsedPayload(data, stripTags), MissingNames(data)).value
  {
    var payload := ParsedPayload(data, stripTags);
    assert payload["title"] == Str(data.title);
    assert payload["address"] == Str(data.address);
    assert payload["description"] == Str(Take(stripTags(data.descriptionHtml), DescriptionLimit));
    UpdateFieldsOfStrings(Unsaved, payload, MissingNames(data));
  }

  lemma ValidatedCoordinates(data: ListingParser.ParsedProperty, stripTags: string -> string)
    ensures var p := Validated(data, stripTags).0;
            p.latitude == data.latitude && p.longitude == data.longitude
  {
    var payload := ParsedPayload(data, stripTags);
    ValidatedIsUpdate(data, stripTags);
    assert payload["latitude"] == OptFloat(data.latitude);
    assert payload["longitude"] == OptFloat(data.longitude);
    UpdateFieldsCoordinates(Unsaved, payload, MissingNames(data), data.latitude, data.longitude);
  }

  /** What `_create_property_from_parsed` returns. */
  datatype Creation = Created(id: nat, warnings: seq<string>) | Rejected(errors: Errors)

  /** A listing stored from `data`: apart from its coordinates, slug and relations it is the
      validated listing, and its type and deal are set exactly when their names are not blank. */
  predicate StoredFrom(q: Listing, data: ListingParser.ParsedProperty, stripTags: string -> string) {
    q.(latitude := data.latitude, longitude := data.longitude, slug := "", propertyType := None, dealType := None)
      == Validated(data, stripTags).0
    && (q.propertyType.Some? <==> Strip(data.propertyType) != "")
    && (q.dealType.Some? <==> Strip(data.dealType) != "")
  }

  /** The warnings of transferring the record's main image and gallery, the main image first. */
  predicate WarnedFrom(warnings: seq<string>, data: ListingParser.ParsedProperty,
                       transfer: string -> ImageTransfer.Transfer) {
    exists h :: warnings ==
      ImageTransfer.Run(ImageTransfer.Start(h), ImageTransfer.Pairs(data.mainImage, data.gallery), true, transfer).warnings
  }

  /** The type and deal lookups of `_create_property_from_parsed`. */
  method ResolveNames(store: Store, data: ListingParser.ParsedProperty, slugify: string -> string)
    returns (typeId: Option<nat>, dealId: Option<nat>)
    requires store.Valid()
    modifies store
    ensures store.Valid()
    ensures store.listings == old(store.listings) && store.lastId >= old(store.lastId)
    ensures typeId.Some? <==> Strip(data.propertyType) != ""
    ensures dealId.Some? <==> Strip(data.dealType) != ""
  {
    typeId := ResolveTypeByName(store, data.propertyType, slugify);
    dealId := ResolveDealByName(store, data.dealType);
  }

  /** The saving half of `_create_property_from_parsed` for a record that passed
      validation: the type and deal names are resolved, then the listing is saved. */
  method SaveParsed(store: Store, p: Listing, data: ListingParser.ParsedProperty, slugify: string -> string,
                    located: Option<(real, real)>, baseSlug: string) returns (id: nat)
    requires store.Valid()
    requires p.propertyType.None? && p.dealType.None? && p.slug == ""
    modifies store
    ensures store.Valid()
    ensures id in store.listings && id !in old(store.listings)
    ensures old(store.lastId) < id <= store.lastId
    ensures forall k :: k in old(store.listings) ==> k in store.listings && store.listings[k] == old(store.listings)[k]
    ensures var q := store.listings[id];
            q.(latitude := p.latitude, longitude := p.longitude, slug := "", propertyType := None, dealType := None) == p
            && (q.propertyType.Some? <==> Strip(data.propertyType) != "")
            && (q.dealType.Some? <==> Strip(data.dealType) != "")
  {
    var typeId, dealId := ResolveNames(store, data, slugify);
    var built := p.(propertyType := typeId, dealType := dealId);
    var saved;
    id, saved := store.SaveListing(None, built, located, baseSlug);
    assert store.listings[id] == saved;
    assert saved.(latitude := built.latitude, longitude := built.longitude, slug := built.slug) == built;
  }

  /** `_create_property_from_parsed`. `located` is what the geocoder would answer when the
      save asks for it, `baseSlug` the randomly generated slug, `transfer` the outcome of
      each image URL. */
  method CreatePropertyFromParsed(store: Store, data: ListingParser.ParsedProperty, stripTags: string -> string,
                                  slugify: string -> string, located: Option<(real, real)>, baseSlug: string,
                                  transfer: string -> ImageTransfer.Transfer)
    returns (result: Creation)
    requires store.Valid()
    modifies store
    ensures store.Valid()
    ensures result.Rejected? <==> data.title == "" || data.address == ""
    ensures result.Rejected? ==> result.errors == MissingNames(data)
                                 && store.types == old(store.types) && store.deals == old(store.deals)
                                 && store.listings == old(store.listings) && store.images == old(store.images)
    ensures store.lastId >= old(store.lastId)
    ensures forall k :: k in old(store.listings) ==> k in store.listings && store.listings[k] == old(store.listings)[k]
    ensures result.Created? ==> old(store.lastId) < result.id <= store.lastId
    ensures result.Created? ==>
              result.id in store.listings && result.id !in old(store.listings)
              && StoredFrom(store.listings[result.id], data, stripTags)
    ensures result.Created? ==> WarnedFrom(result.warnings, data, transfer)
  {
    var (p, errors) := Validated(data, stripTags);
    ValidatedErrors(data, stripTags);
    ValidatedCoordinates(data, stripTags);
    ValidatedIsUpdate(data, stripTags);
    if errors != map[] {
      return Rejected(errors);
    }
    var id := SaveParsed(store, p, data, slugify, located, baseSlug);
    ghost var listings := store.listings;
    ghost var hadMain := ImageTransfer.HasMainImage(store.images, id);
    var warnings := ImageTransfer.ImportImages(store, id, data.mainImage, data.gallery, true, transfer);
    assert store.listings == listings;
    result := Created(id, warnings);
  }
}
