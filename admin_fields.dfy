/**
 * The lenient field readers of the admin API (house/api/views.py, lines 38-78 and
 * 199-274): each bad field records one message under its own name in an error map,
 * and reading goes on with the next field. A field whose value Python cannot even
 * call `.strip()` on or look up raises; such a request is modelled as `None`
 * (the framework answers it with a server error).
 */
module AdminFields {
  import opened Wrappers
  import opened Text
  import opened Json
  import opened Models

  type Errors = map<string, string>

  const NumberMessage := "Повинно бути числове значення."
  const IntegerMessage := "Повинно бути ціле число."
  const BooleanMessage := "Повинно бути булеве значення."
  const MissingTypeMessage := "Вказаний тип нерухомості не існує."
  const MissingDealMessage := "Вказаний тип угоди не існує."

  /** `errors` after recording `message` under `field`: that key changes, no other. */
  predicate RecordedOnly(before: Errors, after: Errors, field: string, message: string) {
    after == before[field := message]
  }

  /** `_get_decimal`. */
  function GetDecimal(value: Value, field: string, errors: Errors): (r: (Option<real>, Errors))
    ensures IsBlank(value) ==> r == (None, errors)
    ensures !IsBlank(value) && r.0.None? ==> RecordedOnly(errors, r.1, field, NumberMessage)
    ensures r.0.Some? ==> r.1 == errors && r.0 == ToDecimal(value)
  {
    if IsBlank(value) then (None, errors)
    else match ToDecimal(value)
      case Some(d) => (Some(d), errors)
      case None => (None, errors[field := NumberMessage])
  }

  /** `_get_int`. */
  function GetInt(value: Value, field: string, errors: Errors): (r: (Option<int>, Errors))
    ensures IsBlank(value) ==> r == (None, errors)
    ensures !IsBlank(value) && r.0.None? ==> RecordedOnly(errors, r.1, field, IntegerMessage)
    ensures r.0.Some? ==> r.1 == errors && r.0 == ToInt(value)
  {
    if IsBlank(value) then (None, errors)
    else match ToInt(value)
      case Some(i) => (Some(i), errors)
      case None => (None, errors[field := IntegerMessage])
  }

  const TrueWords: set<string> := {"1", "true", "yes", "on"}
  const FalseWords: set<string> := {"0", "false", "no", "off"}

  /** `_get_bool`. */
  function GetBool(value: Value): (r: Option<bool>)
    ensures value.Bool? ==> r == Some(value.b)
    ensures IsBlank(value) || value.Arr? || value.Obj? ==> r.None?
    ensures value.Int? ==> r == Some(value.i != 0)
    ensures value.Float? ==> r == Some(value.x != 0.0)
    ensures value.Str? && value.s != "" ==>
              r == (if Lower(Strip(value.s)) in TrueWords then Some(true)
                    else if Lower(Strip(value.s)) in FalseWords then Some(false) else None)
  {
    match value
    case Bool(b) => Some(b)
    case Null => None
    case Int(i) => Some(i != 0)
    case Float(x) => Some(x != 0.0)
    case Str(s) =>
      if s == "" then None
      else
        var lowered := Lower(Strip(s));
        if lowered in TrueWords then Some(true)
        else if lowered in FalseWords then Some(false)
        else None
    case _ => None
  }

  /** No word reads both ways, so a string answers at most one of the two. */
  lemma BoolWordsDisjoint()
    ensures TrueWords * FalseWords == {}
  {
    assert forall w :: w in TrueWords ==> w !in FalseWords;
  }

  /** `_try_parse_int`. */
  function TryParseInt(value: Value): Option<int> {
    ToInt(value)
  }

  /** A boolean flag of `_update_fields`: a value that reads as neither is an error unless
      it is blank, in which case the field is left alone. */
  function ReadFlag(data: map<string, Value>, field: string, current: bool, errors: Errors): (r: (bool, Errors))
    ensures field !in data ==> r == (current, errors)
    ensures field in data && GetBool(data[field]).Some? ==> r == (GetBool(data[field]).value, errors)
    ensures field in data && GetBool(data[field]).None? && IsBlank(data[field]) ==> r == (current, errors)
    ensures field in data && GetBool(data[field]).None? && !IsBlank(data[field]) ==>
              r.0 == current && RecordedOnly(errors, r.1, field, BooleanMessage)
  {
    if field !in data then (current, errors)
    else
      var parsed := GetBool(data[field]);
      if parsed.None? && !IsBlank(data[field]) then (current, errors[field := BooleanMessage])
      else if parsed.Some? then (parsed.value, errors)
      else (current, errors)
  }

  /** A coordinate of `_update_fields`: `None` clears it, a number sets it, anything
      else is an error. */
  function ReadCoordinate(data: map<string, Value>, field: string, current: Option<real>, errors: Errors)
    : (r: (Option<real>, Errors))
    ensures field !in data ==> r == (current, errors)
    ensures field in data && data[field] == Null ==> r == (None, errors)
    ensures field in data && data[field] != Null && ToFloat(data[field]).Some? ==> r == (ToFloat(data[field]), errors)
    ensures field in data && data[field] != Null && ToFloat(data[field]).None? ==>
              r.0 == current && RecordedOnly(errors, r.1, field, NumberMessage)
  {
    if field !in data then (current, errors)
    else if data[field] == Null then (None, errors)
    else match ToFloat(data[field])
      case Some(x) => (Some(x), errors)
      case None => (current, errors[field := NumberMessage])
  }

  /** A text field of `_update_fields`: present means stripped and stored; a present
      non-string raises. */
  function ReadText(data: map<string, Value>, field: string, current: string): (r: Option<string>)
    ensures field !in data ==> r == Some(current)
    ensures field in data ==> (r.Some? <==> data[field].Str?)
    ensures field in data && data[field].Str? ==> r == Some(Strip(data[field].s))
  {
    if field !in data then Some(current)
    else match data[field]
      case Str(s) => Some(Strip(s))
      case _ => None
  }

  /** `after` differs from `before` only under the keys in `fields`, and loses no key. */
  predicate ChangesOnly(before: Errors, after: Errors, fields: set<string>) {
    before.Keys <= after.Keys
    && forall k :: k in after && k !in fields ==> k in before && after[k] == before[k]
  }

  /** A non-blank value `Decimal(str(...))` rejects. */
  predicate BadDecimal(v: Value) { !IsBlank(v) && ToDecimal(v).None? }

  /** A non-blank value `int()` rejects. */
  predicate BadInt(v: Value) { !IsBlank(v) && ToInt(v).None? }

  /** The stored number after reading `v`: the parsed value, or the old one. */
  predicate DecimalRead(v: Value, current: real, after: real) {
    if !IsBlank(v) && ToDecimal(v).Some? then after == ToDecimal(v).value else after == current
  }

  predicate IntRead(v: Value, current: int, after: int) {
    if !IsBlank(v) && ToInt(v).Some? then after == ToInt(v).value else after == current
  }

  /** The value under `k` is one `_update_fields` rejects with a message. */
  predicate FieldRejected(data: map<string, Value>, k: string) {
    (k == "price" && BadDecimal(Get(data, k)))
    || ((k == "area" || k == "rooms") && BadInt(Get(data, k)))
    || ((k == "latitude" || k == "longitude") && k in data && data[k] != Null && ToFloat(data[k]).None?)
    || ((k == "featured_homepage" || k == "is_archived") && k in data && GetBool(data[k]).None? && !IsBlank(data[k]))
  }

  /** Every key whose message is new or different names a rejected value. */
  predicate OnlyRejectedChange(data: map<string, Value>, before: Errors, after: Errors) {
    forall k :: k in after && (k !in before || after[k] != before[k]) ==> FieldRejected(data, k)
  }

  const NumericFields: set<string> := {"price", "area", "rooms"}
  const CoordinateFields: set<string> := {"latitude", "longitude"}
  const FlagFields: set<string> := {"featured_homepage", "is_archived"}

  /** The price, area and rooms of `_update_fields`. */
  function ReadNumbers(p: Listing, data: map<string, Value>, errors: Errors): (r: (Listing, Errors))
    ensures ChangesOnly(errors, r.1, NumericFields)
    ensures r.0.(price := p.price, area := p.area, rooms := p.rooms) == p
    ensures DecimalRead(Get(data, "price"), p.price, r.0.price)
    ensures IntRead(Get(data, "area"), p.area, r.0.area)
    ensures IntRead(Get(data, "rooms"), p.rooms, r.0.rooms)
    ensures BadDecimal(Get(data, "price")) ==> "price" in r.1 && r.1["price"] == NumberMessage
    ensures BadInt(Get(data, "area")) ==> "area" in r.1 && r.1["area"] == IntegerMessage
    ensures BadInt(Get(data, "rooms")) ==> "rooms" in r.1 && r.1["rooms"] == IntegerMessage
    ensures OnlyRejectedChange(data, errors, r.1)
  {
    var (price, e1) := ReadDecimal(data, "price", p.price, errors);
    var (area, e2) := ReadInt(data, "area", p.area, e1);
    var (rooms, e3) := ReadInt(data, "rooms", p.rooms, e2);
    (p.(price := price, area := area, rooms := rooms), e3)
  }

  /** A decimal field: the parsed value or the old one, and its message when rejected. */
  function ReadDecimal(data: map<string, Value>, field: string, current: real, errors: Errors): (r: (real, Errors))
    ensures DecimalRead(Get(data, field), current, r.0)
    ensures r.1 == if BadDecimal(Get(data, field)) then errors[field := NumberMessage] else errors
  {
    var (d, e) := GetDecimal(Get(data, field), field, errors);
    (d.GetOr(current), e)
  }

  /** An integer field: the parsed value or the old one, and its message when rejected. */
  function ReadInt(data: map<string, Value>, field: string, current: int, errors: Errors): (r: (int, Errors))
    ensures IntRead(Get(data, field), current, r.0)
    ensures r.1 == if BadInt(Get(data, field)) then errors[field := IntegerMessage] else errors
  {
    var (i, e) := GetInt(Get(data, field), field, errors);
    (i.GetOr(current), e)
  }

  /** The coordinates of `_update_fields`. */
  function ReadCoordinates(p: Listing, data: map<string, Value>, errors: Errors): (r: (Listing, Errors))
    ensures ChangesOnly(errors, r.1, CoordinateFields)
    ensures r.0.(latitude := p.latitude, longitude := p.longitude) == p
    ensures r.0.latitude == ReadCoordinate(data, "latitude", p.latitude, errors).0
    ensures r.0.longitude == ReadCoordinate(data, "longitude", p.longitude, errors).0
    ensures OnlyRejectedChange(data, errors, r.1)
  {
    var (lat, e1) := ReadCoordinate(data, "latitude", p.latitude, errors);
    var (lon, e2) := ReadCoordinate(data, "longitude", p.longitude, e1);
    (p.(latitude := lat, longitude := lon), e2)
  }

  /** The two flags of `_update_fields`. */
  function ReadFlags(p: Listing, data: map<string, Value>, errors: Errors): (r: (Listing, Errors))
    ensures ChangesOnly(errors, r.1, FlagFields)
    ensures r.0.(featuredHomepage := p.featuredHomepage, isArchived := p.isArchived) == p
    ensures r.0.featuredHomepage == ReadFlag(data, "featured_homepage", p.featuredHomepage, errors).0
    ensures r.0.isArchived == ReadFlag(data, "is_archived", p.isArchived, errors).0
    ensures OnlyRejectedChange(data, errors, r.1)
  {
    var (featured, e1) := ReadFlag(data, "featured_homepage", p.featuredHomepage, errors);
    var (archived, e2) := ReadFlag(data, "is_archived", p.isArchived, e1);
    (p.(featuredHomepage := featured, isArchived := archived), e2)
  }

  /** `_update_fields`: `None` when a present title, description or address is not a
      string (`.strip()` raises); otherwise every readable field is applied, every
      unreadable one leaves the listing alone and records its message, and no key
      outside the updated fields changes. */
  function UpdateFields(p: Listing, data: map<string, Value>, errors: Errors): (r: Option<(Listing, Errors)>)
    ensures r.Some? <==> ReadText(data, "title", p.title).Some? && ReadText(data, "description", p.description).Some?
                         && ReadText(data, "address", p.address).Some?
    ensures r.Some? ==> ChangesOnly(errors, r.value.1, NumericFields + CoordinateFields + FlagFields)
    ensures r.Some? ==> OnlyRejectedChange(data, errors, r.value.1)
    ensures r.Some? ==> r.value.0.title == ReadText(data, "title", p.title).value
                        && r.value.0.address == ReadText(data, "address", p.address).value
                        && r.value.0.description == ReadText(data, "description", p.description).value
    ensures r.Some? ==> DecimalRead(Get(data, "price"), p.price, r.value.0.price)
                        && IntRead(Get(data, "area"), p.area, r.value.0.area)
                        && IntRead(Get(data, "rooms"), p.rooms, r.value.0.rooms)
    ensures r.Some? && BadDecimal(Get(data, "price")) ==> "price" in r.value.1 && r.value.1["price"] == NumberMessage
    ensures r.Some? && BadInt(Get(data, "area")) ==> "area" in r.value.1 && r.value.1["area"] == IntegerMessage
    ensures r.Some? && BadInt(Get(data, "rooms")) ==> "rooms" in r.value.1 && r.value.1["rooms"] == IntegerMessage
    ensures r.Some? ==> r.value.0.features == p.features && r.value.0.slug == p.slug
                        && r.value.0.propertyType == p.propertyType && r.value.0.dealType == p.dealType
  {
    var title := ReadText(data, "title", p.title);
    var description := ReadText(data, "description", p.description);
    var address := ReadText(data, "address", p.address);
    if title.None? || description.None? || address.None? then None
    else
      var p0 := p.(title := title.value, description := description.value, address := address.value);
      var (p1, e1) := ReadNumbers(p0, data, errors);
      var (p2, e2) := ReadCoordinates(p1, data, e1);
      var (p3, e3) := ReadFlags(p2, data, e2);
      FieldGroupsApart();
      Some((p3, e3))
  }

  lemma FieldGroupsApart()
    ensures forall k :: k in NumericFields ==> k !in CoordinateFields && k !in FlagFields
  {
  }

  /** Texts given as strings are always readable. */
  lemma UpdateFieldsOfStrings(p: Listing, data: map<string, Value>, errors: Errors)
    requires "title" in data ==> data["title"].Str?
    requires "description" in data ==> data["description"].Str?
    requires "address" in data ==> data["address"].Str?
    ensures UpdateFields(p, data, errors).Some?
  {
  }

  /** A payload without a rejected value leaves the error map as it was. */
  lemma UpdateFieldsAccepts(p: Listing, data: map<string, Value>, errors: Errors)
    requires UpdateFields(p, data, errors).Some?
    requires forall k :: !FieldRejected(data, k)
    ensures UpdateFields(p, data, errors).value.1 == errors
  {
    var after := UpdateFields(p, data, errors).value.1;
    assert OnlyRejectedChange(data, errors, after);
    assert errors.Keys <= after.Keys;
    forall k | k in after ensures k in errors && after[k] == errors[k] {
      assert !FieldRejected(data, k);
    }
    assert after.Keys == errors.Keys;
  }

  /** Numbers given as numbers are stored as given. */
  lemma UpdateFieldsNumbers(p: Listing, data: map<string, Value>, errors: Errors, price: real, area: int, rooms: int)
    requires UpdateFields(p, data, errors).Some?
    requires Get(data, "price") == Float(price) && Get(data, "area") == Int(area) && Get(data, "rooms") == Int(rooms)
    ensures var q := UpdateFields(p, data, errors).value.0;
            q.price == price && q.area == area && q.rooms == rooms
  {
  }

  /** Texts given as strings are stored stripped. */
  lemma UpdateFieldsTexts(p: Listing, data: map<string, Value>, errors: Errors,
                          title: string, address: string, description: string)
    requires UpdateFields(p, data, errors).Some?
    requires "title" in data && data["title"] == Str(title)
    requires "address" in data && data["address"] == Str(address)
    requires "description" in data && data["description"] == Str(description)
    ensures var q := UpdateFields(p, data, errors).value.0;
            q.title == Strip(title) && q.address == Strip(address) && q.description == Strip(description)
  {
  }

  /** Coordinates given as optional numbers are stored as given. */
  lemma UpdateFieldsCoordinates(p: Listing, data: map<string, Value>, errors: Errors,
                                latitude: Option<real>, longitude: Option<real>)
    requires UpdateFields(p, data, errors).Some?
    requires "latitude" in data && data["latitude"] == OptFloat(latitude)
    requires "longitude" in data && data["longitude"] == OptFloat(longitude)
    ensures var q := UpdateFields(p, data, errors).value.0;
            q.latitude == latitude && q.longitude == longitude
  {
  }

  /** `PropertyType.objects.get(id=...)` of a JSON id: `None` when Python cannot turn it
      into an integer (Django raises). */
  function LookupId(v: Value): Option<int> { ToInt(v) }

  /** The id names a row of `ids`. */
  predicate IdIn(v: Value, ids: set<nat>) {
    LookupId(v).Some? && LookupId(v).value >= 0 && LookupId(v).value as nat in ids
  }

  const FeaturesMessage := "Відсутні ID характеристик."

  /** The integer ids of a JSON list, when every item is an integer. */
  function IntIds(items: seq<Value>): Option<set<int>> {
    if forall i :: 0 <= i < |items| ==> items[i].Int? then Some(set i | 0 <= i < |items| :: items[i].i)
    else None
  }

  /** A feature list Python can read: absent, or a list of integers. */
  predicate FeaturesReadable(data: map<string, Value>) {
    match Get(data, "feature_ids")
    case Null => true
    case Arr(items) => IntIds(items).Some?
    case _ => false
  }

  /** An id Python can read: absent, or read by `int()`. */
  predicate IdReadable(v: Value) {
    v == Null || LookupId(v).Some?
  }

  /** The feature part of `_apply_relation`: unknown ids record one error and leave the
      features alone; otherwise the features become exactly the listed ones. */
  function ApplyFeatures(p: Listing, data: map<string, Value>, errors: Errors, featureIds: set<nat>)
    : (r: Option<(Listing, Errors)>)
    ensures r.Some? <==> FeaturesReadable(data)
    ensures Get(data, "feature_ids") == Null ==> r == Some((p, errors))
    ensures r.Some? ==> ChangesOnly(errors, r.value.1, {"feature_ids"}) && r.value.0.(features := p.features) == p
    ensures r.Some? && r.value.0.features != p.features ==>
              forall f :: f in r.value.0.features ==> f in featureIds
    ensures r.Some? && "feature_ids" in r.value.1 && "feature_ids" !in errors ==> r.value.0 == p
  {
    match Get(data, "feature_ids")
    case Null => Some((p, errors))
    case Arr(items) =>
      (match IntIds(items)
       case None => None
       case Some(ids) =>
         var missing := set i | i in ids && (i < 0 || i as nat !in featureIds);
         if missing != {} then Some((p, errors["feature_ids" := FeaturesMessage]))
         else
           assert forall i :: i in ids ==> i !in missing;
           Some((p.(features := set i | i in ids && i >= 0 :: i as nat), errors)))
    case _ => None
  }

  /** One foreign key of `_apply_relation`: unset leaves it, a known id sets it, an
      unknown one records `message` under `key`. */
  function ApplyId(current: Option<nat>, v: Value, ids: set<nat>, key: string, message: string, errors: Errors)
    : (r: (Option<nat>, Errors))
    requires v == Null || LookupId(v).Some?
    ensures v == Null ==> r == (current, errors)
    ensures IdIn(v, ids) ==> r == (Some(LookupId(v).value as nat), errors)
    ensures v != Null && !IdIn(v, ids) ==> r.0 == current && RecordedOnly(errors, r.1, key, message)
    ensures ChangesOnly(errors, r.1, {key})
  {
    if v == Null then (current, errors)
    else if IdIn(v, ids) then (Some(LookupId(v).value as nat), errors)
    else (current, errors[key := message])
  }

  const RelationFields: set<string> := {"property_type_id", "deal_type_id", "feature_ids"}

  /** `_apply_relation`: an id naming no row records an error under its key; an id
      Python cannot read as an integer raises (`None`). Only the two foreign keys and
      the features may change. */
  function ApplyRelation(p: Listing, data: map<string, Value>, errors: Errors, updateFeatures: bool,
                         typeIds: set<nat>, dealIds: set<nat>, featureIds: set<nat>): (r: Option<(Listing, Errors)>)
    ensures r.Some? <==> IdReadable(Get(data, "property_type_id")) && IdReadable(Get(data, "deal_type_id"))
                         && (updateFeatures ==> FeaturesReadable(data))
    ensures r.Some? ==> ChangesOnly(errors, r.value.1, RelationFields)
    ensures r.Some? ==> r.value.0.(propertyType := p.propertyType, dealType := p.dealType, features := p.features) == p
    ensures r.Some? && !updateFeatures ==> r.value.0.features == p.features
  {
    var t := Get(data, "property_type_id");
    var d := Get(data, "deal_type_id");
    if !IdReadable(t) || !IdReadable(d) then None
    else
      var (pt, e1) := ApplyId(p.propertyType, t, typeIds, "property_type_id", MissingTypeMessage, errors);
      var (dt, e2) := ApplyId(p.dealType, d, dealIds, "deal_type_id", MissingDealMessage, e1);
      var p2 := p.(propertyType := pt, dealType := dt);
      if updateFeatures then ApplyFeatures(p2, data, e2, featureIds) else Some((p2, e2))
  }

  /** The foreign keys `_apply_relation` sets, and the message each unknown id records. */
  lemma ApplyRelationIds(p: Listing, data: map<string, Value>, errors: Errors, updateFeatures: bool,
                         typeIds: set<nat>, dealIds: set<nat>, featureIds: set<nat>)
    requires ApplyRelation(p, data, errors, updateFeatures, typeIds, dealIds, featureIds).Some?
    ensures var (q, e) := ApplyRelation(p, data, errors, updateFeatures, typeIds, dealIds, featureIds).value;
            var t, d := Get(data, "property_type_id"), Get(data, "deal_type_id");
            q.propertyType == ApplyId(p.propertyType, t, typeIds, "property_type_id", MissingTypeMessage, errors).0
            && q.dealType == ApplyId(p.dealType, d, dealIds, "deal_type_id", MissingDealMessage, errors).0
            && (t != Null && !IdIn(t, typeIds) ==> "property_type_id" in e && e["property_type_id"] == MissingTypeMessage)
            && (d != Null && !IdIn(d, dealIds) ==> "deal_type_id" in e && e["deal_type_id"] == MissingDealMessage)
  {
  }
}
