/**
 * The listing search (house/services/search.py): the query-string filters composed into
 * one predicate over listing rows, the ordering they are returned in, and the per-listing
 * price display in the selected currency. A query string is a map from a parameter name
 * to its values in order, as Django's `QueryDict` holds them.
 */
module SearchService {
  import opened Wrappers
  import opened Text
  import opened Models

  type Params = map<string, seq<string>>

  /** `params.get(key)`: the last value given for the key. */
  function Get(params: Params, key: string): (r: Option<string>)
    ensures r.Some? <==> key in params && params[key] != []
    ensures r.Some? ==> r.value == params[key][|params[key]| - 1]
  {
    if key in params && params[key] != [] then Some(params[key][|params[key]| - 1]) else None
  }

  /** `params.getlist(key)`. */
  function GetList(params: Params, key: string): seq<string> {
    if key in params then params[key] else []
  }

  /** A parameter that is present and not the empty string (`if q.get(key):`). */
  predicate Given(v: Option<string>) { v.Some? && v.value != "" }

  // ---------------------------------------------------------------- rooms

  /** The rooms condition: none, a range from `rooms_min`/`rooms_max`, or the legacy
      comma-separated `rooms` list (exact counts and "5+"). */
  datatype Rooms = AnyRooms | Bounds(low: Option<int>, high: Option<int>) | Tokens(exact: seq<nat>, fivePlus: bool)

  /** The numbers written by the digit-only tokens, in token order. */
  function ExactRooms(tokens: seq<string>): (r: seq<nat>)
    ensures |r| <= |tokens|
    decreases |tokens|
  {
    if tokens == [] then []
    else
      var last := tokens[|tokens| - 1];
      ExactRooms(tokens[..|tokens| - 1]) + (if IsDigitString(last) then [DigitsValue(last)] else [])
  }

  /** A count is among the exact rooms exactly when some digit-only token writes it. */
  lemma {:induction false} ExactRoomsMembers(tokens: seq<string>, n: int)
    ensures n in ExactRooms(tokens) <==>
            exists i :: 0 <= i < |tokens| && IsDigitString(tokens[i]) && DigitsValue(tokens[i]) == n
    decreases |tokens|
  {
    if tokens != [] {
      var init := tokens[..|tokens| - 1];
      ExactRoomsMembers(init, n);
      if exists i :: 0 <= i < |init| && IsDigitString(init[i]) && DigitsValue(init[i]) == n {
        var i :| 0 <= i < |init| && IsDigitString(init[i]) && DigitsValue(init[i]) == n;
        assert tokens[i] == init[i];
      }
      if exists i :: 0 <= i < |tokens| && IsDigitString(tokens[i]) && DigitsValue(tokens[i]) == n {
        var i :| 0 <= i < |tokens| && IsDigitString(tokens[i]) && DigitsValue(tokens[i]) == n;
        if i < |init| { assert init[i] == tokens[i]; }
      }
    }
  }

  /** The loop over the legacy tokens: a digit-only token adds its count, "5+" sets the
      open-ended flag, anything else is skipped. */
  method LegacyRooms(tokens: seq<string>) returns (exact: seq<nat>, fivePlus: bool)
    ensures exact == ExactRooms(tokens)
    ensures fivePlus <==> "5+" in tokens
  {
    exact := [];
    fivePlus := false;
    var i := 0;
    while i < |tokens|
      invariant 0 <= i <= |tokens|
      invariant exact == ExactRooms(tokens[..i])
      invariant fivePlus <==> "5+" in tokens[..i]
    {
      var value := tokens[i];
      assert tokens[..i + 1][..i] == tokens[..i];
      if value == "5+" {
        fivePlus := true;
      } else if IsDigitString(value) {
        DigitStringParses(value);
        exact := exact + [DigitsValue(value)];
      }
      assert tokens[..i + 1] == tokens[..i] + [value];
      i := i + 1;
    }
    assert tokens[..i] == tokens;
  }

  /** The legacy `rooms` parameter: trimmed non-empty comma-separated tokens. */
  function LegacyTokens(rooms: string): seq<string> {
    StrippedPieces(Split(rooms, ","))
  }

  function LegacyFilter(rooms: Option<string>): Rooms {
    if !Given(rooms) then AnyRooms
    else
      var tokens := LegacyTokens(rooms.value);
      Tokens(ExactRooms(tokens), "5+" in tokens)
  }

  /** The rooms condition as the `try` block leaves it. `int()` of a bad `rooms_min` raises
      before anything is filtered, so the legacy list applies and `rooms_max` is never
      read; a bad `rooms_max` after a good `rooms_min` keeps the lower bound. */
  function RoomsFilter(low: Option<string>, high: Option<string>, rooms: Option<string>): Rooms {
    if Given(low) && ParseInt(low.value).None? then LegacyFilter(rooms)
    else
      var lowBound := if Given(low) then ParseInt(low.value) else None;
      if Given(high) && ParseInt(high.value).Some? then
        var m := ParseInt(high.value).value;
        Bounds(lowBound, if m < 6 then Some(m) else None)
      else if Given(low) then Bounds(lowBound, None)
      else LegacyFilter(rooms)
  }

  predicate RoomsMatch(f: Rooms, n: int) {
    match f
    case AnyRooms => true
    case Bounds(low, high) => (low.None? || n >= low.value) && (high.None? || n <= high.value)
    case Tokens(exact, fivePlus) => (exact == [] && !fivePlus) || n in exact || (fivePlus && n >= 5)
  }

  /** A `rooms_min` that `int()` reads decides the rooms condition: the legacy list is
      ignored, and the count must be at least that number. */
  lemma MinBoundWins(low: string, high: Option<string>, rooms1: Option<string>, rooms2: Option<string>, n: int)
    requires ParseInt(low).Some?
    ensures RoomsFilter(Some(low), high, rooms1) == RoomsFilter(Some(low), high, rooms2)
    ensures RoomsMatch(RoomsFilter(Some(low), high, rooms1), n) ==> n >= ParseInt(low).value
  {
  }

  /** A readable `rooms_max` (with `rooms_min` absent or readable) decides the rooms
      condition too: below 6 it caps the count, from 6 up there is no upper bound. */
  lemma MaxBoundWins(low: Option<string>, high: string, rooms1: Option<string>, rooms2: Option<string>, n: int)
    requires !Given(low) || ParseInt(low.value).Some?
    requires ParseInt(high).Some?
    ensures RoomsFilter(low, Some(high), rooms1) == RoomsFilter(low, Some(high), rooms2)
    ensures var m := ParseInt(high).value;
            RoomsMatch(RoomsFilter(low, Some(high), rooms1), n) <==>
              (!Given(low) || n >= ParseInt(low.value).value) && (m >= 6 || n <= m)
  {
  }

  /** No digit-only token, no exact rooms. */
  lemma {:induction false} ExactRoomsEmpty(tokens: seq<string>)
    ensures ExactRooms(tokens) == [] <==> forall t :: t in tokens ==> !IsDigitString(t)
    decreases |tokens|
  {
    if tokens != [] {
      var init := tokens[..|tokens| - 1];
      ExactRoomsEmpty(init);
      assert forall t :: t in tokens <==> t in init || t == tokens[|tokens| - 1];
    }
  }

  /** The legacy condition is the union of the exact counts and "at least 5"; with
      neither it filters nothing. */
  lemma TokensUnion(tokens: seq<string>, n: int)
    ensures RoomsMatch(Tokens(ExactRooms(tokens), "5+" in tokens), n) <==>
              (forall t :: t in tokens ==> !IsDigitString(t) && t != "5+")
              || (exists i :: 0 <= i < |tokens| && IsDigitString(tokens[i]) && DigitsValue(tokens[i]) == n)
              || ("5+" in tokens && n >= 5)
  {
    ExactRoomsMembers(tokens, n);
    ExactRoomsEmpty(tokens);
  }

  /** With no readable bounds the legacy list decides, as the union of its trimmed
      tokens. */
  lemma LegacyUnion(low: Option<string>, high: Option<string>, rooms: string, n: int)
    requires (Given(low) && ParseInt(low.value).None?)
             || (!Given(low) && (!Given(high) || ParseInt(high.value).None?))
    requires rooms != ""
    ensures var tokens := LegacyTokens(rooms);
            RoomsMatch(RoomsFilter(low, high, Some(rooms)), n) <==>
              (forall t :: t in tokens ==> !IsDigitString(t) && t != "5+")
              || (exists i :: 0 <= i < |tokens| && IsDigitString(tokens[i]) && DigitsValue(tokens[i]) == n)
              || ("5+" in tokens && n >= 5)
    ensures forall t :: t in LegacyTokens(rooms) ==> t != "" && Strip(t) == t
  {
    assert RoomsFilter(low, high, Some(rooms)) == LegacyFilter(Some(rooms));
    TokensUnion(LegacyTokens(rooms), n);
  }

  /** A bad `rooms_min` sends the search to the legacy list even when `rooms_max` is a
      valid number. */
  lemma BadMinIgnoresMax(low: string, high: Option<string>, rooms: Option<string>)
    requires low != "" && ParseInt(low).None?
    ensures RoomsFilter(Some(low), high, rooms) == LegacyFilter(rooms)
  {
  }

  // ---------------------------------------------------------------- ordering

  /** `SORT_MAP`. */
  function SortMap(option: string): Option<string> {
    if option == "price_asc" then Some("price")
    else if option == "price_desc" then Some("-price")
    else if option == "area_asc" then Some("area")
    else if option == "area_desc" then Some("-area")
    else if option == "date" then Some("-created_at")
    else None
  }

  predicate IsOrderField(f: string) {
    f == "price" || f == "-price" || f == "area" || f == "-area" || f == "-created_at"
  }

  /** `SORT_MAP.get(sort, SORT_MAP.get(default_sort, "-created_at"))`, where the sort option
      is `params.get("sort", default_sort)`. */
  function SortField(sort: Option<string>, defaultSort: string): string {
    var option := sort.GetOr(defaultSort);
    SortMap(option).GetOr(SortMap(defaultSort).GetOr("-created_at"))
  }

  /** A known option gives its own field; an unknown or missing one gives the default
      option's field, and an unknown default gives newest first. The field is always one
      of the five the listing can be ordered by. */
  lemma SortFallback(sort: Option<string>, defaultSort: string)
    ensures IsOrderField(SortField(sort, defaultSort))
    ensures sort.Some? && SortMap(sort.value).Some? ==> SortField(sort, defaultSort) == SortMap(sort.value).value
    ensures (sort.None? || SortMap(sort.value).None?) && SortMap(defaultSort).Some? ==>
              SortField(sort, defaultSort) == SortMap(defaultSort).value
    ensures (sort.None? || SortMap(sort.value).None?) && SortMap(defaultSort).None? ==>
              SortField(sort, defaultSort) == "-created_at"
  {
  }

  /** A listing row as the search reads it: its id, its columns and its creation time. */
  datatype Candidate = Candidate(id: nat, listing: Listing, createdAt: int)

  /** `a` may come before `b` under `order_by(field)`. */
  predicate NotAfter(field: string, a: Candidate, b: Candidate) {
    if field == "price" then a.listing.price <= b.listing.price
    else if field == "-price" then a.listing.price >= b.listing.price
    else if field == "area" then a.listing.area <= b.listing.area
    else if field == "-area" then a.listing.area >= b.listing.area
    else a.createdAt >= b.createdAt
  }

  predicate OrderedBy(field: string, rows: seq<Candidate>) {
    forall i, j :: 0 <= i < j < |rows| ==> NotAfter(field, rows[i], rows[j])
  }

  // ---------------------------------------------------------------- filters

  /** A bound parameter: absent, a number, or text the column's conversion rejects. */
  datatype Bound<T> = NoBound | Limit(value: T) | Unreadable

  /** `area__gte=value`: `PositiveIntegerField` converts with `int()`. */
  function AreaBound(v: Option<string>): Bound<int> {
    if !Given(v) then NoBound
    else match ParseInt(v.value)
      case Some(n) => Limit(n)
      case None => Unreadable
  }

  /** `price__gte=value`: `DecimalField` converts with `Decimal()`. */
  function PriceBound(v: Option<string>): Bound<real> {
    if !Given(v) then NoBound
    else match ParseNumber(v.value)
      case Some(x) => Limit(x)
      case None => Unreadable
  }

  /** The search the parameters describe. */
  datatype Plan = Plan(
    query: Option<string>,
    typeSlugs: seq<string>,
    deal: Option<string>,
    areaMin: Option<int>,
    areaMax: Option<int>,
    priceMin: Option<real>,
    priceMax: Option<real>,
    rooms: Rooms,
    order: string
  )

  function Truthy(v: Option<string>): Option<string> {
    if Given(v) then v else None
  }

  predicate ReadableBounds(params: Params) {
    !AreaBound(Get(params, "area_min")).Unreadable? && !AreaBound(Get(params, "area_max")).Unreadable?
    && !PriceBound(Get(params, "price_min")).Unreadable? && !PriceBound(Get(params, "price_max")).Unreadable?
  }

  function LimitOf<T>(b: Bound<T>): Option<T> {
    if b.Limit? then Some(b.value) else None
  }

  /** `build_search_queryset(queryset, params, default_sort=...)`: `None` when a bound
      parameter is text the column cannot compare with, which raises. */
  function BuildPlan(params: Params, defaultSort: string): (r: Option<Plan>)
    ensures r.None? <==> !ReadableBounds(params)
    ensures r.Some? ==> r.value.order == SortField(Get(params, "sort"), defaultSort)
  {
    if !ReadableBounds(params) then None
    else
      var deal := Truthy(Get(params, "deal_type"));
      Some(Plan(
        Truthy(Get(params, "q")),
        GetList(params, "property_type"),
        if deal.Some? then Some(Strip(deal.value)) else None,
        LimitOf(AreaBound(Get(params, "area_min"))),
        LimitOf(AreaBound(Get(params, "area_max"))),
        LimitOf(PriceBound(Get(params, "price_min"))),
        LimitOf(PriceBound(Get(params, "price_max"))),
        RoomsFilter(Get(params, "rooms_min"), Get(params, "rooms_max"), Get(params, "rooms")),
        SortField(Get(params, "sort"), defaultSort)))
  }

  /** `field__icontains=query`. */
  predicate IContains(field: string, query: string) {
    Contains(Lower(field), Lower(query))
  }

  /** The filters of a plan that a row passes, each one on its own. */
  predicate QueryMatch(query: Option<string>, c: Candidate, deals: seq<DealRow>) {
    var d := DealOf(deals, c.listing.dealType);
    query.None? || IContains(c.listing.title, query.value) || IContains(c.listing.address, query.value)
    || (d.Some? && IContains(d.value.name, query.value))
  }

  predicate TypeMatch(slugs: seq<string>, c: Candidate, types: seq<TypeRow>) {
    var t := TypeOf(types, c.listing.propertyType);
    slugs == [] || (t.Some? && t.value.slug in slugs)
  }

  predicate DealMatch(deal: Option<string>, c: Candidate, deals: seq<DealRow>) {
    var d := DealOf(deals, c.listing.dealType);
    deal.None? || (d.Some? && Lower(d.value.name) == Lower(deal.value))
  }

  predicate WithinBounds(plan: Plan, c: Candidate) {
    (plan.areaMin.None? || c.listing.area >= plan.areaMin.value)
    && (plan.areaMax.None? || c.listing.area <= plan.areaMax.value)
    && (plan.priceMin.None? || c.listing.price >= plan.priceMin.value)
    && (plan.priceMax.None? || c.listing.price <= plan.priceMax.value)
  }

  /** The composed filter: every condition the parameters add must hold. */
  predicate Keeps(plan: Plan, c: Candidate, types: seq<TypeRow>, deals: seq<DealRow>) {
    QueryMatch(plan.query, c, deals) && TypeMatch(plan.typeSlugs, c, types) && DealMatch(plan.deal, c, deals)
    && WithinBounds(plan, c) && RoomsMatch(plan.rooms, c.listing.rooms)
  }

  function Kept(plan: Plan, rows: seq<Candidate>, types: seq<TypeRow>, deals: seq<DealRow>): (r: seq<Candidate>)
    ensures forall c :: c in r <==> c in rows && Keeps(plan, c, types, deals)
    ensures |r| <= |rows|
  {
    if rows == [] then []
    else (if Keeps(plan, rows[0], types, deals) then [rows[0]] else []) + Kept(plan, rows[1..], types, deals)
  }

  /** The rows a search returns: those the filters keep, each once as often as stored,
      in the order the sort option asks for. */
  predicate SearchResult(params: Params, defaultSort: string, rows: seq<Candidate>,
                         types: seq<TypeRow>, deals: seq<DealRow>, result: seq<Candidate>)
    ensures SearchResult(params, defaultSort, rows, types, deals, result) ==> |result| <= |rows|
  {
    var plan := BuildPlan(params, defaultSort);
    var kept := if plan.Some? then Kept(plan.value, rows, types, deals) else [];
    assert |multiset(result)| == |result| && |multiset(kept)| == |kept|;
    plan.Some? && multiset(result) == multiset(kept) && OrderedBy(plan.value.order, result)
  }

  /** A search returns exactly the stored rows that pass every filter. */
  lemma SearchResultMembers(params: Params, defaultSort: string, rows: seq<Candidate>,
                            types: seq<TypeRow>, deals: seq<DealRow>, result: seq<Candidate>, c: Candidate)
    requires SearchResult(params, defaultSort, rows, types, deals, result)
    ensures c in result <==> c in rows && Keeps(BuildPlan(params, defaultSort).value, c, types, deals)
  {
    var kept := Kept(BuildPlan(params, defaultSort).value, rows, types, deals);
    assert c in result <==> c in multiset(result);
    assert c in kept <==> c in multiset(kept);
  }

  /** A query string with no parameters keeps every row. */
  lemma NoParamsKeepAll(defaultSort: string, c: Candidate, types: seq<TypeRow>, deals: seq<DealRow>)
    ensures BuildPlan(map[], defaultSort).Some?
    ensures Keeps(BuildPlan(map[], defaultSort).value, c, types, deals)
  {
  }

  /** The filters a query string can ask for, and the parameters each one reads; the
      three rooms parameters act together. */
  datatype Filter = QueryFilter | TypeFilter | DealFilter | AreaMinFilter | AreaMaxFilter
                  | PriceMinFilter | PriceMaxFilter | RoomsCountFilter

  function FilterKeys(f: Filter): set<string> {
    match f
    case QueryFilter => {"q"}
    case TypeFilter => {"property_type"}
    case DealFilter => {"deal_type"}
    case AreaMinFilter => {"area_min"}
    case AreaMaxFilter => {"area_max"}
    case PriceMinFilter => {"price_min"}
    case PriceMaxFilter => {"price_max"}
    case RoomsCountFilter => {"rooms_min", "rooms_max", "rooms"}
  }

  function Restrict(params: Params, keys: set<string>): Params {
    map k | k in params && k in keys :: params[k]
  }

  lemma RestrictGet(params: Params, keys: set<string>, k: string)
    ensures Get(Restrict(params, keys), k) == if k in keys then Get(params, k) else None
    ensures GetList(Restrict(params, keys), k) == if k in keys then GetList(params, k) else []
  {
  }

  /** Which filter reads which parameter. */
  lemma FilterKeysOf(f: Filter)
    ensures ("q" in FilterKeys(f) <==> f == QueryFilter)
    ensures ("property_type" in FilterKeys(f) <==> f == TypeFilter)
    ensures ("deal_type" in FilterKeys(f) <==> f == DealFilter)
    ensures ("area_min" in FilterKeys(f) <==> f == AreaMinFilter)
    ensures ("area_max" in FilterKeys(f) <==> f == AreaMaxFilter)
    ensures ("price_min" in FilterKeys(f) <==> f == PriceMinFilter)
    ensures ("price_max" in FilterKeys(f) <==> f == PriceMaxFilter)
    ensures ("rooms_min" in FilterKeys(f) <==> f == RoomsCountFilter)
    ensures ("rooms_max" in FilterKeys(f) <==> f == RoomsCountFilter)
    ensures ("rooms" in FilterKeys(f) <==> f == RoomsCountFilter)
    ensures "sort" !in FilterKeys(f)
  {
  }

  /** The plan of a query string, field by field. */
  lemma PlanFields(params: Params, defaultSort: string)
    requires ReadableBounds(params)
    ensures BuildPlan(params, defaultSort) == Some(Plan(
              Truthy(Get(params, "q")),
              GetList(params, "property_type"),
              if Given(Get(params, "deal_type")) then Some(Strip(Get(params, "deal_type").value)) else None,
              LimitOf(AreaBound(Get(params, "area_min"))),
              LimitOf(AreaBound(Get(params, "area_max"))),
              LimitOf(PriceBound(Get(params, "price_min"))),
              LimitOf(PriceBound(Get(params, "price_max"))),
              RoomsFilter(Get(params, "rooms_min"), Get(params, "rooms_max"), Get(params, "rooms")),
              SortField(Get(params, "sort"), defaultSort)))
  {
  }

  /** The search made from one filter's parameters alone: every other filter is off. */
  lemma RestrictedPlan(params: Params, f: Filter, defaultSort: string)
    requires BuildPlan(params, defaultSort).Some?
    ensures var p := BuildPlan(params, defaultSort).value;
            BuildPlan(Restrict(params, FilterKeys(f)), defaultSort) == Some(Plan(
              if f == QueryFilter then p.query else None,
              if f == TypeFilter then p.typeSlugs else [],
              if f == DealFilter then p.deal else None,
              if f == AreaMinFilter then p.areaMin else None,
              if f == AreaMaxFilter then p.areaMax else None,
              if f == PriceMinFilter then p.priceMin else None,
              if f == PriceMaxFilter then p.priceMax else None,
              if f == RoomsCountFilter then p.rooms else AnyRooms,
              SortField(None, defaultSort)))
  {
    var g := FilterKeys(f);
    var r := Restrict(params, g);
    RestrictGet(params, g, "q");
    RestrictGet(params, g, "property_type");
    RestrictGet(params, g, "deal_type");
    RestrictGet(params, g, "area_min");
    RestrictGet(params, g, "area_max");
    RestrictGet(params, g, "price_min");
    RestrictGet(params, g, "price_max");
    RestrictGet(params, g, "rooms_min");
    RestrictGet(params, g, "rooms_max");
    RestrictGet(params, g, "rooms");
    RestrictGet(params, g, "sort");
    FilterKeysOf(f);
    assert ReadableBounds(r);
    PlanFields(params, defaultSort);
    PlanFields(r, defaultSort);
  }

  /** The filter `f` alone keeps `c`. */
  predicate KeptBy(f: Filter, params: Params, defaultSort: string, c: Candidate, types: seq<TypeRow>, deals: seq<DealRow>) {
    var p := BuildPlan(Restrict(params, FilterKeys(f)), defaultSort);
    p.Some? && Keeps(p.value, c, types, deals)
  }

  /** The filters compose by conjunction: a row passes the search exactly when each
      filter, made from its own parameters alone, keeps it. */
  lemma FiltersCompose(params: Params, defaultSort: string, c: Candidate, types: seq<TypeRow>, deals: seq<DealRow>)
    requires BuildPlan(params, defaultSort).Some?
    ensures Keeps(BuildPlan(params, defaultSort).value, c, types, deals) <==>
            forall f :: KeptBy(f, params, defaultSort, c, types, deals)
  {
    var p := BuildPlan(params, defaultSort).value;
    forall f ensures KeptBy(f, params, defaultSort, c, types, deals) <==> FilterPart(f, p, c, types, deals) {
      RestrictedPlan(params, f, defaultSort);
    }
    KeepsAllParts(p, c, types, deals);
  }

  /** A plan keeps a row exactly when each of its filters does. */
  lemma KeepsAllParts(p: Plan, c: Candidate, types: seq<TypeRow>, deals: seq<DealRow>)
    ensures Keeps(p, c, types, deals) <==> forall f :: FilterPart(f, p, c, types, deals)
  {
    if Keeps(p, c, types, deals) {
      forall f ensures FilterPart(f, p, c, types, deals) {
        match f
        case QueryFilter =>
        case TypeFilter =>
        case DealFilter =>
        case AreaMinFilter =>
        case AreaMaxFilter =>
        case PriceMinFilter =>
        case PriceMaxFilter =>
        case RoomsCountFilter =>
      }
    }
    if forall f :: FilterPart(f, p, c, types, deals) {
      assert FilterPart(QueryFilter, p, c, types, deals) && FilterPart(TypeFilter, p, c, types, deals)
        && FilterPart(DealFilter, p, c, types, deals) && FilterPart(AreaMinFilter, p, c, types, deals)
        && FilterPart(AreaMaxFilter, p, c, types, deals) && FilterPart(PriceMinFilter, p, c, types, deals)
        && FilterPart(PriceMaxFilter, p, c, types, deals) && FilterPart(RoomsCountFilter, p, c, types, deals);
    }
  }

  /** The condition one filter of a plan puts on a row. */
  predicate FilterPart(f: Filter, p: Plan, c: Candidate, types: seq<TypeRow>, deals: seq<DealRow>) {
    match f
    case QueryFilter => QueryMatch(p.query, c, deals)
    case TypeFilter => TypeMatch(p.typeSlugs, c, types)
    case DealFilter => DealMatch(p.deal, c, deals)
    case AreaMinFilter => p.areaMin.None? || c.listing.area >= p.areaMin.value
    case AreaMaxFilter => p.areaMax.None? || c.listing.area <= p.areaMax.value
    case PriceMinFilter => p.priceMin.None? || c.listing.price >= p.priceMin.value
    case PriceMaxFilter => p.priceMax.None? || c.listing.price <= p.priceMax.value
    case RoomsCountFilter => RoomsMatch(p.rooms, c.listing.rooms)
  }

  // ---------------------------------------------------------------- currency display

  /** `Decimal` `quantize(Decimal("1"), rounding=ROUND_HALF_UP)`: the nearest whole number,
      halves away from zero. */
  function HalfUp(x: real): (r: int)
    ensures x >= 0.0 ==> r as real - 0.5 <= x < r as real + 0.5
    ensures x < 0.0 ==> r as real - 0.5 < x <= r as real + 0.5
  {
    if x >= 0.0 then (x + 0.5).Floor else -((-x + 0.5).Floor)
  }

  /** Half-up rounding is monotone. */
  lemma HalfUpMonotone(x: real, y: real)
    requires x <= y
    ensures HalfUp(x) <= HalfUp(y)
  {
  }

  /** `Decimal(str(rates.get(code) or fallback))`: a missing or zero rate takes the fallback. */
  function RateOr(rates: map<string, real>, code: string, fallback: real): (r: real)
    requires fallback != 0.0
    ensures r != 0.0
    ensures code in rates && rates[code] != 0.0 ==> r == rates[code]
    ensures code !in rates || rates[code] == 0.0 ==> r == fallback
  {
    if code in rates && rates[code] != 0.0 then rates[code] else fallback
  }

  function UsdRate(rates: map<string, real>): real { RateOr(rates, "USD", 40.0) }
  function EurRate(rates: map<string, real>): real { RateOr(rates, "EUR", 43.5) }
  function UahRate(rates: map<string, real>): real { RateOr(rates, "UAH", 1.0) }

  predicate IsCurrencyCode(code: string) { code == "USD" || code == "EUR" || code == "UAH" }

  /** The three displayed prices of one listing. */
  datatype Conversions = Conversions(usd: int, eur: int, uah: int) {
    /** `conversions[code]`. */
    function Of(code: string): int
      requires IsCurrencyCode(code)
    {
      if code == "USD" then usd else if code == "EUR" then eur else uah
    }
  }

  /** `price * rate / other_rate`, exact. */
  function Scaled(price: real, rate: real, otherRate: real): real
    requires otherRate != 0.0
  {
    price * rate / otherRate
  }

  /** The conversions of a price in dollars (a missing price counts as 0). */
  function Convert(price: Option<real>, usdRate: real, eurRate: real, uahRate: real): (r: Conversions)
    requires uahRate != 0.0
  {
    var p := price.GetOr(0.0);
    Conversions(
      HalfUp(p),
      if eurRate != 0.0 then HalfUp(Scaled(p, usdRate, eurRate)) else 0,
      HalfUp(Scaled(p, usdRate, uahRate)))
  }

  /** The conversion rules: each value is within half a unit of the exact amount, the
      euro guard never fails because a zero rate was already replaced, and a missing
      price shows as 0 everywhere. */
  lemma ConversionRules(price: Option<real>, rates: map<string, real>)
    ensures var c := Convert(price, UsdRate(rates), EurRate(rates), UahRate(rates));
            var p := price.GetOr(0.0);
            var uah := Scaled(p, UsdRate(rates), UahRate(rates));
            var eur := Scaled(p, UsdRate(rates), EurRate(rates));
            (c.usd as real - 0.5 <= p <= c.usd as real + 0.5)
            && (c.uah as real - 0.5 <= uah <= c.uah as real + 0.5)
            && (c.eur as real - 0.5 <= eur <= c.eur as real + 0.5)
            && (price.None? ==> c == Conversions(0, 0, 0))
  {
  }

  /** Scaling by a positive rate ratio keeps the order of two prices. */
  lemma ScaleMonotone(p: real, q: real, u: real, e: real)
    requires p <= q && u > 0.0 && e > 0.0
    ensures Scaled(p, u, e) <= Scaled(q, u, e)
  {
    assert q * u - p * u == (q - p) * u;
    assert (q - p) * u >= 0.0;
    assert q * u / e - p * u / e == (q * u - p * u) / e;
  }

  /** With positive rates, a dearer listing never shows a smaller price in any currency. */
  lemma ConversionMonotone(p: real, q: real, usdRate: real, eurRate: real, uahRate: real)
    requires p <= q
    requires usdRate > 0.0 && eurRate > 0.0 && uahRate > 0.0
    ensures var a := Convert(Some(p), usdRate, eurRate, uahRate);
            var b := Convert(Some(q), usdRate, eurRate, uahRate);
            a.usd <= b.usd && a.eur <= b.eur && a.uah <= b.uah
  {
    ScaleMonotone(p, q, usdRate, eurRate);
    ScaleMonotone(p, q, usdRate, uahRate);
    HalfUpMonotone(p, q);
    HalfUpMonotone(Scaled(p, usdRate, eurRate), Scaled(q, usdRate, eurRate));
    HalfUpMonotone(Scaled(p, usdRate, uahRate), Scaled(q, usdRate, uahRate));
  }

  /** One entry of the currency options, in their order. */
  datatype CurrencyOption = CurrencyOption(code: string, symbol: string)

  datatype OtherValue = OtherValue(code: string, symbol: string, value: int)

  predicate DistinctCodes(options: seq<CurrencyOption>) {
    forall i, j :: 0 <= i < j < |options| ==> options[i].code != options[j].code
  }

  predicate HasCode(options: seq<CurrencyOption>, code: string) {
    exists i :: 0 <= i < |options| && options[i].code == code
  }

  /** `currency_options[code]["symbol"]`. */
  function SymbolOf(options: seq<CurrencyOption>, code: string): (s: string)
    requires HasCode(options, code)
    ensures exists i :: 0 <= i < |options| && options[i] == CurrencyOption(code, s)
  {
    if options[0].code == code then options[0].symbol
    else
      var i :| 0 <= i < |options| && options[i].code == code;
      assert options[1..][i - 1] == options[i];
      SymbolOf(options[1..], code)
  }

  /** `other_currency_values`: every option but the selected one, in option order. */
  function OtherValues(options: seq<CurrencyOption>, selected: string, c: Conversions): (r: seq<OtherValue>)
    requires forall o :: o in options ==> IsCurrencyCode(o.code)
  {
    if options == [] then []
    else
      var o := options[0];
      (if o.code != selected then [OtherValue(o.code, o.symbol, c.Of(o.code))] else [])
      + OtherValues(options[1..], selected, c)
  }

  /** Position of the first option with the code. */
  function CodeIndex(options: seq<CurrencyOption>, code: string): (k: nat)
    ensures k <= |options|
    ensures k < |options| ==> options[k].code == code
    ensures forall i :: 0 <= i < k ==> options[i].code != code
  {
    if options == [] then 0 else if options[0].code == code then 0 else 1 + CodeIndex(options[1..], code)
  }

  /** The other values never name the selected code and name every other option with
      its symbol and converted value. */
  lemma {:induction false} OtherValuesMembers(options: seq<CurrencyOption>, selected: string, c: Conversions)
    requires forall o :: o in options ==> IsCurrencyCode(o.code)
    ensures var r := OtherValues(options, selected, c);
            (forall v :: v in r ==> CurrencyOption(v.code, v.symbol) in options && v.code != selected
                                        && IsCurrencyCode(v.code) && v.value == c.Of(v.code))
            && (forall o :: o in options && o.code != selected ==> OtherValue(o.code, o.symbol, c.Of(o.code)) in r)
    decreases |options|
  {
    if options != [] {
      var rest := options[1..];
      assert forall o :: o in rest ==> o in options;
      OtherValuesMembers(rest, selected, c);
      var o := options[0];
      forall o' | o' in options && o'.code != selected
        ensures OtherValue(o'.code, o'.symbol, c.Of(o'.code)) in OtherValues(options, selected, c)
      {
        if o' != o { assert o' in rest; }
      }
    }
  }

  /** The values name their codes in the order the options list them. */
  predicate InOptionOrder(options: seq<CurrencyOption>, r: seq<OtherValue>) {
    forall i, j :: 0 <= i < j < |r| ==> CodeIndex(options, r[i].code) < CodeIndex(options, r[j].code)
  }

  lemma ShiftOrder(options: seq<CurrencyOption>, tail: seq<OtherValue>)
    requires options != [] && InOptionOrder(options[1..], tail)
    requires forall v :: v in tail ==> CodeIndex(options, v.code) == 1 + CodeIndex(options[1..], v.code)
    ensures InOptionOrder(options, tail)
  {
    forall i, j | 0 <= i < j < |tail| ensures CodeIndex(options, tail[i].code) < CodeIndex(options, tail[j].code) {
      assert tail[i] in tail && tail[j] in tail;
    }
  }

  lemma ConsOrder(options: seq<CurrencyOption>, h: OtherValue, tail: seq<OtherValue>)
    requires InOptionOrder(options, tail) && CodeIndex(options, h.code) == 0
    requires forall v :: v in tail ==> CodeIndex(options, v.code) >= 1
    ensures InOptionOrder(options, [h] + tail)
  {
    var r := [h] + tail;
    forall i, j | 0 <= i < j < |r| ensures CodeIndex(options, r[i].code) < CodeIndex(options, r[j].code) {
      assert r[j] == tail[j - 1] && r[j] in tail;
      if i > 0 { assert r[i] == tail[i - 1]; }
    }
  }

  /** The other values keep the order of the options. */
  lemma {:induction false} OtherValuesOrder(options: seq<CurrencyOption>, selected: string, c: Conversions)
    requires forall o :: o in options ==> IsCurrencyCode(o.code)
    requires DistinctCodes(options)
    ensures InOptionOrder(options, OtherValues(options, selected, c))
    decreases |options|
  {
    if options != [] {
      var rest := options[1..];
      assert forall o :: o in rest ==> o in options;
      assert DistinctCodes(rest) by {
        forall i, j | 0 <= i < j < |rest| ensures rest[i].code != rest[j].code {
          assert rest[i] == options[i + 1] && rest[j] == options[j + 1];
        }
      }
      OtherValuesOrder(rest, selected, c);
      OtherValuesMembers(rest, selected, c);
      var o := options[0];
      var tail := OtherValues(rest, selected, c);
      forall v | v in tail ensures CodeIndex(options, v.code) == 1 + CodeIndex(rest, v.code) {
        var k :| 0 <= k < |rest| && rest[k] == CurrencyOption(v.code, v.symbol);
        assert options[k + 1] == rest[k];
      }
      ShiftOrder(options, tail);
      if o.code != selected {
        ConsOrder(options, OtherValue(o.code, o.symbol, c.Of(o.code)), tail);
      }
    }
  }

  /** A listing object as the template reads it: its price and the display fields the
      currency pass sets on it. */
  class ShownProperty {
    const price: Option<real>
    var priceUah: int
    var priceEur: int
    var priceUsdDisplay: int
    var displayCurrencyCode: string
    var displayCurrencySymbol: string
    var displayPrice: int
    var otherCurrencyValues: seq<OtherValue>

    constructor (price: Option<real>)
      ensures this.price == price
    {
      this.price := price;
      priceUah, priceEur, priceUsdDisplay, displayPrice := 0, 0, 0, 0;
      displayCurrencyCode, displayCurrencySymbol := "", "";
      otherCurrencyValues := [];
    }

    /** The display fields after one pass in the selected currency. */
    predicate Shows(rates: map<string, real>, options: seq<CurrencyOption>, selected: string)
      reads this
      requires IsCurrencyCode(selected) && HasCode(options, selected)
      requires forall o :: o in options ==> IsCurrencyCode(o.code)
    {
      var c := Convert(price, UsdRate(rates), EurRate(rates), UahRate(rates));
      priceUah == c.uah && priceEur == c.eur && priceUsdDisplay == c.usd
      && displayCurrencyCode == selected && displayCurrencySymbol == SymbolOf(options, selected)
      && displayPrice == c.Of(selected) && otherCurrencyValues == OtherValues(options, selected, c)
    }
  }

  /** `apply_currency_display(properties, rates, currency_options, selected_currency)`:
      sets the display fields of every listing and returns the dollar and euro rates used. */
  method ApplyCurrencyDisplay(properties: seq<ShownProperty>, rates: map<string, real>,
                              options: seq<CurrencyOption>, selected: string)
    returns (usdRate: real, eurRate: real)
    requires IsCurrencyCode(selected) && HasCode(options, selected)
    requires forall o :: o in options ==> IsCurrencyCode(o.code)
    modifies set p | p in properties
    ensures usdRate == UsdRate(rates) && eurRate == EurRate(rates)
    ensures forall p :: p in properties ==> p.Shows(rates, options, selected)
  {
    usdRate := UsdRate(rates);
    eurRate := EurRate(rates);
    var uahRate := UahRate(rates);
    var i := 0;
    while i < |properties|
      invariant 0 <= i <= |properties|
      invariant forall j :: 0 <= j < i ==> properties[j].Shows(rates, options, selected)
    {
      var p := properties[i];
      var c := Convert(p.price, usdRate, eurRate, uahRate);
      p.priceUah := c.uah;
      p.priceEur := c.eur;
      p.priceUsdDisplay := c.usd;
      p.displayCurrencyCode := selected;
      p.displayCurrencySymbol := SymbolOf(options, selected);
      p.displayPrice := c.Of(selected);
      p.otherCurrencyValues := OtherValues(options, selected, c);
      i := i + 1;
    }
  }
}
