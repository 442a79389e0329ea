/**
 * The admin API's request handling around the stored rows (house/api/views.py): the
 * query parameters of the listing collection, the import throttle and staff guard, the
 * bulk archive/restore/delete action and the reordering of a listing's images.
 * The throttle's cache is an object whose counters are a map; counter expiry is not
 * modelled.
 */
module AdminRequests {
  import opened Wrappers
  import opened Text
  import opened Json
  import opened Models
  import AdminFields
  import WebCommon

  // ---------------------------------------------------------------- listing query parameters

  const DefaultOrdering := "-created_at"
  const AllowedOrderings: set<string> := {"created_at", "-created_at", "price", "-price", "title", "-title"}

  /** The `ordering` parameter: one of the six allowed orderings, else the newest first. */
  function Ordering(raw: Option<string>): (r: string)
    ensures r in AllowedOrderings
    ensures raw.Some? && raw.value in AllowedOrderings ==> r == raw.value
    ensures (raw.None? || raw.value !in AllowedOrderings) ==> r == DefaultOrdering
  {
    if raw.Some? && raw.value in AllowedOrderings then raw.value else DefaultOrdering
  }

  /** Normalising an ordering again changes nothing. */
  lemma OrderingIdempotent(raw: Option<string>)
    ensures Ordering(Some(Ordering(raw))) == Ordering(raw)
  {
  }

  /** The `page` parameter: `int(...)`, 1 when absent or unreadable. */
  function PageNumber(raw: Option<string>): (r: int)
    ensures raw.Some? && ParseInt(raw.value).Some? ==> r == ParseInt(raw.value).value
    ensures (raw.None? || ParseInt(raw.value).None?) ==> r == 1
  {
    if raw.Some? && ParseInt(raw.value).Some? then ParseInt(raw.value).value else 1
  }

  const DefaultPageSize := 10
  const MaxPageSize := 100

  /** The page size: `page_size`, or `per_page` only when `page_size` is absent; blank or
      unreadable gives 10; the result is clamped to [1, 100]. */
  function PageSize(pageSize: Option<string>, perPage: Option<string>): (r: int)
    ensures 1 <= r <= MaxPageSize
  {
    var raw := if pageSize.Some? then pageSize else perPage;
    var size := if raw.None? || raw.value == "" then DefaultPageSize
                else if ParseInt(raw.value).Some? then ParseInt(raw.value).value
                else DefaultPageSize;
    if size < 1 then 1 else if size > MaxPageSize then MaxPageSize else size
  }

  /** A readable size in range is used as given; one outside is clamped to the nearer end. */
  lemma PageSizeReads(s: string, perPage: Option<string>)
    requires s != "" && ParseInt(s).Some?
    ensures var v := ParseInt(s).value;
            PageSize(Some(s), perPage) == (if v < 1 then 1 else if v > MaxPageSize then MaxPageSize else v)
  {
  }

  /** A present but blank `page_size` gives the default without consulting `per_page`;
      `per_page` counts only when `page_size` is absent. */
  lemma BlankPageSizeIgnoresPerPage(perPage: Option<string>)
    ensures PageSize(Some(""), perPage) == DefaultPageSize
    ensures PageSize(None, perPage) == PageSize(perPage, None)
  {
  }

  /** `Paginator.num_pages` with orphans 0 and the empty first page allowed. */
  function NumPages(count: nat, size: nat): (r: nat)
    requires size >= 1
    ensures r >= 1
    ensures (r - 1) * size < (if count == 0 then 1 else count) <= r * size
  {
    var hits := if count == 0 then 1 else count;
    CeilDivision(hits, size);
    (hits + size - 1) / size
  }

  lemma CeilDivision(hits: nat, size: nat)
    requires hits >= 1 && size >= 1
    ensures var q := (hits + size - 1) / size;
            q >= 1 && (q - 1) * size < hits <= q * size
  {
    var q := (hits + size - 1) / size;
    var m := (hits + size - 1) % size;
    assert hits + size - 1 == q * size + m;
    assert 0 <= m < size;
  }

  /** The page served: the requested one when it exists, else the last page (also for a
      number below 1). */
  function ServedPage(number: int, count: nat, size: nat): (r: nat)
    requires size >= 1
    ensures 1 <= r <= NumPages(count, size)
    ensures 1 <= number <= NumPages(count, size) ==> r == number
    ensures !(1 <= number <= NumPages(count, size)) ==> r == NumPages(count, size)
  {
    if 1 <= number <= NumPages(count, size) then number else NumPages(count, size)
  }

  /** The served page starts inside the results, so a non-empty result list never yields
      an empty page. */
  lemma ServedPageNonEmpty(number: int, count: nat, size: nat)
    requires size >= 1 && count > 0
    ensures (ServedPage(number, count, size) - 1) * size < count
  {
    var r := ServedPage(number, count, size);
    var n := NumPages(count, size);
    assert (n - 1) * size < count;
    assert (r - 1) * size <= (n - 1) * size by {
      MultiplyMonotone(r - 1, n - 1, size);
    }
  }

  lemma MultiplyMonotone(a: nat, b: nat, c: nat)
    requires a <= b
    ensures a * c <= b * c
  {
  }

  /** Which rows the archive filter keeps. */
  datatype ArchiveFilter = OnlyArchived | OnlyActive | AnyArchive {
    predicate Keeps(p: Listing) {
      match this
      case OnlyArchived => p.isArchived
      case OnlyActive => !p.isArchived
      case AnyArchive => true
    }
    /** The `status` echoed in the response. */
    function Label(): string {
      match this
      case OnlyArchived => "archived"
      case OnlyActive => "active"
      case AnyArchive => "all"
    }
  }

  /** The archive filter of the listing collection; the response echoes its `Label()` as
      `status`. A non-blank `is_archived` decides by `_get_bool` (unreadable means all);
      otherwise `status`, trimmed and lowercased, picks archived or all, and anything
      else means active. A missing or blank `status` reads as "active". */
  function StatusFilter(isArchived: Option<string>, status: Option<string>): (r: ArchiveFilter)
    ensures isArchived.Some? && isArchived.value != "" ==>
              r == (match AdminFields.GetBool(Str(isArchived.value))
                    case Some(true) => OnlyArchived
                    case Some(false) => OnlyActive
                    case None => AnyArchive)
    ensures (isArchived.None? || isArchived.value == "") && status.Some? && status.value != "" ==>
              r == (if Lower(Strip(status.value)) == "archived" then OnlyArchived
                    else if Lower(Strip(status.value)) == "all" then AnyArchive else OnlyActive)
  {
    if isArchived.Some? && isArchived.value != "" then
      match AdminFields.GetBool(Str(isArchived.value))
      case Some(true) => OnlyArchived
      case Some(false) => OnlyActive
      case None => AnyArchive
    else if status.None? || status.value == "" then OnlyActive
    else
      var word := Lower(Strip(status.value));
      if word == "archived" then OnlyArchived
      else if word == "all" then AnyArchive
      else OnlyActive
  }

  /** A non-blank `is_archived` overrides `status`, and without either only active
      listings are listed. */
  lemma ExplicitArchivedWins(flag: string, status1: Option<string>, status2: Option<string>)
    requires flag != ""
    ensures StatusFilter(Some(flag), status1) == StatusFilter(Some(flag), status2)
  {
  }

  lemma ActiveByDefault(isArchived: Option<string>)
    requires isArchived.None? || isArchived == Some("")
    ensures StatusFilter(isArchived, None) == OnlyActive
    ensures StatusFilter(isArchived, Some("")) == OnlyActive
  {
  }

  // ---------------------------------------------------------------- import throttle

  const DefaultImportLimit := 5
  const DefaultImportWindow := 60

  /** The count stored under `key`; a missing key reads as 0 (`cache.get(key, 0)`). */
  function Count(counters: map<string, nat>, key: string): nat {
    if key in counters then counters[key] else 0
  }

  /** One `_import_rate_limited` call on the counters: throttled, untouched, once the count
      reached the limit; otherwise the count goes up by one (`incr`, or `set(key, 1)`). */
  function Hit(counters: map<string, nat>, key: string, limit: nat): (r: (bool, map<string, nat>))
    ensures r.0 <==> Count(counters, key) >= limit
    ensures r.0 ==> r.1 == counters
    ensures !r.0 ==> Count(r.1, key) == Count(counters, key) + 1
    ensures forall k :: k != key ==> (k in r.1 <==> k in counters) && Count(r.1, k) == Count(counters, k)
  {
    var current := Count(counters, key);
    if current >= limit then (true, counters) else (false, counters[key := current + 1])
  }

  /** The throttle answers of `n` successive calls under one key. */
  function Calls(counters: map<string, nat>, key: string, limit: nat, n: nat): (r: seq<bool>)
    ensures |r| == n
    decreases n
  {
    if n == 0 then []
    else
      var h := Hit(counters, key, limit);
      [h.0] + Calls(h.1, key, limit, n - 1)
  }

  /** From a count at most the limit, call `i` is throttled exactly when the count plus `i`
      reaches the limit: the calls are allowed until the limit, then all refused. */
  lemma {:induction false} CallsThrottleAtLimit(counters: map<string, nat>, key: string, limit: nat, n: nat)
    requires Count(counters, key) <= limit
    ensures forall i :: 0 <= i < n ==> Calls(counters, key, limit, n)[i] == (Count(counters, key) + i >= limit)
    decreases n
  {
    if n > 0 {
      var h := Hit(counters, key, limit);
      CallsThrottleAtLimit(h.1, key, limit, n - 1);
      var r := Calls(counters, key, limit, n);
      assert r == [h.0] + Calls(h.1, key, limit, n - 1);
      forall i | 0 < i < n ensures r[i] == (Count(counters, key) + i >= limit) {
        assert r[i] == Calls(h.1, key, limit, n - 1)[i - 1];
      }
    }
  }

  /** With a limit of one, a fresh key lets the first call through and refuses the second. */
  lemma SecondCallThrottled(counters: map<string, nat>, key: string)
    requires key !in counters
    ensures Calls(counters, key, 1, 2) == [false, true]
  {
    CallsThrottleAtLimit(counters, key, 1, 2);
  }

  /** The cache key: signed-in user id (or "anon") and client address (or "ip-unknown"). */
  function ImportKey(user: Option<nat>, ip: string): string {
    "import-rate:" + (if user.Some? then NatToString(user.value) else "anon") + ":"
    + (if ip == "" then "ip-unknown" else ip)
  }

  /** Two users never share a throttle counter, whatever their addresses. */
  lemma ImportKeysSeparateUsers(a: nat, b: nat, ipA: string, ipB: string)
    requires a != b
    ensures ImportKey(Some(a), ipA) != ImportKey(Some(b), ipB)
  {
    var ka, kb := ImportKey(Some(a), ipA), ImportKey(Some(b), ipB);
    var sa, sb := NatToString(a), NatToString(b);
    if ka == kb {
      var prefix := "import-rate:";
      assert ka[|prefix|..] == sa + ":" + (if ipA == "" then "ip-unknown" else ipA);
      assert kb[|prefix|..] == sb + ":" + (if ipB == "" then "ip-unknown" else ipB);
      DigitsThenColon(sa, if ipA == "" then "ip-unknown" else ipA);
      DigitsThenColon(sb, if ipB == "" then "ip-unknown" else ipB);
      NatToStringValue(a);
      NatToStringValue(b);
    }
  }

  /** A digit string followed by ':' is read back as the text before the first ':'. */
  lemma DigitsThenColon(digits: string, rest: string)
    requires AllDigits(digits)
    ensures var s := digits + ":" + rest;
            IndexOf(s, ':') == |digits| && s[..IndexOf(s, ':')] == digits
  {
    var s := digits + ":" + rest;
    assert s[|digits|] == ':';
    assert forall i :: 0 <= i < |digits| ==> s[i] == digits[i] && s[i] != ':';
  }

  datatype User = Anonymous | SignedIn(id: nat, isStaff: bool) {
    predicate IsStaff() { SignedIn? && isStaff }
  }

  /** The import-rate counters kept in the cache. */
  class ImportThrottle {
    var counters: map<string, nat>
    /** `IMPORT_RATE_LIMIT`; the window `IMPORT_RATE_WINDOW` is the counters' expiry. */
    const limit: nat

    constructor (limit: nat)
      ensures counters == map[] && this.limit == limit
    {
      counters := map[];
      this.limit := limit;
    }

    /** `_import_rate_limited` for one key. */
    method RateLimited(key: string) returns (throttled: bool)
      modifies this
      ensures (throttled, counters) == Hit(old(counters), key, limit)
    {
      var current := if key in counters then counters[key] else 0;
      if current >= limit {
        return true;
      }
      if key in counters {
        counters := counters[key := counters[key] + 1];
      } else {
        counters := counters[key := 1];
      }
      throttled := false;
    }

    /** `_ensure_staff`: 403 without counting for anyone but staff; 429 when the staff
        member's key is throttled; `None` lets the import run. */
    method EnsureStaff(user: User, meta: map<string, string>) returns (denied: Option<nat>)
      modifies this
      ensures !user.IsStaff() ==> denied == Some(403) && counters == old(counters)
      ensures user.IsStaff() ==>
                var h := Hit(old(counters), ImportKey(Some(user.id), WebCommon.ClientIp(meta)), limit);
                counters == h.1 && denied == (if h.0 then Some(429) else None)
    {
      if !user.IsStaff() {
        return Some(403);
      }
      var throttled := RateLimited(ImportKey(Some(user.id), WebCommon.ClientIp(meta)));
      denied := if throttled then Some(429) else None;
    }
  }

  // ---------------------------------------------------------------- ids in queries

  /** `filter(id__in=items)`: Django converts every item with `int()`, drops `None`, and
      raises on an item it cannot convert (`None` here). */
  function QueryIds(items: seq<Value>): (r: Option<set<int>>)
    ensures r.Some? <==> forall i :: 0 <= i < |items| ==> items[i] == Null || ToInt(items[i]).Some?
    ensures r.Some? ==> forall i :: 0 <= i < |items| && items[i] != Null ==> ToInt(items[i]).value in r.value
  {
    if forall i :: 0 <= i < |items| ==> items[i] == Null || ToInt(items[i]).Some? then
      Some(set i | 0 <= i < |items| && items[i] != Null && ToInt(items[i]).Some? :: ToInt(items[i]).value)
    else None
  }

  /** The stored listings the ids select. */
  function Selected(listings: map<nat, Listing>, ids: set<int>): (r: set<nat>)
    ensures forall id :: id in r <==> id in listings && id as int in ids
  {
    set id | id in listings && id as int in ids
  }

  // ---------------------------------------------------------------- bulk action

  datatype Action = Archive | Restore | Delete

  datatype BulkOutcome =
    | BulkInvalidJson                   // 400
    | BulkRaises                        // 500
    | NothingSelected                   // 400
    | UnsupportedAction                 // 400
    | NoneExist                         // 404
    | Processed(count: nat, action: Action)   // 200

  function BulkStatus(o: BulkOutcome): nat {
    match o
    case BulkInvalidJson => 400
    case BulkRaises => 500
    case NothingSelected => 400
    case UnsupportedAction => 400
    case NoneExist => 404
    case Processed(_, _) => 200
  }

  /** `(payload.get("action") or "").strip().lower()` matched against the three actions;
      the outer `None` is a truthy non-string, whose `.strip()` raises. */
  function ActionOf(v: Value): (r: Option<Option<Action>>)
    ensures !Truthy(v) ==> r == Some(None)
    ensures Truthy(v) && !v.Str? ==> r.None?
    ensures r.Some? && r.value.Some? ==> v.Str? && (Lower(Strip(v.s)) == "archive" || Lower(Strip(v.s)) == "restore" || Lower(Strip(v.s)) == "delete")
  {
    if !Truthy(v) then Some(None)
    else if !v.Str? then None
    else
      var word := Lower(Strip(v.s));
      Some(if word == "archive" then Some(Archive)
           else if word == "restore" then Some(Restore)
           else if word == "delete" then Some(Delete)
           else None)
  }

  /** The ids list: `payload.get("ids") or []`, which must be a non-empty list. */
  function IdsOf(fields: map<string, Value>): Option<seq<Value>> {
    var ids := Get(fields, "ids");
    if Truthy(ids) && ids.Arr? then Some(ids.items) else None
  }

  /** `property_bulk_action`'s answer for a decoded body over the stored listings. */
  function BulkPlan(payload: Value, listings: map<nat, Listing>): (r: BulkOutcome)
    ensures r.Processed? ==> payload.Obj? && IdsOf(payload.fields).Some? && QueryIds(IdsOf(payload.fields).value).Some?
    ensures r.Processed? ==> r.count == |Selected(listings, QueryIds(IdsOf(payload.fields).value).value)| > 0
    ensures r == BulkInvalidJson <==> payload == Null
    ensures r.Processed? ==> ActionOf(Get(payload.fields, "action")) == Some(Some(r.action))
  {
    if payload == Null then BulkInvalidJson
    else if !payload.Obj? then BulkRaises
    else
      match ActionOf(Get(payload.fields, "action"))
      case None => BulkRaises
      case Some(action) =>
        match IdsOf(payload.fields)
        case None => NothingSelected
        case Some(items) =>
          if action.None? then UnsupportedAction
          else
            match QueryIds(items)
            case None => BulkRaises
            case Some(ids) =>
              var selected := Selected(listings, ids);
              if selected == {} then NoneExist else Processed(|selected|, action.value)
  }

  /** An empty or missing ids list is refused before the action is looked at. */
  lemma NoIdsRefused(fields: map<string, Value>, listings: map<nat, Listing>)
    requires ActionOf(Get(fields, "action")).Some? && !Truthy(Get(fields, "ids"))
    ensures BulkPlan(Obj(fields), listings) == NothingSelected
  {
    assert IdsOf(fields).None?;
  }

  /** A supported action on readable ids that name no stored listing gives 404. */
  lemma UnknownIdsNotFound(fields: map<string, Value>, listings: map<nat, Listing>)
    requires ActionOf(Get(fields, "action")).Some? && ActionOf(Get(fields, "action")).value.Some?
    requires IdsOf(fields).Some? && QueryIds(IdsOf(fields).value).Some?
    requires Selected(listings, QueryIds(IdsOf(fields).value).value) == {}
    ensures BulkPlan(Obj(fields), listings) == NoneExist
  {
  }

  /** The ids as stored listing keys. */
  function SelectedOf(payload: Value, listings: map<nat, Listing>): set<nat>
    requires BulkPlan(payload, listings).Processed?
  {
    Selected(listings, QueryIds(IdsOf(payload.fields).value).value)
  }

  /** `property_bulk_action` after the staff check. */
  method BulkAction(store: Store, payload: Value) returns (outcome: BulkOutcome)
    requires store.Valid()
    modifies store
    ensures store.Valid()
    ensures outcome == BulkPlan(payload, old(store.listings))
    ensures !outcome.Processed? ==> store.listings == old(store.listings) && store.images == old(store.images)
    ensures outcome.Processed? && outcome.action != Delete ==>
              store.listings == WithArchived(old(store.listings), SelectedOf(payload, old(store.listings)),
                                             outcome.action == Archive)
              && store.images == old(store.images)
    ensures outcome.Processed? && outcome.action == Delete ==>
              var gone := SelectedOf(payload, old(store.listings));
              store.listings == WithoutListings(old(store.listings), gone)
              && store.images == ImagesWithout(old(store.images), gone)
    ensures store.types == old(store.types) && store.deals == old(store.deals) && store.lastId == old(store.lastId)
  {
    outcome := BulkPlan(payload, store.listings);
    if outcome.Processed? {
      var selected := SelectedOf(payload, store.listings);
      if outcome.action == Delete {
        store.DeleteListings(selected);
      } else {
        store.SetArchived(selected, outcome.action == Archive);
      }
    }
  }

  // ---------------------------------------------------------------- image reorder

  /** `id_map.get(image_id)` with integer keys: a JSON value finds the key it hashes and
      compares equal to (an int, a bool as 0/1, an integral float); a string does not. */
  function DictKey(v: Value): (r: Option<int>)
    ensures r.Some? ==> v != Null && ToInt(v) == Some(r.value)
  {
    match v
    case Int(i) => Some(i)
    case Bool(b) => Some(if b then 1 else 0)
    case Float(x) => if x == x.Floor as real then Some(x.Floor) else None
    case _ => None
  }

  /** The last 1-based position of `order` whose item looks up `id`, 0 for none. */
  function LastPosition(order: seq<Value>, id: nat): (r: nat)
    ensures r <= |order|
    ensures r > 0 ==> DictKey(order[r - 1]) == Some(id)
    ensures forall k :: r <= k < |order| ==> DictKey(order[k]) != Some(id)
  {
    if order == [] then 0
    else if DictKey(order[|order| - 1]) == Some(id) then |order|
    else LastPosition(order[..|order| - 1], id)
  }

  /** An image after the reorder: a listed image of the listing takes the position where
      it was last listed. */
  function ReorderedRow(x: ImageRow, property: nat, order: seq<Value>): ImageRow {
    var pos := LastPosition(order, x.id);
    if x.property == property && pos > 0 then x.(sortOrder := pos) else x
  }

  function Reordered(images: seq<ImageRow>, property: nat, order: seq<Value>): (r: seq<ImageRow>)
    ensures |r| == |images|
    ensures forall k :: 0 <= k < |r| ==> r[k] == ReorderedRow(images[k], property, order)
  {
    seq(|images|, k requires 0 <= k < |images| => ReorderedRow(images[k], property, order))
  }

  /** Only sort positions change, and only those of the listing's images. */
  lemma ReorderedOnlySortOrder(images: seq<ImageRow>, property: nat, order: seq<Value>)
    ensures var r := Reordered(images, property, order);
            (forall k :: 0 <= k < |r| ==> r[k].(sortOrder := images[k].sortOrder) == images[k])
            && (forall k :: 0 <= k < |r| && images[k].property != property ==> r[k] == images[k])
  {
  }

  /** An order listing distinct integer ids places the image with the i-th id at
      position i + 1; images it does not list keep their position. */
  lemma ReorderedFollowsOrder(images: seq<ImageRow>, property: nat, ids: seq<nat>)
    requires forall a, b :: 0 <= a < b < |ids| ==> ids[a] != ids[b]
    ensures var order := seq(|ids|, i requires 0 <= i < |ids| => Int(ids[i]));
            var r := Reordered(images, property, order);
            forall k :: 0 <= k < |r| && images[k].property == property ==>
              (forall i :: 0 <= i < |ids| && ids[i] == images[k].id ==> r[k].sortOrder == i + 1)
              && (images[k].id !in ids ==> r[k].sortOrder == images[k].sortOrder)
  {
    var order := seq(|ids|, i requires 0 <= i < |ids| => Int(ids[i]));
    assert forall i :: 0 <= i < |order| ==> DictKey(order[i]) == Some(ids[i]);
    forall k, i | 0 <= k < |images| && images[k].property == property && 0 <= i < |ids| && ids[i] == images[k].id
      ensures ReorderedRow(images[k], property, order).sortOrder == i + 1
    {
      var pos := LastPosition(order, images[k].id);
      assert DictKey(order[i]) == Some(images[k].id);
      assert pos - 1 >= i;
      assert ids[pos - 1] == images[k].id;
    }
    forall k | 0 <= k < |images| && images[k].property == property && images[k].id !in ids
      ensures ReorderedRow(images[k], property, order).sortOrder == images[k].sortOrder
    {
    }
  }

  /** One more item of the order changes exactly the listing's image it looks up. */
  lemma ReorderedSnoc(images: seq<ImageRow>, property: nat, order: seq<Value>, i: nat)
    requires i < |order|
    ensures var cur := Reordered(images, property, order[..i]);
            var next := Reordered(images, property, order[..i + 1]);
            forall k :: 0 <= k < |images| ==>
              next[k] == (if images[k].property == property && DictKey(order[i]) == Some(images[k].id)
                          then cur[k].(sortOrder := i + 1) else cur[k])
  {
    assert order[..i + 1][..i] == order[..i];
    assert order[..i + 1][i] == order[i];
  }

  datatype ReorderOutcome =
    | ReorderNotFound     // 404
    | ReorderInvalidJson  // 400
    | ReorderRaises       // 500
    | NotAnIdList         // 400
    | ReorderDone         // 200

  function ReorderStatus(o: ReorderOutcome): nat {
    match o
    case ReorderNotFound => 404
    case ReorderInvalidJson => 400
    case ReorderRaises => 500
    case NotAnIdList => 400
    case ReorderDone => 200
  }

  /** `payload.get("order") or []`. */
  function OrderOf(fields: map<string, Value>): Value {
    var order := Get(fields, "order");
    if Truthy(order) then order else Arr([])
  }

  /** `property_images_reorder`'s answer before anything is saved. */
  function ReorderPlan(listings: map<nat, Listing>, property: nat, payload: Value): (r: ReorderOutcome)
    ensures r == ReorderNotFound <==> property !in listings
    ensures r == ReorderDone ==> payload.Obj? && OrderOf(payload.fields).Arr?
                                 && QueryIds(OrderOf(payload.fields).items).Some?
  {
    if property !in listings then ReorderNotFound
    else if payload == Null then ReorderInvalidJson
    else if !payload.Obj? then ReorderRaises
    else
      var order := OrderOf(payload.fields);
      if !order.Arr? then NotAnIdList
      else if QueryIds(order.items).None? then ReorderRaises
      else ReorderDone
  }

  /** The position of the listing's image with this id, if any. */
  method FindImage(images: seq<ImageRow>, property: nat, id: nat) returns (j: Option<nat>)
    ensures j.Some? ==> j.value < |images| && images[j.value].property == property && images[j.value].id == id
    ensures j.None? ==> forall k :: 0 <= k < |images| ==> !(images[k].property == property && images[k].id == id)
  {
    var k := 0;
    while k < |images|
      invariant 0 <= k <= |images|
      invariant forall m :: 0 <= m < k ==> !(images[m].property == property && images[m].id == id)
    {
      if images[k].property == property && images[k].id == id {
        return Some(k);
      }
      k := k + 1;
    }
    return None;
  }

  /** A listed item that looks up the listing's image at `at` moves that image alone. */
  lemma ReorderHit(before: seq<ImageRow>, property: nat, order: seq<Value>, i: nat, at: nat)
    requires i < |order|
    requires var cur := Reordered(before, property, order[..i]);
             DistinctIds(cur) && at < |cur| && cur[at].property == property && DictKey(order[i]) == Some(cur[at].id)
    ensures var cur := Reordered(before, property, order[..i]);
            Reordered(before, property, order[..i + 1]) == cur[at := cur[at].(sortOrder := i + 1)]
  {
    var cur := Reordered(before, property, order[..i]);
    ReorderedSnoc(before, property, order, i);
    forall k | 0 <= k < |before| && k != at
      ensures !(before[k].property == property && DictKey(order[i]) == Some(before[k].id))
    {
      assert cur[k].id == before[k].id && cur[at].id == before[at].id;
    }
  }

  /** A listed item that looks up none of the listing's images changes nothing. */
  lemma ReorderMiss(before: seq<ImageRow>, property: nat, order: seq<Value>, i: nat)
    requires i < |order|
    requires var cur := Reordered(before, property, order[..i]);
             forall k :: 0 <= k < |cur| ==> !(cur[k].property == property && DictKey(order[i]) == Some(cur[k].id))
    ensures Reordered(before, property, order[..i + 1]) == Reordered(before, property, order[..i])
  {
    var cur := Reordered(before, property, order[..i]);
    ReorderedSnoc(before, property, order, i);
    forall k | 0 <= k < |before|
      ensures !(before[k].property == property && DictKey(order[i]) == Some(before[k].id))
    {
      assert cur[k].id == before[k].id && cur[k].property == before[k].property;
    }
  }

  /** Saving the image a listed item finds is one step of the reordering. */
  lemma ReorderSaved(before: seq<ImageRow>, property: nat, order: seq<Value>, i: nat,
                     cur: seq<ImageRow>, at: nat)
    requires i < |order| && cur == Reordered(before, property, order[..i])
    requires OneMainEach(cur) && DistinctIds(cur)
    requires at < |cur| && cur[at].property == property && DictKey(order[i]) == Some(cur[at].id)
    ensures SavedImages(cur, cur[at].(sortOrder := i + 1)) == Reordered(before, property, order[..i + 1])
  {
    ReorderHit(before, property, order, i, at);
    SaveExistingImage(cur, at, i + 1);
  }

  /** One pass of that loop: item `i` saves the listing's image with its id, if any. */
  method ApplyItem(store: Store, property: nat, ghost before: seq<ImageRow>, order: seq<Value>, i: nat)
    requires store.Valid() && i < |order|
    requires store.images == Reordered(before, property, order[..i])
    modifies store
    ensures store.Valid()
    ensures store.images == Reordered(before, property, order[..i + 1])
    ensures store.listings == old(store.listings) && store.types == old(store.types)
            && store.deals == old(store.deals) && store.lastId == old(store.lastId)
  {
    var key := DictKey(order[i]);
    var j: Option<nat> := None;
    if key.Some? && key.value >= 0 {
      j := FindImage(store.images, property, key.value as nat);
    }
    if j.Some? {
      ReorderSaved(before, property, order, i, store.images, j.value);
      assert store.images[j.value].id <= store.lastId;
      var saved := store.SaveImage(store.images[j.value].(sortOrder := i + 1), false);
    } else {
      ReorderMiss(before, property, order, i);
    }
  }

  /** The loop of `property_images_reorder`: item `i` saves the image it looks up with
      sort position `i + 1`. The images the view loads are the stored rows, so each
      lookup reads the store. */
  method ApplyOrder(store: Store, property: nat, order: seq<Value>)
    requires store.Valid()
    modifies store
    ensures store.Valid()
    ensures store.images == Reordered(old(store.images), property, order)
    ensures store.listings == old(store.listings) && store.types == old(store.types)
            && store.deals == old(store.deals) && store.lastId == old(store.lastId)
  {
    ghost var before := store.images;
    assert store.images == Reordered(before, property, order[..0]);
    var i := 0;
    while i < |order|
      invariant 0 <= i <= |order|
      invariant store.Valid()
      invariant store.images == Reordered(before, property, order[..i])
      invariant store.listings == old(store.listings) && store.types == old(store.types)
      invariant store.deals == old(store.deals) && store.lastId == old(store.lastId)
    {
      ApplyItem(store, property, before, order, i);
      i := i + 1;
    }
    assert order[..|order|] == order;
  }

  /** `property_images_reorder` after the staff check. */
  method ImagesReorder(store: Store, property: nat, payload: Value) returns (outcome: ReorderOutcome)
    requires store.Valid()
    modifies store
    ensures store.Valid()
    ensures outcome == ReorderPlan(old(store.listings), property, payload)
    ensures outcome == ReorderDone ==>
              store.images == Reordered(old(store.images), property, OrderOf(payload.fields).items)
    ensures outcome != ReorderDone ==> store.images == old(store.images)
    ensures store.listings == old(store.listings) && store.types == old(store.types)
            && store.deals == old(store.deals) && store.lastId == old(store.lastId)
  {
    outcome := ReorderPlan(store.listings, property, payload);
    if outcome == ReorderDone {
      ApplyOrder(store, property, OrderOf(payload.fields).items);
    }
  }
}
