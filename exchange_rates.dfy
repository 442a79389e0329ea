/**
 * The exchange-rate provider (house/utils/currency.py): the bank's JSON payload is
 * reduced to dollar and euro sale rates, and requests go through a single cache entry,
 * falling back to the stale entry and then to fixed default rates.
 * The bank's answer is a parameter: the outcome the HTTP request would have.
 */
module ExchangeRates {
  import opened Wrappers
  import opened Text
  import opened Json
  import opened PriceNormalizer

  /** `DEFAULT_RATES`. */
  const DefaultRates: Rates := map["USD" := 40.0, "EUR" := 43.5, "UAH" := 1.0]

  /** What the HTTP request brought back. */
  datatype Response =
    | RequestFailed              // connection error or an error status
    | NotJson                    // a body `response.json()` rejects
    | Payload(items: seq<map<string, Value>>)

  /** Rates as the provider hands them out: the hryvnia at 1 and at least one more. */
  predicate WellFormed(r: Rates) {
    "UAH" in r && r["UAH"] == 1.0 && |r| > 1
  }

  /** One iteration of the payload loop: a USD or EUR item whose sale value `float()`
      accepts overwrites that code's rate; anything else is skipped. */
  function Absorb(rates: Rates, item: map<string, Value>): Rates {
    var code := Get(item, "ccy");
    if code == Str("USD") || code == Str("EUR") then
      match ToFloat(Get(item, "sale"))
      case Some(x) => rates[code.s := x]
      case None => rates
    else rates
  }

  /** The rates after absorbing `items` in order. */
  function AbsorbAll(rates: Rates, items: seq<map<string, Value>>): Rates
    decreases |items|
  {
    if items == [] then rates else AbsorbAll(Absorb(rates, items[0]), items[1..])
  }

  /** The sale value the last valid item for `code` carries: the one that wins. */
  function LastSale(items: seq<map<string, Value>>, code: string): Option<real>
    decreases |items|
  {
    if items == [] then None
    else
      var later := LastSale(items[1..], code);
      if later.Some? then later
      else if Get(items[0], "ccy") == Str(code) then ToFloat(Get(items[0], "sale"))
      else None
  }

  /** The loop keeps the hryvnia, sets nothing but USD and EUR, and each code ends with
      the last valid sale value of the payload. */
  lemma {:induction false} AbsorbAllValues(rates: Rates, items: seq<map<string, Value>>)
    ensures forall k :: k in AbsorbAll(rates, items) && k !in rates ==> k == "USD" || k == "EUR"
    ensures forall k :: k in rates ==> k in AbsorbAll(rates, items)
    ensures forall k :: k in rates && k != "USD" && k != "EUR" ==> AbsorbAll(rates, items)[k] == rates[k]
    ensures forall code :: code == "USD" || code == "EUR" ==>
              if LastSale(items, code).Some? then code in AbsorbAll(rates, items)
                                               && AbsorbAll(rates, items)[code] == LastSale(items, code).value
              else (code in AbsorbAll(rates, items) <==> code in rates)
                   && (code in rates ==> AbsorbAll(rates, items)[code] == rates[code])
    decreases |items|
  {
    if items != [] {
      AbsorbAllValues(Absorb(rates, items[0]), items[1..]);
    }
  }

  /** `_fetch_privtabank_rates`: `None` when the request or the decoding fails, or when
      neither rate was read. */
  function RatesFromResponse(response: Response): (r: Option<Rates>)
    ensures r.Some? ==> WellFormed(r.value)
    ensures r.Some? ==> forall k :: k in r.value ==> k == "UAH" || k == "USD" || k == "EUR"
  {
    match response
    case RequestFailed => None
    case NotJson => None
    case Payload(items) =>
      var rates := AbsorbAll(map["UAH" := 1.0], items);
      AbsorbAllValues(map["UAH" := 1.0], items);
      if |rates| > 1 then Some(rates) else None
  }

  /** A payload yields rates exactly when it holds a valid USD or EUR sale value. */
  lemma PayloadYieldsRates(items: seq<map<string, Value>>)
    ensures RatesFromResponse(Payload(items)).Some? <==>
            LastSale(items, "USD").Some? || LastSale(items, "EUR").Some?
    ensures LastSale(items, "USD").Some? ==>
            var r := RatesFromResponse(Payload(items));
            r.Some? && "USD" in r.value && r.value["USD"] == LastSale(items, "USD").value
  {
    var init: Rates := map["UAH" := 1.0];
    var rates := AbsorbAll(init, items);
    AbsorbAllValues(init, items);
    if LastSale(items, "USD").None? && LastSale(items, "EUR").None? {
      assert rates.Keys <= {"UAH"};
      assert |rates.Keys| <= |{"UAH"}| by { SubsetCard(rates.Keys, {"UAH"}); }
    } else {
      var code := if LastSale(items, "USD").Some? then "USD" else "EUR";
      assert {"UAH", code} <= rates.Keys;
      SubsetCard({"UAH", code}, rates.Keys);
    }
  }

  /** The payload loop of `_fetch_privtabank_rates`. */
  method ParsePayload(items: seq<map<string, Value>>) returns (rates: Rates)
    ensures rates == AbsorbAll(map["UAH" := 1.0], items)
  {
    rates := map["UAH" := 1.0];
    var i := 0;
    while i < |items|
      invariant 0 <= i <= |items|
      invariant AbsorbAll(rates, items[i..]) == AbsorbAll(map["UAH" := 1.0], items)
    {
      var item := items[i];
      var code := Get(item, "ccy");
      if code == Str("USD") || code == Str("EUR") {
        var sale := ToFloat(Get(item, "sale"));
        if sale.Some? {
          rates := rates[code.s := sale.value];
        }
      }
      assert items[i..][1..] == items[i + 1..];
      i := i + 1;
    }
  }

  /** `get_exchange_rates` as a function of the cached entry (`None` when absent) and of
      what a fetch would bring: the rates returned and the entry afterwards. The entry is
      either left alone or holds the answer; the answer is the cached, the fetched or the
      default rates. */
  function Provide(forceRefresh: bool, cached: Option<Rates>, response: Response): (r: (Rates, Option<Rates>))
    ensures r.1 == cached || r.1 == Some(r.0)
    ensures r.0 == DefaultRates || Some(r.0) == RatesFromResponse(response) || Some(r.0) == cached
  {
    if !forceRefresh && cached.Some? && cached.value != map[] then (cached.value, cached)
    else
      match RatesFromResponse(response)
      case Some(got) => (got, Some(got))
      case None =>
        if cached.Some? && cached.value != map[] then (cached.value, cached)
        else (DefaultRates, cached)
  }

  /** Every answer maps the hryvnia to 1 and carries another rate, provided the cache only
      ever holds what the provider stored there; and the cache keeps that property. */
  lemma ProvideWellFormed(forceRefresh: bool, cached: Option<Rates>, response: Response)
    requires cached.Some? ==> WellFormed(cached.value)
    ensures WellFormed(Provide(forceRefresh, cached, response).0)
    ensures var after := Provide(forceRefresh, cached, response).1;
            after.Some? ==> WellFormed(after.value)
  {
    assert "USD" in DefaultRates && "UAH" in DefaultRates;
    assert |DefaultRates.Keys| > 1 by {
      assert {"USD", "UAH"} <= DefaultRates.Keys;
      SubsetCard({"USD", "UAH"}, DefaultRates.Keys);
    }
  }

  /** With a cached entry and no forced refresh the bank is not consulted: the answer is
      the same whatever it would have said. */
  lemma CachedAnswerSkipsFetch(cached: Rates, r1: Response, r2: Response)
    requires cached != map[]
    ensures Provide(false, Some(cached), r1) == Provide(false, Some(cached), r2) == (cached, Some(cached))
  {
  }

  /** A failed fetch without any cache entry answers the defaults and stores nothing. */
  lemma FailureWithoutCacheGivesDefaults(forceRefresh: bool)
    ensures Provide(forceRefresh, None, RequestFailed) == (DefaultRates, None)
    ensures Provide(forceRefresh, None, NotJson) == (DefaultRates, None)
  {
  }

  /** The cache entry under `EXCHANGE_CACHE_KEY` (its expiry is not modelled: an expired
      entry is an absent one). */
  class RateCache {
    var entry: Option<Rates>

    ghost predicate Valid()
      reads this
    {
      entry.Some? ==> WellFormed(entry.value)
    }

    constructor ()
      ensures Valid() && entry == None
    {
      entry := None;
    }

    /** `get_exchange_rates(force_refresh)`. */
    method GetExchangeRates(forceRefresh: bool, response: Response) returns (rates: Rates)
      requires Valid()
      modifies this
      ensures Valid()
      ensures (rates, entry) == Provide(forceRefresh, old(entry), response)
      ensures WellFormed(rates)
    {
      ProvideWellFormed(forceRefresh, entry, response);
      if !forceRefresh {
        var cached := entry;
        if cached.Some? && cached.value != map[] {
          return cached.value;
        }
      }
      var fetched: Option<Rates> := None;
      if response.Payload? {
        var parsed := ParsePayload(response.items);
        AbsorbAllValues(map["UAH" := 1.0], response.items);
        if |parsed| > 1 {
          fetched := Some(parsed);
        }
      }
      if fetched.Some? && fetched.value != map[] {
        entry := fetched;
        return fetched.value;
      }
      var fallback := entry;
      if fallback.Some? && fallback.value != map[] {
        return fallback.value;
      }
      return DefaultRates;
    }
  }
}
