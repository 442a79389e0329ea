/**
 * The public search page (landing_doominium_real_state/views/search.py): the page size
 * and currency chosen from the query string, archived listings kept out of the results,
 * the rooms slider preset from the legacy `rooms` list, and the capped meta description.
 * The view's per-request choices are fields of a `SearchFiltersView` object.
 */
module SearchView {
  import opened Wrappers
  import opened Text
  import opened Models
  import opened SearchService

  // ---------------------------------------------------------------- page size and currency

  predicate IsPageSize(n: int) { n == 9 || n == 12 || n == 18 || n == 24 }

  /** The page size `per_page` asks for: one of the offered sizes, else the first. */
  function PageSize(perPage: Option<string>): (n: nat)
    ensures IsPageSize(n)
    ensures perPage.Some? && ParseInt(perPage.value).Some? && IsPageSize(ParseInt(perPage.value).value) ==>
              n == ParseInt(perPage.value).value
    ensures (perPage.None? || ParseInt(perPage.value).None? || !IsPageSize(ParseInt(perPage.value).value)) ==>
              n == 9
  {
    if perPage.Some? && ParseInt(perPage.value).Some? && IsPageSize(ParseInt(perPage.value).value) then
      ParseInt(perPage.value).value
    else 9
  }

  /** The currency `currency` asks for, in capitals; anything but the three offered codes
      (or no value) is USD. */
  function SelectedCurrency(currency: Option<string>): (c: string)
    ensures IsCurrencyCode(c)
    ensures currency.Some? && currency.value != "" && IsCurrencyCode(Upper(currency.value)) ==>
              c == Upper(currency.value)
    ensures (currency.None? || currency.value == "" || !IsCurrencyCode(Upper(currency.value))) ==> c == "USD"
  {
    var code := Upper(if currency.Some? && currency.value != "" then currency.value else "USD");
    if IsCurrencyCode(code) then code else "USD"
  }

  /** `CURRENCY_OPTIONS`, in their order. */
  function CurrencyOptions(): seq<CurrencyOption> {
    [CurrencyOption("USD", "$"), CurrencyOption("EUR", "€"), CurrencyOption("UAH", "₴")]
  }

  /** The offered options can be handed to the currency display for any selected code:
      each is one of the three codes, once. */
  lemma CurrencyOptionsUsable(selected: string)
    requires IsCurrencyCode(selected)
    ensures HasCode(CurrencyOptions(), selected)
    ensures forall o :: o in CurrencyOptions() ==> IsCurrencyCode(o.code)
    ensures DistinctCodes(CurrencyOptions())
  {
    var options := CurrencyOptions();
    if selected == "USD" { assert options[0].code == selected; }
    else if selected == "EUR" { assert options[1].code == selected; }
    else { assert options[2].code == selected; }
  }

  class SearchFiltersView {
    var paginateBy: nat
    var selectedPageSize: Option<nat>
    var selectedCurrency: Option<string>

    constructor ()
      ensures paginateBy == 9 && selectedPageSize.None? && selectedCurrency.None?
    {
      paginateBy := 9;
      selectedPageSize := None;
      selectedCurrency := None;
    }

    /** `get_paginate_by`: records and returns the page size. */
    method GetPaginateBy(perPage: Option<string>) returns (n: nat)
      modifies this
      ensures n == PageSize(perPage) && IsPageSize(n)
      ensures paginateBy == n && selectedPageSize == Some(n)
      ensures selectedCurrency == old(selectedCurrency)
    {
      var size := 9;
      if perPage.Some? {
        var parsed := ParseInt(perPage.value);
        if parsed.Some? {
          size := parsed.value;
        }
      }
      if !IsPageSize(size) {
        size := 9;
      }
      n := size;
      paginateBy := n;
      selectedPageSize := Some(n);
    }

    /** `get_selected_currency`: records and returns the currency. */
    method GetSelectedCurrency(currency: Option<string>) returns (c: string)
      modifies this
      ensures c == SelectedCurrency(currency) && IsCurrencyCode(c)
      ensures selectedCurrency == Some(c)
      ensures paginateBy == old(paginateBy) && selectedPageSize == old(selectedPageSize)
    {
      c := Upper(if currency.Some? && currency.value != "" then currency.value else "USD");
      if !IsCurrencyCode(c) {
        c := "USD";
      }
      selectedCurrency := Some(c);
    }
  }

  // ---------------------------------------------------------------- results

  /** `queryset.filter(is_archived=False)`. */
  function Unarchived(rows: seq<Candidate>): (r: seq<Candidate>)
    ensures forall c :: c in r <==> c in rows && !c.listing.isArchived
  {
    if rows == [] then []
    else (if rows[0].listing.isArchived then [] else [rows[0]]) + Unarchived(rows[1..])
  }

  /** The rows the list view shows: the search over the unarchived rows, newest first
      unless the sort option says otherwise. */
  predicate ViewResult(params: Params, rows: seq<Candidate>, types: seq<TypeRow>, deals: seq<DealRow>,
                       result: seq<Candidate>) {
    SearchResult(params, "date", Unarchived(rows), types, deals, result)
  }

  /** Whatever the query string says, an archived listing is never shown, and a shown
      listing passes every filter. */
  lemma ArchivedNeverShown(params: Params, rows: seq<Candidate>, types: seq<TypeRow>, deals: seq<DealRow>,
                           result: seq<Candidate>, c: Candidate)
    requires ViewResult(params, rows, types, deals, result)
    ensures c in result <==>
            c in rows && !c.listing.isArchived && Keeps(BuildPlan(params, "date").value, c, types, deals)
  {
    SearchResultMembers(params, "date", Unarchived(rows), types, deals, result, c);
  }

  /** An unknown sort option orders the list view newest first. */
  lemma ViewDefaultOrder(params: Params, rows: seq<Candidate>, types: seq<TypeRow>, deals: seq<DealRow>,
                         result: seq<Candidate>)
    requires ViewResult(params, rows, types, deals, result)
    requires Get(params, "sort").None? || SortMap(Get(params, "sort").value).None?
    ensures OrderedBy("-created_at", result)
  {
    SortFallback(Get(params, "sort"), "date");
  }

  // ---------------------------------------------------------------- rooms slider

  /** `min(values)`. */
  function Smallest(values: seq<nat>): (m: nat)
    requires values != []
    ensures m in values && forall v :: v in values ==> m <= v
  {
    if |values| == 1 then values[0]
    else
      var rest := Smallest(values[1..]);
      assert forall v :: v in values[1..] ==> v in values;
      assert forall v :: v in values ==> v == values[0] || v in values[1..];
      if values[0] <= rest then values[0] else rest
  }

  /** `max(values)`. */
  function Largest(values: seq<nat>): (m: nat)
    requires values != []
    ensures m in values && forall v :: v in values ==> v <= m
  {
    if |values| == 1 then values[0]
    else
      var rest := Largest(values[1..]);
      assert forall v :: v in values[1..] ==> v in values;
      assert forall v :: v in values ==> v == values[0] || v in values[1..];
      if values[0] >= rest then values[0] else rest
  }

  /** The slider positions for the legacy list: the smallest and largest exact counts,
      with "5+" pushing the top to 6. */
  function LegacySlider(tokens: seq<string>): (string, string) {
    var counts := ExactRooms(tokens);
    var low := if counts != [] then NatToString(Smallest(counts)) else "";
    var high := if "5+" in tokens then "6" else if counts != [] then NatToString(Largest(counts)) else "";
    (low, high)
  }

  /** The rooms slider: the given `rooms_min`/`rooms_max` as they are, or, when both are
      empty, positions derived from the legacy `rooms` list. */
  function RoomsSlider(low: Option<string>, high: Option<string>, rooms: Option<string>): (string, string) {
    var lo := low.GetOr("");
    var hi := high.GetOr("");
    if lo != "" || hi != "" || !Given(rooms) then (lo, hi)
    else LegacySlider(LegacyTokens(rooms.value))
  }

  /** The slider derivation of the page: the token loop, then the smallest and largest
      counts. */
  method DeriveRoomsSlider(low: Option<string>, high: Option<string>, rooms: Option<string>)
    returns (sliderMin: string, sliderMax: string)
    ensures (sliderMin, sliderMax) == RoomsSlider(low, high, rooms)
  {
    sliderMin := low.GetOr("");
    sliderMax := high.GetOr("");
    if sliderMin == "" && sliderMax == "" && Given(rooms) {
      var tokens := LegacyTokens(rooms.value);
      var counts, hasPlus := LegacyRooms(tokens);
      if counts != [] {
        sliderMin := NatToString(Smallest(counts));
        if !hasPlus {
          sliderMax := NatToString(Largest(counts));
        }
      }
      if hasPlus {
        sliderMax := "6";
      }
    }
  }

  /** Given bounds are echoed as they are. */
  lemma SliderEchoesBounds(low: Option<string>, high: Option<string>, rooms: Option<string>)
    requires low.GetOr("") != "" || high.GetOr("") != ""
    ensures RoomsSlider(low, high, rooms) == (low.GetOr(""), high.GetOr(""))
  {
  }

  /** The legacy slider shows a range that holds every count the legacy list selects
      (when "5+" is given, the exact counts are at most 5, as the form offers them):
      reading the slider back as `rooms_min`/`rooms_max` keeps each of those counts. */
  lemma LegacySliderCovers(tokens: seq<string>, n: nat)
    requires "5+" in tokens ==> forall k :: k in ExactRooms(tokens) ==> k <= 5
    requires RoomsMatch(Tokens(ExactRooms(tokens), "5+" in tokens), n)
    ensures var s := LegacySlider(tokens);
            RoomsMatch(RoomsFilter(Some(s.0), Some(s.1), None), n)
  {
    var counts := ExactRooms(tokens);
    if counts != [] {
      var lo := Smallest(counts);
      if "5+" in tokens {
        SixParses();
        SliderBounds(lo, "6", 6);
      } else {
        var hi := Largest(counts);
        ParseIntNatToString(hi);
        SliderBounds(lo, NatToString(hi), hi);
      }
    }
  }

  lemma SixParses()
    ensures ParseInt("6") == Some(6)
  {
    ParseIntNatToString(6);
    assert NatToString(6) == "6";
  }

  /** Slider positions that read as numbers come back as the range between them. */
  lemma SliderBounds(lo: nat, highText: string, hi: nat)
    requires highText != "" && ParseInt(highText) == Some(hi)
    ensures RoomsFilter(Some(NatToString(lo)), Some(highText), None) == Bounds(Some(lo), if hi < 6 then Some(hi) else None)
  {
    ParseIntNatToString(lo);
  }

  // ---------------------------------------------------------------- meta description

  const Tagline := ". Підберіть квартири та будинки за ціною, типом та кімнатами з агентством DOMINIUM."

  /** The summary line for the number of results. */
  function SearchSummary(total: nat): string {
    if total != 0 then "Знайдено " + NatToString(total) + " обʼєктів нерухомості DOMINIUM"
    else "DOMINIUM — розумний пошук нерухомості"
  }

  /** `description_text[:160]`. */
  function MetaDescription(total: nat): (r: string)
    ensures |r| <= 160
    ensures var full := SearchSummary(total) + Tagline; |r| <= |full| && r == full[..|r|]
  {
    var full := SearchSummary(total) + Tagline;
    if |full| <= 160 then full else full[..160]
  }

  /** Nothing is cut unless the count has more than 38 digits. */
  lemma MetaDescriptionWhole(total: nat)
    requires |NatToString(total)| <= 38
    ensures MetaDescription(total) == SearchSummary(total) + Tagline
  {
    assert |Tagline| == 83;
    assert |"Знайдено "| == 9 && |" обʼєктів нерухомості DOMINIUM"| == 30;
    assert |"DOMINIUM — розумний пошук нерухомості"| == 37;
  }
}
