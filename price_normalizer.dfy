/**
 * Currency detection, price cleaning and conversion to US dollars
 * (house/utils/html_parser.py, lines 41-46 and 107-142).
 *
 * Prices are exact rationals (`real`); the source computes with binary floats.
 * A rate table maps a three-letter code to a number.
 */
module PriceNormalizer {
  import opened Wrappers
  import opened Text

  type Rates = map<string, real>

  /** The sign table in the order `detect_currency` scans it. */
  const CurrencySigns: seq<(string, string)> :=
    [("грн", "UAH"), ("₴", "UAH"), ("€", "EUR"), ("$", "USD")]

  function DetectIn(lowered: string, table: seq<(string, string)>): (code: string)
    ensures code == "USD" || exists j :: 0 <= j < |table| && table[j].1 == code
  {
    if table == [] then "USD"
    else if Contains(lowered, table[0].0) then table[0].1
    else DetectIn(lowered, table[1..])
  }

  /** `detect_currency`: the code of the first sign of the table found in the lowered text. */
  function DetectCurrency(priceText: string): (code: string)
    ensures code == "UAH" || code == "EUR" || code == "USD"
  {
    DetectIn(Lower(priceText), CurrencySigns)
  }

  /** Index of the first table sign the text contains, if any. */
  predicate FirstSignAt(lowered: string, table: seq<(string, string)>, k: int) {
    0 <= k < |table| && Contains(lowered, table[k].0)
    && forall j :: 0 <= j < k ==> !Contains(lowered, table[j].0)
  }

  lemma {:induction false} DetectInFirstSign(lowered: string, table: seq<(string, string)>)
    ensures (exists k :: FirstSignAt(lowered, table, k) && DetectIn(lowered, table) == table[k].1)
         || ((forall j :: 0 <= j < |table| ==> !Contains(lowered, table[j].0))
             && DetectIn(lowered, table) == "USD")
  {
    if table != [] {
      if Contains(lowered, table[0].0) {
        assert FirstSignAt(lowered, table, 0);
      } else {
        DetectInFirstSign(lowered, table[1..]);
        if exists k :: FirstSignAt(lowered, table[1..], k) && DetectIn(lowered, table[1..]) == table[1..][k].1 {
          var k :| FirstSignAt(lowered, table[1..], k) && DetectIn(lowered, table[1..]) == table[1..][k].1;
          assert FirstSignAt(lowered, table, k + 1);
        } else {
          forall j | 0 <= j < |table| ensures !Contains(lowered, table[j].0) {
            if j > 0 { assert table[j] == table[1..][j - 1]; }
          }
        }
      }
    }
  }

  /** The detected code is that of the first sign, in table order, occurring in the
      lowered text; with no sign present it is "USD". */
  lemma DetectCurrencyFirstSign(priceText: string)
    ensures (exists k :: FirstSignAt(Lower(priceText), CurrencySigns, k)
               && DetectCurrency(priceText) == CurrencySigns[k].1)
         || ((forall j :: 0 <= j < |CurrencySigns| ==> !Contains(Lower(priceText), CurrencySigns[j].0))
             && DetectCurrency(priceText) == "USD")
  {
    DetectInFirstSign(Lower(priceText), CurrencySigns);
  }

  /** Hryvnia text wins over any later sign: "100 грн ($2.5)" is UAH. */
  lemma HryvniaBeforeDollar(priceText: string)
    requires Contains(Lower(priceText), "грн")
    ensures DetectCurrency(priceText) == "UAH"
  {
  }

  /** A text without any currency sign is read as dollars. */
  lemma NoSignMeansUsd(priceText: string)
    requires forall j :: 0 <= j < |CurrencySigns| ==> !Contains(Lower(priceText), CurrencySigns[j].0)
    ensures DetectCurrency(priceText) == "USD"
  {
    DetectInFirstSign(Lower(priceText), CurrencySigns);
  }

  /** Characters `clean_price` keeps: `[\d.,-]`. */
  predicate IsPriceChar(c: char) { IsDigit(c) || c == '.' || c == ',' || c == '-' }

  function RemoveSigns(s: string, table: seq<(string, string)>): string
    requires forall j :: 0 <= j < |table| ==> |table[j].0| > 0
    decreases |table|
  {
    if table == [] then s else RemoveSigns(RemoveAll(s, table[0].0), table[1..])
  }

  /** `clean_price`: lower-case, drop the currency signs, keep `[\d.,-]`, drop spaces. */
  function CleanPrice(priceText: string): (r: string)
    ensures forall i :: 0 <= i < |r| ==> IsPriceChar(r[i])
  {
    var lowered := Lower(priceText);
    var noSigns := RemoveSigns(lowered, CurrencySigns);
    var kept := Filter(noSigns, IsPriceChar);
    RemoveSpaceNoop(kept);
    RemoveChar(kept, ' ')
  }

  lemma {:induction false} FilterRemoveAll(s: string, pattern: string)
    requires |pattern| > 0 && forall i :: 0 <= i < |pattern| ==> !IsPriceChar(pattern[i])
    ensures Filter(RemoveAll(s, pattern), IsPriceChar) == Filter(s, IsPriceChar)
    decreases |s|
  {
    if |s| < |pattern| {
    } else if s[..|pattern|] == pattern {
      FilterRemoveAll(s[|pattern|..], pattern);
      FilterDropsPrefix(s, |pattern|);
    } else {
      FilterRemoveAll(s[1..], pattern);
      assert ([s[0]] + RemoveAll(s[1..], pattern))[1..] == RemoveAll(s[1..], pattern);
    }
  }

  lemma {:induction false} FilterDropsPrefix(s: string, n: nat)
    requires n <= |s| && forall i :: 0 <= i < n ==> !IsPriceChar(s[i])
    ensures Filter(s, IsPriceChar) == Filter(s[n..], IsPriceChar)
    decreases n
  {
    if n > 0 {
      FilterDropsPrefix(s[1..], n - 1);
      assert s[1..][n - 1..] == s[n..];
    }
  }

  lemma {:induction false} FilterRemoveSigns(s: string, table: seq<(string, string)>)
    requires forall j :: 0 <= j < |table| ==> |table[j].0| > 0
    requires forall j, i :: 0 <= j < |table| && 0 <= i < |table[j].0| ==> !IsPriceChar(table[j].0[i])
    ensures Filter(RemoveSigns(s, table), IsPriceChar) == Filter(s, IsPriceChar)
    decreases |table|
  {
    if table != [] {
      FilterRemoveAll(s, table[0].0);
      FilterRemoveSigns(RemoveAll(s, table[0].0), table[1..]);
    }
  }

  lemma {:induction false} FilterLower(s: string)
    ensures Filter(Lower(s), IsPriceChar) == Filter(s, IsPriceChar)
  {
    if s != [] {
      FilterLower(s[1..]);
      assert Lower(s)[1..] == Lower(s[1..]);
    }
  }

  lemma {:induction false} RemoveSpaceNoop(s: string)
    requires forall i :: 0 <= i < |s| ==> IsPriceChar(s[i])
    ensures RemoveChar(s, ' ') == s
  {
    if s != [] { RemoveSpaceNoop(s[1..]); }
  }

  /** The cleaned price is exactly the digits, dots, commas and minus signs of the text,
      in their original order: removing the signs and the spaces changes nothing more. */
  lemma CleanPriceIsNumericChars(priceText: string)
    ensures CleanPrice(priceText) == Filter(priceText, IsPriceChar)
  {
    var lowered := Lower(priceText);
    FilterRemoveSigns(lowered, CurrencySigns);
    FilterLower(priceText);
    RemoveSpaceNoop(Filter(RemoveSigns(lowered, CurrencySigns), IsPriceChar));
  }

  /** The decimal number the cleaned price denotes, every comma read as a dot. */
  function PriceDecimal(priceText: string): Option<real> {
    ParseNumber(ReplaceChar(CleanPrice(priceText), ',', '.'))
  }

  // ---------------------------------------------------------------- rounding

  function Ceil(x: real): (r: int)
    ensures x <= r as real < x + 1.0
  {
    -((-x).Floor)
  }

  predicate MultipleOfFive(r: real) {
    (r / 5.0).Floor as real * 5.0 == r
  }

  /** `round_up_to_nearest_five`. */
  function RoundUpToNearestFive(value: real): (r: real)
    ensures value <= 0.0 ==> r == value
    ensures value > 0.0 ==> MultipleOfFive(r) && value <= r < value + 5.0
  {
    if value <= 0.0 then value else (Ceil(value / 5.0) * 5) as real
  }

  // ---------------------------------------------------------------- conversion

  /** `_safe_float(rates.get("USD"), default=1.0)`. */
  function UsdRate(rates: Rates): real {
    if "USD" in rates then rates["USD"] else 1.0
  }

  /** The unrounded dollar amount of a hryvnia or euro price. */
  function Unrounded(price: real, currency: string, rates: Rates): real {
    var usd := UsdRate(rates);
    if currency == "UAH" then
      (if usd != 0.0 then price / usd else price)
    else
      var eur := if "EUR" in rates then rates["EUR"] else (if usd != 0.0 then usd else 1.0);
      price * (if usd != 0.0 then eur / usd else 1.0)
  }

  /** `convert_to_usd`. */
  function ConvertToUsd(price: real, currency: string, rates: Rates): (r: real)
    ensures currency != "UAH" && currency != "EUR" ==> r == price
    ensures currency == "UAH" || currency == "EUR" ==>
      var v := Unrounded(price, currency, rates);
      (v > 0.0 ==> MultipleOfFive(r) && v <= r < v + 5.0) && (v <= 0.0 ==> r == v)
  {
    if currency == "UAH" || currency == "EUR" then
      RoundUpToNearestFive(Unrounded(price, currency, rates))
    else price
  }

  /** Hryvnia are divided by the dollar rate; a missing dollar rate counts as 1. */
  lemma UahConversion(price: real, rates: Rates)
    ensures "USD" in rates && rates["USD"] != 0.0 ==>
      ConvertToUsd(price, "UAH", rates) == RoundUpToNearestFive(price / rates["USD"])
    ensures "USD" !in rates ==> ConvertToUsd(price, "UAH", rates) == RoundUpToNearestFive(price)
  {
  }

  /** Euros are multiplied by the euro rate over the dollar rate. */
  lemma EurConversion(price: real, rates: Rates)
    requires "USD" in rates && "EUR" in rates && rates["USD"] != 0.0
    ensures ConvertToUsd(price, "EUR", rates)
         == RoundUpToNearestFive(price * (rates["EUR"] / rates["USD"]))
  {
    var eur := "EUR";
    assert eur != "UAH" by { assert eur[0] != "UAH"[0]; }
    assert UsdRate(rates) == rates["USD"];
    assert Unrounded(price, eur, rates) == price * (rates["EUR"] / rates["USD"]);
  }
}
