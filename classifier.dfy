/**
 * Deal type and property type guessed from a listing title
 * (house/utils/html_parser.py, lines 18-39 and 145-164).
 */
module Classifier {
  import opened Text

  const RentKeywords: seq<string> :=
    ["оренда", "орендую", "орендувати", "орендується", "здається", "здаю",
     "здають", "здам", "здача", "зняти", "зніму"]
  const SaleKeywords: seq<string> :=
    ["продаж", "продам", "продається", "продаю", "продають", "купити", "куплю"]

  const HouseWords: seq<string> := ["будинок", "котедж", "дуплекс"]
  const FlatWords: seq<string> := ["квартир", "апартамент", "апартаменти"]
  const LandWords: seq<string> := ["земельн", "ділянка", "соток"]
  const CommercialWords: seq<string> := ["комерц", "офіс", "магазин"]

  const Rent := "Оренда"
  const Sale := "Продаж"
  const House := "Будинок"
  const Flat := "Квартира"
  const Land := "Земельна ділянка"
  const Commercial := "Комерційна нерухомість"
  const Other := "Інше"

  /** `any(word in text for word in words)`. */
  predicate Mentions(text: string, words: seq<string>) {
    exists j :: 0 <= j < |words| && Contains(text, words[j])
  }

  /** `get_deal_type`: a rent keyword wins over a sale keyword. */
  function GetDealType(title: string): (r: string)
    ensures r == Rent <==> Mentions(Lower(title), RentKeywords)
    ensures r == Sale <==> !Mentions(Lower(title), RentKeywords) && Mentions(Lower(title), SaleKeywords)
    ensures r == Other <==> !Mentions(Lower(title), RentKeywords) && !Mentions(Lower(title), SaleKeywords)
  {
    var t := Lower(title);
    if Mentions(t, RentKeywords) then Rent
    else if Mentions(t, SaleKeywords) then Sale
    else Other
  }

  /** `get_property_type`: the first group, in the order house, flat, land, commercial,
      with a word in the title decides. */
  function GetPropertyType(title: string): (r: string)
    ensures r == House <==> Mentions(Lower(title), HouseWords)
    ensures r == Flat <==> !Mentions(Lower(title), HouseWords) && Mentions(Lower(title), FlatWords)
    ensures r == Land <==> !Mentions(Lower(title), HouseWords) && !Mentions(Lower(title), FlatWords)
                           && Mentions(Lower(title), LandWords)
    ensures r == Commercial <==> !Mentions(Lower(title), HouseWords) && !Mentions(Lower(title), FlatWords)
                                 && !Mentions(Lower(title), LandWords) && Mentions(Lower(title), CommercialWords)
    ensures r == Other <==> !Mentions(Lower(title), HouseWords) && !Mentions(Lower(title), FlatWords)
                            && !Mentions(Lower(title), LandWords) && !Mentions(Lower(title), CommercialWords)
  {
    var t := Lower(title);
    if Mentions(t, HouseWords) then House
    else if Mentions(t, FlatWords) then Flat
    else if Mentions(t, LandWords) then Land
    else if Mentions(t, CommercialWords) then Commercial
    else Other
  }

  /** Both guesses ignore letter case: a title and its lower-cased form classify alike. */
  lemma ClassificationIgnoresCase(title: string)
    ensures GetDealType(Lower(title)) == GetDealType(title)
    ensures GetPropertyType(Lower(title)) == GetPropertyType(title)
  {
    LowerIdempotent(title);
  }

  /** A word contained in a longer text is still found when the text is extended:
      adding words to a title never loses its deal keyword. */
  lemma {:induction false} MentionsExtend(a: string, b: string, words: seq<string>)
    requires Mentions(a, words)
    ensures Mentions(a + b, words) && Mentions(b + a, words)
  {
    var j :| 0 <= j < |words| && Contains(a, words[j]);
    ContainsPrefixOf(a, b, words[j]);
    ContainsSuffixOf(b, a, words[j]);
  }

  /** A rental title stays a rental whatever is appended to it. */
  lemma RentIsStable(title: string, extra: string)
    requires GetDealType(title) == Rent
    ensures GetDealType(title + extra) == Rent
  {
    LowerAppend(title, extra);
    MentionsExtend(Lower(title), Lower(extra), RentKeywords);
  }
}
