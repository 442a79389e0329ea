/**
 * The field extractors of the listing parser (house/utils/html_parser.py, lines 235-421):
 * title, address, price in dollars, rooms, area, description and images, each a ranked
 * list of strategies whose first success wins.
 */
module FieldExtractor {
  import opened Wrappers
  import opened Text
  import opened Document
  import opened Scalars
  import opened PriceNormalizer

  // ---------------------------------------------------------------- title

  const TitlePlaceholder := "Об'єкт DOMINIUM"

  /** `_extract_title`: the first of h1, h2 and title (a found tag is always truthy),
      else the og:title meta, else the placeholder. */
  function ExtractTitle(doc: Doc): (r: string)
    ensures Normalized(r) || r == TitlePlaceholder
    ensures (SelectAll(doc, "h1") == [] && SelectAll(doc, "h2") == [] && SelectAll(doc, "title") == []
             && SelectAll(doc, "meta[property='og:title']") == []) ==> r == TitlePlaceholder
  {
    var tag := SelectOne(doc, "h1").OrElse(SelectOne(doc, "h2")).OrElse(SelectOne(doc, "title"));
    match tag
    case Some(t) =>
      if t.name == "meta" then NormalizeText(Attr(t, "content").GetOr(""))
      else NormalizeText(GetText(t))
    case None =>
      match SelectOne(doc, "meta[property='og:title']")
      case Some(m) => NormalizeText(Attr(m, "content").GetOr(""))
      case None => TitlePlaceholder
  }

  /** The first heading decides the title even when its text is blank. */
  lemma TitleFromFirstHeading(doc: Doc)
    requires SelectAll(doc, "h1") != [] && SelectAll(doc, "h1")[0].name != "meta"
    ensures ExtractTitle(doc) == NormalizeText(GetText(SelectAll(doc, "h1")[0]))
  {
  }

  // ---------------------------------------------------------------- address

  const AddressSelectors: seq<string> := [
    "[data-address]", "[itemprop='streetAddress']", "[itemprop='address']", ".pdf-address",
    ".estate-address", ".object__address", ".property-address", ".address", ".contact-address",
    ".hero-address", "meta[property='og:street-address']", "meta[name='geo.placename']",
    "meta[name='address']", "h3"]

  const HolderAttrs: seq<string> := ["data-address", "data-location"]

  /** The text one address selector offers: a meta's content (or value), another
      element's stripped text; "" when nothing matches. */
  function SelectorText(doc: Doc, selector: string): string {
    match SelectOne(doc, selector)
    case None => ""
    case Some(n) =>
      if n.name == "meta" then AttrOr(n, "content", "value").GetOr("") else GetTextStripped(n)
  }

  /** The first non-empty selector text, in selector order. */
  function FirstSelectorText(doc: Doc, selectors: seq<string>): (r: Option<string>)
    ensures r.Some? ==> r.value != ""
    ensures r.None? <==> forall k :: 0 <= k < |selectors| ==> SelectorText(doc, selectors[k]) == ""
    ensures r.Some? ==> exists k :: 0 <= k < |selectors| && SelectorText(doc, selectors[k]) == r.value
                                    && forall j :: 0 <= j < k ==> SelectorText(doc, selectors[j]) == ""
  {
    if selectors == [] then None
    else if SelectorText(doc, selectors[0]) != "" then Some(SelectorText(doc, selectors[0]))
    else
      var r := FirstSelectorText(doc, selectors[1..]);
      FirstTextShift(selectors, s => SelectorText(doc, s), r);
      r
  }

  /** First-match bookkeeping: skipping a first item whose text is empty shifts the index. */
  lemma FirstTextShift<T>(items: seq<T>, text: T -> string, r: Option<string>)
    requires items != [] && text(items[0]) == ""
    requires r.Some? ==> exists k :: 0 <= k < |items[1..]| && text(items[1..][k]) == r.value
                                    && forall j :: 0 <= j < k ==> text(items[1..][j]) == ""
    requires r.None? ==> forall k :: 0 <= k < |items[1..]| ==> text(items[1..][k]) == ""
    ensures r.Some? ==> exists k :: 0 <= k < |items| && text(items[k]) == r.value
                                   && forall j :: 0 <= j < k ==> text(items[j]) == ""
    ensures r.None? ==> forall k :: 0 <= k < |items| ==> text(items[k]) == ""
  {
    assert forall k :: 1 <= k < |items| ==> items[k] == items[1..][k - 1];
    if r.Some? {
      var k :| 0 <= k < |items[1..]| && text(items[1..][k]) == r.value
               && forall j :: 0 <= j < k ==> text(items[1..][j]) == "";
      assert text(items[k + 1]) == r.value;
    }
  }

  predicate IsHolder(n: Node) { "data-address" in n.attrs && "data-location" in n.attrs }

  /** `soup.find(attrs={"data-address": True, "data-location": True})`. */
  function FirstHolder(elements: seq<Node>): (r: Option<Node>)
    ensures r.Some? ==> IsHolder(r.value)
    ensures r.Some? ==> exists k :: 0 <= k < |elements| && elements[k] == r.value
                                   && forall j :: 0 <= j < k ==> !IsHolder(elements[j])
    ensures r.None? ==> forall k :: 0 <= k < |elements| ==> !IsHolder(elements[k])
  {
    if elements == [] then None
    else if IsHolder(elements[0]) then Some(elements[0])
    else
      var r := FirstHolder(elements[1..]);
      assert forall k :: 1 <= k < |elements| ==> elements[k] == elements[1..][k - 1];
      if r.Some? then
        var k :| 0 <= k < |elements[1..]| && elements[1..][k] == r.value
                 && forall j :: 0 <= j < k ==> !IsHolder(elements[1..][j]);
        assert elements[k + 1] == r.value;
        r
      else r
  }

  /** The first non-empty attribute among `attrs`. */
  function FirstAttrText(n: Node, attrs: seq<string>): (r: Option<string>)
    ensures r.Some? ==> r.value != ""
  {
    if attrs == [] then None
    else if attrs[0] in n.attrs && n.attrs[attrs[0]] != "" then Some(n.attrs[attrs[0]])
    else FirstAttrText(n, attrs[1..])
  }

  /** Elements `find_all(["p", "span", "li"])` returns. */
  predicate IsTextNode(n: Node) { n.name == "p" || n.name == "span" || n.name == "li" }

  /** A text mentioning a street, a town or a district. */
  predicate MentionsPlace(text: string) {
    Contains(Lower(text), "вул") || Contains(Lower(text), "м.") || Contains(Lower(text), "район")
  }

  /** The normalised text of a p/span/li element that mentions a place. */
  function Candidate(n: Node): (r: Option<string>)
    ensures r.Some? ==> Normalized(r.value)
  {
    var text := GetTextStripped(n);
    if IsTextNode(n) && text != "" && MentionsPlace(text) then Some(NormalizeText(text)) else None
  }

  /** `text_candidates`, in document order. */
  function TextCandidates(nodes: seq<Node>): seq<string> {
    if nodes == [] then []
    else
      TextCandidates(nodes[..|nodes| - 1]) + Listed(Candidate(nodes[|nodes| - 1]))
  }

  /** The candidate as a list of zero or one texts. */
  function Listed(c: Option<string>): seq<string> {
    if c.Some? then [c.value] else []
  }

  lemma CandidatesSnoc(nodes: seq<Node>, k: nat)
    requires k < |nodes|
    ensures TextCandidates(nodes[..k + 1]) == TextCandidates(nodes[..k]) + Listed(Candidate(nodes[k]))
  {
    assert nodes[..k + 1][..k] == nodes[..k];
  }

  lemma {:induction false} CandidatesNormalized(nodes: seq<Node>)
    ensures forall k :: 0 <= k < |TextCandidates(nodes)| ==> Normalized(TextCandidates(nodes)[k])
  {
    if nodes != [] {
      CandidatesNormalized(nodes[..|nodes| - 1]);
    }
  }

  /** The address `_extract_address` settles on. */
  function AddressOf(doc: Doc): (r: string)
    ensures Normalized(r)
  {
    match FirstSelectorText(doc, AddressSelectors)
    case Some(t) => NormalizeText(t)
    case None =>
      var fromHolder := match FirstHolder(doc.elements)
        case None => None
        case Some(h) => FirstAttrText(h, HolderAttrs);
      match fromHolder
      case Some(t) => NormalizeText(t)
      case None =>
        var candidates := TextCandidates(doc.elements);
        CandidatesNormalized(doc.elements);
        if candidates == [] then "" else candidates[0]
  }

  /** The loop over the address selectors, stopping at the first that yields text. */
  method ScanSelectors(doc: Doc, selectors: seq<string>) returns (found: Option<string>)
    ensures found == FirstSelectorText(doc, selectors)
  {
    var i := 0;
    while i < |selectors|
      invariant 0 <= i <= |selectors|
      invariant FirstSelectorText(doc, selectors[i..]) == FirstSelectorText(doc, selectors)
    {
      var text := SelectorText(doc, selectors[i]);
      if text != "" {
        return Some(text);
      }
      assert selectors[i..][1..] == selectors[i + 1..];
      i := i + 1;
    }
    return None;
  }

  /** The loop over the holder's two data attributes. */
  method ScanAttrs(n: Node, attrs: seq<string>) returns (found: Option<string>)
    ensures found == FirstAttrText(n, attrs)
  {
    var j := 0;
    while j < |attrs|
      invariant 0 <= j <= |attrs|
      invariant FirstAttrText(n, attrs[j..]) == FirstAttrText(n, attrs)
    {
      var attr := attrs[j];
      if attr in n.attrs && n.attrs[attr] != "" {
        return Some(n.attrs[attr]);
      }
      assert attrs[j..][1..] == attrs[j + 1..];
      j := j + 1;
    }
    return None;
  }

  /** The loop collecting every text candidate. */
  method CollectCandidates(nodes: seq<Node>) returns (candidates: seq<string>)
    ensures candidates == TextCandidates(nodes)
  {
    candidates := [];
    var k := 0;
    while k < |nodes|
      invariant 0 <= k <= |nodes|
      invariant candidates == TextCandidates(nodes[..k])
    {
      CandidatesSnoc(nodes, k);
      candidates := candidates + Listed(Candidate(nodes[k]));
      k := k + 1;
    }
    assert nodes[..k] == nodes;
  }

  /** `_extract_address`: the selectors in order, then the data-attribute holder, then the
      first text that mentions a place, then "". */
  method ExtractAddress(doc: Doc) returns (address: string)
    ensures address == AddressOf(doc)
  {
    var fromSelector := ScanSelectors(doc, AddressSelectors);
    if fromSelector.Some? {
      return NormalizeText(fromSelector.value);
    }
    var holder := FirstHolder(doc.elements);
    if holder.Some? {
      var fromHolder := ScanAttrs(holder.value, HolderAttrs);
      if fromHolder.Some? {
        return NormalizeText(fromHolder.value);
      }
    }
    var candidates := CollectCandidates(doc.elements);
    if candidates != [] {
      return candidates[0];
    }
    return "";
  }

  /** A selector that yields text beats every later selector and every fallback. */
  lemma AddressFromSelector(doc: Doc, k: nat)
    requires k < |AddressSelectors|
    requires forall j :: 0 <= j < k ==> SelectorText(doc, AddressSelectors[j]) == ""
    requires SelectorText(doc, AddressSelectors[k]) != ""
    ensures AddressOf(doc) == NormalizeText(SelectorText(doc, AddressSelectors[k]))
  {
    FirstSelectorSkips(doc, AddressSelectors, k);
  }

  lemma FirstSelectorSkips(doc: Doc, selectors: seq<string>, k: nat)
    requires k < |selectors|
    requires forall j :: 0 <= j < k ==> SelectorText(doc, selectors[j]) == ""
    requires SelectorText(doc, selectors[k]) != ""
    ensures FirstSelectorText(doc, selectors) == Some(SelectorText(doc, selectors[k]))
  {
    var r := FirstSelectorText(doc, selectors);
    assert r.Some?;
    var i :| 0 <= i < |selectors| && SelectorText(doc, selectors[i]) == r.value
             && forall j :: 0 <= j < i ==> SelectorText(doc, selectors[j]) == "";
  }

  /** With no selector, holder or mention of a place the address is empty. */
  lemma AddressEmptyWithoutEvidence(doc: Doc)
    requires forall j :: 0 <= j < |AddressSelectors| ==> SelectorText(doc, AddressSelectors[j]) == ""
    requires forall j :: 0 <= j < |doc.elements| ==> !IsHolder(doc.elements[j])
    requires TextCandidates(doc.elements) == []
    ensures AddressOf(doc) == ""
  {
  }

  // ---------------------------------------------------------------- price

  /** The raw price text: the header/data-price element's text, else a price meta's content. */
  function PriceRaw(doc: Doc): string {
    match SelectOne(doc, ".pdf-header-contacts strong").OrElse(SelectOne(doc, "[data-price]"))
    case Some(n) => GetTextStripped(n)
    case None =>
      match SelectOne(doc, "meta[itemprop='price']").OrElse(SelectOne(doc, "meta[property='product:price:amount']"))
      case Some(m) => Attr(m, "content").GetOr("")
      case None => ""
  }

  /** `rates or get_exchange_rates()`: the given table unless it is missing or empty. */
  function EffectiveRates(given: Option<Rates>, fetched: Rates): Rates {
    if given.Some? && given.value != map[] then given.value else fetched
  }

  /** `_extract_price_usd`; `fetched` is what the rate service answers. */
  function ExtractPriceUsd(doc: Doc, rates: Option<Rates>, fetched: Rates): (r: real)
    ensures PriceRaw(doc) == "" ==> r == 0.0
    ensures PriceDecimal(PriceRaw(doc)).None? ==> r == 0.0
  {
    var raw := PriceRaw(doc);
    if raw == "" then 0.0
    else match PriceDecimal(raw)
      case None => 0.0
      case Some(p) => ConvertToUsd(p, DetectCurrency(raw), EffectiveRates(rates, fetched))
  }

  /** A hryvnia or euro price that converts to a positive amount is a multiple of 5. */
  lemma PriceRoundedUp(doc: Doc, rates: Option<Rates>, fetched: Rates)
    requires PriceRaw(doc) != "" && PriceDecimal(PriceRaw(doc)).Some?
    requires DetectCurrency(PriceRaw(doc)) != "USD"
    requires Unrounded(PriceDecimal(PriceRaw(doc)).value, DetectCurrency(PriceRaw(doc)),
                       EffectiveRates(rates, fetched)) > 0.0
    ensures MultipleOfFive(ExtractPriceUsd(doc, rates, fetched))
  {
  }

  /** A dollar price is taken as written, whatever the rates. */
  lemma DollarPriceUnchanged(doc: Doc, rates: Option<Rates>, fetched: Rates)
    requires PriceRaw(doc) != "" && PriceDecimal(PriceRaw(doc)).Some?
    requires DetectCurrency(PriceRaw(doc)) == "USD"
    ensures ExtractPriceUsd(doc, rates, fetched) == PriceDecimal(PriceRaw(doc)).value
  {
  }

  // ---------------------------------------------------------------- rooms and area

  /** `\d+\s*(кімнат|кімн|кімн\.)` found anywhere in the text, ignoring case. */
  predicate HasRoomsPhrase(s: string) {
    exists i :: 0 <= i < |s| && IsDigit(s[i]) && StartsWith(Lower(TrimLeft(s[i + 1..], IsSpace)), "кімн")
  }

  /** What may follow the last digit of `\d+` in `\d+[.,]?\d*\s*(м2|м²)`. */
  predicate AreaTail(t: string) {
    var u := if t != [] && (t[0] == '.' || t[0] == ',') then t[1..] else t;
    var w := Lower(TrimLeft(TrimLeft(u, IsDigit), IsSpace));
    StartsWith(w, "м2") || StartsWith(w, "м²")
  }

  /** `\d+[.,]?\d*\s*(м2|м²)` found anywhere in the text, ignoring case. */
  predicate HasAreaPhrase(s: string) {
    exists i :: 0 <= i < |s| && IsDigit(s[i]) && AreaTail(s[i + 1..])
  }

  /** `soup.find(string=pattern)`: the first text node satisfying `p`. */
  function FirstString(strings: seq<string>, p: string -> bool): (r: Option<string>)
    ensures r.Some? ==> p(r.value) && r.value in strings
    ensures r.Some? ==> exists k :: 0 <= k < |strings| && strings[k] == r.value
                                   && forall j :: 0 <= j < k ==> !p(strings[j])
    ensures r.None? ==> forall k :: 0 <= k < |strings| ==> !p(strings[k])
  {
    if strings == [] then None
    else if p(strings[0]) then Some(strings[0])
    else
      var r := FirstString(strings[1..], p);
      assert forall k :: 1 <= k < |strings| ==> strings[k] == strings[1..][k - 1];
      if r.Some? then
        var k :| 0 <= k < |strings[1..]| && strings[1..][k] == r.value
                 && forall j :: 0 <= j < k ==> !p(strings[1..][j]);
        assert strings[k + 1] == r.value;
        r
      else r
  }

  /** `soup.find("th", string=...)`: the first element named `name` whose sole text
      contains `caption`. */
  function FirstHeaderCell(elements: seq<Node>, caption: string): (r: Option<Node>)
    ensures r.Some? ==> IsHeaderCell(r.value, caption)
    ensures r.Some? ==> exists k :: 0 <= k < |elements| && elements[k] == r.value
                                   && forall j :: 0 <= j < k ==> !IsHeaderCell(elements[j], caption)
    ensures r.None? ==> forall k :: 0 <= k < |elements| ==> !IsHeaderCell(elements[k], caption)
  {
    if elements == [] then None
    else if IsHeaderCell(elements[0], caption) then Some(elements[0])
    else
      var r := FirstHeaderCell(elements[1..], caption);
      assert forall k :: 1 <= k < |elements| ==> elements[k] == elements[1..][k - 1];
      if r.Some? then
        var k :| 0 <= k < |elements[1..]| && elements[1..][k] == r.value
                 && forall j :: 0 <= j < k ==> !IsHeaderCell(elements[1..][j], caption);
        assert elements[k + 1] == r.value;
        r
      else r
  }

  /** A <th> whose sole text contains `caption`. */
  predicate IsHeaderCell(e: Node, caption: string) {
    e.name == "th" && e.ownString.Some? && Contains(e.ownString.value, caption)
  }

  /** The integer a parent <span> of the first matching icon holds. */
  function IconInt(doc: Doc, selector: string): Option<nat> {
    match SelectOne(doc, selector)
    case None => None
    case Some(icon) =>
      match icon.spanText
      case None => None
      case Some(t) => ExtractInt(t)
  }

  /** The integer the <td> beside the labelled <th> holds. */
  function CellInt(doc: Doc, caption: string): Option<nat> {
    match FirstHeaderCell(doc.elements, caption)
    case None => None
    case Some(th) => ExtractInt(th.nextTdText.GetOr(""))
  }

  /** The integer the first text node mentioning rooms holds. */
  function TextInt(doc: Doc): Option<nat> {
    match FirstString(doc.strings, HasRoomsPhrase)
    case None => None
    case Some(s) => ExtractInt(s)
  }

  /** `_extract_rooms`: icon, table cell, then free text; a strategy whose value is 0 or
      missing is passed over, and the fallback is 1. */
  function ExtractRooms(doc: Doc): (r: nat)
    ensures r >= 1
    ensures IconInt(doc, RoomIcon).GetOr(0) != 0 ==> r == IconInt(doc, RoomIcon).value
    ensures IconInt(doc, RoomIcon).GetOr(0) == 0 && CellInt(doc, RoomCaption).GetOr(0) != 0
            ==> r == CellInt(doc, RoomCaption).value
    ensures (IconInt(doc, RoomIcon).GetOr(0) == 0 && CellInt(doc, RoomCaption).GetOr(0) == 0
             && TextInt(doc).GetOr(0) != 0) ==> r == TextInt(doc).value
    ensures (IconInt(doc, RoomIcon).GetOr(0) == 0 && CellInt(doc, RoomCaption).GetOr(0) == 0
             && TextInt(doc).GetOr(0) == 0) ==> r == 1
  {
    var fromIcon := IconInt(doc, RoomIcon);
    if fromIcon.Some? && fromIcon.value != 0 then fromIcon.value
    else
      var fromCell := CellInt(doc, RoomCaption);
      if fromCell.Some? && fromCell.value != 0 then fromCell.value
      else
        var fromText := TextInt(doc);
        if fromText.Some? && fromText.value != 0 then fromText.value
        else 1
  }

  const RoomIcon := "img[src*='_room-icon']"
  const RoomCaption := "Кіл. кімнат"

  /** Rooms fall back to 1 when no strategy yields a positive count. */
  lemma RoomsFallback(doc: Doc)
    requires IconInt(doc, RoomIcon).GetOr(0) == 0
    requires CellInt(doc, RoomCaption).GetOr(0) == 0
    requires forall k :: 0 <= k < |doc.strings| ==> !HasRoomsPhrase(doc.strings[k])
    ensures ExtractRooms(doc) == 1
  {
  }

  function IconFloat(doc: Doc, selector: string): Option<real> {
    match SelectOne(doc, selector)
    case None => None
    case Some(icon) =>
      match icon.spanText
      case None => None
      case Some(t) => ExtractFloat(t)
  }

  function CellFloat(doc: Doc, caption: string): Option<real> {
    match FirstHeaderCell(doc.elements, caption)
    case None => None
    case Some(th) => ExtractFloat(th.nextTdText.GetOr(""))
  }

  /** `_extract_area`: icon, table cell, then free text; unlike rooms a value of 0 counts,
      and the fallback is 0. */
  function ExtractArea(doc: Doc): (r: real)
    ensures r >= 0.0
  {
    var fromIcon := IconFloat(doc, AreaIcon);
    if fromIcon.Some? then fromIcon.value
    else
      var fromCell := CellFloat(doc, AreaCaption);
      if fromCell.Some? then fromCell.value
      else
        match FirstString(doc.strings, HasAreaPhrase)
        case None => 0.0
        case Some(s) => ExtractFloat(s).GetOr(0.0)
  }

  const AreaIcon := "img[src*='_area-icon']"
  const AreaCaption := "Площа"

  /** With no icon value, a number in the cell after the "Площа" header settles the area,
      even at 0. */
  lemma AreaFromCell(doc: Doc)
    requires IconFloat(doc, AreaIcon).None? && CellFloat(doc, AreaCaption).Some?
    ensures ExtractArea(doc) == CellFloat(doc, AreaCaption).value
  {
  }

  /** With no icon or cell value, the first text node with an area phrase is read. */
  lemma AreaFromText(doc: Doc, s: string)
    requires IconFloat(doc, AreaIcon).None? && CellFloat(doc, AreaCaption).None?
    requires FirstString(doc.strings, HasAreaPhrase) == Some(s)
    ensures HasDigit(s) && ExtractArea(doc) == ExtractFloat(s).value
  {
    var i :| 0 <= i < |s| && IsDigit(s[i]) && AreaTail(s[i + 1..]);
  }

  /** With no icon value, no cell value and no area phrase anywhere, the area is 0. */
  lemma AreaFallback(doc: Doc)
    requires IconFloat(doc, AreaIcon).None? && CellFloat(doc, AreaCaption).None?
    requires forall k :: 0 <= k < |doc.strings| ==> !HasAreaPhrase(doc.strings[k])
    ensures ExtractArea(doc) == 0.0
  {
  }

  /** The text "55 м²" of house/tests.py gives an area of 55. */
  lemma AreaOfSquareMetres(doc: Doc, s: string)
    requires IconFloat(doc, AreaIcon).None? && CellFloat(doc, AreaCaption).None?
    requires FirstString(doc.strings, HasAreaPhrase) == Some(s)
    requires s == "55 м²"
    ensures ExtractArea(doc) == 55.0
  {
    AreaFromText(doc, s);
    SquareMetresNumber();
  }

  lemma SquareMetresNumber()
    ensures ExtractFloat("55 м²") == Some(55.0)
  {
    SquareMetresUnspaced();
    SquareMetresNumeral();
    FiftyFiveReads();
  }

  lemma SquareMetresUnspaced()
    ensures RemoveChar("55 м²", ' ') == "55м²"
  {
    SpaceRemoved("55", "м²");
    assert "55" + " " + "м²" == "55 м²" && "55" + "м²" == "55м²";
    RemoveCharAbsent("55м²", ' ');
  }

  lemma SquareMetresNumeral()
    ensures NumeralAt("55м²") == "55"
  {
    var t := "55м²";
    assert DigitPrefix(t[2..]) == [];
    assert DigitPrefix(t[1..]) == "5";
  }

  lemma FiftyFiveReads()
    ensures ParseNumber(ReplaceChar("55", ',', '.')) == Some(55.0)
  {
    ReplaceCharAbsent("55", ',', '.');
    FiftyFiveParses();
    FiftyFiveValue();
  }

  lemma FiftyFiveParses()
    ensures ParseNumber("55") == Some(DigitsValue("55") as real)
  {
    IndexOfDigits("55", '.');
    DigitsNumber("55");
  }

  lemma FiftyFiveValue()
    ensures DigitsValue("55") == 55
  {
    assert "55"[..1] == "5" && "5"[..0] == [];
  }

  /** An icon <span> holding a digit settles the area, even at 0. */
  lemma AreaFromIcon(doc: Doc)
    requires SelectAll(doc, AreaIcon) != []
    requires SelectAll(doc, AreaIcon)[0].spanText.Some?
    requires HasDigit(SelectAll(doc, AreaIcon)[0].spanText.value)
    ensures ExtractArea(doc) == ExtractFloat(SelectAll(doc, AreaIcon)[0].spanText.value).value
  {
  }

  // ---------------------------------------------------------------- description

  function Markups(nodes: seq<Node>): string {
    if nodes == [] then "" else nodes[0].markup + Markups(nodes[1..])
  }

  /** `_extract_description`: the second pdf-block, else the description element, else
      the joined description paragraphs, else "". */
  function ExtractDescription(doc: Doc): (r: string)
    ensures |SelectAll(doc, "div.pdf-block")| > 1 ==> r == SelectAll(doc, "div.pdf-block")[1].markup
    ensures (|SelectAll(doc, "div.pdf-block")| <= 1 && SelectAll(doc, "[itemprop='description']") != [])
            ==> r == SelectAll(doc, "[itemprop='description']")[0].markup
    ensures (|SelectAll(doc, "div.pdf-block")| <= 1 && SelectAll(doc, "[itemprop='description']") == []
             && SelectAll(doc, ".description") != [])
            ==> r == SelectAll(doc, ".description")[0].markup
    ensures (|SelectAll(doc, "div.pdf-block")| <= 1 && SelectAll(doc, "[itemprop='description']") == []
             && SelectAll(doc, ".description") == [] && SelectAll(doc, ".pdf-description p") == [])
            ==> r == ""
  {
    var blocks := SelectAll(doc, "div.pdf-block");
    if |blocks| > 1 then blocks[1].markup
    else
      match SelectOne(doc, "[itemprop='description']").OrElse(SelectOne(doc, ".description"))
      case Some(d) => d.markup
      case None => Markups(SelectAll(doc, ".pdf-description p"))
  }

  lemma {:induction false} MarkupsKeepEach(nodes: seq<Node>, k: nat)
    requires k < |nodes|
    ensures Contains(Markups(nodes), nodes[k].markup)
  {
    if k == 0 {
      ContainsAt(Markups(nodes), nodes[0].markup, 0);
    } else {
      MarkupsKeepEach(nodes[1..], k - 1);
      ContainsSuffixOf(nodes[0].markup, Markups(nodes[1..]), nodes[k].markup);
    }
  }

  /** Without pdf-blocks or a description element, every description paragraph is kept. */
  lemma DescriptionKeepsParagraphs(doc: Doc, k: nat)
    requires |SelectAll(doc, "div.pdf-block")| <= 1
    requires SelectAll(doc, "[itemprop='description']") == [] && SelectAll(doc, ".description") == []
    requires k < |SelectAll(doc, ".pdf-description p")|
    ensures Contains(ExtractDescription(doc), SelectAll(doc, ".pdf-description p")[k].markup)
  {
    MarkupsKeepEach(SelectAll(doc, ".pdf-description p"), k);
  }

  // ---------------------------------------------------------------- images

  const GalleryLinks := "#estate-images a, .gallery a"
  const GalleryImages := "#estate-images img, .gallery img"

  /** The main image's `src`, "" when the tag lacks one. */
  function MainSrc(doc: Doc): string {
    match SelectOne(doc, ".pdf-img img").OrElse(SelectOne(doc, "img.main-image"))
    case None => ""
    case Some(t) => if "src" in t.attrs then t.attrs["src"] else ""
  }

  /** The non-empty values of `attr`, in document order. */
  function AttrValues(nodes: seq<Node>, attr: string): (r: seq<string>)
    ensures "" !in r
  {
    if nodes == [] then []
    else
      var n := nodes[|nodes| - 1];
      AttrValues(nodes[..|nodes| - 1], attr)
        + (if attr in n.attrs && n.attrs[attr] != "" then [n.attrs[attr]] else [])
  }

  function GalleryUrls(doc: Doc): (r: seq<string>)
    ensures "" !in r
  {
    AttrValues(SelectAll(doc, GalleryLinks), "href") + AttrValues(SelectAll(doc, GalleryImages), "src")
  }

  predicate NoDup(xs: seq<string>) {
    forall i, j :: 0 <= i < j < |xs| ==> xs[i] != xs[j]
  }

  /** The non-empty urls, each at its first occurrence. */
  function Dedup(xs: seq<string>): (r: seq<string>)
    ensures NoDup(r)
    ensures forall u :: u in r <==> u in xs && u != ""
  {
    if xs == [] then []
    else
      var d := Dedup(xs[..|xs| - 1]);
      var u := xs[|xs| - 1];
      assert forall v :: v in xs <==> v in xs[..|xs| - 1] || v == u;
      if u == "" || u in d then d else d + [u]
  }

  /** A list already free of duplicates and blanks comes through unchanged. */
  lemma {:induction false} DedupIdentity(xs: seq<string>)
    requires NoDup(xs) && forall k :: 0 <= k < |xs| ==> xs[k] != ""
    ensures Dedup(xs) == xs
  {
    if xs != [] {
      var init := xs[..|xs| - 1];
      DedupIdentity(init);
      assert xs[|xs| - 1] !in init;
      assert init + [xs[|xs| - 1]] == xs;
    }
  }

  /** The position of the first occurrence of `u`, or the length when it does not occur. */
  function FirstSeen(xs: seq<string>, u: string): (k: nat)
    ensures k <= |xs| && (k < |xs| <==> u in xs)
    ensures k < |xs| ==> xs[k] == u
  {
    if xs == [] then 0 else if xs[0] == u then 0 else 1 + FirstSeen(xs[1..], u)
  }

  lemma {:induction false} FirstSeenSnoc(init: seq<string>, u: string, v: string)
    ensures v in init ==> FirstSeen(init + [u], v) == FirstSeen(init, v)
    ensures v !in init && v == u ==> FirstSeen(init + [u], v) == |init|
  {
    if init != [] {
      assert (init + [u])[1..] == init[1..] + [u];
      FirstSeenSnoc(init[1..], u, v);
    } else {
      assert init + [u] == [u];
    }
  }

  /** The urls are kept in the order of their first occurrence. */
  lemma {:induction false} DedupKeepsFirstSeenOrder(xs: seq<string>)
    ensures forall i, j :: 0 <= i < j < |Dedup(xs)| ==> FirstSeen(xs, Dedup(xs)[i]) < FirstSeen(xs, Dedup(xs)[j])
  {
    if xs != [] {
      var init := xs[..|xs| - 1];
      var u := xs[|xs| - 1];
      var d := Dedup(init);
      DedupKeepsFirstSeenOrder(init);
      assert xs == init + [u];
      forall v | v in d ensures FirstSeen(xs, v) == FirstSeen(init, v) && FirstSeen(init, v) < |init| {
        FirstSeenSnoc(init, u, v);
      }
      if u != "" && u !in d {
        FirstSeenSnoc(init, u, u);
        forall i, j | 0 <= i < j < |d + [u]| ensures FirstSeen(xs, (d + [u])[i]) < FirstSeen(xs, (d + [u])[j]) {
          assert (d + [u])[i] == d[i];
          assert d[i] in d;
          if j < |d| { assert (d + [u])[j] == d[j] && d[j] in d; }
        }
      } else {
        forall i, j | 0 <= i < j < |d| ensures FirstSeen(xs, d[i]) < FirstSeen(xs, d[j]) {
          assert d[i] in d && d[j] in d;
        }
      }
    }
  }

  /** The main image and the gallery `_extract_images` returns. */
  function ImagesOf(doc: Doc): (r: (string, seq<string>))
    ensures NoDup(r.1)
    ensures forall u :: u in r.1 <==> u in GalleryUrls(doc)
    ensures r.0 == "" <==> MainSrc(doc) == "" && r.1 == []
    ensures MainSrc(doc) != "" ==> r.0 == MainSrc(doc)
    ensures MainSrc(doc) == "" && r.1 != [] ==> r.0 == r.1[0]
    ensures forall i, j :: 0 <= i < j < |r.1| ==>
              FirstSeen(GalleryUrls(doc), r.1[i]) < FirstSeen(GalleryUrls(doc), r.1[j])
  {
    DedupKeepsFirstSeenOrder(GalleryUrls(doc));
    var gallery := Dedup(GalleryUrls(doc));
    var main := MainSrc(doc);
    (if main == "" && gallery != [] then gallery[0] else main, gallery)
  }

  /** The loops gathering `href`s of gallery links and `src`s of gallery images. */
  method CollectAttr(nodes: seq<Node>, attr: string) returns (urls: seq<string>)
    ensures urls == AttrValues(nodes, attr)
  {
    urls := [];
    var i := 0;
    while i < |nodes|
      invariant 0 <= i <= |nodes|
      invariant urls == AttrValues(nodes[..i], attr)
    {
      var node := nodes[i];
      if attr in node.attrs && node.attrs[attr] != "" {
        urls := urls + [node.attrs[attr]];
      }
      assert nodes[..i + 1][..i] == nodes[..i];
      i := i + 1;
    }
    assert nodes[..i] == nodes;
  }

  /** The loop keeping each url the first time it is seen. */
  method DedupUrls(urls: seq<string>) returns (gallery: seq<string>)
    ensures gallery == Dedup(urls)
  {
    gallery := [];
    var i := 0;
    while i < |urls|
      invariant 0 <= i <= |urls|
      invariant gallery == Dedup(urls[..i])
    {
      var url := urls[i];
      assert urls[..i + 1][..i] == urls[..i];
      if url != "" && url !in gallery {
        gallery := gallery + [url];
      }
      i := i + 1;
    }
    assert urls[..i] == urls;
  }

  /** `_extract_images`. */
  method ExtractImages(doc: Doc) returns (main: string, gallery: seq<string>)
    ensures (main, gallery) == ImagesOf(doc)
  {
    main := MainSrc(doc);
    var hrefs := CollectAttr(SelectAll(doc, GalleryLinks), "href");
    var srcs := CollectAttr(SelectAll(doc, GalleryImages), "src");
    gallery := DedupUrls(hrefs + srcs);
    if main == "" && gallery != [] {
      main := gallery[0];
    }
  }
}
