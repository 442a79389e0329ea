/**
 * The pure helpers of the search page script (static/base/assets/js/search/ui.js): HTML
 * escaping, the price heading of a listing card, and the page links of the pagination bar.
 * The bar is modelled as its sequence of pieces; the markup around each piece is not.
 */
module SearchUi {
  import opened Wrappers
  import opened Text

  // ---------------------------------------------------------------- escaping

  /** `s.replace(/c/g, rep)`. */
  function ReplaceBy(s: string, c: char, rep: string): string {
    if s == [] then [] else (if s[0] == c then rep else [s[0]]) + ReplaceBy(s[1..], c, rep)
  }

  /** A character absent from the text and from the replacement stays absent, and the
      replaced character is gone unless the replacement brings it back. */
  lemma {:induction false} ReplaceByOmits(s: string, c: char, rep: string, x: char)
    requires x == c || x !in s
    requires x !in rep
    ensures x !in ReplaceBy(s, c, rep)
    decreases |s|
  {
    if s != [] {
      ReplaceByOmits(s[1..], c, rep, x);
      assert x !in (if s[0] == c then rep else [s[0]]);
    }
  }

  lemma {:induction false} ReplaceByAppend(a: string, b: string, c: char, rep: string)
    ensures ReplaceBy(a + b, c, rep) == ReplaceBy(a, c, rep) + ReplaceBy(b, c, rep)
    decreases |a|
  {
    if a != [] {
      assert (a + b)[1..] == a[1..] + b;
      ReplaceByAppend(a[1..], b, c, rep);
    } else {
      assert a + b == b;
    }
  }

  /** `escapeHtml`: a missing or empty value gives ""; "&" is replaced first, so the
      entities of the later replacements are not escaped again. */
  function EscapeHtml(value: Option<string>): (r: string)
    ensures r == Escaped(value.GetOr(""))
  {
    EscapeIsEscaped(value.GetOr(""));
    Escape(value.GetOr(""))
  }

  function Escape(s: string): string {
    ReplaceBy(ReplaceBy(ReplaceBy(ReplaceBy(ReplaceBy(s, '&', "&amp;"), '<', "&lt;"), '>', "&gt;"), '"', "&quot;"), '\'', "&#39;")
  }

  /** The entity of one character. */
  function EscapeChar(c: char): string {
    if c == '&' then "&amp;"
    else if c == '<' then "&lt;"
    else if c == '>' then "&gt;"
    else if c == '"' then "&quot;"
    else if c == '\'' then "&#39;"
    else [c]
  }

  /** The five replacements, character by character. */
  function Escaped(s: string): string {
    if s == [] then [] else EscapeChar(s[0]) + Escaped(s[1..])
  }

  lemma EscapeAppend(a: string, b: string)
    ensures Escape(a + b) == Escape(a) + Escape(b)
  {
    var a1, b1 := ReplaceBy(a, '&', "&amp;"), ReplaceBy(b, '&', "&amp;");
    ReplaceByAppend(a, b, '&', "&amp;");
    var a2, b2 := ReplaceBy(a1, '<', "&lt;"), ReplaceBy(b1, '<', "&lt;");
    ReplaceByAppend(a1, b1, '<', "&lt;");
    var a3, b3 := ReplaceBy(a2, '>', "&gt;"), ReplaceBy(b2, '>', "&gt;");
    ReplaceByAppend(a2, b2, '>', "&gt;");
    var a4, b4 := ReplaceBy(a3, '"', "&quot;"), ReplaceBy(b3, '"', "&quot;");
    ReplaceByAppend(a3, b3, '"', "&quot;");
    ReplaceByAppend(a4, b4, '\'', "&#39;");
  }

  lemma ReplaceByNone(s: string, c: char, rep: string)
    requires c !in s
    ensures ReplaceBy(s, c, rep) == s
  {
    if s != [] {
      ReplaceByNone(s[1..], c, rep);
    }
  }

  lemma ReplaceByOne(x: char, c: char, rep: string)
    ensures ReplaceBy([x], c, rep) == if x == c then rep else [x]
  {
    assert [x][1..] == [];
  }

  /** Each step of the chain leaves a character it does not replace, and the entities of
      the earlier steps, alone. */
  lemma EscapeOne(c: char)
    ensures Escape([c]) == EscapeChar(c)
  {
    var s1 := ReplaceBy([c], '&', "&amp;");
    ReplaceByOne(c, '&', "&amp;");
    if c == '&' {
      AmpInert(s1);
    } else {
      var s2 := ReplaceBy(s1, '<', "&lt;");
      ReplaceByOne(c, '<', "&lt;");
      if c == '<' {
        LtInert(s2);
      } else {
        var s3 := ReplaceBy(s2, '>', "&gt;");
        ReplaceByOne(c, '>', "&gt;");
        if c == '>' {
          GtInert(s3);
        } else {
          var s4 := ReplaceBy(s3, '"', "&quot;");
          ReplaceByOne(c, '"', "&quot;");
          if c == '"' {
            QuotInert(s4);
          } else {
            ReplaceByOne(c, '\'', "&#39;");
          }
        }
      }
    }
  }

  /** An entity put in by one step holds none of the characters of the later steps. */
  lemma AmpInert(s: string)
    requires s == "&amp;"
    ensures ReplaceBy(ReplaceBy(ReplaceBy(ReplaceBy(s, '<', "&lt;"), '>', "&gt;"), '"', "&quot;"), '\'', "&#39;") == s
  {
    assert '<' !in s && '>' !in s && '"' !in s && '\'' !in s;
    ReplaceByNone(s, '<', "&lt;");
    ReplaceByNone(s, '>', "&gt;");
    ReplaceByNone(s, '"', "&quot;");
    ReplaceByNone(s, '\'', "&#39;");
  }

  lemma LtInert(s: string)
    requires s == "&lt;"
    ensures ReplaceBy(ReplaceBy(ReplaceBy(s, '>', "&gt;"), '"', "&quot;"), '\'', "&#39;") == s
  {
    assert '>' !in s && '"' !in s && '\'' !in s;
    ReplaceByNone(s, '>', "&gt;");
    ReplaceByNone(s, '"', "&quot;");
    ReplaceByNone(s, '\'', "&#39;");
  }

  lemma GtInert(s: string)
    requires s == "&gt;"
    ensures ReplaceBy(ReplaceBy(s, '"', "&quot;"), '\'', "&#39;") == s
  {
    assert '"' !in s && '\'' !in s;
    ReplaceByNone(s, '"', "&quot;");
    ReplaceByNone(s, '\'', "&#39;");
  }

  lemma QuotInert(s: string)
    requires s == "&quot;"
    ensures ReplaceBy(s, '\'', "&#39;") == s
  {
    assert '\'' !in s;
    ReplaceByNone(s, '\'', "&#39;");
  }

  /** The chain of replacements is the character-by-character escaping. */
  lemma {:induction false} EscapeIsEscaped(s: string)
    ensures Escape(s) == Escaped(s)
    decreases |s|
  {
    if s != [] {
      assert s == [s[0]] + s[1..];
      EscapeAppend([s[0]], s[1..]);
      EscapeOne(s[0]);
      EscapeIsEscaped(s[1..]);
    }
  }

  /** Reading the entities back. */
  function Unescape(s: string): string
    decreases |s|
  {
    if s == [] then []
    else if StartsWith(s, "&amp;") then "&" + Unescape(s[5..])
    else if StartsWith(s, "&lt;") then "<" + Unescape(s[4..])
    else if StartsWith(s, "&gt;") then ">" + Unescape(s[4..])
    else if StartsWith(s, "&quot;") then "\"" + Unescape(s[6..])
    else if StartsWith(s, "&#39;") then "'" + Unescape(s[5..])
    else [s[0]] + Unescape(s[1..])
  }

  lemma UnescapePlain(s: string)
    requires s != [] && s[0] != '&'
    ensures Unescape(s) == [s[0]] + Unescape(s[1..])
  {
    OtherStart(s, "&amp;");
    OtherStart(s, "&lt;");
    OtherStart(s, "&gt;");
    OtherStart(s, "&quot;");
    OtherStart(s, "&#39;");
  }

  lemma OtherStart(s: string, entity: string)
    requires s != [] && entity != [] && s[0] != entity[0]
    ensures !StartsWith(s, entity)
  {
    assert |entity| <= |s| ==> s[..|entity|][0] == s[0];
  }

  lemma UnescapeAmp(rest: string)
    ensures Unescape("&amp;" + rest) == "&" + Unescape(rest)
  {
    var s := "&amp;" + rest;
    assert s[..5] == "&amp;" && s[5..] == rest;
  }

  lemma UnescapeLt(rest: string)
    ensures Unescape("&lt;" + rest) == "<" + Unescape(rest)
  {
    var s := "&lt;" + rest;
    assert s[..4] == "&lt;" && s[4..] == rest;
    assert s[1] == 'l';
    assert !StartsWith(s, "&amp;");
  }

  lemma UnescapeGt(rest: string)
    ensures Unescape("&gt;" + rest) == ">" + Unescape(rest)
  {
    var s := "&gt;" + rest;
    assert s[..4] == "&gt;" && s[4..] == rest;
    assert s[1] == 'g';
    assert !StartsWith(s, "&amp;") && !StartsWith(s, "&lt;");
  }

  lemma UnescapeQuot(rest: string)
    ensures Unescape("&quot;" + rest) == "\"" + Unescape(rest)
  {
    var s := "&quot;" + rest;
    assert s[..6] == "&quot;" && s[6..] == rest;
    assert s[1] == 'q';
    assert !StartsWith(s, "&amp;") && !StartsWith(s, "&lt;") && !StartsWith(s, "&gt;");
  }

  lemma UnescapeApos(rest: string)
    ensures Unescape("&#39;" + rest) == "'" + Unescape(rest)
  {
    var s := "&#39;" + rest;
    assert s[..5] == "&#39;" && s[5..] == rest;
    assert s[1] == '#';
    assert !StartsWith(s, "&amp;") && !StartsWith(s, "&lt;") && !StartsWith(s, "&gt;");
    assert !StartsWith(s, "&quot;");
  }

  lemma UnescapeChar(c: char, rest: string)
    ensures Unescape(EscapeChar(c) + rest) == [c] + Unescape(rest)
  {
    if c == '&' {
      UnescapeAmp(rest);
    } else if c == '<' {
      UnescapeLt(rest);
    } else if c == '>' {
      UnescapeGt(rest);
    } else if c == '"' {
      UnescapeQuot(rest);
    } else if c == '\'' {
      UnescapeApos(rest);
    } else {
      var s := [c] + rest;
      UnescapePlain(s);
      assert s[1..] == rest;
    }
  }

  lemma {:induction false} UnescapeEscaped(s: string)
    ensures Unescape(Escaped(s)) == s
    decreases |s|
  {
    if s != [] {
      UnescapeChar(s[0], Escaped(s[1..]));
      UnescapeEscaped(s[1..]);
    }
  }

  /** Escaping loses nothing: reading the entities back gives the value. */
  lemma EscapeHtmlRoundTrip(value: Option<string>)
    ensures Unescape(EscapeHtml(value)) == value.GetOr("")
  {
    EscapeIsEscaped(value.GetOr(""));
    UnescapeEscaped(value.GetOr(""));
  }

  /** The output holds none of the characters that would end an attribute or open a tag. */
  lemma EscapeHtmlSafe(value: Option<string>)
    ensures forall x :: x in EscapeHtml(value) ==> x != '<' && x != '>' && x != '"' && x != '\''
  {
    var s0 := value.GetOr("");
    var s1 := ReplaceBy(s0, '&', "&amp;");
    var s2 := ReplaceBy(s1, '<', "&lt;");
    var s3 := ReplaceBy(s2, '>', "&gt;");
    var s4 := ReplaceBy(s3, '"', "&quot;");
    var s5 := ReplaceBy(s4, '\'', "&#39;");
    assert '<' !in s5 by { LtGone(s1); }
    assert '>' !in s5 by { GtGone(s2); }
    assert '"' !in s5 by { QuotGone(s3); }
    assert '\'' !in s5 by { ReplaceByOmits(s4, '\'', "&#39;", '\''); }
  }

  /** The steps after the one replacing '<' bring no '<' back, and so on for '>' and '"':
      none of the later entities holds the character. */
  lemma LtGone(s1: string)
    ensures '<' !in ReplaceBy(ReplaceBy(ReplaceBy(ReplaceBy(s1, '<', "&lt;"), '>', "&gt;"), '"', "&quot;"), '\'', "&#39;")
  {
    var s2 := ReplaceBy(s1, '<', "&lt;");
    var s3 := ReplaceBy(s2, '>', "&gt;");
    var s4 := ReplaceBy(s3, '"', "&quot;");
    ReplaceByOmits(s1, '<', "&lt;", '<');
    ReplaceByOmits(s2, '>', "&gt;", '<');
    ReplaceByOmits(s3, '"', "&quot;", '<');
    ReplaceByOmits(s4, '\'', "&#39;", '<');
  }

  lemma GtGone(s2: string)
    ensures '>' !in ReplaceBy(ReplaceBy(ReplaceBy(s2, '>', "&gt;"), '"', "&quot;"), '\'', "&#39;")
  {
    var s3 := ReplaceBy(s2, '>', "&gt;");
    var s4 := ReplaceBy(s3, '"', "&quot;");
    ReplaceByOmits(s2, '>', "&gt;", '>');
    ReplaceByOmits(s3, '"', "&quot;", '>');
    ReplaceByOmits(s4, '\'', "&#39;", '>');
  }

  lemma QuotGone(s3: string)
    ensures '"' !in ReplaceBy(ReplaceBy(s3, '"', "&quot;"), '\'', "&#39;")
  {
    var s4 := ReplaceBy(s3, '"', "&quot;");
    ReplaceByOmits(s3, '"', "&quot;", '"');
    ReplaceByOmits(s4, '\'', "&#39;", '"');
  }

  /** A falsy value gives the empty text. */
  lemma EscapeHtmlEmpty()
    ensures EscapeHtml(None) == "" && EscapeHtml(Some("")) == ""
  {
  }

  // ---------------------------------------------------------------- price heading

  const PriceOnRequest := "Ціна за запитом"
  const DefaultDeal := "Угода"
  const RentKey := "оренда"
  const PerMonth := " /міс"

  /** `formatPrice`: no price reads "price on request"; a price goes to the locale
      formatter, which is a black box here. */
  function FormatPrice(price: Option<real>, format: real -> string): (r: string)
    ensures price.None? ==> r == PriceOnRequest
    ensures price.Some? ==> r == format(price.value)
  {
    if price.None? then PriceOnRequest else format(price.value)
  }

  /** The characters of the script's `\s`. */
  predicate JsSpace(c: char) {
    c == ' ' || c == '\t' || c == '\n' || c == '\r' || c == '\U{0B}' || c == '\U{0C}'
    || c == '\U{A0}' || c == '\U{1680}' || ('\U{2000}' <= c <= '\U{200A}')
    || c == '\U{2028}' || c == '\U{2029}' || c == '\U{202F}' || c == '\U{205F}'
    || c == '\U{3000}' || c == '\U{FEFF}'
  }

  predicate Visible(c: char) { !JsSpace(c) }

  /** The deal key: the deal name (or "Угода"), lower-cased, all whitespace removed. */
  function DealKey(dealName: Option<string>): (r: string)
    ensures forall i :: 0 <= i < |r| ==> !JsSpace(r[i])
  {
    var name := if dealName.Some? && dealName.value != "" then dealName.value else DefaultDeal;
    Filter(Lower(name), Visible)
  }

  /** The card heading: the escaped price text, with " /міс" for rentals. */
  function PriceHeading(price: Option<real>, dealName: Option<string>, format: real -> string): (r: string)
    ensures DealKey(dealName) == RentKey ==> r == EscapeHtml(Some(FormatPrice(price, format))) + PerMonth
    ensures DealKey(dealName) != RentKey ==> r == EscapeHtml(Some(FormatPrice(price, format)))
  {
    EscapeHtml(Some(FormatPrice(price, format))) + (if DealKey(dealName) == RentKey then PerMonth else "")
  }

  /** Case and the whitespace around the deal name do not matter: a name made of
      whitespace, a word and whitespace has the lower-cased word as its key. */
  lemma DealKeyTrims(before: string, word: string, after: string)
    requires before + word + after != []
    requires AllSpace(before) && AllSpace(after) && LowerVisible(word)
    ensures DealKey(Some(before + word + after)) == Lower(word)
  {
    KeyOfParts(before, word, after);
    SpacesDropped(before);
    SpacesDropped(after);
    WordKept(word);
    DealKeyOf(before + word + after);
  }

  lemma KeyOfParts(before: string, word: string, after: string)
    ensures Filter(Lower(before + word + after), Visible)
         == Filter(Lower(before), Visible) + Filter(Lower(word), Visible) + Filter(Lower(after), Visible)
  {
    KeyAppend(before + word, after);
    KeyAppend(before, word);
  }

  /** Every letter of the word stays visible once lower-cased. */
  predicate LowerVisible(word: string) {
    forall i :: 0 <= i < |word| ==> !JsSpace(LowerChar(word[i]))
  }

  lemma WordKept(word: string)
    requires LowerVisible(word)
    ensures Filter(Lower(word), Visible) == Lower(word)
  {
    var l := Lower(word);
    forall i | 0 <= i < |l| ensures Visible(l[i]) {
      assert l[i] == LowerChar(word[i]);
    }
    FilterKeepsAll(l, Visible);
  }

  lemma DealKeyOf(name: string)
    requires name != []
    ensures DealKey(Some(name)) == Filter(Lower(name), Visible)
  {
  }

  lemma KeyAppend(a: string, b: string)
    ensures Filter(Lower(a + b), Visible) == Filter(Lower(a), Visible) + Filter(Lower(b), Visible)
  {
    LowerAppend(a, b);
    FilterAppend(Lower(a), Lower(b), Visible);
  }

  /** Lower-casing leaves whitespace as it is, and the key drops it all. */
  predicate AllSpace(s: string) {
    forall i :: 0 <= i < |s| ==> JsSpace(s[i])
  }

  lemma SpacesDropped(s: string)
    requires AllSpace(s)
    ensures Filter(Lower(s), Visible) == []
  {
    assert forall i :: 0 <= i < |s| ==> LowerChar(s[i]) == s[i];
    FilterDropsAll(Lower(s), Visible);
  }

  /** " Оренда " is a rental. */
  lemma RentSuffix()
    ensures DealKey(Some(" " + "Оренда" + " ")) == RentKey
  {
    RentWord("Оренда");
    assert AllSpace(" ");
    DealKeyTrims(" ", "Оренда", " ");
  }

  lemma RentWord(w: string)
    requires w == "Оренда"
    ensures Lower(w) == RentKey && LowerVisible(w)
  {
    assert |Lower(w)| == 6;
    assert Lower(w)[0] == 'о' && Lower(w)[1] == 'р' && Lower(w)[2] == 'е';
    assert Lower(w)[3] == 'н' && Lower(w)[4] == 'д' && Lower(w)[5] == 'а';
  }

  /** A listing without a deal reads "Угода", which is not a rental. */
  lemma NoDealNotRent()
    ensures DealKey(None) != RentKey
  {
    var d := Lower(DefaultDeal);
    assert d[0] == 'у';
    FilterKeepsAll(d, Visible);
  }

  // ---------------------------------------------------------------- pagination

  /** A link of the bar: the page path and its query parameters in order. */
  datatype Link = Link(path: string, query: seq<(string, string)>)

  datatype Piece =
    | PrevDisabled
    | PrevLink(href: Link)
    | CurrentPage(num: int)
    | PageLink(num: int, href: Link)
    | NextDisabled
    | NextLink(href: Link)

  /** `URLSearchParams.delete(name)`. */
  function Without(params: seq<(string, string)>, name: string): (r: seq<(string, string)>)
    ensures forall p :: p in r <==> p in params && p.0 != name
    ensures (forall k :: 0 <= k < |params| ==> params[k].0 != name) ==> r == params
  {
    if params == [] then []
    else (if params[0].0 == name then [] else [params[0]]) + Without(params[1..], name)
  }

  /** Deleting distributes over concatenation, so the kept parameters keep their order:
      those of the first part all come before those of the second. */
  lemma {:induction false} WithoutAppend(a: seq<(string, string)>, b: seq<(string, string)>, name: string)
    ensures Without(a + b, name) == Without(a, name) + Without(b, name)
  {
    if a == [] {
      assert a + b == b;
    } else {
      assert (a + b)[0] == a[0] && (a + b)[1..] == a[1..] + b;
      WithoutAppend(a[1..], b, name);
    }
  }

  /** Two kept parameters stay in the order they had. */
  lemma WithoutKeepsOrder(a: seq<(string, string)>, p: (string, string), m: seq<(string, string)>,
                          q: (string, string), b: seq<(string, string)>, name: string)
    requires p.0 != name && q.0 != name
    ensures exists x, y, z :: Without(a + [p] + m + [q] + b, name) == x + [p] + y + [q] + z
  {
    WithoutAppend(a + [p] + m + [q], b, name);
    WithoutAppend(a + [p] + m, [q], name);
    WithoutAppend(a + [p], m, name);
    WithoutAppend(a, [p], name);
    assert Without([p], name) == [p] && Without([q], name) == [q];
    var x, y, z := Without(a, name), Without(m, name), Without(b, name);
    assert Without(a + [p] + m + [q] + b, name) == x + [p] + y + [q] + z;
  }

  /** Page numbers are written in decimal. */
  function IntToString(n: int): string {
    if n < 0 then "-" + NatToString(-n) else NatToString(n)
  }

  /** `buildHref(page)`: the current parameters without "page", then the new "page". */
  function PageHref(path: string, params: seq<(string, string)>, page: int): (l: Link)
    ensures l.path == path
    ensures l.query == Without(params, "page") + [("page", IntToString(page))]
  {
    Link(path, Without(params, "page") + [("page", IntToString(page))])
  }

  function Max(a: int, b: int): int { if a < b then b else a }
  function Min(a: int, b: int): int { if a < b then a else b }

  /** The piece for page `num` of the window. */
  function PagePiece(path: string, params: seq<(string, string)>, page: int, num: int): Piece {
    if num == page then CurrentPage(num) else PageLink(num, PageHref(path, params, num))
  }

  /** The page pieces from `from` to `end`, in order. */
  function Window(path: string, params: seq<(string, string)>, page: int, from: int, end: int): (r: seq<Piece>)
    ensures |r| == (if end < from then 0 else end - from + 1)
    ensures forall i :: 0 <= i < |r| ==> r[i] == PagePiece(path, params, page, from + i)
    decreases end - from + 1
  {
    if end < from then [] else [PagePiece(path, params, page, from)] + Window(path, params, page, from + 1, end)
  }

  lemma WindowGrows(path: string, params: seq<(string, string)>, page: int, from: int, end: int)
    requires from <= end + 1
    ensures Window(path, params, page, from, end + 1)
         == Window(path, params, page, from, end) + [PagePiece(path, params, page, end + 1)]
  {
    var w := Window(path, params, page, from, end + 1);
    var v := Window(path, params, page, from, end) + [PagePiece(path, params, page, end + 1)];
    assert |w| == |v|;
    forall i | 0 <= i < |w| ensures w[i] == v[i] {
      if i < |w| - 1 { assert v[i] == Window(path, params, page, from, end)[i]; }
    }
  }

  function PrevPiece(path: string, params: seq<(string, string)>, page: int): Piece {
    if page <= 1 then PrevDisabled else PrevLink(PageHref(path, params, page - 1))
  }

  function NextPiece(path: string, params: seq<(string, string)>, page: int, totalPages: int): Piece {
    if page >= totalPages then NextDisabled else NextLink(PageHref(path, params, page + 1))
  }

  /** The bar: nothing for a single page (a missing count reads as 0); otherwise the
      previous arrow, the pages from `page - 2` to `page + 2` within `1..totalPages`, and
      the next arrow. */
  function Bar(page: int, totalPages: int, path: string, params: seq<(string, string)>): seq<Piece> {
    if totalPages <= 1 then []
    else
      [PrevPiece(path, params, page)]
      + Window(path, params, page, Max(1, page - 2), Min(totalPages, page + 2))
      + [NextPiece(path, params, page, totalPages)]
  }

  /** `renderPagination`, piece by piece. */
  method RenderPagination(page: int, totalPages: int, path: string, params: seq<(string, string)>)
    returns (pieces: seq<Piece>)
    ensures pieces == Bar(page, totalPages, path, params)
  {
    if totalPages <= 1 {
      return [];
    }
    var prev := if page <= 1 then PrevDisabled else PrevLink(PageHref(path, params, page - 1));
    var pages := RenderWindow(path, params, page, Max(1, page - 2), Min(totalPages, page + 2));
    var next := if page >= totalPages then NextDisabled else NextLink(PageHref(path, params, page + 1));
    pieces := [prev] + pages + [next];
  }

  /** The loop over the page numbers of the bar. */
  method RenderWindow(path: string, params: seq<(string, string)>, page: int, start: int, end: int)
    returns (pieces: seq<Piece>)
    ensures pieces == Window(path, params, page, start, end)
  {
    pieces := [];
    var num := start;
    while num <= end
      invariant start <= num <= (if end < start then start else end + 1)
      invariant pieces == Window(path, params, page, start, num - 1)
      decreases end - num
    {
      WindowGrows(path, params, page, start, num - 1);
      if num == page {
        pieces := pieces + [CurrentPage(num)];
      } else {
        pieces := pieces + [PageLink(num, PageHref(path, params, num))];
      }
      num := num + 1;
    }
  }

  /** With more than one page the bar holds the arrows around at most five pages. */
  lemma BarShape(page: int, totalPages: int, path: string, params: seq<(string, string)>)
    requires totalPages > 1
    ensures var bar := Bar(page, totalPages, path, params);
            var start, end := Max(1, page - 2), Min(totalPages, page + 2);
            var width := if end < start then 0 else end - start + 1;
            width <= 5 && |bar| == width + 2
            && bar[0] == PrevPiece(path, params, page) && bar[width + 1] == NextPiece(path, params, page, totalPages)
            && (forall i :: 1 <= i <= width ==> bar[i] == PagePiece(path, params, page, start + i - 1))
  {
  }

  /** A page within range is shown as the current page. */
  lemma BarShowsCurrent(page: int, totalPages: int, path: string, params: seq<(string, string)>)
    requires totalPages > 1 && 1 <= page <= totalPages
    ensures CurrentPage(page) in Bar(page, totalPages, path, params)
  {
    var start := Max(1, page - 2);
    var bar := Bar(page, totalPages, path, params);
    BarShape(page, totalPages, path, params);
    assert bar[page - start + 1] == PagePiece(path, params, page, page);
  }

  /** At most one piece is the current page, and it is the requested page. */
  lemma BarOneCurrent(page: int, totalPages: int, path: string, params: seq<(string, string)>)
    ensures var bar := Bar(page, totalPages, path, params);
            forall i :: 0 <= i < |bar| && bar[i].CurrentPage? ==> bar[i].num == page
    ensures var bar := Bar(page, totalPages, path, params);
            forall i, j :: 0 <= i < |bar| && 0 <= j < |bar| && bar[i].CurrentPage? && bar[j].CurrentPage? ==> i == j
  {
    if totalPages > 1 {
      BarShape(page, totalPages, path, params);
    }
  }
}
