/**
 * Coordinates of a listing (house/utils/html_parser.py, lines 65-85, 424-460 and 511-548):
 * numeric data attributes on any element, then "lat;lon" position metas, then a
 * script text mentioning latitude; the pair is returned only when both halves parse.
 */
module Coordinates {
  import opened Wrappers
  import opened Text
  import opened Document
  import opened Scalars
  import FieldExtractor

  const LatitudeAttrs: seq<string> :=
    ["data-lat", "data-latitude", "data-latitude-dec", "data-latitude-decimal"]
  const LongitudeAttrs: seq<string> :=
    ["data-lon", "data-lng", "data-longitude", "data-lng-dec", "data-longitude-decimal"]
  const LatitudeMeta: seq<string> :=
    ["meta[name='geo.position']", "meta[property='place:location:latitude']"]
  const LongitudeMeta: seq<string> :=
    ["meta[name='geo.position']", "meta[property='place:location:longitude']"]

  type Coords = (Option<real>, Option<real>)

  // ---------------------------------------------------------------- attributes

  /** The number attribute `a` of the element gives, when it has one that parses. */
  function AttrFloat(n: Node, a: string): Option<real> {
    if a in n.attrs then SafeFloat(Some(n.attrs[a]), None) else None
  }

  /** The first attribute of `attrs` the element has whose value parses as a number. */
  function FirstFloatAttrOf(n: Node, attrs: seq<string>): (r: Option<real>)
    ensures r.Some? ==> exists k :: 0 <= k < |attrs| && AttrFloat(n, attrs[k]) == r
                                   && forall j :: 0 <= j < k ==> AttrFloat(n, attrs[j]).None?
    ensures r.None? ==> forall k :: 0 <= k < |attrs| ==> AttrFloat(n, attrs[k]).None?
  {
    if attrs == [] then None
    else if AttrFloat(n, attrs[0]).Some? then AttrFloat(n, attrs[0])
    else
      var r := FirstFloatAttrOf(n, attrs[1..]);
      FirstGivenShift(attrs, a => AttrFloat(n, a), r);
      r
  }

  /** `_first_float_attr`. */
  method FirstFloatAttr(n: Node, attrs: seq<string>) returns (value: Option<real>)
    ensures value == FirstFloatAttrOf(n, attrs)
  {
    var i := 0;
    while i < |attrs|
      invariant 0 <= i <= |attrs|
      invariant FirstFloatAttrOf(n, attrs[i..]) == FirstFloatAttrOf(n, attrs)
    {
      var attr := attrs[i];
      if attr in n.attrs {
        var v := SafeFloat(Some(n.attrs[attr]), None);
        if v.Some? {
          return v;
        }
      }
      assert attrs[i..][1..] == attrs[i + 1..];
      i := i + 1;
    }
    return None;
  }

  /** Both halves, when both are present. */
  function Both(lat: Option<real>, lon: Option<real>): (r: Option<(real, real)>)
    ensures r.Some? <==> lat.Some? && lon.Some?
    ensures r.Some? ==> lat == Some(r.value.0) && lon == Some(r.value.1)
  {
    if lat.Some? && lon.Some? then Some((lat.value, lon.value)) else None
  }

  /** The position an element's attributes give, when they hold both halves. */
  function ElementPair(n: Node): Option<(real, real)> {
    Both(FirstFloatAttrOf(n, LatitudeAttrs), FirstFloatAttrOf(n, LongitudeAttrs))
  }

  /** The first element carrying both a numeric latitude and a numeric longitude. */
  function ElementCoords(elements: seq<Node>): (r: Option<(real, real)>)
    ensures r.Some? ==> exists k :: 0 <= k < |elements| && ElementPair(elements[k]) == r
                                   && forall j :: 0 <= j < k ==> ElementPair(elements[j]).None?
    ensures r.None? ==> forall k :: 0 <= k < |elements| ==> ElementPair(elements[k]).None?
  {
    if elements == [] then None
    else if ElementPair(elements[0]).Some? then ElementPair(elements[0])
    else
      var r := ElementCoords(elements[1..]);
      FirstGivenShift(elements, ElementPair, r);
      r
  }

  /** First-match bookkeeping: skipping a first item that gives nothing shifts the index. */
  lemma FirstGivenShift<T, U>(items: seq<T>, give: T -> Option<U>, r: Option<U>)
    requires items != [] && give(items[0]).None?
    requires r.Some? ==> exists k :: 0 <= k < |items[1..]| && give(items[1..][k]) == r
                                    && forall j :: 0 <= j < k ==> give(items[1..][j]).None?
    requires r.None? ==> forall k :: 0 <= k < |items[1..]| ==> give(items[1..][k]).None?
    ensures r.Some? ==> exists k :: 0 <= k < |items| && give(items[k]) == r
                                   && forall j :: 0 <= j < k ==> give(items[j]).None?
    ensures r.None? ==> forall k :: 0 <= k < |items| ==> give(items[k]).None?
  {
    assert forall k :: 1 <= k < |items| ==> items[k] == items[1..][k - 1];
    if r.Some? {
      var k :| 0 <= k < |items[1..]| && give(items[1..][k]) == r
               && forall j :: 0 <= j < k ==> give(items[1..][j]).None?;
      assert give(items[k + 1]) == r;
    }
  }

  // ---------------------------------------------------------------- position metas

  predicate IsGeoSep(c: char) { c == ';' || c == ',' }

  function FirstSep(s: string): (k: nat)
    ensures k <= |s| && (k < |s| ==> IsGeoSep(s[k]))
    ensures forall i :: 0 <= i < k ==> !IsGeoSep(s[i])
  {
    if s == [] then 0 else if IsGeoSep(s[0]) then 0 else 1 + FirstSep(s[1..])
  }

  /** `re.split(r"[;,]", s)`. */
  function SplitGeo(s: string): (r: seq<string>)
    ensures |r| >= 1
    ensures |r| >= 2 <==> FirstSep(s) < |s|
    ensures r[0] == s[..FirstSep(s)]
    ensures |r| >= 2 ==> r[1] == s[FirstSep(s) + 1..][..FirstSep(s[FirstSep(s) + 1..])]
    decreases |s|
  {
    var k := FirstSep(s);
    if k == |s| then [s] else [s[..k]] + SplitGeo(s[k + 1..])
  }

  /** `_parse_geo_position`: "lat;lon" or "lat,lon"; anything else gives nothing. */
  function ParseGeoPosition(value: Option<string>): (r: Coords)
    ensures r.0.Some? || r.1.Some? ==> value.Some? && FirstSep(value.value) < |value.value|
  {
    if value.None? || value.value == "" then (None, None)
    else
      var parts := SplitGeo(value.value);
      if |parts| >= 2 then (SafeFloat(Some(parts[0]), None), SafeFloat(Some(parts[1]), None))
      else (None, None)
  }

  /** A single number, as a place:location:latitude meta carries, is not a position. */
  lemma SingleNumberIsNoPosition(v: string)
    requires forall i :: 0 <= i < |v| ==> !IsGeoSep(v[i])
    ensures ParseGeoPosition(Some(v)) == (None, None)
  {
  }

  lemma DigitsParse(s: string)
    requires IsDigitString(s)
    ensures SafeFloat(Some(s), None) == Some(DigitsValue(s) as real)
  {
    IndexOfDigits(s, '.');
    DigitsNumber(s);
    assert forall i :: 0 <= i < |s| ==> IsDigit(s[i]);
    ReplaceCharAbsent(s, ',', '.');
  }

  lemma SplitGeoPair(x: string, sep: char, y: string)
    requires IsGeoSep(sep)
    requires forall i :: 0 <= i < |x| ==> !IsGeoSep(x[i])
    requires forall i :: 0 <= i < |y| ==> !IsGeoSep(y[i])
    ensures SplitGeo(x + [sep] + y) == [x, y]
  {
    var s := x + [sep] + y;
    assert FirstSep(s) == |x| by {
      assert forall i :: 0 <= i < |x| ==> s[i] == x[i];
      assert s[|x|] == sep;
    }
    assert s[..|x|] == x;
    assert s[|x| + 1..] == y;
    assert FirstSep(y) == |y|;
  }

  lemma {:induction false} DigitsHaveNoSep(s: string)
    requires AllDigits(s)
    ensures forall i :: 0 <= i < |s| ==> !IsGeoSep(s[i])
  {
  }

  /** "a;b" with two whole numbers gives the pair (a, b). */
  lemma PositionOfTwoNumbers(a: nat, b: nat, sep: char)
    requires IsGeoSep(sep)
    ensures ParseGeoPosition(Some(NatToString(a) + [sep] + NatToString(b)))
         == (Some(a as real), Some(b as real))
  {
    var x, y := NatToString(a), NatToString(b);
    DigitsHaveNoSep(x);
    DigitsHaveNoSep(y);
    SplitGeoPair(x, sep, y);
    NatToStringValue(a);
    NatToStringValue(b);
    DigitsParse(x);
    DigitsParse(y);
  }

  /** `tag.get("content") or tag.get("value")` of the first tag `selector` matches. */
  function MetaContent(doc: Doc, selector: string): Option<string> {
    match SelectOne(doc, selector)
    case None => None
    case Some(tag) => AttrOr(tag, "content", "value")
  }

  /** The position the meta `selector` matches holds, when it holds both halves. */
  function MetaPair(doc: Doc, selector: string): Option<(real, real)> {
    if SelectOne(doc, selector).Some? then
      var c := ParseGeoPosition(MetaContent(doc, selector));
      Both(c.0, c.1)
    else None
  }

  /** The first of `selectors` whose meta holds a complete position. */
  function MetaCoords(doc: Doc, selectors: seq<string>): (r: Option<(real, real)>)
    ensures r.Some? ==> exists k :: 0 <= k < |selectors| && MetaPair(doc, selectors[k]) == r
                                   && forall j :: 0 <= j < k ==> MetaPair(doc, selectors[j]).None?
    ensures r.None? ==> forall k :: 0 <= k < |selectors| ==> MetaPair(doc, selectors[k]).None?
  {
    if selectors == [] then None
    else if MetaPair(doc, selectors[0]).Some? then MetaPair(doc, selectors[0])
    else
      var rest := MetaCoords(doc, selectors[1..]);
      FirstGivenShift(selectors, s => MetaPair(doc, s), rest);
      rest
  }

  predicate NoSeparator(v: Option<string>) {
    v.Some? ==> forall i :: 0 <= i < |v.value| ==> !IsGeoSep(v.value[i])
  }

  /** Metas whose contents hold no separator contribute no position. */
  lemma {:induction false} MetaCoordsWithoutSeparator(doc: Doc, selectors: seq<string>)
    requires forall k :: 0 <= k < |selectors| ==> NoSeparator(MetaContent(doc, selectors[k]))
    ensures MetaCoords(doc, selectors) == None
  {
    if selectors != [] {
      var v := MetaContent(doc, selectors[0]);
      assert NoSeparator(v);
      if v.Some? { SingleNumberIsNoPosition(v.value); }
      assert forall k :: 0 <= k < |selectors[1..]| ==> selectors[1..][k] == selectors[k + 1];
      MetaCoordsWithoutSeparator(doc, selectors[1..]);
    }
  }

  // ---------------------------------------------------------------- script text

  predicate IsCoordChar(c: char) { IsDigit(c) || c == '.' || c == '-' }

  function TakeWhileCoord(s: string): (r: string)
    ensures StartsWith(s, r) && forall i :: 0 <= i < |r| ==> IsCoordChar(r[i])
  {
    if s != [] && IsCoordChar(s[0]) then [s[0]] + TakeWhileCoord(s[1..]) else []
  }

  /** `key\s*[:=]\s*([0-9.\-]+)` matched at the start of `u`: the whole match and group 1. */
  function MatchAt(u: string, key: string): (r: Option<(string, string)>)
    ensures r.Some? ==> StartsWith(r.value.0, key) && r.value.1 != []
  {
    if !StartsWith(u, key) then None
    else
      var a := TrimLeft(u[|key|..], IsSpace);
      if a == [] || !(a[0] == ':' || a[0] == '=') then None
      else
        var b := TrimLeft(a[1..], IsSpace);
        var g := TakeWhileCoord(b);
        if g == [] then None
        else
          var n := |u| - |b| + |g|;
          assert |key| <= n <= |u|;
          StartsWithTake(u, n, key);
          Some((u[..n], g))
  }

  /** `re.search`: the leftmost match. */
  function Search(t: string, key: string): (r: Option<(string, string)>)
    ensures r.Some? ==> StartsWith(r.value.0, key) && r.value.1 != []
  {
    if t == [] then MatchAt(t, key)
    else match MatchAt(t, key)
      case Some(m) => Some(m)
      case None => Search(t[1..], key)
  }

  /** `_extract_float(script, default=None, pattern=...)` AS WRITTEN: it hands the whole
      match ("latitude:50.45") to `float()`, not the captured number. */
  function ScriptValueAsWritten(script: string, key: string): Option<real> {
    if script == "" then None
    else match Search(RemoveChar(script, ' '), key)
      case None => None
      case Some(m) => SafeFloat(Some(m.0), None)
  }

  /** The same step reading group 1, the number after the colon or equals sign. */
  function ScriptValue(script: string, key: string): Option<real> {
    if script == "" then None
    else match Search(RemoveChar(script, ' '), key)
      case None => None
      case Some(m) => SafeFloat(Some(m.1), None)
  }

  lemma LetterIsNoLiteral(u: string)
    requires u != [] && 'a' <= u[0] <= 'z'
    ensures DecimalLiteral(u) == None
  {
    var k := IndexOf(u, '.');
    assert k > 0;
    assert !AllDigits(u[..k]) by { assert u[..k][0] == u[0]; }
  }

  /** A text starting with a letter is not a number. */
  lemma LetterIsNoNumber(s: string)
    requires s != [] && 'a' <= s[0] <= 'z'
    ensures ParseNumber(ReplaceChar(s, ',', '.')) == None
  {
    var t := ReplaceChar(s, ',', '.');
    assert t[0] == s[0];
    assert !IsSpace(t[0]);
    StripFirst(t);
    LetterIsNoLiteral(Strip(t));
  }

  /** The script step as written never yields a coordinate, for any script text. */
  lemma ScriptValueAsWrittenNeverReads(script: string)
    ensures ScriptValueAsWritten(script, "latitude") == None
    ensures ScriptValueAsWritten(script, "longitude") == None
  {
    var t := RemoveChar(script, ' ');
    if script != "" {
      var lat := Search(t, "latitude");
      if lat.Some? {
        assert lat.value.0[0] == lat.value.0[..8][0] == 'l';
        LetterIsNoNumber(lat.value.0);
      }
      var lon := Search(t, "longitude");
      if lon.Some? {
        assert lon.value.0[0] == lon.value.0[..9][0] == 'l';
        LetterIsNoNumber(lon.value.0);
      }
    }
  }

  /** A key, a colon and digits form a match of its own, read whole. */
  lemma MatchKeyDigits(key: string, digits: string)
    requires IsDigitString(digits)
    ensures Search(key + ":" + digits, key) == Some((key + ":" + digits, digits))
  {
    var t := key + ":" + digits;
    assert StartsWith(t, key) by { assert t[..|key|] == key; }
    assert t[|key|..] == ":" + digits;
    assert TrimLeft(":" + digits, IsSpace) == ":" + digits;
    assert (":" + digits)[1..] == digits;
    TrimLeftDigits(digits);
    TakeWhileDigits(digits);
    assert t[..|t| - |digits| + |digits|] == t;
  }

  /** Read at group 1, "latitude: 50" gives 50: the value the step evidently meant to read. */
  lemma ScriptValueReadsNumber(n: nat)
    ensures ScriptValue("latitude: " + NatToString(n), "latitude") == Some(n as real)
  {
    var digits := NatToString(n);
    var key, head := "latitude", "latitude: ";
    KeyHeadCompact(key, head);
    RemoveCharAppend(head, digits, ' ');
    RemoveSpaceDigits(digits);
    assert RemoveChar(head + digits, ' ') == key + ":" + digits;
    MatchKeyDigits(key, digits);
    NatToStringValue(n);
    DigitsParse(digits);
  }

  /** The text before the number loses only its space. */
  lemma KeyHeadCompact(key: string, head: string)
    requires key == "latitude" && head == "latitude: "
    ensures RemoveChar(head, ' ') == key + ":"
  {
    assert head == (key + ":") + " ";
    RemoveCharAbsent(key + ":", ' ');
    RemoveCharAppend(key + ":", " ", ' ');
    assert RemoveChar(" ", ' ') == [];
  }

  lemma TrimLeftDigits(s: string)
    requires IsDigitString(s)
    ensures TrimLeft(s, IsSpace) == s
  {
    DigitNotSpace(s[0]);
    TrimLeftNoop(s, IsSpace);
  }

  lemma {:induction false} TakeWhileDigits(s: string)
    requires AllDigits(s)
    ensures TakeWhileCoord(s) == s
  {
    if s != [] { TakeWhileDigits(s[1..]); }
  }

  /** The first text node mentioning "latitude" in any case. */
  predicate MentionsLatitude(s: string) { Contains(Lower(s), "latitude") }

  /** The script step of `_extract_coordinates` as written: both halves go through
      `_extract_float`, which reads the whole match. */
  function ScriptCoords(doc: Doc): (r: Option<(real, real)>)
    ensures r == None
  {
    match FieldExtractor.FirstString(doc.strings, MentionsLatitude)
    case None => None
    case Some(script) =>
      ScriptValueAsWrittenNeverReads(script);
      Both(ScriptValueAsWritten(script, "latitude"), ScriptValueAsWritten(script, "longitude"))
  }

  /** The script step as evidently intended, reading the captured numbers. */
  function ScriptCoordsIntended(doc: Doc): Option<(real, real)> {
    match FieldExtractor.FirstString(doc.strings, MentionsLatitude)
    case None => None
    case Some(script) =>
      Both(ScriptValue(script, "latitude"), ScriptValue(script, "longitude"))
  }

  // ---------------------------------------------------------------- the cascade

  function Pair(c: Option<(real, real)>): Coords {
    match c
    case None => (None, None)
    case Some(p) => (Some(p.0), Some(p.1))
  }

  /** The pair `_extract_coordinates` returns. Since the script step never reads a number,
      a pair only ever comes from element attributes or a position meta. */
  function CoordinatesOf(doc: Doc): (r: Coords)
    ensures r.0.Some? <==> r.1.Some?
    ensures r.0.Some? ==> ElementCoords(doc.elements).Some? || MetaCoords(doc, LatitudeMeta).Some?
                          || MetaCoords(doc, LongitudeMeta).Some?
  {
    var fromElements := ElementCoords(doc.elements);
    if fromElements.Some? then Pair(fromElements)
    else
      var fromLat := MetaCoords(doc, LatitudeMeta);
      if fromLat.Some? then Pair(fromLat)
      else
        var fromLon := MetaCoords(doc, LongitudeMeta);
        if fromLon.Some? then Pair(fromLon)
        else
          Pair(ScriptCoords(doc))
  }

  /** The cascade with the script step reading the captured numbers. */
  function CoordinatesOfIntended(doc: Doc): (r: Coords)
    ensures r.0.Some? <==> r.1.Some?
    ensures CoordinatesOf(doc).0.Some? ==> r == CoordinatesOf(doc)
    ensures CoordinatesOf(doc).0.None? ==> r == Pair(ScriptCoordsIntended(doc))
  {
    var fromElements := ElementCoords(doc.elements);
    if fromElements.Some? then Pair(fromElements)
    else
      var fromLat := MetaCoords(doc, LatitudeMeta);
      if fromLat.Some? then Pair(fromLat)
      else
        var fromLon := MetaCoords(doc, LongitudeMeta);
        if fromLon.Some? then Pair(fromLon)
        else
          Pair(ScriptCoordsIntended(doc))
  }

  /** The loop over the position metas of one list. */
  method ScanMeta(doc: Doc, selectors: seq<string>) returns (found: Option<(real, real)>)
    ensures found == MetaCoords(doc, selectors)
  {
    var i := 0;
    while i < |selectors|
      invariant 0 <= i <= |selectors|
      invariant MetaCoords(doc, selectors[i..]) == MetaCoords(doc, selectors)
    {
      var tag := SelectOne(doc, selectors[i]);
      if tag.Some? {
        var content := AttrOr(tag.value, "content", "value");
        var pos := ParseGeoPosition(content);
        assert content == MetaContent(doc, selectors[i]);
        if pos.0.Some? && pos.1.Some? {
          return Some((pos.0.value, pos.1.value));
        }
      }
      assert selectors[i..][1..] == selectors[i + 1..];
      i := i + 1;
    }
    return None;
  }

  /** `_extract_coordinates`. */
  method ExtractCoordinates(doc: Doc) returns (lat: Option<real>, lon: Option<real>)
    ensures (lat, lon) == CoordinatesOf(doc)
  {
    var i := 0;
    while i < |doc.elements|
      invariant 0 <= i <= |doc.elements|
      invariant ElementCoords(doc.elements[i..]) == ElementCoords(doc.elements)
    {
      lat := FirstFloatAttr(doc.elements[i], LatitudeAttrs);
      lon := FirstFloatAttr(doc.elements[i], LongitudeAttrs);
      if lat.Some? && lon.Some? {
        return;
      }
      assert doc.elements[i..][1..] == doc.elements[i + 1..];
      i := i + 1;
    }
    var fromLat := ScanMeta(doc, LatitudeMeta);
    if fromLat.Some? {
      return Some(fromLat.value.0), Some(fromLat.value.1);
    }
    var fromLon := ScanMeta(doc, LongitudeMeta);
    if fromLon.Some? {
      return Some(fromLon.value.0), Some(fromLon.value.1);
    }
    var script := FieldExtractor.FirstString(doc.strings, MentionsLatitude);
    if script.Some? {
      lat := ScriptValueAsWritten(script.value, "latitude");
      lon := ScriptValueAsWritten(script.value, "longitude");
      if lat.Some? && lon.Some? {
        return;
      }
    }
    return None, None;
  }

  /** Separate place:location metas holding one number each give no coordinates: with no
      data attributes and no "lat;lon" position the pair stays empty, whatever script text
      the page holds. */
  lemma SeparateMetasGiveNothing(doc: Doc)
    requires ElementCoords(doc.elements).None?
    requires NoSeparator(MetaContent(doc, LatitudeMeta[0]))
    requires NoSeparator(MetaContent(doc, LatitudeMeta[1]))
    requires NoSeparator(MetaContent(doc, LongitudeMeta[1]))
    ensures CoordinatesOf(doc) == (None, None)
  {
    MetaCoordsWithoutSeparator(doc, LatitudeMeta);
    MetaCoordsWithoutSeparator(doc, LongitudeMeta);
  }
}
