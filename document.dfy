/**
 * The parsed HTML document the listing parser reads (a BeautifulSoup tree,
 * house/utils/html_parser.py line 192), reduced to the queries the parser makes of it,
 * and the whitespace normalisation every extracted text goes through (lines 562-563).
 */
module Document {
  import opened Wrappers
  import opened Text

  /** One element, with what the parser asks of it. */
  datatype Node = Node(
    name: string,                      // tag name
    attrs: map<string, string>,        // attribute values
    pieces: seq<string>,               // the text nodes below it, in document order
    markup: string,                    // `str(node)`
    spanText: Option<string>,          // `get_text()` of the nearest enclosing <span>
    nextTdText: Option<string>,        // `get_text()` of the next sibling <td>
    ownString: Option<string>          // `.string`: its text when it has exactly one
  )

  /** The tree: the CSS selections the parser makes (matches in document order),
      every element (`find_all(True)`) and every text node, both in document order. */
  datatype Doc = Doc(
    select: map<string, seq<Node>>,
    elements: seq<Node>,
    strings: seq<string>
  )

  /** `soup.select(selector)`. */
  function SelectAll(doc: Doc, selector: string): seq<Node> {
    if selector in doc.select then doc.select[selector] else []
  }

  /** `soup.select_one(selector)`: the first match. */
  function SelectOne(doc: Doc, selector: string): (r: Option<Node>)
    ensures r.Some? <==> SelectAll(doc, selector) != []
    ensures r.Some? ==> r.value == SelectAll(doc, selector)[0]
  {
    var all := SelectAll(doc, selector);
    if all == [] then None else Some(all[0])
  }

  /** `node.get(attr)`. */
  function Attr(n: Node, attr: string): Option<string> {
    if attr in n.attrs then Some(n.attrs[attr]) else None
  }

  /** `node.get(a) or node.get(b)`: the first of the two attributes that is non-empty. */
  function AttrOr(n: Node, a: string, b: string): (r: Option<string>)
    ensures r.Some? ==> r.value != ""
  {
    if a in n.attrs && n.attrs[a] != "" then Some(n.attrs[a])
    else if b in n.attrs && n.attrs[b] != "" then Some(n.attrs[b])
    else None
  }

  function Concat(pieces: seq<string>): string {
    if pieces == [] then "" else pieces[0] + Concat(pieces[1..])
  }

  /** `node.get_text()`. */
  function GetText(n: Node): string {
    Concat(n.pieces)
  }

  /** `node.get_text(" ", strip=True)`: the stripped, non-empty text nodes joined by a space. */
  function GetTextStripped(n: Node): string {
    Join(" ", StrippedPieces(n.pieces))
  }

  // ---------------------------------------------------------------- normalisation

  /** `re.sub(r"\s+", " ", text)`: every run of whitespace becomes one space. */
  function CollapseSpaces(s: string): (r: string)
    ensures r != [] && s != [] ==> (IsSpace(r[0]) <==> IsSpace(s[0]))
    ensures r == [] <==> s == []
    decreases |s|
  {
    if s == [] then []
    else if IsSpace(s[0]) then " " + CollapseSpaces(TrimLeft(s[1..], IsSpace))
    else [s[0]] + CollapseSpaces(s[1..])
  }

  /** The only whitespace is the plain space, never two in a row. */
  predicate SingleSpaced(s: string) {
    (forall i :: 0 <= i < |s| && IsSpace(s[i]) ==> s[i] == ' ')
    && (forall i :: 0 <= i < |s| - 1 ==> !(IsSpace(s[i]) && IsSpace(s[i + 1])))
  }

  /** What `_normalize_text` promises: single-spaced and stripped. */
  predicate Normalized(s: string) {
    SingleSpaced(s) && (s != [] ==> !IsSpace(s[0]) && !IsSpace(s[|s| - 1]))
  }

  lemma ConsSingleSpaced(c: char, r: string)
    requires SingleSpaced(r)
    requires IsSpace(c) ==> c == ' ' && (r != [] ==> !IsSpace(r[0]))
    ensures SingleSpaced([c] + r)
  {
    var s := [c] + r;
    forall i | 0 <= i < |s| - 1 ensures !(IsSpace(s[i]) && IsSpace(s[i + 1])) {
      if i > 0 { assert s[i] == r[i - 1] && s[i + 1] == r[i]; }
    }
  }

  lemma {:induction false} CollapseSingleSpaced(s: string)
    ensures SingleSpaced(CollapseSpaces(s))
    decreases |s|
  {
    if s == [] {
    } else if IsSpace(s[0]) {
      var t := TrimLeft(s[1..], IsSpace);
      CollapseSingleSpaced(t);
      ConsSingleSpaced(' ', CollapseSpaces(t));
    } else {
      CollapseSingleSpaced(s[1..]);
      ConsSingleSpaced(s[0], CollapseSpaces(s[1..]));
    }
  }

  lemma {:induction false} CollapseIdentity(s: string)
    requires SingleSpaced(s)
    ensures CollapseSpaces(s) == s
    decreases |s|
  {
    if s != [] {
      assert SingleSpaced(s[1..]);
      if IsSpace(s[0]) {
        assert s[0] == ' ';
        assert s[1..] != [] ==> !IsSpace(s[1..][0]);
        assert TrimLeft(s[1..], IsSpace) == s[1..];
      }
      CollapseIdentity(s[1..]);
    }
  }

  lemma {:induction false} TrimLeftSingleSpaced(s: string)
    requires SingleSpaced(s)
    ensures SingleSpaced(TrimLeft(s, IsSpace))
  {
    var r := TrimLeft(s, IsSpace);
    assert r == s[|s| - |r|..|s|];
    SliceSingleSpaced(s, |s| - |r|, |s|);
  }

  lemma {:induction false} TrimRightSingleSpaced(s: string)
    requires SingleSpaced(s)
    ensures SingleSpaced(TrimRight(s, IsSpace))
  {
    var r := TrimRight(s, IsSpace);
    assert r == s[0..|r|];
    SliceSingleSpaced(s, 0, |r|);
  }

  lemma SliceSingleSpaced(s: string, lo: nat, hi: nat)
    requires SingleSpaced(s) && lo <= hi <= |s|
    ensures SingleSpaced(s[lo..hi])
  {
    var t := s[lo..hi];
    forall i | 0 <= i < |t| && IsSpace(t[i]) ensures t[i] == ' ' {
      assert t[i] == s[lo + i];
    }
    forall i | 0 <= i < |t| - 1 ensures !(IsSpace(t[i]) && IsSpace(t[i + 1])) {
      assert t[i] == s[lo + i] && t[i + 1] == s[lo + i + 1];
    }
  }

  /** `_normalize_text`. */
  function NormalizeText(text: string): (r: string)
    ensures Normalized(r)
  {
    var c := CollapseSpaces(text);
    CollapseSingleSpaced(text);
    TrimLeftSingleSpaced(c);
    TrimRightSingleSpaced(TrimLeft(c, IsSpace));
    Strip(c)
  }

  /** A normalised text is its own normal form, so normalising twice changes nothing. */
  lemma NormalizeFixesNormalized(s: string)
    requires Normalized(s)
    ensures NormalizeText(s) == s
  {
    CollapseIdentity(s);
    StripNoop(s);
  }

  lemma NormalizeIdempotent(text: string)
    ensures NormalizeText(NormalizeText(text)) == NormalizeText(text)
  {
    NormalizeFixesNormalized(NormalizeText(text));
  }
}
