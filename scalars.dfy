/**
 * Reading numbers out of free text and attribute values
 * (house/utils/html_parser.py, lines 531-559): the first integer of a text, the first
 * decimal of a text, and the forgiving `float()` that answers a default instead of failing.
 * Digits are the ASCII digits.
 */
module Scalars {
  import opened Wrappers
  import opened Text

  /** `_safe_float(value, default)` of a string value: empty or missing gives the default,
      a comma counts as a decimal point, and text `float()` rejects gives the default. */
  function SafeFloat(value: Option<string>, default: Option<real>): (r: Option<real>)
    ensures value.None? || value == Some("") ==> r == default
    ensures value.Some? && value.value != "" ==>
      r == (match ParseNumber(ReplaceChar(value.value, ',', '.'))
            case Some(x) => Some(x)
            case None => default)
  {
    match value
    case None => default
    case Some(v) =>
      if v == "" then default
      else match ParseNumber(ReplaceChar(v, ',', '.'))
        case Some(x) => Some(x)
        case None => default
  }

  /** The longest prefix made of digits. */
  function DigitPrefix(s: string): (r: string)
    ensures AllDigits(r) && StartsWith(s, r)
    ensures |r| < |s| ==> !IsDigit(s[|r|])
  {
    if s != [] && IsDigit(s[0]) then [s[0]] + DigitPrefix(s[1..]) else []
  }

  predicate HasDigit(s: string) {
    exists i :: 0 <= i < |s| && IsDigit(s[i])
  }

  /** The suffix of `s` starting at its first digit, if any (where `re.search` starts). */
  function FromFirstDigit(s: string): (r: Option<string>)
    ensures r.Some? <==> HasDigit(s)
    ensures r.Some? ==> r.value != [] && IsDigit(r.value[0]) && |r.value| <= |s|
                        && r.value == s[|s| - |r.value|..]
                        && forall i :: 0 <= i < |s| - |r.value| ==> !IsDigit(s[i])
  {
    if s == [] then None
    else if IsDigit(s[0]) then Some(s)
    else
      var r := FromFirstDigit(s[1..]);
      assert HasDigit(s) ==> HasDigit(s[1..]) by {
        if HasDigit(s) {
          var i :| 0 <= i < |s| && IsDigit(s[i]);
          assert s[1..][i - 1] == s[i];
        }
      }
      assert r.Some? ==> HasDigit(s) by {
        if r.Some? { assert s[|s| - |r.value|] == r.value[0]; }
      }
      r
  }

  /** `re.search(r"\d+", s).group()`: the leftmost maximal run of digits. */
  function FirstDigitRun(s: string): (r: Option<string>)
    ensures r.Some? <==> HasDigit(s)
    ensures r.Some? ==> r.value != [] && AllDigits(r.value)
  {
    match FromFirstDigit(s)
    case None => None
    case Some(t) => Some(DigitPrefix(t))
  }

  lemma HasDigitAppend(x: string, y: string)
    ensures HasDigit(x + y) <==> HasDigit(x) || HasDigit(y)
  {
    if HasDigit(x + y) {
      var i :| 0 <= i < |x + y| && IsDigit((x + y)[i]);
      if i >= |x| { assert y[i - |x|] == (x + y)[i]; } else { assert x[i] == (x + y)[i]; }
    }
    if HasDigit(x) {
      var i :| 0 <= i < |x| && IsDigit(x[i]);
      assert (x + y)[i] == x[i];
    }
    if HasDigit(y) {
      var i :| 0 <= i < |y| && IsDigit(y[i]);
      assert (x + y)[|x| + i] == y[i];
    }
  }

  lemma {:induction false} RemoveCharKeepsDigits(s: string)
    ensures HasDigit(RemoveChar(s, ' ')) <==> HasDigit(s)
  {
    if s != [] {
      RemoveCharKeepsDigits(s[1..]);
      var head := if s[0] == ' ' then [] else [s[0]];
      assert RemoveChar(s, ' ') == head + RemoveChar(s[1..], ' ');
      assert s == [s[0]] + s[1..];
      HasDigitAppend(head, RemoveChar(s[1..], ' '));
      HasDigitAppend([s[0]], s[1..]);
      assert HasDigit(head) <==> HasDigit([s[0]]);
    }
  }

  /** `_extract_int`: the first run of digits once the spaces are taken out, so
      "1 200" reads as 1200. */
  function ExtractInt(text: string): (r: Option<nat>)
    ensures r.Some? <==> HasDigit(text)
  {
    RemoveCharKeepsDigits(text);
    if text == "" then None
    else match FirstDigitRun(RemoveChar(text, ' '))
      case None => None
      case Some(d) => Some(DigitsValue(d))
  }

  /** A space inside a number does not split it. */
  lemma ExtractIntIgnoresSpace(a: string, b: string)
    requires a != "" && b != ""
    ensures ExtractInt(a + " " + b) == ExtractInt(a + b)
  {
    SpaceRemoved(a, b);
    ExtractIntOfRemoved(a + " " + b, a + b);
  }

  lemma SpaceRemoved(a: string, b: string)
    ensures RemoveChar(a + " " + b, ' ') == RemoveChar(a + b, ' ')
  {
    assert a + " " + b == a + (" " + b);
    RemoveCharAppend(a, " " + b, ' ');
    assert (" " + b)[0] == ' ' && (" " + b)[1..] == b;
    RemoveCharAppend(a, b, ' ');
  }

  /** `_extract_int` sees only the text without its spaces. */
  lemma ExtractIntOfRemoved(s: string, t: string)
    requires s != "" && t != "" && RemoveChar(s, ' ') == RemoveChar(t, ' ')
    ensures ExtractInt(s) == ExtractInt(t)
  {
  }

  lemma {:induction false} DigitPrefixAll(s: string)
    requires AllDigits(s)
    ensures DigitPrefix(s) == s
  {
    if s != [] { DigitPrefixAll(s[1..]); }
  }

  lemma {:induction false} RemoveSpaceDigits(s: string)
    requires AllDigits(s)
    ensures RemoveChar(s, ' ') == s
  {
    if s != [] { RemoveSpaceDigits(s[1..]); }
  }

  /** Reading back a printed natural number gives the number. */
  lemma ExtractIntNatToString(n: nat)
    ensures ExtractInt(NatToString(n)) == Some(n)
  {
    var s := NatToString(n);
    RemoveSpaceDigits(s);
    DigitPrefixAll(s);
    NatToStringValue(n);
  }

  // ---------------------------------------------------------------- decimals

  /** The numeral `re.search(r"([0-9]+(?:[.,][0-9]+)?)", t)` finds where `t` starts
      with a digit run: the run, followed by a separator and a second run when present. */
  function NumeralAt(t: string): (r: string)
    requires t != [] && IsDigit(t[0])
    ensures StartsWith(t, r)
    ensures r != [] && IsDigit(r[0]) && IsDigit(r[|r| - 1])
  {
    var whole := DigitPrefix(t);
    var rest := t[|whole|..];
    if |rest| >= 2 && (rest[0] == '.' || rest[0] == ',') && IsDigit(rest[1]) then
      var frac := DigitPrefix(rest[1..]);
      assert t[..|whole| + 1 + |frac|] == whole + [rest[0]] + frac;
      whole + [rest[0]] + frac
    else whole
  }

  lemma {:induction false} IndexOfDigits(s: string, c: char)
    requires AllDigits(s) && !IsDigit(c)
    ensures IndexOf(s, c) == |s|
  {
    if s != [] { IndexOfDigits(s[1..], c); }
  }

  /** A numeral parses: digits, optionally a point and more digits. */
  lemma NumeralParses(g: string)
    requires g != [] && IsDigit(g[0]) && IsDigit(g[|g| - 1])
    requires AllDigits(g) || exists k :: 0 < k < |g| - 1 && g[k] == '.' && AllDigits(g[..k]) && AllDigits(g[k + 1..])
    ensures ParseNumber(g).Some? && ParseNumber(g).value >= 0.0
  {
    DigitNotSpace(g[0]);
    DigitNotSpace(g[|g| - 1]);
    StripNoop(g);
    assert ParseNumber(g) == UnsignedDecimal(g);
    if AllDigits(g) {
      IndexOfDigits(g, '.');
    } else {
      var k :| 0 < k < |g| - 1 && g[k] == '.' && AllDigits(g[..k]) && AllDigits(g[k + 1..]);
      PointAt(g, k);
    }
  }

  lemma PointAt(g: string, k: nat)
    requires 0 < k < |g| && g[k] == '.' && AllDigits(g[..k])
    ensures IndexOf(g, '.') == k
  {
    IndexOfDigits(g[..k], '.');
    assert forall i :: 0 <= i < k ==> g[i] == g[..k][i];
  }

  lemma NumeralAtParses(t: string)
    requires t != [] && IsDigit(t[0])
    ensures ParseNumber(ReplaceChar(NumeralAt(t), ',', '.')).Some?
    ensures ParseNumber(ReplaceChar(NumeralAt(t), ',', '.')).value >= 0.0
  {
    var g := NumeralAt(t);
    var h := ReplaceChar(g, ',', '.');
    var whole := DigitPrefix(t);
    var rest := t[|whole|..];
    if |rest| >= 2 && (rest[0] == '.' || rest[0] == ',') && IsDigit(rest[1]) {
      var k := |whole|;
      assert h[..k] == whole && h[k] == '.';
      assert AllDigits(h[k + 1..]) by {
        assert forall i :: k + 1 <= i < |g| ==> IsDigit(g[i]);
      }
    } else {
      assert h == g;
    }
    NumeralParses(h);
  }

  /** `_safe_float(match.group())` of the numeral at the start of `t`: a numeral always
      parses, so the default is never used. */
  function ReadNumeral(t: string): (r: real)
    requires t != [] && IsDigit(t[0])
    ensures r >= 0.0
    ensures SafeFloat(Some(NumeralAt(t)), None) == Some(r)
  {
    NumeralAtParses(t);
    ParseNumber(ReplaceChar(NumeralAt(t), ',', '.')).value
  }

  /** `_extract_float(text)` with its default pattern and no default value. */
  function ExtractFloat(text: string): (r: Option<real>)
    ensures r.Some? <==> HasDigit(text)
    ensures r.Some? ==> r.value >= 0.0
  {
    RemoveCharKeepsDigits(text);
    if text == "" then None
    else match FromFirstDigit(RemoveChar(text, ' '))
      case None => None
      case Some(t) => Some(ReadNumeral(t))
  }
}
