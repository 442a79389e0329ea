/** Option type shared by every module of the model. */
module Wrappers {
  datatype Option<+T> = None | Some(value: T) {
    function GetOr(default: T): T {
      match this
      case Some(v) => v
      case None => default
    }

    /** `a or b` on two optional objects that are truthy whenever present. */
    function OrElse(other: Option<T>): Option<T> {
      if this.Some? then this else other
    }
  }
}

/**
 * The string operations of Python (and of the one JavaScript helper file) that the
 * rest of the model is built on: lower-casing, stripping, searching, splitting, joining
 * and the numeric literals accepted by `int()`, `float()` and `Decimal()`.
 */
module Text {
  import opened Wrappers

  // ---------------------------------------------------------------- characters

  /** Characters `str.strip()` and the regex class `\s` treat as whitespace. */
  predicate IsSpace(c: char) {
    c == ' ' || c == '\t' || c == '\n' || c == '\r' || c == '\U{0B}' || c == '\U{0C}'
    || ('\U{1C}' <= c <= '\U{1F}') || c == '\U{85}' || c == '\U{A0}' || c == '\U{1680}'
    || ('\U{2000}' <= c <= '\U{200A}') || c == '\U{2028}' || c == '\U{2029}'
    || c == '\U{202F}' || c == '\U{205F}' || c == '\U{3000}'
  }

  predicate IsDigit(c: char) { '0' <= c <= '9' }

  lemma DigitNotSpace(c: char)
    requires IsDigit(c)
    ensures !IsSpace(c)
  {
  }

  function DigitValue(c: char): (d: nat)
    requires IsDigit(c)
    ensures d < 10
  {
    c as int - '0' as int
  }

  /** `str.lower()` for the Latin and Cyrillic letters the listings are written in. */
  function LowerChar(c: char): char {
    if 'A' <= c <= 'Z' then (c as int + 32) as char
    else if '\U{0410}' <= c <= '\U{042F}' then (c as int + 32) as char
    else if '\U{0400}' <= c <= '\U{040F}' then (c as int + 80) as char
    else if c == '\U{0490}' then '\U{0491}'
    else c
  }

  function Lower(s: string): (r: string)
    ensures |r| == |s|
    ensures forall i :: 0 <= i < |s| ==> r[i] == LowerChar(s[i])
  {
    if s == [] then [] else [LowerChar(s[0])] + Lower(s[1..])
  }

  /** `str.upper()` for the same letters, and the two non-ASCII letters whose capital is
      ASCII (dotless i and long s). */
  function UpperChar(c: char): char {
    if 'a' <= c <= 'z' then (c as int - 32) as char
    else if '\U{0430}' <= c <= '\U{044F}' then (c as int - 32) as char
    else if '\U{0450}' <= c <= '\U{045F}' then (c as int - 80) as char
    else if c == '\U{0491}' then '\U{0490}'
    else if c == '\U{0131}' then 'I'
    else if c == '\U{017F}' then 'S'
    else c
  }

  function Upper(s: string): (r: string)
    ensures |r| == |s|
    ensures forall i :: 0 <= i < |s| ==> r[i] == UpperChar(s[i])
  {
    if s == [] then [] else [UpperChar(s[0])] + Upper(s[1..])
  }

  lemma {:induction false} LowerAppend(a: string, b: string)
    ensures Lower(a + b) == Lower(a) + Lower(b)
  {
    if a != [] {
      assert (a + b)[1..] == a[1..] + b;
      LowerAppend(a[1..], b);
    } else {
      assert a + b == b;
    }
  }

  /** Lower-casing twice is lower-casing once. */
  lemma LowerIdempotent(s: string)
    ensures Lower(Lower(s)) == Lower(s)
  {
  }

  // ---------------------------------------------------------------- searching

  predicate StartsWith(s: string, prefix: string) {
    |prefix| <= |s| && s[..|prefix|] == prefix
  }

  /** A prefix of `s` at least as long as `prefix` still starts with it. */
  lemma StartsWithTake(s: string, n: nat, prefix: string)
    requires StartsWith(s, prefix) && |prefix| <= n <= |s|
    ensures StartsWith(s[..n], prefix)
  {
    assert s[..n][..|prefix|] == s[..|prefix|];
  }

  /** `sub in s`. */
  predicate Contains(s: string, sub: string)
    decreases |s|
  {
    StartsWith(s, sub) || (|s| > 0 && Contains(s[1..], sub))
  }

  lemma {:induction false} ContainsAt(s: string, sub: string, i: nat)
    requires i + |sub| <= |s| && s[i..i + |sub|] == sub
    ensures Contains(s, sub)
    decreases i
  {
    if i > 0 {
      assert s[1..][i - 1..i - 1 + |sub|] == s[i..i + |sub|];
      ContainsAt(s[1..], sub, i - 1);
    }
  }

  lemma {:induction false} ContainsWitness(s: string, sub: string) returns (i: nat)
    requires Contains(s, sub)
    ensures i + |sub| <= |s| && s[i..i + |sub|] == sub
    decreases |s|
  {
    if StartsWith(s, sub) {
      i := 0;
    } else {
      var j := ContainsWitness(s[1..], sub);
      assert s[1..][j..j + |sub|] == s[j + 1..j + 1 + |sub|];
      i := j + 1;
    }
  }

  lemma {:induction false} ContainsPrefixOf(a: string, b: string, sub: string)
    requires Contains(a, sub)
    ensures Contains(a + b, sub)
  {
    var i := ContainsWitness(a, sub);
    assert (a + b)[i..i + |sub|] == a[i..i + |sub|];
    ContainsAt(a + b, sub, i);
  }

  lemma {:induction false} ContainsSuffixOf(a: string, b: string, sub: string)
    requires Contains(b, sub)
    ensures Contains(a + b, sub)
  {
    var i := ContainsWitness(b, sub);
    assert (a + b)[|a| + i..|a| + i + |sub|] == b[i..i + |sub|];
    ContainsAt(a + b, sub, |a| + i);
  }

  // ---------------------------------------------------------------- trimming

  function TrimLeft(s: string, drop: char -> bool): (r: string)
    ensures |r| <= |s| && r == s[|s| - |r|..]
    ensures r != [] ==> !drop(r[0])
    ensures forall i :: 0 <= i < |s| - |r| ==> drop(s[i])
  {
    if s != [] && drop(s[0]) then TrimLeft(s[1..], drop) else s
  }

  function TrimRight(s: string, drop: char -> bool): (r: string)
    ensures |r| <= |s| && r == s[..|r|]
    ensures r != [] ==> !drop(r[|r| - 1])
    ensures forall i :: |r| <= i < |s| ==> drop(s[i])
  {
    if s != [] && drop(s[|s| - 1]) then TrimRight(s[..|s| - 1], drop) else s
  }

  /** `str.strip()`. */
  function Strip(s: string): (r: string)
    ensures r != [] ==> !IsSpace(r[0]) && !IsSpace(r[|r| - 1])
    ensures |r| <= |s|
  {
    TrimRight(TrimLeft(s, IsSpace), IsSpace)
  }

  /** `str.strip(chars)`. */
  function StripChars(s: string, chars: set<char>): string {
    TrimRight(TrimLeft(s, InSet(chars)), InSet(chars))
  }

  /** Membership in a strip set, as the predicate the trims take. */
  function InSet(chars: set<char>): char -> bool {
    c => c in chars
  }

  lemma TrimLeftNoop(s: string, drop: char -> bool)
    requires s != [] ==> !drop(s[0])
    ensures TrimLeft(s, drop) == s
  {
  }

  lemma TrimRightNoop(s: string, drop: char -> bool)
    requires s != [] ==> !drop(s[|s| - 1])
    ensures TrimRight(s, drop) == s
  {
  }

  /** Stripping a string whose end characters are not in the strip set leaves it alone. */
  lemma StripCharsNoop(s: string, chars: set<char>)
    requires s != [] ==> s[0] !in chars && s[|s| - 1] !in chars
    ensures StripChars(s, chars) == s
  {
    var d := InSet(chars);
    assert s != [] ==> !d(s[0]) && !d(s[|s| - 1]);
    TrimLeftNoop(s, d);
    TrimRightNoop(s, d);
  }

  lemma StripNoop(s: string)
    requires s != [] ==> !IsSpace(s[0]) && !IsSpace(s[|s| - 1])
    ensures Strip(s) == s
  {
    TrimLeftNoop(s, IsSpace);
    TrimRightNoop(s, IsSpace);
  }

  /** A text that does not start with a space keeps its first character under `strip()`. */
  lemma StripFirst(s: string)
    requires s != [] && !IsSpace(s[0])
    ensures Strip(s) != [] && Strip(s)[0] == s[0]
  {
    TrimLeftNoop(s, IsSpace);
    var r := TrimRight(s, IsSpace);
    assert r != [] ==> r[0] == s[0];
  }

  /** A stripped text is a slice of the text. */
  lemma StripIsSlice(s: string) returns (lo: nat, hi: nat)
    ensures lo <= hi <= |s| && Strip(s) == s[lo..hi]
  {
    var l := TrimLeft(s, IsSpace);
    var r := TrimRight(l, IsSpace);
    lo := |s| - |l|;
    hi := lo + |r|;
    assert l == s[lo..];
    assert r == l[..|r|];
    assert s[lo..][..|r|] == s[lo..hi];
  }

  lemma StripKeepsOut(s: string, c: char)
    requires c !in s
    ensures c !in Strip(s)
  {
    var l := TrimLeft(s, IsSpace);
    var r := TrimRight(l, IsSpace);
    forall j | 0 <= j < |r| ensures r[j] != c {
      assert r[j] == l[j] == s[|s| - |l| + j];
    }
  }

  lemma StripIdempotent(s: string)
    ensures Strip(Strip(s)) == Strip(s)
  {
    StripNoop(Strip(s));
  }

  // ---------------------------------------------------------------- rewriting

  /** `s.replace(a, b)` for single characters. */
  function ReplaceChar(s: string, a: char, b: char): (r: string)
    ensures |r| == |s|
    ensures forall i :: 0 <= i < |s| ==> r[i] == (if s[i] == a then b else s[i])
  {
    if s == [] then [] else [if s[0] == a then b else s[0]] + ReplaceChar(s[1..], a, b)
  }

  /** `s.replace(c, "")`. */
  function RemoveChar(s: string, c: char): (r: string)
    ensures c !in r
    ensures forall x :: x in r ==> x in s
    ensures |r| <= |s|
  {
    if s == [] then [] else (if s[0] == c then [] else [s[0]]) + RemoveChar(s[1..], c)
  }

  lemma {:induction false} RemoveCharAppend(a: string, b: string, c: char)
    ensures RemoveChar(a + b, c) == RemoveChar(a, c) + RemoveChar(b, c)
  {
    if a != [] {
      RemoveCharAppend(a[1..], b, c);
      var head := if a[0] == c then [] else [a[0]];
      assert (a + b)[0] == a[0] && (a + b)[1..] == a[1..] + b;
      assert RemoveChar(a + b, c) == head + RemoveChar(a[1..] + b, c);
      assert RemoveChar(a, c) == head + RemoveChar(a[1..], c);
    } else {
      assert a + b == b;
    }
  }

  /** Removing a character drops exactly its occurrences. */
  lemma {:induction false} RemoveCharCount(s: string, c: char)
    ensures |RemoveChar(s, c)| == |s| - multiset(s)[c]
  {
    if s != [] {
      RemoveCharCount(s[1..], c);
      assert s == [s[0]] + s[1..];
      assert multiset(s) == multiset([s[0]]) + multiset(s[1..]);
    }
  }

  lemma {:induction false} RemoveCharAbsent(s: string, c: char)
    requires c !in s
    ensures RemoveChar(s, c) == s
  {
    if s != [] {
      RemoveCharAbsent(s[1..], c);
      assert s == [s[0]] + s[1..];
    }
  }

  /** Keep only the characters satisfying `keep` (`re.sub(r"[^...]", "", s)`). */
  function Filter(s: string, keep: char -> bool): (r: string)
    ensures forall i :: 0 <= i < |r| ==> keep(r[i])
    ensures |r| <= |s|
  {
    if s == [] then [] else (if keep(s[0]) then [s[0]] else []) + Filter(s[1..], keep)
  }

  lemma {:induction false} FilterKeepsAll(s: string, keep: char -> bool)
    requires forall i :: 0 <= i < |s| ==> keep(s[i])
    ensures Filter(s, keep) == s
    decreases |s|
  {
    if s != [] {
      FilterKeepsAll(s[1..], keep);
    }
  }

  lemma {:induction false} FilterDropsAll(s: string, keep: char -> bool)
    requires forall i :: 0 <= i < |s| ==> !keep(s[i])
    ensures Filter(s, keep) == []
    decreases |s|
  {
    if s != [] {
      FilterDropsAll(s[1..], keep);
    }
  }

  lemma {:induction false} FilterAppend(a: string, b: string, keep: char -> bool)
    ensures Filter(a + b, keep) == Filter(a, keep) + Filter(b, keep)
    decreases |a|
  {
    if a != [] {
      assert (a + b)[1..] == a[1..] + b;
      FilterAppend(a[1..], b, keep);
    } else {
      assert a + b == b;
    }
  }

  /** `s.replace(pattern, "")` for a non-empty `pattern`, scanning left to right. */
  function RemoveAll(s: string, pattern: string): (r: string)
    requires |pattern| > 0
    ensures |r| <= |s|
    decreases |s|
  {
    if |s| < |pattern| then s
    else if s[..|pattern|] == pattern then RemoveAll(s[|pattern|..], pattern)
    else [s[0]] + RemoveAll(s[1..], pattern)
  }

  lemma {:induction false} RemoveAllKeeps(s: string, pattern: string, c: char)
    requires |pattern| > 0
    requires c in RemoveAll(s, pattern)
    ensures c in s
    decreases |s|
  {
    if |s| < |pattern| {
    } else if s[..|pattern|] == pattern {
      RemoveAllKeeps(s[|pattern|..], pattern, c);
    } else if c != s[0] {
      RemoveAllKeeps(s[1..], pattern, c);
    }
  }

  // ---------------------------------------------------------------- split / join

  /** `s.split(sep)` (Python): every occurrence of `sep` cuts, left to right. */
  function Split(s: string, sep: string): (r: seq<string>)
    requires |sep| > 0
    ensures |r| >= 1
    decreases |s|
  {
    if |s| < |sep| then [s]
    else if s[..|sep|] == sep then [""] + Split(s[|sep|..], sep)
    else
      var rest := Split(s[1..], sep);
      [[s[0]] + rest[0]] + rest[1..]
  }

  /** `sep.join(parts)`. */
  function Join(sep: string, parts: seq<string>): string {
    if parts == [] then ""
    else if |parts| == 1 then parts[0]
    else parts[0] + sep + Join(sep, parts[1..])
  }

  lemma {:induction false} JoinCons(sep: string, x: string, parts: seq<string>)
    requires parts != []
    ensures Join(sep, [x] + parts) == x + sep + Join(sep, parts)
  {
    assert ([x] + parts)[1..] == parts;
  }

  lemma {:induction false} JoinHeadChar(sep: string, c: char, parts: seq<string>)
    requires parts != []
    ensures Join(sep, [[c] + parts[0]] + parts[1..]) == [c] + Join(sep, parts)
  {
    var q := [[c] + parts[0]] + parts[1..];
    if |parts| > 1 {
      assert q[1..] == parts[1..];
    }
  }

  lemma SplitAtSep(s: string, sep: string)
    requires |sep| > 0 && |s| >= |sep| && s[..|sep|] == sep
    ensures Split(s, sep) == [""] + Split(s[|sep|..], sep)
  {
  }

  lemma SplitAtChar(s: string, sep: string)
    requires |sep| > 0 && |s| >= |sep| && s[..|sep|] != sep
    ensures Split(s, sep) == [[s[0]] + Split(s[1..], sep)[0]] + Split(s[1..], sep)[1..]
  {
  }

  /** The first piece of `s.split(c)` is the text before the first `c`. */
  lemma {:induction false} SplitFirst(s: string, c: char)
    ensures Split(s, [c])[0] == s[..IndexOf(s, c)]
    decreases |s|
  {
    if |s| >= 1 {
      if s[..1] == [c] {
        assert s[0] == c;
      } else {
        SplitFirst(s[1..], c);
        assert s[..IndexOf(s, c)] == [s[0]] + s[1..][..IndexOf(s[1..], c)];
      }
    }
  }

  lemma {:induction false} JoinSplit(s: string, sep: string)
    requires |sep| > 0
    ensures Join(sep, Split(s, sep)) == s
    decreases |s|
  {
    if |s| < |sep| {
    } else if s[..|sep|] == sep {
      var tail := s[|sep|..];
      SplitAtSep(s, sep);
      JoinSplit(tail, sep);
      JoinCons(sep, "", Split(tail, sep));
      assert s == sep + tail;
    } else {
      var rest := Split(s[1..], sep);
      SplitAtChar(s, sep);
      JoinSplit(s[1..], sep);
      JoinHeadChar(sep, s[0], rest);
      assert s == [s[0]] + s[1..];
    }
  }

  /** A split piece never contains the separator character it was cut at. */
  lemma {:induction false} SplitPiecesAvoid(s: string, c: char)
    ensures forall p :: p in Split(s, [c]) ==> c !in p
    decreases |s|
  {
    if |s| < 1 {
    } else if s[..1] == [c] {
      SplitPiecesAvoid(s[1..], c);
    } else {
      SplitPiecesAvoid(s[1..], c);
      var rest := Split(s[1..], [c]);
      assert s[0] != c;
      assert c !in [s[0]] + rest[0];
      forall p | p in Split(s, [c]) ensures c !in p {
        if p != [s[0]] + rest[0] { assert p in rest[1..]; }
      }
    }
  }

  /** `[p.strip() for p in s.split(sep) if p.strip()]`: trimmed, non-empty pieces. */
  function StrippedPieces(pieces: seq<string>): (r: seq<string>)
    ensures forall i :: 0 <= i < |r| ==> r[i] != "" && Strip(r[i]) == r[i]
    ensures |r| <= |pieces|
  {
    if pieces == [] then []
    else
      var head := Strip(pieces[0]);
      StripIdempotent(pieces[0]);
      (if head != "" then [head] else []) + StrippedPieces(pieces[1..])
  }

  // ---------------------------------------------------------------- numbers

  predicate AllDigits(s: string) {
    forall i :: 0 <= i < |s| ==> IsDigit(s[i])
  }

  function DigitsValue(s: string): nat
    requires AllDigits(s)
  {
    if s == [] then 0 else DigitsValue(s[..|s| - 1]) * 10 + DigitValue(s[|s| - 1])
  }

  function Pow10(n: nat): (r: nat)
    ensures r >= 1
  {
    if n == 0 then 1 else 10 * Pow10(n - 1)
  }

  /** Decimal text of a natural number, as `str(n)`. */
  function NatToString(n: nat): (r: string)
    ensures |r| >= 1 && AllDigits(r)
    ensures |r| > 1 ==> r[0] != '0'
  {
    if n < 10 then [(n + '0' as int) as char]
    else NatToString(n / 10) + [(n % 10 + '0' as int) as char]
  }

  /** Reading back the decimal text of a number gives the number. */
  lemma {:induction false} NatToStringValue(n: nat)
    ensures DigitsValue(NatToString(n)) == n
  {
    if n >= 10 {
      NatToStringValue(n / 10);
      var s := NatToString(n);
      assert s[..|s| - 1] == NatToString(n / 10);
    }
  }

  /** Index of the first occurrence of `c`, or `|s|`. */
  function IndexOf(s: string, c: char): (k: nat)
    ensures k <= |s|
    ensures k < |s| ==> s[k] == c
    ensures forall i :: 0 <= i < k ==> s[i] != c
  {
    if s == [] then 0 else if s[0] == c then 0 else 1 + IndexOf(s[1..], c)
  }

  /** `IndexOf` finds a character exactly when `c in s`. */
  lemma IndexOfIn(s: string, c: char)
    ensures IndexOf(s, c) < |s| <==> c in s
  {
  }

  /** `digits [ "." digits ]` with at least one digit: the unsigned decimal literal. */
  function UnsignedDecimal(s: string): (r: Option<real>)
    ensures r.Some? ==> r.value >= 0.0
  {
    var k := IndexOf(s, '.');
    if k == |s| then
      if s != [] && AllDigits(s) then Some(DigitsValue(s) as real) else None
    else
      var whole, frac := s[..k], s[k + 1..];
      if AllDigits(whole) && AllDigits(frac) && |whole| + |frac| >= 1 then
        Some(DigitsValue(whole) as real + DigitsValue(frac) as real / Pow10(|frac|) as real)
      else None
  }

  /** A signed decimal literal as Python's `float()` and `Decimal()` read it (no
      surrounding whitespace, no exponent). */
  function DecimalLiteral(s: string): Option<real> {
    if s != [] && (s[0] == '-' || s[0] == '+') then
      match UnsignedDecimal(s[1..])
      case Some(v) => Some(if s[0] == '-' then -v else v)
      case None => None
    else UnsignedDecimal(s)
  }

  /** `float(s)` / `Decimal(s)` of a string: surrounding whitespace is ignored. */
  function ParseNumber(s: string): Option<real> {
    DecimalLiteral(Strip(s))
  }

  /** `int(s)` of a string: optional sign, ASCII digits, surrounding whitespace ignored. */
  function ParseInt(s: string): (r: Option<int>)
    ensures r.Some? ==> Strip(s) != []
  {
    var t := Strip(s);
    if t != [] && (t[0] == '-' || t[0] == '+') then
      if |t| > 1 && AllDigits(t[1..]) then
        var v: int := DigitsValue(t[1..]); Some(if t[0] == '-' then -v else v)
      else None
    else if t != [] && AllDigits(t) then Some(DigitsValue(t))
    else None
  }

  /** Digits with no point read as their value. */
  lemma DigitsNumber(s: string)
    requires IsDigitString(s) && IndexOf(s, '.') == |s|
    ensures ParseNumber(s) == Some(DigitsValue(s) as real)
  {
    DigitNotSpace(s[0]);
    DigitNotSpace(s[|s| - 1]);
    StripNoop(s);
    assert s[0] != '-' && s[0] != '+';
  }

  /** A text without the replaced character is left as it is. */
  lemma ReplaceCharAbsent(s: string, a: char, b: char)
    requires forall i :: 0 <= i < |s| ==> s[i] != a
    ensures ReplaceChar(s, a, b) == s
  {
  }

  lemma ParseIntNatToString(n: nat)
    ensures ParseInt(NatToString(n)) == Some(n)
  {
    StripNoop(NatToString(n));
    NatToStringValue(n);
  }

  /** `str.isdigit()` on ASCII text. */
  predicate IsDigitString(s: string) {
    s != [] && AllDigits(s)
  }

  /** Digits are never whitespace, so a digit string survives `strip()`: `int(s)` reads it. */
  lemma DigitStringParses(s: string)
    requires IsDigitString(s)
    ensures ParseInt(s) == Some(DigitsValue(s) as int)
  {
    StripNoop(s);
  }

  /** A subset is no larger. */
  lemma SubsetCard<T>(a: set<T>, b: set<T>)
    requires a <= b
    ensures |a| <= |b|
  {
    if a != {} {
      var x :| x in a;
      SubsetCard(a - {x}, b - {x});
    }
  }
}
