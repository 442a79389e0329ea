/**
 * The contact-field mixins shared by the site's forms
 * (landing_doominium_real_state/forms/mixins.py): the phone field with its pattern and
 * length rule, and the optional e-mail field.
 */
module Forms {
  import opened Wrappers
  import opened Text

  /** The outcome of cleaning one form field. */
  datatype Cleaned = Accepted(value: string) | Rejected(message: string)

  const PhoneRequired := "Номер телефону обовʼязковий."
  const PhoneTooLong := "Номер телефону надто довгий."
  const PhoneInvalid := "Введіть коректний номер телефону."
  const PhoneMaxLength := 32

  // ---------------------------------------------------------------- the phone pattern

  /** The character class `[0-9\s\-()]`. */
  predicate PhoneChar(c: char) {
    IsDigit(c) || IsSpace(c) || c == '-' || c == '(' || c == ')'
  }

  /** `[0-9\s\-()]{9,20}` spanning the whole text. */
  predicate PhoneBody(s: string) {
    9 <= |s| <= 20 && forall i :: 0 <= i < |s| ==> PhoneChar(s[i])
  }

  /** `^\+?...` : a leading "+" is consumed when present ("+" is not in the class, so
      leaving it to the class never matches). */
  function AfterPlus(s: string): string {
    if s != [] && s[0] == '+' then s[1..] else s
  }

  /** `PHONE_PATTERN.match(value)`: `$` also matches just before a final newline. */
  predicate MatchesPhonePattern(s: string) {
    PhoneBody(AfterPlus(s))
    || (s != [] && s[|s| - 1] == '\n' && PhoneBody(AfterPlus(s[..|s| - 1])))
  }

  // ---------------------------------------------------------------- cleaning

  /** `clean_phone`: the pattern must match and at least nine characters must remain once
      the spaces are removed; an accepted phone is returned as it is. */
  function CleanPhone(value: string): (r: Cleaned)
    ensures r.Accepted? <==> MatchesPhonePattern(value) && |RemoveChar(value, ' ')| >= 9
    ensures r.Accepted? ==> r.value == value
    ensures r.Rejected? ==> r.message == PhoneInvalid
  {
    if !MatchesPhonePattern(value) || |RemoveChar(value, ' ')| < 9 then Rejected(PhoneInvalid)
    else Accepted(value)
  }

  /** The whole phone field: the text is stripped, must be non-empty and at most 32
      characters, and then goes through `clean_phone`. */
  function CleanPhoneField(raw: string): (r: Cleaned)
    ensures Strip(raw) == "" ==> r == Rejected(PhoneRequired)
    ensures Strip(raw) != "" && |Strip(raw)| > PhoneMaxLength ==> r == Rejected(PhoneTooLong)
    ensures Strip(raw) != "" && |Strip(raw)| <= PhoneMaxLength ==> r == CleanPhone(Strip(raw))
  {
    var value := Strip(raw);
    if value == "" then Rejected(PhoneRequired)
    else if |value| > PhoneMaxLength then Rejected(PhoneTooLong)
    else CleanPhone(value)
  }

  /** An accepted phone is made only of an optional leading "+" and class characters, is
      9 to 20 characters after that "+", and is accepted again when submitted again. */
  lemma AcceptedPhone(raw: string)
    requires CleanPhoneField(raw).Accepted?
    ensures var v := CleanPhoneField(raw).value;
            PhoneBody(AfterPlus(v)) && CleanPhoneField(v) == CleanPhoneField(raw)
  {
    var v := Strip(raw);
    StripIdempotent(raw);
    assert v[|v| - 1] != '\n' by { assert IsSpace('\n'); }
  }

  /** Fewer than nine characters left after stripping are refused with the phone
      message, as "123" is in the form's tests. */
  lemma ShortPhoneRefused(raw: string)
    requires Strip(raw) != "" && |Strip(raw)| < 9
    ensures CleanPhoneField(raw) == Rejected(PhoneInvalid)
  {
    ShortNoMatch(Strip(raw));
  }

  lemma ShortNoMatch(v: string)
    requires v != [] && |v| < 9 && !IsSpace(v[|v| - 1])
    ensures !MatchesPhonePattern(v)
  {
    assert v[|v| - 1] != '\n' by { assert IsSpace('\n'); }
  }

  /** Nine to twenty digits, with or without a leading "+", are accepted unchanged, as
      "+380631112233" is in the form's tests. */
  lemma DigitPhoneAccepted(digits: string)
    requires 9 <= |digits| <= 20 && AllDigits(digits)
    ensures CleanPhoneField(digits) == Accepted(digits)
    ensures CleanPhoneField("+" + digits) == Accepted("+" + digits)
  {
    DigitPhoneClean(digits);
    var s := "+" + digits;
    assert s[1..] == digits && s[0] == '+';
    assert AllDigits(s[1..]);
    DigitPhoneClean(s);
  }

  /** A phone of digits after an optional "+" passes every rule of the field. */
  lemma DigitPhoneClean(s: string)
    requires s != [] && 9 <= |AfterPlus(s)| <= 20 && AllDigits(AfterPlus(s))
    requires AllDigits(s) || (s[0] == '+' && AllDigits(s[1..]))
    ensures CleanPhoneField(s) == Accepted(s)
  {
    DigitPhoneStripped(s);
    DigitPhoneBody(AfterPlus(s));
    DigitPhoneCompact(s);
  }

  lemma DigitPhoneStripped(s: string)
    requires s != [] && AfterPlus(s) != [] && AllDigits(AfterPlus(s))
    requires AllDigits(s) || s[0] == '+'
    ensures Strip(s) == s
  {
    var body := AfterPlus(s);
    assert s[|s| - 1] == body[|body| - 1];
    assert IsDigit(body[|body| - 1]);
    StripNoop(s);
  }

  lemma DigitPhoneBody(body: string)
    requires 9 <= |body| <= 20 && AllDigits(body)
    ensures PhoneBody(body)
  {
  }

  lemma DigitPhoneCompact(s: string)
    requires s != [] && 9 <= |AfterPlus(s)| && AllDigits(AfterPlus(s))
    requires AllDigits(s) || (s[0] == '+' && AllDigits(s[1..]))
    ensures |RemoveChar(s, ' ')| >= 9
  {
    assert ' ' !in s by {
      forall i | 0 <= i < |s| ensures s[i] != ' ' {
        if !AllDigits(s) && i > 0 { assert s[i] == s[1..][i - 1]; }
      }
    }
    RemoveCharAbsent(s, ' ');
  }

  /** The space-free length rule refuses phones the pattern alone would let through:
      five digits spaced out, as "1 2 3 4 5". */
  lemma CompactRuleRefuses(a: char, b: char, c: char, d: char, e: char)
    requires IsDigit(a) && IsDigit(b) && IsDigit(c) && IsDigit(d) && IsDigit(e)
    ensures MatchesPhonePattern([a, ' ', b, ' ', c, ' ', d, ' ', e])
    ensures CleanPhone([a, ' ', b, ' ', c, ' ', d, ' ', e]) == Rejected(PhoneInvalid)
  {
    SpacedDigitsPattern(a, b, c, d, e);
    SpacedDigitsCompact(a, b, c, d, e);
  }

  lemma SpacedDigitsPattern(a: char, b: char, c: char, d: char, e: char)
    requires IsDigit(a) && IsDigit(b) && IsDigit(c) && IsDigit(d) && IsDigit(e)
    ensures PhoneBody(AfterPlus([a, ' ', b, ' ', c, ' ', d, ' ', e]))
  {
    var s := [a, ' ', b, ' ', c, ' ', d, ' ', e];
    assert AfterPlus(s) == s;
    assert IsSpace(' ');
  }

  lemma SpacedDigitsCompact(a: char, b: char, c: char, d: char, e: char)
    requires IsDigit(a) && IsDigit(b) && IsDigit(c) && IsDigit(d) && IsDigit(e)
    ensures |RemoveChar([a, ' ', b, ' ', c, ' ', d, ' ', e], ' ')| == 5
  {
    var s := [a, ' ', b, ' ', c, ' ', d, ' ', e];
    RemoveCharCount(s, ' ');
    assert multiset(s)[' '] == 4;
  }

  // ---------------------------------------------------------------- e-mail

  /** `clean_email`: an absent or empty optional address becomes "". */
  function CleanEmail(value: Option<string>): (r: string)
    ensures value.Some? ==> r == value.value
    ensures value.None? ==> r == ""
  {
    value.GetOr("")
  }
}
