/** The text operations of Python that the repository relies on: `strip`, `upper`,
    `str(int)`, `int(str)`. Digits are the ASCII ones. */
module PyText {
  import opened Wrappers

  /** The characters removed by `str.strip()`. */
  predicate IsSpace(c: char) {
    '\t' <= c <= '\r' || '\U{1c}' <= c <= ' ' || c == '\U{85}' || c == '\U{a0}' || c == '\U{1680}'
    || '\U{2000}' <= c <= '\U{200a}' || c == '\U{2028}' || c == '\U{2029}' || c == '\U{202f}'
    || c == '\U{205f}' || c == '\U{3000}'
  }

  function StripLeft(s: string): string {
    if s != "" && IsSpace(s[0]) then StripLeft(s[1..]) else s
  }

  function StripRight(s: string): string {
    if s != "" && IsSpace(s[|s| - 1]) then StripRight(s[..|s| - 1]) else s
  }

  function Strip(s: string): string {
    StripRight(StripLeft(s))
  }

  predicate IsDigit(c: char) {
    '0' <= c <= '9'
  }

  predicate AllDigits(s: string) {
    forall i :: 0 <= i < |s| ==> IsDigit(s[i])
  }

  /** `str.upper`, exact for comparing the result with words in ASCII letters: the listed
      characters are the non-ASCII ones whose capital form is ASCII text, and the capital form
      of every other non-ASCII character contains a non-ASCII character. */
  function UpperChar(c: char): string {
    if 'a' <= c <= 'z' then [(c as int - 32) as char]
    else match c
      case '\U{df}' => "SS"
      case '\U{131}' => "I"
      case '\U{17f}' => "S"
      case '\U{fb00}' => "FF"
      case '\U{fb01}' => "FI"
      case '\U{fb02}' => "FL"
      case '\U{fb03}' => "FFI"
      case '\U{fb04}' => "FFL"
      case '\U{fb05}' => "ST"
      case '\U{fb06}' => "ST"
      case _ => [c]
  }

  function Upper(s: string): string {
    if s == "" then "" else UpperChar(s[0]) + Upper(s[1..])
  }

  predicate IsCapital(c: char) {
    'A' <= c <= 'Z' || c == '_'
  }

  lemma {:induction false} UpperKeepsCapitals(s: string)
    requires forall i :: 0 <= i < |s| ==> IsCapital(s[i])
    ensures Upper(s) == s
  {
    if s != "" {
      UpperKeepsCapitals(s[1..]);
      assert s == [s[0]] + s[1..];
    }
  }

  function Digit(d: nat): char
    requires d < 10
  {
    ('0' as int + d) as char
  }

  /** `str(n)` for n >= 0. */
  function DecimalText(n: nat): string {
    if n < 10 then [Digit(n)] else DecimalText(n / 10) + [Digit(n % 10)]
  }

  /** The number that a text of ASCII digits denotes; leading zeros are allowed. */
  function DigitsValue(s: string): nat
    requires AllDigits(s)
  {
    if s == "" then 0
    else DigitsValue(s[..|s| - 1]) * 10 + (s[|s| - 1] as int - '0' as int)
  }

  lemma {:induction false} DecimalRoundTrip(n: nat)
    ensures DecimalText(n) != "" && AllDigits(DecimalText(n)) && DigitsValue(DecimalText(n)) == n
  {
    if n >= 10 {
      DecimalRoundTrip(n / 10);
      var front := DecimalText(n / 10);
      assert DecimalText(n)[..|front|] == front;
    }
  }

  lemma DecimalTextInjective(m: nat, n: nat)
    requires DecimalText(m) == DecimalText(n)
    ensures m == n
  {
    DecimalRoundTrip(m);
    DecimalRoundTrip(n);
  }

  lemma StripKeepsEnds(s: string)
    requires s != "" && !IsSpace(s[0]) && !IsSpace(s[|s| - 1])
    ensures Strip(s) == s
  {
  }

  /** The digits of an `int(text)` argument may be grouped by single underscores. */
  predicate GroupedDigits(s: string) {
    && s != "" && IsDigit(s[0]) && IsDigit(s[|s| - 1])
    && (forall i :: 0 <= i < |s| ==> IsDigit(s[i]) || s[i] == '_')
    && (forall i :: 0 < i < |s| ==> IsDigit(s[i - 1]) || IsDigit(s[i]))
  }

  /** `int(text)`; None is its ValueError. */
  function ParseInt(text: string): Option<int> {
    var t := Strip(text);
    var negative := t != "" && t[0] == '-';
    var body := if t != "" && (t[0] == '-' || t[0] == '+') then t[1..] else t;
    if !GroupedDigits(body) then None
    else
      var value: int := DigitsValue(Filter(body, IsDigit));
      Some(if negative then -value else value)
  }

  lemma {:induction false} FilterKeepsAll<T(!new)>(s: seq<T>, p: T -> bool)
    requires forall x :: x in s ==> p(x)
    ensures Filter(s, p) == s
  {
    if s != [] {
      FilterKeepsAll(s[..|s| - 1], p);
      assert s == s[..|s| - 1] + [s[|s| - 1]];
    }
  }

  lemma ParseDigits(s: string)
    requires s != "" && AllDigits(s)
    ensures ParseInt(s) == Some(DigitsValue(s))
  {
    assert IsDigit(s[0]) && IsDigit(s[|s| - 1]);
    StripKeepsEnds(s);
    FilterKeepsAll(s, IsDigit);
  }

  /** int(str(n)) == n */
  lemma ParseDecimal(n: nat)
    ensures ParseInt(DecimalText(n)) == Some(n)
  {
    DecimalRoundTrip(n);
    ParseDigits(DecimalText(n));
  }

  /** `upper` undoes any choice of small letters in a word of capitals. */
  lemma {:induction false} UpperIgnoresCase(v: string, w: string)
    requires |v| == |w| && forall i :: 0 <= i < |w| ==> IsCapital(w[i]) && (v[i] == w[i] || SmallOf(w[i], v[i]))
    ensures Upper(v) == w
  {
    if w != "" {
      UpperIgnoresCase(v[1..], w[1..]);
      assert w == [w[0]] + w[1..];
    }
  }

  predicate SmallOf(capital: char, c: char) {
    'A' <= capital <= 'Z' && c as int == capital as int + ('a' as int - 'A' as int)
  }

  predicate AllSpaces(s: string) {
    forall i :: 0 <= i < |s| ==> IsSpace(s[i])
  }

  /** `strip` takes away the spaces at both ends and nothing else. */
  lemma StripExactly(s: string) returns (before: string, after: string)
    ensures s == before + Strip(s) + after && AllSpaces(before) && AllSpaces(after)
    ensures Strip(s) != "" ==> !IsSpace(Strip(s)[0]) && !IsSpace(Strip(s)[|Strip(s)| - 1])
  {
    before := LeftSpaces(s);
    after := RightSpaces(StripLeft(s));
    if Strip(s) != "" {
      assert StripLeft(s)[0] == Strip(s)[0];
    }
  }

  lemma {:induction false} LeftSpaces(s: string) returns (before: string)
    ensures s == before + StripLeft(s) && AllSpaces(before)
    ensures StripLeft(s) != "" ==> !IsSpace(StripLeft(s)[0])
  {
    before := "";
    if s != "" && IsSpace(s[0]) {
      var rest := LeftSpaces(s[1..]);
      before := [s[0]] + rest;
    }
  }

  lemma {:induction false} RightSpaces(s: string) returns (after: string)
    ensures s == StripRight(s) + after && AllSpaces(after)
    ensures StripRight(s) != "" ==> !IsSpace(StripRight(s)[|StripRight(s)| - 1])
  {
    after := "";
    if s != "" && IsSpace(s[|s| - 1]) {
      var rest := RightSpaces(s[..|s| - 1]);
      after := rest + [s[|s| - 1]];
    }
  }

  /** The ASCII characters among the spaces. */
  lemma AsciiSpaces(c: char)
    requires c < '\U{80}'
    ensures IsSpace(c) <==> c in " \t\n\r" || c as int == 11 || c as int == 12 || 28 <= c as int <= 31
  {
  }

  lemma DigitsAreGrouped(digits: string)
    requires digits != "" && AllDigits(digits)
    ensures GroupedDigits(digits) && Filter(digits, IsDigit) == digits
  {
    assert forall i :: 0 <= i < |digits| ==> IsDigit(digits[i]);
    FilterKeepsAll(digits, IsDigit);
  }

  /** `int` of a sign and digits is the signed number. */
  lemma ParseSigned(sign: char, digits: string)
    requires (sign == '-' || sign == '+') && digits != "" && AllDigits(digits)
    ensures ParseInt([sign] + digits).Some?
    ensures ParseInt([sign] + digits).value == if sign == '-' then 0 - DigitsValue(digits) else DigitsValue(digits)
  {
    var text := [sign] + digits;
    assert IsDigit(digits[|digits| - 1]);
    StripKeepsEnds(text);
    assert text[0] == sign && text[1..] == digits;
    DigitsAreGrouped(digits);
  }
}
