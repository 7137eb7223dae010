/** The text in which a password hash is stored (auth.py). Base64 follows section 5 of RFC 4648
    without padding (section 3.2); the decoder is the lenient one of Python's binascii. The key
    derivation of section 5.2 of RFC 8018 is a parameter. */
module PasswordText {
  import opened Wrappers
  import opened PyText

  type Byte = x: int | 0 <= x < 256

  type Sextet = x: int | 0 <= x < 64

  const ALGORITHM := "pbkdf2_sha256"

  // ---------------------------------------------------------------------------------------------
  // Base64url
  // ---------------------------------------------------------------------------------------------

  function Letter(k: Sextet): char {
    if k < 26 then ('A' as int + k) as char
    else if k < 52 then ('a' as int + k - 26) as char
    else if k < 62 then ('0' as int + k - 52) as char
    else if k == 62 then '-'
    else '_'
  }

  /** The value of a character after `-_` are turned into `+/`; None for any other character. */
  function ValueOf(c: char): Option<Sextet> {
    if 'A' <= c <= 'Z' then Some(c as int - 'A' as int)
    else if 'a' <= c <= 'z' then Some(c as int - 'a' as int + 26)
    else if '0' <= c <= '9' then Some(c as int - '0' as int + 52)
    else if c == '-' || c == '+' then Some(62)
    else if c == '_' || c == '/' then Some(63)
    else None
  }

  lemma LetterReadsBack(k: Sextet)
    ensures ValueOf(Letter(k)) == Some(k)
    ensures Letter(k) != '$' && Letter(k) != '=' && Letter(k) < '\U{80}'
  {
  }

  /** Three bytes as four letters. */
  function Quad(a: Byte, b: Byte, c: Byte): (q: string)
    ensures |q| == 4
  {
    [Letter(a / 4), Letter(a % 4 * 16 + b / 16), Letter(b % 16 * 4 + c / 64), Letter(c % 64)]
  }

  /** `base64.urlsafe_b64encode` */
  function EncodePadded(bytes: seq<Byte>): string {
    if |bytes| == 0 then ""
    else if |bytes| == 1 then [Letter(bytes[0] / 4), Letter(bytes[0] % 4 * 16), '=', '=']
    else if |bytes| == 2 then
      [Letter(bytes[0] / 4), Letter(bytes[0] % 4 * 16 + bytes[1] / 16), Letter(bytes[1] % 16 * 4), '=']
    else Quad(bytes[0], bytes[1], bytes[2]) + EncodePadded(bytes[3..])
  }

  /** `rstrip(b"=")` */
  function StripPads(s: string): string {
    if s != "" && s[|s| - 1] == '=' then StripPads(s[..|s| - 1]) else s
  }

  function Pads(n: nat): string {
    seq(n, _ => '=')
  }

  /** `-n % 4` */
  function PadCount(n: nat): nat {
    (4 - n % 4) % 4
  }

  /** `_b64encode` */
  function B64Encode(bytes: seq<Byte>): string {
    StripPads(EncodePadded(bytes))
  }

  type Nibble = x: int | 0 <= x < 16

  type Crumb = x: int | 0 <= x < 4

  /** Where `binascii.a2b_base64` is within a group of four letters, and the bits left over. */
  datatype Place = AtStart | AfterOne(six: Sextet) | AfterTwo(four: Nibble) | AfterThree(two: Crumb)

  /** The bytes so far, the place, the pads in a row, and whether they ended the text. */
  datatype Decoder = Decoder(out: seq<Byte>, place: Place, pads: nat, finished: bool)

  /** Enough pads end the text; fewer, and pads too early, are skipped. */
  function FeedPad(d: Decoder): Decoder {
    match d.place
    case AtStart => d
    case AfterOne(_) => d
    case AfterTwo(_) => d.(pads := d.pads + 1, finished := d.pads + 1 >= 2)
    case AfterThree(_) => d.(pads := d.pads + 1, finished := true)
  }

  function FeedValue(d: Decoder, v: Sextet): Decoder {
    match d.place
    case AtStart => Decoder(d.out, AfterOne(v), 0, false)
    case AfterOne(left) => Decoder(d.out + [left * 4 + v / 16], AfterTwo(v % 16), 0, false)
    case AfterTwo(left) => Decoder(d.out + [left * 16 + v / 4], AfterThree(v % 4), 0, false)
    case AfterThree(left) => Decoder(d.out + [left * 64 + v], AtStart, 0, false)
  }

  /** Other characters outside the alphabet are skipped as well. */
  function Feed(d: Decoder, c: char): Decoder {
    if d.finished then d
    else if c == '=' then FeedPad(d)
    else match ValueOf(c)
      case None => d
      case Some(v) => FeedValue(d, v)
  }

  function FeedAll(d: Decoder, text: string): Decoder
    decreases text
  {
    if text == "" then d else FeedAll(Feed(d, text[0]), text[1..])
  }

  predicate IsAscii(text: string) {
    forall i :: 0 <= i < |text| ==> text[i] < '\U{80}'
  }

  /** `_b64decode`; None is its ValueError. */
  function B64Decode(text: string): Option<seq<Byte>> {
    var padded := text + Pads(PadCount(|text|));
    if !IsAscii(padded) then None
    else
      var d := FeedAll(Decoder([], AtStart, 0, false), padded);
      if d.finished || d.place == AtStart then Some(d.out) else None
  }

  // ---------------------------------------------------------------------------------------------
  // Decoding undoes encoding
  // ---------------------------------------------------------------------------------------------

  lemma {:induction false} StripUndoesPads(s: string, n: nat)
    requires s == "" || s[|s| - 1] != '='
    ensures StripPads(s + Pads(n)) == s
  {
    if n == 0 {
      assert s + Pads(0) == s;
    } else {
      StripUndoesPads(s, n - 1);
      assert (s + Pads(n))[..|s| + n - 1] == s + Pads(n - 1);
    }
  }

  /** Letters of the alphabet, so neither a pad nor the separator. */
  predicate Plain(s: string) {
    forall i :: 0 <= i < |s| ==> PlainChar(s[i])
  }

  predicate PlainChar(c: char) {
    c != '=' && c != '$' && c < '\U{80}'
  }

  /** The letters that carry the bytes. */
  function Body(bytes: seq<Byte>): (body: string)
    ensures Plain(body)
  {
    if |bytes| == 0 then ""
    else if |bytes| == 1 then Quad(bytes[0], 0, 0)[..2]
    else if |bytes| == 2 then Quad(bytes[0], bytes[1], 0)[..3]
    else Quad(bytes[0], bytes[1], bytes[2]) + Body(bytes[3..])
  }

  lemma PadCountRepeats(n: nat)
    ensures PadCount(4 + n) == PadCount(n)
  {
  }

  lemma {:induction false} EncodedForm(bytes: seq<Byte>)
    ensures EncodePadded(bytes) == Body(bytes) + Pads(PadCount(|Body(bytes)|))
  {
    if |bytes| == 1 {
      assert Pads(2) == "==" && |Body(bytes)| == 2;
    } else if |bytes| == 2 {
      assert Pads(1) == "=" && |Body(bytes)| == 3;
    } else if |bytes| > 2 {
      EncodedForm(bytes[3..]);
      var quad, rest := Quad(bytes[0], bytes[1], bytes[2]), Body(bytes[3..]);
      PadCountRepeats(|rest|);
      ConcatAssociates(quad, rest, Pads(PadCount(|rest|)));
    }
  }

  /** Stripping the pads and restoring them is the identity on every encoded byte string. */
  lemma PaddingIsRestored(bytes: seq<Byte>)
    ensures B64Encode(bytes) + Pads(PadCount(|B64Encode(bytes)|)) == EncodePadded(bytes)
    ensures Plain(B64Encode(bytes))
  {
    var body := Body(bytes);
    EncodedForm(bytes);
    StripUndoesPads(body, PadCount(|body|));
  }

  lemma FeedTwo(out: seq<Byte>, a: Byte, b: Byte)
    ensures Feed(Feed(Decoder(out, AtStart, 0, false), Letter(a / 4)), Letter(a % 4 * 16 + b / 16))
         == Decoder(out + [a], AfterTwo(b / 16), 0, false)
  {
    LetterReadsBack(a / 4);
    LetterReadsBack(a % 4 * 16 + b / 16);
  }

  lemma FeedThird(out: seq<Byte>, b: Byte, c: Byte)
    ensures Feed(Decoder(out, AfterTwo(b / 16), 0, false), Letter(b % 16 * 4 + c / 64))
         == Decoder(out + [b], AfterThree(c / 64), 0, false)
  {
    LetterReadsBack(b % 16 * 4 + c / 64);
  }

  lemma FeedFourth(out: seq<Byte>, c: Byte)
    ensures Feed(Decoder(out, AfterThree(c / 64), 0, false), Letter(c % 64)) == Decoder(out + [c], AtStart, 0, false)
  {
    LetterReadsBack(c % 64);
  }

  lemma FeedFour(d: Decoder, c0: char, c1: char, c2: char, c3: char, rest: string)
    ensures FeedAll(d, [c0, c1, c2, c3] + rest) == FeedAll(Feed(Feed(Feed(Feed(d, c0), c1), c2), c3), rest)
  {
    FeedOne(d, c0, [c1, c2, c3] + rest);
    FeedOne(Feed(d, c0), c1, [c2, c3] + rest);
    FeedOne(Feed(Feed(d, c0), c1), c2, [c3] + rest);
    FeedOne(Feed(Feed(Feed(d, c0), c1), c2), c3, rest);
    assert [c0, c1, c2, c3] + rest == [c0] + ([c1, c2, c3] + rest);
    assert [c1, c2, c3] + rest == [c1] + ([c2, c3] + rest);
    assert [c2, c3] + rest == [c2] + ([c3] + rest);
  }

  lemma FeedOne(d: Decoder, c: char, rest: string)
    ensures FeedAll(d, [c] + rest) == FeedAll(Feed(d, c), rest)
  {
    assert ([c] + rest)[1..] == rest;
  }

  /** A decoder that has read everything it has to. */
  predicate Complete(d: Decoder, out: seq<Byte>) {
    d.out == out && (d.finished || d.place == AtStart)
  }

  lemma DecodesOne(out: seq<Byte>, a: Byte)
    ensures Complete(FeedAll(Decoder(out, AtStart, 0, false), EncodePadded([a])), out + [a])
  {
    FeedTwo(out, a, 0);
    assert EncodePadded([a]) == [Letter(a / 4), Letter(a % 4 * 16), '=', '='] + "";
    FeedFour(Decoder(out, AtStart, 0, false), Letter(a / 4), Letter(a % 4 * 16), '=', '=', "");
  }

  lemma DecodesTwo(out: seq<Byte>, a: Byte, b: Byte)
    ensures Complete(FeedAll(Decoder(out, AtStart, 0, false), EncodePadded([a, b])), out + [a, b])
  {
    FeedTwo(out, a, b);
    FeedThird(out + [a], b, 0);
    assert EncodePadded([a, b]) == [Letter(a / 4), Letter(a % 4 * 16 + b / 16), Letter(b % 16 * 4), '='] + "";
    FeedFour(Decoder(out, AtStart, 0, false), Letter(a / 4), Letter(a % 4 * 16 + b / 16), Letter(b % 16 * 4), '=', "");
    assert out + [a] + [b] == out + [a, b];
  }

  lemma DecodesThree(out: seq<Byte>, a: Byte, b: Byte, c: Byte, rest: string)
    ensures FeedAll(Decoder(out, AtStart, 0, false), Quad(a, b, c) + rest)
         == FeedAll(Decoder(out + [a, b, c], AtStart, 0, false), rest)
  {
    FeedTwo(out, a, b);
    FeedThird(out + [a], b, c);
    FeedFourth(out + [a] + [b], c);
    FeedFour(Decoder(out, AtStart, 0, false),
      Letter(a / 4), Letter(a % 4 * 16 + b / 16), Letter(b % 16 * 4 + c / 64), Letter(c % 64), rest);
    assert out + [a] + [b] + [c] == out + [a, b, c];
  }

  lemma {:induction false} DecodesBack(out: seq<Byte>, bytes: seq<Byte>)
    ensures Complete(FeedAll(Decoder(out, AtStart, 0, false), EncodePadded(bytes)), out + bytes)
    decreases |bytes|
  {
    if |bytes| == 0 {
      assert out + bytes == out;
    } else if |bytes| == 1 {
      assert bytes == [bytes[0]];
      DecodesOne(out, bytes[0]);
    } else if |bytes| == 2 {
      assert bytes == [bytes[0], bytes[1]];
      DecodesTwo(out, bytes[0], bytes[1]);
    } else {
      DecodesThree(out, bytes[0], bytes[1], bytes[2], EncodePadded(bytes[3..]));
      DecodesBack(out + [bytes[0], bytes[1], bytes[2]], bytes[3..]);
      assert out + bytes == out + [bytes[0], bytes[1], bytes[2]] + bytes[3..];
    }
  }

  lemma DecodeUndoesEncode(bytes: seq<Byte>)
    ensures B64Decode(B64Encode(bytes)) == Some(bytes)
  {
    var text := B64Encode(bytes);
    PaddingIsRestored(bytes);
    DecodesBack([], bytes);
    assert [] + bytes == bytes;
    assert IsAscii(text + Pads(PadCount(|text|)));
  }

  // ---------------------------------------------------------------------------------------------
  // The letters and bits of RFC 4648
  // ---------------------------------------------------------------------------------------------

  function Stretch(first: char, n: nat): string
    requires first < '\U{80}' && n <= 26
  {
    seq(n, i requires 0 <= i < n => (first as int + i) as char)
  }

  /** Table 2 of section 5. */
  lemma LettersAreTheTable(k: Sextet)
    ensures Letter(k) == ("ABCDEFGHIJKLMNOPQRSTUVWXYZ" + "abcdefghijklmnopqrstuvwxyz" + "0123456789" + "-_")[k]
  {
    assert Stretch('A', 26) == "ABCDEFGHIJKLMNOPQRSTUVWXYZ";
    assert Stretch('a', 26) == "abcdefghijklmnopqrstuvwxyz";
    assert Stretch('0', 10) == "0123456789";
  }

  lemma DivisionIsUnique(q: int, r: Sextet)
    ensures (q * 64 + r) / 64 == q && (q * 64 + r) % 64 == r
  {
  }

  /** Section 4: the 24 bits of three bytes, most significant first, cut into four times six. */
  lemma QuadIsNumber(a: Byte, b: Byte, c: Byte)
    ensures var n := (a * 256 + b) * 256 + c;
      Quad(a, b, c) == [Letter(n / 64 / 64 / 64), Letter(n / 64 / 64 % 64), Letter(n / 64 % 64), Letter(n % 64)]
  {
    DivisionIsUnique(a * 1024 + b * 4 + c / 64, c % 64);
    DivisionIsUnique(a * 16 + b / 16, b % 16 * 4 + c / 64);
    DivisionIsUnique(a / 4, a % 4 * 16 + b / 16);
  }

  /** What the decoder reads: the letters of the table, and the two of section 4 for `-` and `_`. */
  predicate InAlphabet(c: char) {
    'A' <= c <= 'Z' || 'a' <= c <= 'z' || '0' <= c <= '9' || c in "-_+/"
  }

  function CountLetters(text: string): nat {
    if text == "" then 0 else (if InAlphabet(text[0]) then 1 else 0) + CountLetters(text[1..])
  }

  function PlaceIndex(place: Place): nat {
    match place
    case AtStart => 0
    case AfterOne(_) => 1
    case AfterTwo(_) => 2
    case AfterThree(_) => 3
  }

  lemma {:induction false} FeedCounts(d: Decoder, text: string)
    requires !d.finished && d.pads == 0 && '=' !in text
    ensures var e := FeedAll(d, text);
      !e.finished && e.pads == 0 && PlaceIndex(e.place) == (PlaceIndex(d.place) + CountLetters(text)) % 4
    decreases text
  {
    if text != "" {
      assert text[0] in text;
      FeedCounts(Feed(d, text[0]), text[1..]);
    }
  }

  lemma {:induction false} FeedAppended(d: Decoder, text: string, rest: string)
    ensures FeedAll(d, text + rest) == FeedAll(FeedAll(d, text), rest)
    decreases text
  {
    if text == "" {
      assert text + rest == rest;
    } else {
      assert text + rest == [text[0]] + (text[1..] + rest);
      FeedOne(d, text[0], text[1..] + rest);
      FeedAppended(Feed(d, text[0]), text[1..], rest);
    }
  }

  lemma FeedPads(d: Decoder, n: nat)
    requires !d.finished && d.pads == 0 && n < 4
    ensures var e := FeedAll(d, Pads(n));
      (e.finished || e.place == AtStart) <==>
        PlaceIndex(d.place) == 0 || (PlaceIndex(d.place) == 2 && n >= 2) || (PlaceIndex(d.place) == 3 && n >= 1)
  {
    if n == 3 {
      assert Pads(3) == ['='] + ['=', '='] && ['=', '='] == ['='] + ['='];
      FeedOne(d, '=', ['=', '=']);
      FeedOne(Feed(d, '='), '=', ['=']);
    } else if n == 2 {
      assert Pads(2) == ['='] + ['='];
      FeedOne(d, '=', ['=']);
    } else if n == 1 {
      assert Pads(1) == ['='];
    }
  }

  /** Which texts without a pad the lenient decoder refuses: it counts only letters of the alphabet,
      while the restored padding counts every character. */
  lemma DecodesExactly(text: string)
    requires '=' !in text
    ensures B64Decode(text).Some? <==>
      && IsAscii(text)
      && CountLetters(text) % 4 != 1
      && (CountLetters(text) % 4 == 2 ==> |text| % 4 == 1 || |text| % 4 == 2)
      && (CountLetters(text) % 4 == 3 ==> |text| % 4 != 0)
  {
    var start, pads := Decoder([], AtStart, 0, false), Pads(PadCount(|text|));
    AsciiWithPads(text, PadCount(|text|));
    FeedCounts(start, text);
    FeedAppended(start, text, pads);
    FeedPads(FeedAll(start, text), PadCount(|text|));
    assert B64Decode(text).Some? <==>
      IsAscii(text) && (FeedAll(start, text + pads).finished || FeedAll(start, text + pads).place == AtStart);
    PadCountOf(|text|);
  }

  lemma PadCountOf(n: nat)
    ensures n % 4 == 0 ==> PadCount(n) == 0
    ensures n % 4 == 1 ==> PadCount(n) == 3
    ensures n % 4 == 2 ==> PadCount(n) == 2
    ensures n % 4 == 3 ==> PadCount(n) == 1
  {
  }

  lemma AsciiWithPads(text: string, n: nat)
    ensures IsAscii(text + Pads(n)) <==> IsAscii(text)
  {
    assert forall i :: 0 <= i < |text| ==> (text + Pads(n))[i] == text[i];
  }

  // ---------------------------------------------------------------------------------------------
  // Joining and splitting
  // ---------------------------------------------------------------------------------------------

  /** The text before and after the first `$`. */
  function Cut(s: string): Option<(string, string)> {
    if s == "" then None
    else if s[0] == '$' then Some(("", s[1..]))
    else match Cut(s[1..])
      case None => None
      case Some((before, after)) => Some(([s[0]] + before, after))
  }

  datatype Parts = Parts(algorithm: string, iterations: string, salt: string, digest: string)

  /** `split("$", maxsplit=3)`, None when it does not give four parts. */
  function Split(s: string): Option<Parts> {
    match Cut(s)
    case None => None
    case Some((algorithm, rest)) =>
      match Cut(rest)
      case None => None
      case Some((iterations, rest)) =>
        match Cut(rest)
        case None => None
        case Some((salt, digest)) => Some(Parts(algorithm, iterations, salt, digest))
  }

  /** `"$".join(...)` */
  function Join(p: Parts): string {
    p.algorithm + ("$" + (p.iterations + ("$" + (p.salt + ("$" + p.digest)))))
  }

  lemma {:induction false} CutUndoesJoin(before: string, after: string)
    requires '$' !in before
    ensures Cut(before + ("$" + after)) == Some((before, after))
  {
    var s := before + ("$" + after);
    if before == "" {
      assert s[1..] == after;
    } else {
      CutUndoesJoin(before[1..], after);
      assert s[1..] == before[1..] + ("$" + after);
      assert s[0] == before[0] && s[0] != '$';
      assert [before[0]] + before[1..] == before;
    }
  }

  lemma {:induction false} JoinUndoesCut(s: string)
    ensures Cut(s) == None <==> '$' !in s
    ensures Cut(s).Some? ==> s == Cut(s).value.0 + ("$" + Cut(s).value.1) && '$' !in Cut(s).value.0
  {
    if s != "" && s[0] != '$' {
      JoinUndoesCut(s[1..]);
      assert s == [s[0]] + s[1..];
    } else if s != "" {
      assert s == "" + ("$" + s[1..]);
    }
  }

  /** Four parts are exactly what their joined text splits into, if only the last contains `$`. */
  lemma SplitExactly(s: string, p: Parts)
    ensures Split(s) == Some(p) <==>
      s == Join(p) && '$' !in p.algorithm && '$' !in p.iterations && '$' !in p.salt
  {
    if Split(s) == Some(p) {
      JoinUndoesCut(s);
      var rest := Cut(s).value.1;
      JoinUndoesCut(rest);
      JoinUndoesCut(Cut(rest).value.1);
    }
    if s == Join(p) && '$' !in p.algorithm && '$' !in p.iterations && '$' !in p.salt {
      CutUndoesJoin(p.algorithm, p.iterations + ("$" + (p.salt + ("$" + p.digest))));
      CutUndoesJoin(p.iterations, p.salt + ("$" + p.digest));
      CutUndoesJoin(p.salt, p.digest);
    }
  }

  // ---------------------------------------------------------------------------------------------
  // Hashing and verifying
  // ---------------------------------------------------------------------------------------------

  /** The key derivation: password, salt and iterations to a digest, None when it raises. */
  type Kdf = (string, seq<Byte>, int) -> Option<seq<Byte>>

  datatype Verdict = Accepted | Refused | Raises

  /** `hash_password` with its random salt and the configured iterations as inputs. */
  function HashPassword(kdf: Kdf, password: string, salt: seq<Byte>, iterations: nat): Option<string> {
    match kdf(password, salt, iterations)
    case None => None
    case Some(digest) => Some(Join(Parts(ALGORITHM, DecimalText(iterations), B64Encode(salt), B64Encode(digest))))
  }

  /** `verify_password` */
  function VerifyPassword(kdf: Kdf, password: string, encoded: string): Verdict {
    match Split(encoded)
    case None => Refused
    case Some(p) =>
      var iterations, salt, expected := ParseInt(p.iterations), B64Decode(p.salt), B64Decode(p.digest);
      if iterations.None? || salt.None? || expected.None? || p.algorithm != ALGORITHM then Refused
      else
        match kdf(password, salt.value, iterations.value)
        case None => Raises
        case Some(actual) => if actual == expected.value then Accepted else Refused
  }

  /** The stored text reads back as the algorithm, the iterations, the salt and the digest. */
  lemma HashReadsBack(salt: seq<Byte>, iterations: nat, digest: seq<Byte>)
    ensures var p := Parts(ALGORITHM, DecimalText(iterations), B64Encode(salt), B64Encode(digest));
      && Split(Join(p)) == Some(p) && ParseInt(p.iterations) == Some(iterations)
      && B64Decode(p.salt) == Some(salt) && B64Decode(p.digest) == Some(digest)
  {
    var p := Parts(ALGORITHM, DecimalText(iterations), B64Encode(salt), B64Encode(digest));
    ParseDecimal(iterations);
    DecimalRoundTrip(iterations);
    DecodeUndoesEncode(salt);
    DecodeUndoesEncode(digest);
    PaddingIsRestored(salt);
    NoSeparator();
    SplitExactly(Join(p), p);
  }

  lemma NoSeparator()
    ensures '$' !in ALGORITHM
  {
  }

  /** For every password, salt and iteration count, and whatever the setting is when it is checked:
      a password is accepted against a stored hash exactly when it derives the same digest from the
      stored salt and iterations. The password that was hashed always is. */
  lemma VerifyAcceptsExactly(kdf: Kdf, password: string, salt: seq<Byte>, iterations: nat, other: string)
    requires HashPassword(kdf, password, salt, iterations).Some?
    ensures VerifyPassword(kdf, other, HashPassword(kdf, password, salt, iterations).value) == Accepted
      <==> kdf(other, salt, iterations) == kdf(password, salt, iterations)
    ensures VerifyPassword(kdf, password, HashPassword(kdf, password, salt, iterations).value) == Accepted
  {
    HashReadsBack(salt, iterations, kdf(password, salt, iterations).value);
  }

  /** The text has the form `pbkdf2_sha256$iterations$salt$digest` and names these three values. */
  ghost predicate Names(text: string, iterations: int, salt: seq<Byte>, digest: seq<Byte>) {
    exists numeral, first, second ::
      && '$' !in numeral && '$' !in first && text == "pbkdf2_sha256" + ("$" + (numeral + ("$" + (first + ("$" + second)))))
      && ParseInt(numeral) == Some(iterations) && B64Decode(first) == Some(salt) && B64Decode(second) == Some(digest)
  }

  /** The same by splitting the text. */
  ghost predicate Reads(text: string, iterations: int, salt: seq<Byte>, digest: seq<Byte>) {
    && Split(text).Some? && Split(text).value.algorithm == "pbkdf2_sha256"
    && ParseInt(Split(text).value.iterations) == Some(iterations)
    && B64Decode(Split(text).value.salt) == Some(salt) && B64Decode(Split(text).value.digest) == Some(digest)
  }

  lemma NamesExactly(text: string, iterations: int, salt: seq<Byte>, digest: seq<Byte>)
    ensures Names(text, iterations, salt, digest) <==> Reads(text, iterations, salt, digest)
  {
    if numeral, first, second :|
      && '$' !in numeral && '$' !in first && text == "pbkdf2_sha256" + ("$" + (numeral + ("$" + (first + ("$" + second)))))
      && ParseInt(numeral) == Some(iterations) && B64Decode(first) == Some(salt) && B64Decode(second) == Some(digest)
    {
      NoSeparator();
      var p := Parts("pbkdf2_sha256", numeral, first, second);
      assert text == Join(p);
      SplitExactly(text, p);
    }
    if Split(text).Some? {
      SplitExactly(text, Split(text).value);
    }
  }

  /** The verdict on every text, stored by `hash_password` or not: it is refused unless it has the
      form and names values, and then the derived digest decides. */
  lemma VerdictExactly(kdf: Kdf, password: string, text: string)
    ensures VerifyPassword(kdf, password, text) == Accepted <==>
      exists n, salt, digest :: Names(text, n, salt, digest) && kdf(password, salt, n) == Some(digest)
    ensures VerifyPassword(kdf, password, text) == Raises <==>
      exists n, salt, digest :: Names(text, n, salt, digest) && kdf(password, salt, n) == None
  {
    forall n, salt, digest
      ensures Names(text, n, salt, digest) <==> Reads(text, n, salt, digest)
    {
      NamesExactly(text, n, salt, digest);
    }
    if VerifyPassword(kdf, password, text) != Refused {
      var p := Split(text).value;
      assert Reads(text, ParseInt(p.iterations).value, B64Decode(p.salt).value, B64Decode(p.digest).value);
    }
  }
}
