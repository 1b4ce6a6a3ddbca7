/** What the preview shows of a text that was written as a JSON string (section 7 of RFC 8259), whatever
    escapes the writer chose and wherever the stream is cut
    (shared/toolCallPreview.ts, lines 72-150, 347-354 and 368-407). */
module PreviewText {
  import opened Options
  import opened PreviewLexer
  import opened PreviewStream

  // ----- writing a string

  const SLASH: Unit := 47

  /** The short escapes: the letter after the backslash, and the code unit it stands for. */
  const SHORT_ESCAPES: set<(Unit, Unit)> := {
    (QUOTE, QUOTE), (BACKSLASH, BACKSLASH), (SLASH, SLASH),
    (98, 8),    // b: backspace
    (102, 12),  // f: form feed
    (110, 10),  // n: line feed
    (114, 13),  // r: carriage return
    (116, 9)    // t: tab
  }

  /** The hexadecimal digit for a value below 16, in either case. */
  predicate IsDigitOf(digit: Unit, value: int) {
    if 0 <= value < 10 then digit == 48 + value
    else 10 <= value < 16 && (digit == 97 + (value - 10) || digit == 65 + (value - 10))
  }

  predicate AreDigitsOf(digits: Text, c: Unit) {
    && |digits| == 4 && 0 <= c < 0x1_0000
    && IsDigitOf(digits[0], c / 0x1000) && IsDigitOf(digits[1], c / 0x100 % 16)
    && IsDigitOf(digits[2], c / 0x10 % 16) && IsDigitOf(digits[3], c % 16)
  }

  /** A code unit and one of the ways to write it: as it is, by a short escape, or by its four digits. */
  datatype Written = Plain(c: Unit) | Short(letter: Unit, c: Unit) | Long(digits: Text, c: Unit)

  predicate IsWritten(w: Written) {
    match w
    case Plain(c) => 32 <= c < 0x1_0000 && c != QUOTE && c != BACKSLASH
    case Short(letter, c) => (letter, c) in SHORT_ESCAPES
    case Long(digits, c) => AreDigitsOf(digits, c)
  }

  predicate AllWritten(text: seq<Written>) {
    forall i | 0 <= i < |text| :: IsWritten(text[i])
  }

  function Letters(w: Written): Text {
    match w
    case Plain(c) => [c]
    case Short(letter, _) => [BACKSLASH, letter]
    case Long(digits, _) => [BACKSLASH, LETTER_U] + digits
  }

  /** The body of the string, up to its closing quote. */
  function Body(text: seq<Written>): Text {
    if text == [] then [] else Letters(text[0]) + Body(text[1..])
  }

  /** The text that was written. */
  function Meant(text: seq<Written>): Text {
    seq(|text|, i requires 0 <= i < |text| => text[i].c)
  }

  /** One way to write any text of code units: control characters by their digits. */
  function Escaped(text: Text): seq<Written>
    requires forall i | 0 <= i < |text| :: 0 <= text[i] < 0x1_0000
  {
    seq(|text|, i requires 0 <= i < |text| =>
      if text[i] == QUOTE || text[i] == BACKSLASH then Short(text[i], text[i])
      else if text[i] >= 32 then Plain(text[i])
      else Long(DigitsOf(text[i]), text[i]))
  }

  function DigitOf(value: int): Unit {
    if value < 10 then 48 + value else 97 + (value - 10)
  }

  function DigitsOf(c: Unit): Text {
    [DigitOf(c / 0x1000), DigitOf(c / 0x100 % 16), DigitOf(c / 0x10 % 16), DigitOf(c % 16)]
  }

  lemma EveryTextCanBeWritten(text: Text)
    requires forall i | 0 <= i < |text| :: 0 <= text[i] < 0x1_0000
    ensures AllWritten(Escaped(text)) && Meant(Escaped(text)) == text
  {}

  // ----- reading it back

  lemma DigitIsHex(digit: Unit, value: int)
    requires IsDigitOf(digit, value)
    ensures IsHexDigit(digit) && (if digit <= 57 then digit - 48 else if digit <= 70 then digit - 55 else digit - 87) == value
  {}

  /** Reading four digits gives back the code unit. */
  lemma DigitsReadBack(digits: Text, c: Unit)
    requires AreDigitsOf(digits, c)
    ensures AllHex(digits) && HexValue(digits) == c
  {
    var a, b, d, e := c / 0x1000, c / 0x100 % 16, c / 0x10 % 16, c % 16;
    DigitIsHex(digits[0], a);
    DigitIsHex(digits[1], b);
    DigitIsHex(digits[2], d);
    DigitIsHex(digits[3], e);
    assert digits[..3][..2] == digits[..2] && digits[..2][..1] == digits[..1] && digits[..1][..0] == [];
    assert HexValue(digits[..1]) == a;
    assert HexValue(digits[..2]) == 16 * a + b;
    assert HexValue(digits[..3]) == 16 * (16 * a + b) + d;
    assert HexValue(digits) == 16 * (16 * (16 * a + b) + d) + e;
    Nibbles(c);
  }

  lemma Nibbles(c: Unit)
    requires 0 <= c < 0x1_0000
    ensures 16 * (16 * (16 * (c / 0x1000) + c / 0x100 % 16) + c / 0x10 % 16) + c % 16 == c
  {
    assert c / 0x100 == 16 * (c / 0x1000) + c / 0x100 % 16;
    assert c / 0x10 == 16 * (c / 0x100) + c / 0x10 % 16;
  }

  lemma ShortReadsBack(letter: Unit, c: Unit)
    requires (letter, c) in SHORT_ESCAPES
    ensures letter != LETTER_U && SimpleEscape(letter) == c
  {}

  lemma OneReadsBack(w: Written, rest: Text)
    requires IsWritten(w)
    ensures Fragment(Letters(w) + rest) == Prefixed(w.c, Fragment(rest))
    ensures WellFormed(rest) ==> WellFormed(Letters(w) + rest)
  {
    var source := Letters(w) + rest;
    match w
    case Plain(c) => assert source[1..] == rest;
    case Short(letter, c) =>
      ShortReadsBack(letter, c);
      assert source[2..] == rest;
    case Long(digits, c) =>
      DigitsReadBack(digits, c);
      assert source[2..6] == digits && source[6..] == rest;
  }

  /** The fragment decoder reads back what was written: so far while it is open, and all of it once it is closed. */
  lemma {:induction false} DecodesWhatWasWritten(text: seq<Written>, closed: bool)
    requires AllWritten(text)
    ensures var source := Body(text) + if closed then [QUOTE] else [];
      WellFormed(source) && Fragment(source) == FieldState(Meant(text), closed)
  {
    hide Fragment, WellFormed, IsWritten, Letters;
    var end: Text := if closed then [QUOTE] else [];
    if text == [] {
      assert [] + end == end;
      EndReadsBack(closed);
    } else {
      DecodesWhatWasWritten(text[1..], closed);
      OneReadsBack(text[0], Body(text[1..]) + end);
      assert Body(text) + end == Letters(text[0]) + (Body(text[1..]) + end);
      assert Meant(text) == [text[0].c] + Meant(text[1..]);
    }
  }

  lemma EndReadsBack(closed: bool)
    ensures var end: Text := if closed then [QUOTE] else [];
      WellFormed(end) && Fragment(end) == FieldState([], closed)
  {}

  /** However its JSON is cut into deltas, and whichever escapes it was written with, a member shows the very text
      that was written, closed once its quote has come, and no other field changes. */
  lemma ShowsWhatWasWritten(s: Lexer, deltas: seq<Text>, name: Text, before: Text, after: Text, text: seq<Written>, closed: bool)
    requires Idle(s.control) && name in NAMES && AllSpace(before) && AllSpace(after) && AllWritten(text)
    requires Joined(deltas) == MemberStart(name, before, after) + (Body(text) + if closed then [QUOTE] else [])
    ensures AdvanceEach(s, deltas).fields == s.fields[name := FieldState(Meant(text), closed)]
  {
    var body := Body(text) + if closed then [QUOTE] else [];
    DecodesWhatWasWritten(text, closed);
    FieldInPieces(s, deltas, name, before, after, body);
  }
}
