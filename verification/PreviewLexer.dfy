/** The incremental lexer that shows the string fields of a tool call while its JSON arguments arrive
    (shared/toolCallPreview.ts, lines 72-150, 269-353 and 368-407). */
module PreviewLexer {
  import opened Options

  /** A UTF-16 code unit, and strings of them. */
  type Unit = int
  type Text = seq<Unit>

  const QUOTE: Unit := 34
  const BACKSLASH: Unit := 92
  const COLON: Unit := 58
  const LETTER_U: Unit := 117

  function Units(s: string): Text {
    seq(|s|, i requires 0 <= i < |s| => s[i] as int)
  }

  const NAMES: set<Text> := {
    Units("path"), Units("title"), Units("content"), Units("plan"),
    Units("command"), Units("explanation"), Units("oldContent"), Units("newContent")
  }

  /** The characters matched by \s. */
  predicate IsSpace(c: Unit) {
    9 <= c <= 13 || c in {32, 160, 0x1680, 0x2028, 0x2029, 0x202F, 0x205F, 0x3000, 0xFEFF} || 0x2000 <= c <= 0x200A
  }

  predicate IsHexDigit(c: Unit) {
    48 <= c <= 57 || 65 <= c <= 70 || 97 <= c <= 102
  }

  function HexValue(digits: Text): int {
    if digits == [] then 0
    else
      var d := digits[|digits| - 1];
      16 * HexValue(digits[..|digits| - 1]) + (if d <= 57 then d - 48 else if d <= 70 then d - 55 else d - 87)
  }

  function SimpleEscape(c: Unit): Unit {
    if c == 110 then 10 else if c == 114 then 13 else if c == 116 then 9 else if c == 98 then 8 else if c == 102 then 12 else c
  }

  datatype Role = NoRole | KeyRole | FieldRole | OtherRole
  datatype Escape = NoEscape | Escaped | Unicode
  datatype FieldState = FieldState(value: Text, closed: bool)
  type Fields = map<Text, FieldState>

  /** Where the lexer stands in the text. */
  datatype Control = Control(scanned: nat, inString: bool, role: Role, keyCandidate: Text, keyStillRelevant: bool,
                             pendingKey: Option<Text>, awaitingColon: bool, awaitingValue: bool, escape: Escape, digits: Text)

  datatype Lexer = Lexer(control: Control, fields: Fields)

  const EMPTY := Lexer(Control(0, false, NoRole, [], true, None, false, false, NoEscape, []), map[])

  /** What a character does to the fields. */
  datatype Effect = Nothing | OpenField(name: Text) | CloseField(name: Text) | Decoded(name: Text, text: Text)
  datatype Stepped = Stepped(control: Control, effect: Effect)

  // ----- one character

  function Open(s: Control, role: Role): Stepped {
    var next := s.(inString := true, role := role, escape := NoEscape, digits := []);
    if role == KeyRole then Stepped(next.(keyCandidate := [], keyStillRelevant := true), Nothing)
    else if role == FieldRole && s.pendingKey.Some? then Stepped(next, OpenField(s.pendingKey.value))
    else Stepped(next, Nothing)
  }

  function Close(s: Control): Stepped {
    var next := s.(inString := false, role := NoRole, escape := NoEscape, digits := []);
    if s.role == KeyRole then
      Stepped(next.(pendingKey := if s.keyStillRelevant && s.keyCandidate in NAMES then Some(s.keyCandidate) else None,
                    awaitingColon := true), Nothing)
    else Stepped(next.(pendingKey := None),
                 if s.role == FieldRole && s.pendingKey.Some? then CloseField(s.pendingKey.value) else Nothing)
  }

  function Append(s: Control, text: Text): Stepped {
    if s.role == KeyRole then
      if !s.keyStillRelevant then Stepped(s, Nothing)
      else
        var candidate := s.keyCandidate + text;
        Stepped(s.(keyCandidate := candidate, keyStillRelevant := exists name | name in NAMES :: candidate <= name), Nothing)
    else Stepped(s, if s.role == FieldRole && s.pendingKey.Some? then Decoded(s.pendingKey.value, text) else Nothing)
  }

  /** The escape is over. */
  function Ended(stepped: Stepped): Stepped {
    stepped.(control := stepped.control.(escape := NoEscape, digits := []))
  }

  function InString(s: Control, c: Unit): Stepped {
    match s.escape
    case Unicode =>
      if !IsHexDigit(c) then Ended(Append(s, [LETTER_U] + s.digits + [c]))
      else if |s.digits| + 1 == 4 then Ended(Append(s, [HexValue(s.digits + [c])]))
      else Stepped(s.(digits := s.digits + [c]), Nothing)
    case Escaped =>
      if c == LETTER_U then Stepped(s.(escape := Unicode, digits := []), Nothing)
      else
        var appended := Append(s, [SimpleEscape(c)]);
        appended.(control := appended.control.(escape := NoEscape))
    case NoEscape =>
      if c == BACKSLASH then Stepped(s.(escape := Escaped), Nothing)
      else if c == QUOTE then Close(s)
      else Append(s, [c])
  }

  function BetweenStrings(s: Control, c: Unit): Stepped {
    if s.awaitingValue then
      if IsSpace(c) then Stepped(s, Nothing)
      else if c == QUOTE then Open(s.(awaitingValue := false), if s.pendingKey.Some? then FieldRole else OtherRole)
      else Stepped(s.(awaitingValue := false, pendingKey := None), Nothing)
    else if c == QUOTE then Open(s, KeyRole)
    else Stepped(s, Nothing)
  }

  function Step(current: Control, c: Unit): Stepped {
    var s := current.(scanned := current.scanned + 1);
    if s.inString then InString(s, c)
    else if !s.awaitingColon then BetweenStrings(s, c)
    else if IsSpace(c) then Stepped(s, Nothing)
    else if c == COLON then Stepped(s.(awaitingColon := false, awaitingValue := true), Nothing)
    else BetweenStrings(s.(awaitingColon := false, pendingKey := None), c)
  }

  function Marked(fields: Fields, effect: Effect): Fields {
    match effect
    case OpenField(name) => fields[name := FieldState([], false)]
    case CloseField(name) => if name in fields then fields[name := fields[name].(closed := true)] else fields
    case _ => fields
  }

  function ValueOf(fields: Fields, name: Text): Text {
    if name in fields then fields[name].value else []
  }

  predicate IsClosed(fields: Fields, name: Text) {
    name in fields && fields[name].closed
  }

  function WithText(fields: Fields, name: Text, text: Text): Fields {
    fields[name := FieldState(ValueOf(fields, name) + text, IsClosed(fields, name))]
  }

  // ----- a delta, with its text held back until the end

  type Texts = map<Text, Text>

  function Held(decoded: Texts, name: Text): Text {
    if name in decoded then decoded[name] else []
  }

  datatype Scan = Scan(state: Lexer, decoded: Texts)

  function ScanChar(scan: Scan, c: Unit): Scan {
    var stepped := Step(scan.state.control, c);
    Scan(Lexer(stepped.control, Marked(scan.state.fields, stepped.effect)),
         if stepped.effect.Decoded? then scan.decoded[stepped.effect.name := Held(scan.decoded, stepped.effect.name) + stepped.effect.text]
         else scan.decoded)
  }

  function ScanAll(scan: Scan, delta: Text): Scan {
    if delta == [] then scan else ScanChar(ScanAll(scan, delta[..|delta| - 1]), delta[|delta| - 1])
  }

  function Merged(fields: Fields, decoded: Texts): Fields {
    map name | name in fields.Keys + decoded.Keys :: FieldState(ValueOf(fields, name) + Held(decoded, name), IsClosed(fields, name))
  }

  function Advance(current: Lexer, delta: Text): Lexer {
    var scan := ScanAll(Scan(current, map[]), delta);
    Lexer(scan.state.control, Merged(scan.state.fields, scan.decoded))
  }

  // ----- the same, one character at a time

  function Ideal(current: Lexer, c: Unit): Lexer {
    var stepped := Step(current.control, c);
    var marked := Marked(current.fields, stepped.effect);
    Lexer(stepped.control, if stepped.effect.Decoded? then WithText(marked, stepped.effect.name, stepped.effect.text) else marked)
  }

  function IdealAll(current: Lexer, delta: Text): Lexer {
    if delta == [] then current else Ideal(IdealAll(current, delta[..|delta| - 1]), delta[|delta| - 1])
  }

  /** While a field's string is open, the field exists. */
  ghost predicate Sound(s: Lexer) {
    s.control.inString && s.control.role == FieldRole ==> s.control.pendingKey.Some? && s.control.pendingKey.value in s.fields
  }

  /** The character opens a field for which this delta has already decoded some text. */
  ghost predicate ReopensAt(scan: Scan, c: Unit) {
    var effect := Step(scan.state.control, c).effect;
    effect.OpenField? && Held(scan.decoded, effect.name) != []
  }

  ghost predicate Reopens(current: Lexer, delta: Text) {
    exists k: nat :: k < |delta| && ReopensAt(ScanAll(Scan(current, map[]), delta[..k]), delta[k])
  }

  // ----- the two agree exactly when nothing is reopened

  /** The held-back state, merged, is the ideal one with the lost text in front of each value. Text is lost
      for a field when this delta had decoded it before the field's string was opened last. */
  ghost predicate AgreesOn(fields: Fields, decoded: Texts, ideal: Fields, lost: Texts, name: Text) {
    && (name in ideal <==> name in fields || name in decoded)
    && ValueOf(fields, name) + Held(decoded, name) == Held(lost, name) + ValueOf(ideal, name)
    && (IsClosed(ideal, name) <==> IsClosed(fields, name))
    && |Held(lost, name)| <= |Held(decoded, name)|
  }

  ghost predicate Agrees(scan: Scan, ideal: Lexer, lost: Texts) {
    && scan.state.control == ideal.control && Sound(scan.state)
    && forall name :: AgreesOn(scan.state.fields, scan.decoded, ideal.fields, lost, name)
  }

  ghost function LostAfter(scan: Scan, lost: Texts, c: Unit): Texts {
    if ReopensAt(scan, c) then
      var name := Step(scan.state.control, c).effect.name;
      lost[name := Held(scan.decoded, name)]
    else lost
  }

  /** Text comes, and a field closes, only while its string is open. */
  lemma StepIsSound(s: Lexer, c: Unit)
    requires Sound(s)
    ensures var stepped := Step(s.control, c);
      && Sound(Lexer(stepped.control, Marked(s.fields, stepped.effect)))
      && (stepped.effect.Decoded? || stepped.effect.CloseField? ==> stepped.effect.name in s.fields)
      && (stepped.effect.Decoded? ==> stepped.effect.text != [])
  {
    if s.control.inString { InStringIsSound(s, c); } else { BetweenIsSound(s.control, c); }
    hide Step;
  }

  lemma InStringIsSound(s: Lexer, c: Unit)
    requires Sound(s) && s.control.inString
    ensures var stepped := Step(s.control, c);
      && Sound(Lexer(stepped.control, Marked(s.fields, stepped.effect))) && !stepped.effect.OpenField?
      && (stepped.effect.Decoded? || stepped.effect.CloseField? ==> stepped.effect.name in s.fields)
      && (stepped.effect.Decoded? ==> stepped.effect.text != [])
  {}

  lemma BetweenIsSound(s: Control, c: Unit)
    requires !s.inString
    ensures var stepped := Step(s, c);
      && (stepped.effect == Nothing || stepped.effect.OpenField?)
      && (stepped.control.inString && stepped.control.role == FieldRole ==>
            stepped.control.pendingKey.Some? && stepped.effect == OpenField(stepped.control.pendingKey.value))
  {}

  lemma Regroup(a: Text, b: Text, c: Text)
    ensures a + (b + c) == (a + b) + c
  {}

  lemma CharOnName(scan: Scan, ideal: Lexer, lost: Texts, c: Unit, name: Text)
    requires Agrees(scan, ideal, lost)
    ensures AgreesOn(ScanChar(scan, c).state.fields, ScanChar(scan, c).decoded, Ideal(ideal, c).fields, LostAfter(scan, lost, c), name)
  {
    var s := scan.state;
    assert AgreesOn(s.fields, scan.decoded, ideal.fields, lost, name);
    StepIsSound(s, c);
    var effect := Step(s.control, c).effect;
    hide Step;
    if effect.Decoded? && effect.name == name {
      Regroup(ValueOf(s.fields, name), Held(scan.decoded, name), effect.text);
      Regroup(Held(lost, name), ValueOf(ideal.fields, name), effect.text);
    }
  }

  lemma CharKeepsAgreement(scan: Scan, ideal: Lexer, lost: Texts, c: Unit)
    requires Agrees(scan, ideal, lost)
    ensures Agrees(ScanChar(scan, c), Ideal(ideal, c), LostAfter(scan, lost, c))
  {
    StepIsSound(scan.state, c);
    forall name ensures AgreesOn(ScanChar(scan, c).state.fields, ScanChar(scan, c).decoded, Ideal(ideal, c).fields, LostAfter(scan, lost, c), name) {
      CharOnName(scan, ideal, lost, c, name);
    }
    hide Step, AgreesOn, LostAfter;
  }

  /** No text was lost for any field. */
  ghost predicate NothingLost(lost: Texts) {
    forall name :: Held(lost, name) == []
  }

  lemma {:induction false} ScanAgrees(current: Lexer, delta: Text) returns (lost: Texts)
    requires Sound(current)
    ensures Agrees(ScanAll(Scan(current, map[]), delta), IdealAll(current, delta), lost)
    ensures NothingLost(lost) <==> !Reopens(current, delta)
  {
    if delta == [] {
      lost := map[];
    } else {
      var n := |delta| - 1;
      var before := ScanAgrees(current, delta[..n]);
      var scan := ScanAll(Scan(current, map[]), delta[..n]);
      CharKeepsAgreement(scan, IdealAll(current, delta[..n]), before, delta[n]);
      lost := LostAfter(scan, before, delta[n]);
      forall name ensures |Held(before, name)| <= |Held(scan.decoded, name)| {
        assert AgreesOn(scan.state.fields, scan.decoded, IdealAll(current, delta[..n]).fields, before, name);
      }
      LossesGrow(scan, before, delta[n]);
      ReopensOneMore(current, delta);
    }
  }

  lemma LossesGrow(scan: Scan, lost: Texts, c: Unit)
    requires forall name :: |Held(lost, name)| <= |Held(scan.decoded, name)|
    ensures NothingLost(LostAfter(scan, lost, c)) <==> NothingLost(lost) && !ReopensAt(scan, c)
  {
    hide Step;
    var after := LostAfter(scan, lost, c);
    if ReopensAt(scan, c) {
      assert Held(after, Step(scan.state.control, c).effect.name) != [];
    }
  }

  lemma ReopensOneMore(current: Lexer, delta: Text)
    requires delta != []
    ensures var n := |delta| - 1;
      Reopens(current, delta) <==> Reopens(current, delta[..n]) || ReopensAt(ScanAll(Scan(current, map[]), delta[..n]), delta[n])
  {
    hide ReopensAt, ScanAll;
    var n := |delta| - 1;
    if Reopens(current, delta) {
      var k: nat :| k < |delta| && ReopensAt(ScanAll(Scan(current, map[]), delta[..k]), delta[k]);
      assert k < n ==> delta[..n][..k] == delta[..k] && delta[..n][k] == delta[k];
    }
    if Reopens(current, delta[..n]) {
      var k: nat :| k < n && ReopensAt(ScanAll(Scan(current, map[]), delta[..n][..k]), delta[..n][k]);
      assert delta[..n][..k] == delta[..k] && delta[..n][k] == delta[k];
    }
  }

  lemma AgreementMerged(scan: Scan, ideal: Lexer, lost: Texts)
    requires Agrees(scan, ideal, lost)
    ensures Lexer(scan.state.control, Merged(scan.state.fields, scan.decoded)) == ideal <==> NothingLost(lost)
  {
    var merged := Merged(scan.state.fields, scan.decoded);
    forall name
      ensures (name in merged <==> name in ideal.fields) && ValueOf(merged, name) == Held(lost, name) + ValueOf(ideal.fields, name)
      ensures IsClosed(merged, name) <==> IsClosed(ideal.fields, name)
    {
      assert AgreesOn(scan.state.fields, scan.decoded, ideal.fields, lost, name);
    }
    if NothingLost(lost) {
      forall name | name in merged ensures name in ideal.fields && merged[name] == ideal.fields[name] {
        assert Held(lost, name) == [];
      }
      assert merged == ideal.fields;
    } else {
      var name :| Held(lost, name) != [];
      assert |ValueOf(merged, name)| > |ValueOf(ideal.fields, name)|;
    }
  }

  /** Advancing over a delta is reading it character by character exactly when no field is reopened after
      the delta has decoded text for it. */
  lemma AdvanceIsIdealExactly(current: Lexer, delta: Text)
    requires Sound(current)
    ensures Advance(current, delta) == IdealAll(current, delta) <==> !Reopens(current, delta)
  {
    var lost := ScanAgrees(current, delta);
    AgreementMerged(ScanAll(Scan(current, map[]), delta), IdealAll(current, delta), lost);
  }

  // ----- cutting the stream elsewhere

  lemma {:induction false} IdealJoin(current: Lexer, a: Text, b: Text)
    ensures IdealAll(current, a + b) == IdealAll(IdealAll(current, a), b)
  {
    if b == [] {
      assert a + b == a;
    } else {
      hide IdealAll;
      var n := |b| - 1;
      IdealJoin(current, a, b[..n]);
      assert a + b == a + b[..n] + [b[n]] && b == b[..n] + [b[n]];
      IdealPush(current, a + b[..n], b[n]);
      IdealPush(IdealAll(current, a), b[..n], b[n]);
    }
  }

  lemma {:induction false} IdealIsSound(current: Lexer, delta: Text)
    requires Sound(current)
    ensures Sound(IdealAll(current, delta))
  {
    if delta != [] {
      IdealIsSound(current, delta[..|delta| - 1]);
      StepIsSound(IdealAll(current, delta[..|delta| - 1]), delta[|delta| - 1]);
      hide Step;
    }
  }

  /** A scan that starts in the middle stands where the whole scan stands, with no more text held. */
  ghost predicate NoMoreHeld(part: Scan, whole: Scan) {
    && part.state.control == whole.state.control
    && forall name :: Held(part.decoded, name) != [] ==> Held(whole.decoded, name) != []
  }

  lemma {:induction false} ScanFromMiddle(current: Lexer, a: Text, b: Text)
    requires Sound(current)
    ensures NoMoreHeld(ScanAll(Scan(IdealAll(current, a), map[]), b), ScanAll(Scan(current, map[]), a + b))
  {
    hide Agrees, IdealAll, Sound, NoMoreHeld, ScanChar;
    if b == [] {
      assert a + b == a;
      var lost := ScanAgrees(current, a);
      SameControl(current, a, lost);
    } else {
      var n := |b| - 1;
      ScanFromMiddle(current, a, b[..n]);
      assert (a + b)[..|a + b| - 1] == a + b[..n];
      NoMoreHeldStep(ScanAll(Scan(IdealAll(current, a), map[]), b[..n]), ScanAll(Scan(current, map[]), a + b[..n]), b[n]);
    }
  }

  lemma SameControl(current: Lexer, a: Text, lost: Texts)
    requires Agrees(ScanAll(Scan(current, map[]), a), IdealAll(current, a), lost)
    ensures NoMoreHeld(ScanAll(Scan(IdealAll(current, a), map[]), []), ScanAll(Scan(current, map[]), a))
  {}

  lemma NoMoreHeldStep(part: Scan, whole: Scan, c: Unit)
    requires NoMoreHeld(part, whole)
    ensures NoMoreHeld(ScanChar(part, c), ScanChar(whole, c))
  {
    hide Step;
    var effect := Step(part.state.control, c).effect;
    forall name | Held(ScanChar(part, c).decoded, name) != [] ensures Held(ScanChar(whole, c).decoded, name) != [] {
      assert Held(part.decoded, name) != [] ==> Held(whole.decoded, name) != [];
      if effect.Decoded? && effect.name == name {
        assert |Held(ScanChar(part, c).decoded, name)| == |Held(part.decoded, name)| + |effect.text|;
        assert |Held(ScanChar(whole, c).decoded, name)| == |Held(whole.decoded, name)| + |effect.text|;
      }
    }
  }

  lemma ReopensInPart(current: Lexer, a: Text, b: Text)
    requires Sound(current)
    ensures Reopens(current, a) || Reopens(IdealAll(current, a), b) ==> Reopens(current, a + b)
  {
    if Reopens(current, a) {
      var k: nat :| k < |a| && ReopensAt(ScanAll(Scan(current, map[]), a[..k]), a[k]);
      assert (a + b)[..k] == a[..k] && (a + b)[k] == a[k];
    } else if Reopens(IdealAll(current, a), b) {
      var k: nat :| k < |b| && ReopensAt(ScanAll(Scan(IdealAll(current, a), map[]), b[..k]), b[k]);
      ScanFromMiddle(current, a, b[..k]);
      hide Step, ScanAll;
      assert (a + b)[..|a| + k] == a + b[..k] && (a + b)[|a| + k] == b[k];
    }
  }

  /** The pieces of a stream that reopens no field do what the whole does; when neither piece alone reopens one,
      they differ as soon as the whole does. */
  lemma PiecesWithoutReopening(current: Lexer, a: Text, b: Text)
    requires Sound(current)
    ensures !Reopens(current, a + b) ==> Advance(Advance(current, a), b) == Advance(current, a + b)
    ensures !Reopens(current, a) && !Reopens(IdealAll(current, a), b) ==>
      (Advance(Advance(current, a), b) == Advance(current, a + b) <==> !Reopens(current, a + b))
  {
    hide Advance, Reopens, IdealAll, Sound;
    IdealJoin(current, a, b);
    IdealIsSound(current, a);
    ReopensInPart(current, a, b);
    AdvanceIsIdealExactly(current, a);
    AdvanceIsIdealExactly(IdealAll(current, a), b);
    AdvanceIsIdealExactly(current, a + b);
  }

  // ----- where a cut can be noticed

  predicate OpensAt(scan: Scan, c: Unit, name: Text) {
    Step(scan.state.control, c).effect == OpenField(name)
  }

  /** Some character of the delta opens the field's string. */
  ghost predicate Opens(current: Lexer, delta: Text, name: Text) {
    exists k: nat :: k < |delta| && OpensAt(ScanAll(Scan(current, map[]), delta[..k]), delta[k], name)
  }

  lemma OpensOneMore(current: Lexer, delta: Text, name: Text)
    requires delta != []
    ensures var n := |delta| - 1;
      Opens(current, delta, name) <==> Opens(current, delta[..n], name) || OpensAt(ScanAll(Scan(current, map[]), delta[..n]), delta[n], name)
  {
    hide OpensAt, ScanAll;
    var n := |delta| - 1;
    if Opens(current, delta, name) {
      var k: nat :| k < |delta| && OpensAt(ScanAll(Scan(current, map[]), delta[..k]), delta[k], name);
      assert k < n ==> delta[..n][..k] == delta[..k] && delta[..n][k] == delta[k];
    }
    if Opens(current, delta[..n], name) {
      var k: nat :| k < n && OpensAt(ScanAll(Scan(current, map[]), delta[..n][..k]), delta[..n][k], name);
      assert delta[..n][..k] == delta[..k] && delta[..n][k] == delta[k];
    }
  }

  lemma {:induction false} ScanJoin(scan: Scan, a: Text, b: Text)
    ensures ScanAll(scan, a + b) == ScanAll(ScanAll(scan, a), b)
  {
    if b == [] {
      assert a + b == a;
    } else {
      hide ScanAll;
      var n := |b| - 1;
      ScanJoin(scan, a, b[..n]);
      assert a + b == a + b[..n] + [b[n]] && b == b[..n] + [b[n]];
      ScanPush(scan, a + b[..n], b[n]);
      ScanPush(ScanAll(scan, a), b[..n], b[n]);
    }
  }

  lemma ScanPush(scan: Scan, text: Text, c: Unit)
    ensures ScanAll(scan, text + [c]) == ScanChar(ScanAll(scan, text), c)
  {
    assert (text + [c])[..|text|] == text;
  }

  /** Held text belongs to a field, and the state is sound. */
  ghost predicate SoundScan(scan: Scan) {
    Sound(scan.state) && scan.decoded.Keys <= scan.state.fields.Keys
  }

  lemma ScanCharIsSound(scan: Scan, c: Unit)
    requires SoundScan(scan)
    ensures SoundScan(ScanChar(scan, c))
  {
    StepIsSound(scan.state, c);
    hide Step;
  }

  lemma {:induction false} ScanIsSound(current: Lexer, delta: Text)
    requires Sound(current)
    ensures SoundScan(ScanAll(Scan(current, map[]), delta))
  {
    if delta != [] {
      ScanIsSound(current, delta[..|delta| - 1]);
      ScanCharIsSound(ScanAll(Scan(current, map[]), delta[..|delta| - 1]), delta[|delta| - 1]);
    }
  }

  lemma AdvanceIsSound(current: Lexer, delta: Text)
    requires Sound(current)
    ensures Sound(Advance(current, delta))
  {
    ScanIsSound(current, delta);
    hide ScanAll;
  }

  /** The scan of the second delta alone, against the scan that still holds back the text of the first: that text
      stands in the field's value already, unless the field has been opened since. */
  ghost predicate Carried(whole: Scan, part: Scan, held: Text, reset: bool, name: Text) {
    && part.state.control == whole.state.control
    && (name in part.state.fields <==> name in whole.state.fields)
    && ValueOf(part.state.fields, name) == ValueOf(whole.state.fields, name) + (if reset then [] else held)
    && (IsClosed(part.state.fields, name) <==> IsClosed(whole.state.fields, name))
    && Held(whole.decoded, name) == held + Held(part.decoded, name)
  }

  lemma CarriedOn(whole: Scan, part: Scan, held: Text, reset: bool, c: Unit, name: Text)
    requires Carried(whole, part, held, reset, name)
    ensures Carried(ScanChar(whole, c), ScanChar(part, c), held, reset || OpensAt(part, c, name), name)
  {
    var effect := Step(part.state.control, c).effect;
    hide Step;
    if effect.Decoded? && effect.name == name {
      Regroup(held, Held(part.decoded, name), effect.text);
    }
  }

  lemma CarriedFirst(current: Lexer, a: Text, name: Text)
    requires Sound(current)
    ensures var first := ScanAll(Scan(current, map[]), a);
      Carried(first, Scan(Advance(current, a), map[]), Held(first.decoded, name), false, name)
    ensures !Opens(Advance(current, a), [], name)
  {
    ScanIsSound(current, a);
    hide ScanAll;
  }

  lemma {:induction false} CarriedThrough(current: Lexer, a: Text, b: Text, name: Text)
    requires Sound(current)
    ensures var first := ScanAll(Scan(current, map[]), a);
      Carried(ScanAll(first, b), ScanAll(Scan(Advance(current, a), map[]), b), Held(first.decoded, name), Opens(Advance(current, a), b, name), name)
  {
    hide ScanChar, Sound, Opens, OpensAt;
    var first, middle := ScanAll(Scan(current, map[]), a), Advance(current, a);
    if b == [] {
      CarriedFirst(current, a, name);
    } else {
      hide Advance, Carried;
      var n := |b| - 1;
      CarriedThrough(current, a, b[..n], name);
      OpensOneMore(middle, b, name);
      CarriedOn(ScanAll(first, b[..n]), ScanAll(Scan(middle, map[]), b[..n]), Held(first.decoded, name), Opens(middle, b[..n], name), b[n], name);
    }
  }

  lemma CarriedMerges(whole: Scan, part: Scan, held: Text, reset: bool, name: Text)
    requires Carried(whole, part, held, reset, name) && SoundScan(whole) && SoundScan(part)
    ensures var w, p := Merged(whole.state.fields, whole.decoded), Merged(part.state.fields, part.decoded);
      && (name in w <==> name in p) && (name in w && w[name] == p[name] <==> name in w && (reset ==> held == []))
  {
    Regroup(ValueOf(whole.state.fields, name), held, Held(part.decoded, name));
  }

  lemma {:induction false} HeldIsKept(scan: Scan, b: Text, name: Text)
    requires Held(scan.decoded, name) != []
    ensures name in ScanAll(scan, b).decoded
  {
    if b != [] {
      HeldIsKept(scan, b[..|b| - 1], name);
      hide Step;
    }
  }

  lemma SameControlAfter(current: Lexer, a: Text, b: Text)
    requires Sound(current)
    ensures ScanAll(Scan(Advance(current, a), map[]), b).state.control == ScanAll(ScanAll(Scan(current, map[]), a), b).state.control
  {
    hide ScanAll, Opens, Advance;
    CarriedThrough(current, a, b, []);
  }

  lemma IsMerged(scan: Scan, name: Text)
    requires name in scan.decoded
    ensures name in Merged(scan.state.fields, scan.decoded)
  {}

  /** The second delta opens a field for which the first one has decoded text. */
  ghost predicate CutMatters(current: Lexer, a: Text, b: Text) {
    exists name :: Held(ScanAll(Scan(current, map[]), a).decoded, name) != [] && Opens(Advance(current, a), b, name)
  }

  /** Two deltas do what their concatenation does exactly when the second one opens no field for which the first
      has decoded text. */
  lemma SplitInvariance(current: Lexer, a: Text, b: Text)
    requires Sound(current)
    ensures Advance(Advance(current, a), b) == Advance(current, a + b) <==> !CutMatters(current, a, b)
  {
    var first, middle := ScanAll(Scan(current, map[]), a), Advance(current, a);
    var whole, part := ScanAll(first, b), ScanAll(Scan(middle, map[]), b);
    ScanJoin(Scan(current, map[]), a, b);
    SameControlAfter(current, a, b);
    var w, p := Merged(whole.state.fields, whole.decoded), Merged(part.state.fields, part.decoded);
    assert Advance(current, a + b) == Lexer(whole.state.control, w) && Advance(middle, b) == Lexer(part.state.control, p);
    hide ScanAll, Opens, Sound, Advance, Merged;
    forall name
      ensures (name in w <==> name in p)
      ensures name in w && w[name] == p[name] <==> name in w && (Opens(middle, b, name) ==> Held(first.decoded, name) == [])
    {
      MergesOn(current, a, b, name);
    }
    if CutMatters(current, a, b) {
      var name :| Held(first.decoded, name) != [] && Opens(middle, b, name);
      HeldIsKept(first, b, name);
      IsMerged(whole, name);
    } else {
      assert w == p;
    }
  }

  lemma MergesOn(current: Lexer, a: Text, b: Text, name: Text)
    requires Sound(current)
    ensures var first, middle := ScanAll(Scan(current, map[]), a), Advance(current, a);
      var whole, part := ScanAll(first, b), ScanAll(Scan(middle, map[]), b);
      var w, p := Merged(whole.state.fields, whole.decoded), Merged(part.state.fields, part.decoded);
      && (name in w <==> name in p)
      && (name in w && w[name] == p[name] <==> name in w && (Opens(middle, b, name) ==> Held(first.decoded, name) == []))
  {
    var first, middle := ScanAll(Scan(current, map[]), a), Advance(current, a);
    AdvanceIsSound(current, a);
    ScanIsSound(current, a + b);
    ScanIsSound(middle, b);
    ScanJoin(Scan(current, map[]), a, b);
    CarriedThrough(current, a, b, name);
    hide ScanAll, Opens, Sound, Advance, Merged, Carried, SoundScan;
    CarriedMerges(ScanAll(first, b), ScanAll(Scan(middle, map[]), b), Held(first.decoded, name), Opens(middle, b, name), name);
  }

  // ----- the whole field, from its key on

  ghost predicate Idle(s: Control) {
    !s.inString && !s.awaitingColon && !s.awaitingValue
  }

  predicate AllSpace(spaces: Text) {
    forall i | 0 <= i < |spaces| :: IsSpace(spaces[i])
  }

  /** No character that a JSON string would have to escape. */
  lemma NamesArePlain(name: Text, i: nat)
    requires name in NAMES && i < |name|
    ensures name[i] != QUOTE && name[i] != BACKSLASH
  {}

  ghost predicate ReadingKey(s: Lexer, key: Text, fields: Fields) {
    && s.fields == fields && s.control.inString && s.control.role == KeyRole && s.control.escape == NoEscape
    && s.control.keyCandidate == key && s.control.keyStillRelevant && !s.control.awaitingValue
  }

  lemma {:induction false} ReadsKey(s: Lexer, name: Text, n: nat)
    requires Idle(s.control) && name in NAMES && n <= |name|
    ensures ReadingKey(IdealAll(s, [QUOTE] + name[..n]), name[..n], s.fields)
  {
    if n == 0 {
      assert [QUOTE] + name[..0] == [QUOTE] && [QUOTE][..0] == [];
    } else {
      ReadsKey(s, name, n - 1);
      hide Ideal, ReadingKey;
      ReadsKeyChar(IdealAll(s, [QUOTE] + name[..n - 1]), name, n - 1, s.fields);
      assert [QUOTE] + name[..n - 1] + [name[n - 1]] == [QUOTE] + name[..n];
      IdealPush(s, [QUOTE] + name[..n - 1], name[n - 1]);
    }
  }

  lemma ReadsKeyChar(s: Lexer, name: Text, i: nat, fields: Fields)
    requires name in NAMES && i < |name| && ReadingKey(s, name[..i], fields)
    ensures ReadingKey(Ideal(s, name[i]), name[..i + 1], fields)
  {
    NamesArePlain(name, i);
    assert name[..i] + [name[i]] == name[..i + 1];
    assert name[..i + 1] <= name;
  }

  /** The text of a member up to its value, and with the opening quote of that value. */
  function MemberKey(name: Text, before: Text, after: Text): Text {
    [QUOTE] + name + [QUOTE] + before + [COLON] + after
  }

  function MemberStart(name: Text, before: Text, after: Text): Text {
    MemberKey(name, before, after) + [QUOTE]
  }

  ghost predicate InField(s: Lexer, name: Text, fields: Fields) {
    && s.control.inString && s.control.role == FieldRole && s.control.pendingKey == Some(name)
    && s.control.escape == NoEscape && s.control.digits == [] && s.fields == fields && name in fields
    && !s.control.awaitingColon && !s.control.awaitingValue
  }

  lemma IdealPush(s: Lexer, text: Text, c: Unit)
    ensures IdealAll(s, text + [c]) == Ideal(IdealAll(s, text), c)
  {
    assert (text + [c])[..|text|] == text;
  }

  ghost predicate AfterName(s: Lexer, name: Text, fields: Fields) {
    s.fields == fields && !s.control.inString && s.control.awaitingColon && !s.control.awaitingValue && s.control.pendingKey == Some(name)
  }

  ghost predicate AfterColon(s: Lexer, name: Text, fields: Fields) {
    s.fields == fields && !s.control.inString && !s.control.awaitingColon && s.control.awaitingValue && s.control.pendingKey == Some(name)
  }

  lemma {:induction false} SkipsSpace(s: Lexer, spaces: Text, name: Text, fields: Fields)
    requires AllSpace(spaces)
    ensures AfterName(s, name, fields) ==> AfterName(IdealAll(s, spaces), name, fields)
    ensures AfterColon(s, name, fields) ==> AfterColon(IdealAll(s, spaces), name, fields)
  {
    if spaces != [] {
      var n := |spaces| - 1;
      assert AllSpace(spaces[..n]) by { assert forall i | 0 <= i < n :: spaces[..n][i] == spaces[i]; }
      SkipsSpace(s, spaces[..n], name, fields);
      assert IsSpace(spaces[n]);
    }
  }

  lemma ClosesKey(s: Lexer, name: Text, fields: Fields)
    requires ReadingKey(s, name, fields) && name in NAMES
    ensures AfterName(Ideal(s, QUOTE), name, fields)
  {}

  /** Reading a key of the table and a colon makes the lexer wait for that field's value. */
  lemma MemberAwaits(s: Lexer, name: Text, before: Text, after: Text)
    requires Idle(s.control) && name in NAMES && AllSpace(before) && AllSpace(after)
    ensures AfterColon(IdealAll(s, MemberKey(name, before, after)), name, s.fields)
  {
    var key, named := [QUOTE] + name, [QUOTE] + name + [QUOTE];
    var spaced, valued := named + before, named + before + [COLON];
    ReadsKey(s, name, |name|);
    assert name[..|name|] == name;
    IdealPush(s, key, QUOTE);
    ClosesKey(IdealAll(s, key), name, s.fields);
    IdealJoin(s, named, before);
    SkipsSpace(IdealAll(s, named), before, name, s.fields);
    IdealPush(s, spaced, COLON);
    ReadsColon(IdealAll(s, spaced), name, s.fields);
    IdealJoin(s, valued, after);
    SkipsSpace(IdealAll(s, valued), after, name, s.fields);
  }

  /** The quote that follows opens an empty field, with any space around the colon. */
  lemma MemberOpens(s: Lexer, name: Text, before: Text, after: Text)
    requires Idle(s.control) && name in NAMES && AllSpace(before) && AllSpace(after)
    ensures InField(IdealAll(s, MemberStart(name, before, after)), name, s.fields[name := FieldState([], false)])
  {
    var key := MemberKey(name, before, after);
    MemberAwaits(s, name, before, after);
    IdealPush(s, key, QUOTE);
    OpensValue(IdealAll(s, key), name, s.fields);
  }

  lemma ReadsColon(s: Lexer, name: Text, fields: Fields)
    requires AfterName(s, name, fields)
    ensures AfterColon(Ideal(s, COLON), name, fields)
  {}

  lemma OpensValue(s: Lexer, name: Text, fields: Fields)
    requires AfterColon(s, name, fields)
    ensures InField(Ideal(s, QUOTE), name, fields[name := FieldState([], false)])
  {}

  // ----- the value, against the decoder of whole fragments

  function Fragment(source: Text): FieldState
    decreases |source|
  {
    if source == [] then FieldState([], false)
    else if source[0] == QUOTE then FieldState([], true)
    else if source[0] != BACKSLASH then Prefixed(source[0], Fragment(source[1..]))
    else if |source| == 1 then FieldState([], false)
    else if source[1] != LETTER_U then Prefixed(SimpleEscape(source[1]), Fragment(source[2..]))
    else if |source| < 6 then FieldState([], false)
    else if AllHex(source[2..6]) then Prefixed(HexValue(source[2..6]), Fragment(source[6..]))
    else Prefixed(LETTER_U, Fragment(source[2..]))
  }

  function Prefixed(c: Unit, rest: FieldState): FieldState {
    rest.(value := [c] + rest.value)
  }

  predicate AllHex(digits: Text) {
    forall i | 0 <= i < |digits| :: IsHexDigit(digits[i])
  }

  /** A string body, cut anywhere: each \u has its hexadecimal digits as far as they have arrived, and the
      closing quote, if it has arrived, ends the text (section 7 of RFC 8259). */
  predicate WellFormed(source: Text)
    decreases |source|
  {
    if source == [] then true
    else if source[0] == QUOTE then |source| == 1
    else if source[0] != BACKSLASH then WellFormed(source[1..])
    else if |source| == 1 then true
    else if source[1] != LETTER_U then WellFormed(source[2..])
    else if |source| < 6 then AllHex(source[2..])
    else AllHex(source[2..6]) && WellFormed(source[6..])
  }

  lemma DecodesPlain(s: Lexer, name: Text, c: Unit)
    requires InField(s, name, s.fields) && !s.fields[name].closed && c != QUOTE && c != BACKSLASH
    ensures InField(Ideal(s, c), name, s.fields[name := FieldState(s.fields[name].value + [c], false)])
  {}

  lemma ClosesField(s: Lexer, name: Text)
    requires InField(s, name, s.fields) && !s.fields[name].closed
    ensures Ideal(s, QUOTE).fields == s.fields[name := FieldState(s.fields[name].value, true)]
    ensures Idle(Ideal(s, QUOTE).control)
  {}

  lemma DecodesSimple(s: Lexer, name: Text, c: Unit)
    requires InField(s, name, s.fields) && !s.fields[name].closed && c != LETTER_U
    ensures Ideal(s, BACKSLASH).fields == s.fields && Ideal(s, BACKSLASH).control.inString
    ensures InField(Ideal(Ideal(s, BACKSLASH), c), name, s.fields[name := FieldState(s.fields[name].value + [SimpleEscape(c)], false)])
  {}

  ghost predicate InUnicode(s: Lexer, name: Text, fields: Fields, digits: Text) {
    && s.control.inString && s.control.role == FieldRole && s.control.pendingKey == Some(name)
    && s.control.escape == Unicode && s.control.digits == digits && s.fields == fields
    && !s.control.awaitingColon && !s.control.awaitingValue
  }

  lemma StartsUnicode(s: Lexer, name: Text)
    requires InField(s, name, s.fields)
    ensures Ideal(s, BACKSLASH).fields == s.fields
    ensures InUnicode(Ideal(Ideal(s, BACKSLASH), LETTER_U), name, s.fields, [])
  {}

  lemma ReadsDigit(s: Lexer, name: Text, fields: Fields, digits: Text, c: Unit)
    requires InUnicode(s, name, fields, digits) && |digits| < 3 && IsHexDigit(c)
    ensures InUnicode(Ideal(s, c), name, fields, digits + [c])
  {}

  lemma EndsUnicode(s: Lexer, name: Text, fields: Fields, digits: Text, c: Unit)
    requires InUnicode(s, name, fields, digits) && |digits| == 3 && IsHexDigit(c) && name in fields && !fields[name].closed
    ensures InField(Ideal(s, c), name, fields[name := FieldState(fields[name].value + [HexValue(digits + [c])], false)])
  {}

  lemma {:induction false} ReadsDigits(s: Lexer, name: Text, fields: Fields, digits: Text)
    requires InUnicode(s, name, fields, []) && |digits| <= 3 && AllHex(digits)
    ensures InUnicode(IdealAll(s, digits), name, fields, digits)
  {
    if digits != [] {
      hide Ideal, IdealAll, InUnicode;
      var n := |digits| - 1;
      DigitsBefore(digits, n);
      ReadsDigits(s, name, fields, digits[..n]);
      ReadsDigit(IdealAll(s, digits[..n]), name, fields, digits[..n], digits[n]);
      assert digits[..n] + [digits[n]] == digits;
      IdealPush(s, digits[..n], digits[n]);
    } else {
      assert IdealAll(s, digits) == s;
    }
  }

  lemma DigitsBefore(digits: Text, n: nat)
    requires AllHex(digits) && n < |digits|
    ensures AllHex(digits[..n]) && IsHexDigit(digits[n])
  {
    assert forall i | 0 <= i < n :: digits[..n][i] == digits[i];
  }

  lemma IdealOne(s: Lexer, c: Unit)
    ensures IdealAll(s, [c]) == Ideal(s, c)
  {
    assert [c][..0] == [];
  }

  lemma IdealTwo(s: Lexer, c: Unit, d: Unit)
    ensures IdealAll(s, [c, d]) == Ideal(Ideal(s, c), d)
  {
    IdealOne(s, c);
    assert [c, d][..1] == [c];
  }

  /** A whole \u escape adds its code unit; a cut one adds nothing. */
  lemma DecodesUnicode(s: Lexer, name: Text, digits: Text)
    requires InField(s, name, s.fields) && !s.fields[name].closed && |digits| <= 4 && AllHex(digits)
    ensures var after := IdealAll(s, [BACKSLASH, LETTER_U] + digits);
      if |digits| == 4 then InField(after, name, s.fields[name := FieldState(s.fields[name].value + [HexValue(digits)], false)])
      else after.fields == s.fields && after.control.inString
  {
    var started := Ideal(Ideal(s, BACKSLASH), LETTER_U);
    StartsUnicode(s, name);
    IdealTwo(s, BACKSLASH, LETTER_U);
    IdealJoin(s, [BACKSLASH, LETTER_U], digits);
    if |digits| < 4 {
      ReadsDigits(started, name, s.fields, digits);
    } else {
      assert AllHex(digits[..3]) by { assert forall i | 0 <= i < 3 :: digits[..3][i] == digits[i]; }
      ReadsDigits(started, name, s.fields, digits[..3]);
      assert IsHexDigit(digits[3]) && digits == digits[..3] + [digits[3]];
      IdealPush(started, digits[..3], digits[3]);
      EndsUnicode(IdealAll(started, digits[..3]), name, s.fields, digits[..3], digits[3]);
    }
  }

  /** What the lexer shows after reading source inside a field is what was there, then the decoded fragment; it is
      still in the string unless the fragment closed it. */
  ghost predicate ShowsFragment(s: Lexer, name: Text, source: Text)
    requires name in s.fields
  {
    var after, fragment := IdealAll(s, source), Fragment(source);
    && after.fields == s.fields[name := FieldState(s.fields[name].value + fragment.value, fragment.closed)]
    && (if fragment.closed then Idle(after.control) else after.control.inString)
  }

  lemma ShowsAfter(s: Lexer, name: Text, first: Text, c: Unit, rest: Text)
    requires InField(s, name, s.fields)
    requires InField(IdealAll(s, first), name, s.fields[name := FieldState(s.fields[name].value + [c], false)])
    requires Fragment(first + rest) == Prefixed(c, Fragment(rest)) && ShowsFragment(IdealAll(s, first), name, rest)
    ensures ShowsFragment(s, name, first + rest)
  {
    hide Fragment, IdealAll;
    IdealJoin(s, first, rest);
    Regroup(s.fields[name].value, [c], Fragment(rest).value);
  }

  /** The incremental lexer and the fragment decoder agree at every prefix of a well-formed string body. */
  lemma {:induction false} FragmentIsShown(s: Lexer, name: Text, source: Text)
    requires InField(s, name, s.fields) && !s.fields[name].closed && WellFormed(source)
    ensures ShowsFragment(s, name, source)
    decreases |source|
  {
    hide Ideal;
    if source == [] || source == [BACKSLASH] {
      if source != [] {
        IdealOne(s, BACKSLASH);
        DecodesSimple(s, name, QUOTE);
      }
      assert s.fields[name].value + [] == s.fields[name].value;
      assert s.fields[name := s.fields[name]] == s.fields;
    } else if source[0] == QUOTE {
      IdealOne(s, QUOTE);
      ClosesField(s, name);
      assert source == [QUOTE] && s.fields[name].value + [] == s.fields[name].value;
    } else if source[0] != BACKSLASH {
      IdealOne(s, source[0]);
      DecodesPlain(s, name, source[0]);
      FragmentIsShown(IdealAll(s, [source[0]]), name, source[1..]);
      assert source == [source[0]] + source[1..];
      ShowsAfter(s, name, [source[0]], source[0], source[1..]);
    } else if source[1] != LETTER_U {
      IdealTwo(s, BACKSLASH, source[1]);
      DecodesSimple(s, name, source[1]);
      FragmentIsShown(IdealAll(s, [BACKSLASH, source[1]]), name, source[2..]);
      assert source == [BACKSLASH, source[1]] + source[2..];
      ShowsAfter(s, name, [BACKSLASH, source[1]], SimpleEscape(source[1]), source[2..]);
    } else {
      ShowsUnicode(s, name, source);
    }
  }

  lemma {:induction false} ShowsUnicode(s: Lexer, name: Text, source: Text)
    requires InField(s, name, s.fields) && !s.fields[name].closed && WellFormed(source)
    requires |source| >= 2 && source[0] == BACKSLASH && source[1] == LETTER_U
    ensures ShowsFragment(s, name, source)
    decreases |source|, 0
  {
    hide Ideal, IdealAll;
    if |source| < 6 {
      DecodesUnicode(s, name, source[2..]);
      assert source == [BACKSLASH, LETTER_U] + source[2..];
      assert s.fields[name].value + [] == s.fields[name].value;
      assert s.fields[name := s.fields[name]] == s.fields;
    } else {
      var escape := [BACKSLASH, LETTER_U] + source[2..6];
      DecodesUnicode(s, name, source[2..6]);
      FragmentIsShown(IdealAll(s, escape), name, source[6..]);
      assert source == escape + source[6..];
      ShowsAfter(s, name, escape, HexValue(source[2..6]), source[6..]);
    }
  }

  /** From the key on: whatever spaces surround the colon, the field shows the decoded fragment of its body. */
  lemma FieldIsShown(s: Lexer, name: Text, before: Text, after: Text, body: Text)
    requires Idle(s.control) && name in NAMES && AllSpace(before) && AllSpace(after) && WellFormed(body)
    ensures IdealAll(s, MemberStart(name, before, after) + body).fields == s.fields[name := Fragment(body)]
  {
    var started := IdealAll(s, MemberStart(name, before, after));
    MemberOpens(s, name, before, after);
    IdealJoin(s, MemberStart(name, before, after), body);
    FragmentIsShown(started, name, body);
    hide Fragment, IdealAll;
    assert [] + Fragment(body).value == Fragment(body).value;
  }

  lemma {:induction false} ScanControl(s: Lexer, delta: Text)
    ensures ScanAll(Scan(s, map[]), delta).state.control == IdealAll(s, delta).control
  {
    if delta != [] {
      ScanControl(s, delta[..|delta| - 1]);
      hide Step;
    }
  }

  // ----- the state as the source changes it

  class Scanner {
    var control: Control
    var fields: Fields
    var decodedByField: Texts

    ghost function View(): Scan
      reads this
    {
      Scan(Lexer(control, fields), decodedByField)
    }

    constructor (state: Lexer)
      ensures View() == Scan(state, map[])
    {
      control, fields, decodedByField := state.control, state.fields, map[];
    }

    method OpenIncrementalString(role: Role)
      modifies this
      ensures var next := Open(old(control), role);
        control == next.control && fields == Marked(old(fields), next.effect) && decodedByField == old(decodedByField)
    {
      control := control.(inString := true, role := role, escape := NoEscape, digits := []);
      if role == KeyRole {
        control := control.(keyCandidate := [], keyStillRelevant := true);
      } else if role == FieldRole && control.pendingKey.Some? {
        fields := fields[control.pendingKey.value := FieldState([], false)];
      }
    }

    method CloseIncrementalString()
      modifies this
      ensures var next := Close(old(control));
        control == next.control && fields == Marked(old(fields), next.effect) && decodedByField == old(decodedByField)
    {
      var role := control.role;
      control := control.(inString := false, role := NoRole, escape := NoEscape, digits := []);
      if role == KeyRole {
        control := control.(pendingKey := if control.keyStillRelevant && control.keyCandidate in NAMES then Some(control.keyCandidate) else None,
                            awaitingColon := true);
        return;
      }
      if role == FieldRole && control.pendingKey.Some? && control.pendingKey.value in fields {
        fields := fields[control.pendingKey.value := fields[control.pendingKey.value].(closed := true)];
      }
      control := control.(pendingKey := None);
    }

    /** The scan after a step that changes the control and has this effect. */
    ghost function Changed(before: Scan, stepped: Stepped): Scan {
      Scan(Lexer(stepped.control, Marked(before.state.fields, stepped.effect)),
           if stepped.effect.Decoded? then before.decoded[stepped.effect.name := Held(before.decoded, stepped.effect.name) + stepped.effect.text]
           else before.decoded)
    }

    method AppendDecodedCharacter(value: Text)
      modifies this
      ensures View() == Changed(old(View()), Append(old(control), value))
    {
      if control.role == KeyRole {
        if !control.keyStillRelevant { return; }
        var candidate := control.keyCandidate + value;
        control := control.(keyCandidate := candidate, keyStillRelevant := exists name | name in NAMES :: candidate <= name);
        return;
      }
      if control.role != FieldRole || control.pendingKey == None { return; }
      var chunks := Held(decodedByField, control.pendingKey.value);
      decodedByField := decodedByField[control.pendingKey.value := chunks + value];
    }

    method ReadInString(c: Unit)
      modifies this
      ensures View() == Changed(old(View()), InString(old(control), c))
    {
      if control.escape == Unicode {
        if IsHexDigit(c) {
          control := control.(digits := control.digits + [c]);
          if |control.digits| == 4 {
            AppendDecodedCharacter([HexValue(control.digits)]);
            control := control.(escape := NoEscape, digits := []);
          }
        } else {
          AppendDecodedCharacter([LETTER_U] + control.digits + [c]);
          control := control.(escape := NoEscape, digits := []);
        }
        return;
      }
      if control.escape == Escaped {
        if c == LETTER_U {
          control := control.(escape := Unicode, digits := []);
        } else {
          AppendDecodedCharacter([SimpleEscape(c)]);
          control := control.(escape := NoEscape);
        }
        return;
      }
      if c == BACKSLASH {
        control := control.(escape := Escaped);
        return;
      }
      if c == QUOTE {
        CloseIncrementalString();
        return;
      }
      AppendDecodedCharacter([c]);
    }

    /** One turn of the loop over the delta. */
    method ReadChar(c: Unit)
      modifies this
      ensures View() == ScanChar(old(View()), c)
    {
      hide InString, IsSpace;
      control := control.(scanned := control.scanned + 1);
      if control.inString {
        ReadInString(c);
        return;
      }
      if control.awaitingColon {
        if IsSpace(c) { return; }
        control := control.(awaitingColon := false);
        if c == COLON {
          control := control.(awaitingValue := true);
          return;
        }
        control := control.(pendingKey := None);
      }
      if control.awaitingValue {
        if IsSpace(c) { return; }
        control := control.(awaitingValue := false);
        if c == QUOTE {
          OpenIncrementalString(if control.pendingKey.Some? then FieldRole else OtherRole);
          return;
        }
        control := control.(pendingKey := None);
      }
      if c == QUOTE { OpenIncrementalString(KeyRole); }
    }
  }

  /** None stands for a preview that has no state yet. The state passed in is copied, never changed. */
  method AdvanceToolCallPreviewFields(current: Option<Lexer>, delta: Text, replace: bool) returns (state: Lexer)
    ensures state == Advance(if replace || current == None then EMPTY else current.value, delta)
  {
    var scanner := new Scanner(if replace || current == None then EMPTY else current.value);
    ghost var start := scanner.View();
    for i := 0 to |delta|
      modifies scanner
      invariant scanner.View() == ScanAll(start, delta[..i])
    {
      assert delta[..i + 1][..i] == delta[..i];
      scanner.ReadChar(delta[i]);
    }
    assert delta[..|delta|] == delta;
    var fields := scanner.fields;
    var todo := scanner.decodedByField.Keys;
    while todo != {}
      invariant todo <= scanner.decodedByField.Keys
      invariant forall name :: name in fields <==> name in scanner.fields || (name in scanner.decodedByField && name !in todo)
      invariant forall name | name in fields ::
        fields[name] == (if name in scanner.decodedByField && name !in todo
                         then FieldState(ValueOf(scanner.fields, name) + Held(scanner.decodedByField, name), IsClosed(scanner.fields, name))
                         else scanner.fields[name])
      decreases |todo|
    {
      var name :| name in todo;
      todo := todo - {name};
      fields := fields[name := FieldState(ValueOf(fields, name) + scanner.decodedByField[name], IsClosed(fields, name))];
    }
    MergedByLoop(scanner.fields, scanner.decodedByField, fields);
    return Lexer(scanner.control, fields);
  }

  lemma MergedByLoop(fields: Fields, decoded: Texts, merged: Fields)
    requires forall name :: name in merged <==> name in fields || name in decoded
    requires forall name | name in merged ::
      merged[name] == (if name in decoded then FieldState(ValueOf(fields, name) + Held(decoded, name), IsClosed(fields, name)) else fields[name])
    ensures merged == Merged(fields, decoded)
  {
    forall name | name in merged ensures merged[name] == Merged(fields, decoded)[name] {
      if name !in decoded { assert ValueOf(fields, name) + [] == ValueOf(fields, name); }
    }
  }

  /** The decoder used where no incremental state exists. */
  method DecodeJsonStringFragment(source: Text) returns (result: FieldState)
    ensures result == Fragment(source)
  {
    var value: Text := [];
    var index := 0;
    NothingBefore(source);
    while index < |source|
      invariant index <= |source|
      invariant Fragment(source) == Before(value, Fragment(source[index..]))
    {
      var rest := source[index..];
      var c := source[index];
      if c == QUOTE { return FieldState(value, true); }
      if c != BACKSLASH {
        BeforeOne(value, c, Fragment(rest[1..]));
        value := value + [c];
        index := index + 1;
      } else {
        if index + 1 >= |source| { return FieldState(value, false); }
        var escaped := source[index + 1];
        assert rest[1] == escaped && rest[2..] == source[index + 2..];
        if escaped == LETTER_U {
          if index + 6 > |source| { return FieldState(value, false); }
          var hex := source[index + 2..index + 6];
          assert rest[2..6] == hex && rest[6..] == source[index + 6..];
          if AllHex(hex) {
            BeforeOne(value, HexValue(hex), Fragment(rest[6..]));
            value := value + [HexValue(hex)];
            index := index + 6;
          } else {
            BeforeOne(value, LETTER_U, Fragment(rest[2..]));
            value := value + [LETTER_U];
            index := index + 2;
          }
        } else {
          BeforeOne(value, SimpleEscape(escaped), Fragment(rest[2..]));
          value := value + [SimpleEscape(escaped)];
          index := index + 2;
        }
      }
    }
    return FieldState(value, false);
  }

  function Before(value: Text, rest: FieldState): FieldState {
    rest.(value := value + rest.value)
  }

  lemma NothingBefore(source: Text)
    ensures Fragment(source) == Before([], Fragment(source[0..]))
  {
    assert source[0..] == source && [] + Fragment(source).value == Fragment(source).value;
  }

  lemma BeforeOne(value: Text, c: Unit, rest: FieldState)
    ensures Before(value, Prefixed(c, rest)) == Before(value + [c], rest)
  {
    Regroup(value, [c], rest.value);
  }
}
