/** The preview of a tool call whose arguments arrive in any number of deltas, cut anywhere
    (shared/toolCallPreview.ts, lines 72-150, 297-345 and 368-407). */
module PreviewStream {
  import opened Options
  import opened PreviewLexer

  function Joined(deltas: seq<Text>): Text {
    if deltas == [] then [] else Joined(deltas[..|deltas| - 1]) + deltas[|deltas| - 1]
  }

  /** The state after each delta in turn. */
  function AdvanceEach(current: Lexer, deltas: seq<Text>): Lexer {
    if deltas == [] then current else Advance(AdvanceEach(current, deltas[..|deltas| - 1]), deltas[|deltas| - 1])
  }

  // ----- deltas that reopen nothing

  /** No delta, read from its place in the stream, reopens a field it has decoded text for. */
  ghost predicate NoneReopens(current: Lexer, deltas: seq<Text>) {
    deltas == [] ||
      var n := |deltas| - 1;
      NoneReopens(current, deltas[..n]) && !Reopens(IdealAll(current, Joined(deltas[..n])), deltas[n])
  }

  /** However many deltas there are, advancing over them is reading their text character by character. */
  lemma {:induction false} EachIsIdeal(current: Lexer, deltas: seq<Text>)
    requires Sound(current) && NoneReopens(current, deltas)
    ensures AdvanceEach(current, deltas) == IdealAll(current, Joined(deltas))
  {
    if deltas != [] {
      hide Sound, Reopens, Advance, IdealAll;
      var n := |deltas| - 1;
      var before := Joined(deltas[..n]);
      EachIsIdeal(current, deltas[..n]);
      IdealIsSound(current, before);
      AdvanceIsIdealExactly(IdealAll(current, before), deltas[n]);
      IdealJoin(current, before, deltas[n]);
    }
  }

  lemma {:induction false} PiecesReopenNothing(current: Lexer, deltas: seq<Text>)
    requires Sound(current) && !Reopens(current, Joined(deltas))
    ensures NoneReopens(current, deltas)
  {
    if deltas != [] {
      hide Sound, Reopens;
      var n := |deltas| - 1;
      ReopensInPart(current, Joined(deltas[..n]), deltas[n]);
      PiecesReopenNothing(current, deltas[..n]);
    }
  }

  // ----- fields that are opened once

  /** Character k of the text opens the field's string. */
  predicate Opening(s: Lexer, text: Text, k: nat, name: Text)
    requires k < |text|
  {
    Step(IdealAll(s, text[..k]).control, text[k]).effect == OpenField(name)
  }

  ghost predicate OpensNothing(s: Lexer, text: Text) {
    forall k: nat, name: Text | k < |text| :: !Opening(s, text, k, name)
  }

  predicate Inside(s: Control, name: Text) {
    s.inString && s.role == FieldRole && s.pendingKey == Some(name)
  }

  /** No field's string is opened twice, or opened again when it was open at the start. */
  ghost predicate OpensAtMostOnce(s: Lexer, text: Text) {
    && (forall i: nat, j: nat, name: Text | i < j < |text| :: !(Opening(s, text, i, name) && Opening(s, text, j, name)))
    && (forall k: nat, name: Text | k < |text| && Inside(s.control, name) :: !Opening(s, text, k, name))
  }

  /** Text held for a field, or its string being open, goes back to an opening of the field. */
  lemma {:induction false} HeldWasOpened(s: Lexer, text: Text, name: Text)
    requires Held(ScanAll(Scan(s, map[]), text).decoded, name) != [] || Inside(IdealAll(s, text).control, name)
    ensures Inside(s.control, name) || exists k: nat :: k < |text| && Opening(s, text, k, name)
  {
    hide Step, Inside, Opening;
    if text != [] && !Opening(s, text, |text| - 1, name) {
      var n := |text| - 1;
      var front := text[..n];
      HeldOneMore(s, text, name);
      HeldWasOpened(s, front, name);
      if !Inside(s.control, name) {
        var k: nat :| k < n && Opening(s, front, k, name);
        SameOpening(s, text, n, k, name);
      }
    }
  }

  lemma HeldOneMore(s: Lexer, text: Text, name: Text)
    requires text != [] && !Opening(s, text, |text| - 1, name)
    requires Held(ScanAll(Scan(s, map[]), text).decoded, name) != [] || Inside(IdealAll(s, text).control, name)
    ensures var front := text[..|text| - 1];
      Held(ScanAll(Scan(s, map[]), front).decoded, name) != [] || Inside(IdealAll(s, front).control, name)
  {
    var n := |text| - 1;
    ScanControl(s, text[..n]);
    ScanControl(s, text);
    InsideOneMore(ScanAll(Scan(s, map[]), text[..n]), text[n], name);
    hide Step, Inside;
  }

  lemma SameOpening(s: Lexer, text: Text, n: nat, k: nat, name: Text)
    requires k < n <= |text|
    ensures Opening(s, text[..n], k, name) <==> Opening(s, text, k, name)
  {
    assert text[..n][..k] == text[..k];
  }

  lemma InsideOneMore(scan: Scan, c: Unit, name: Text)
    requires Step(scan.state.control, c).effect != OpenField(name)
    ensures Inside(ScanChar(scan, c).state.control, name) ==> Inside(scan.state.control, name)
    ensures Held(ScanChar(scan, c).decoded, name) != [] ==> Held(scan.decoded, name) != [] || Inside(scan.state.control, name)
  {
    StaysInside(scan.state.control, c, name);
    DecodesInside(scan.state.control, c, name);
    hide Step, Inside;
  }

  lemma StaysInside(s: Control, c: Unit, name: Text)
    requires Step(s, c).effect != OpenField(name)
    ensures Inside(Step(s, c).control, name) ==> Inside(s, name)
  {}

  lemma DecodesInside(s: Control, c: Unit, name: Text)
    ensures Step(s, c).effect.Decoded? && Step(s, c).effect.name == name ==> Inside(s, name)
  {}

  /** A text that opens each field at most once reopens none. */
  lemma OnceIsNotReopened(s: Lexer, text: Text)
    requires OpensAtMostOnce(s, text)
    ensures !Reopens(s, text)
  {
    hide Step, ScanAll, IdealAll, Inside;
    if Reopens(s, text) {
      var k: nat :| k < |text| && ReopensAt(ScanAll(Scan(s, map[]), text[..k]), text[k]);
      ScanControl(s, text[..k]);
      var name := Step(ScanAll(Scan(s, map[]), text[..k]).state.control, text[k]).effect.name;
      assert Opening(s, text, k, name);
      forall i: nat | i < k ensures !Opening(s, text[..k], i, name) {
        SameOpening(s, text, k, i, name);
      }
      HeldWasOpened(s, text[..k], name);
    }
  }

  /** When the whole stream opens each field at most once, it does not matter how it is cut into deltas. */
  lemma StreamInvariance(s: Lexer, deltas: seq<Text>)
    requires Sound(s) && OpensAtMostOnce(s, Joined(deltas))
    ensures AdvanceEach(s, deltas) == Advance(s, Joined(deltas)) == IdealAll(s, Joined(deltas))
  {
    hide Sound, OpensAtMostOnce, Reopens, Advance, IdealAll;
    OnceIsNotReopened(s, Joined(deltas));
    PiecesReopenNothing(s, deltas);
    EachIsIdeal(s, deltas);
    AdvanceIsIdealExactly(s, Joined(deltas));
  }

  // ----- where fields are opened

  lemma OpeningInRest(s: Lexer, a: Text, b: Text, k: nat, name: Text)
    requires k < |b|
    ensures Opening(s, a + b, |a| + k, name) <==> Opening(IdealAll(s, a), b, k, name)
  {
    assert (a + b)[..|a| + k] == a + b[..k];
    IdealJoin(s, a, b[..k]);
  }

  lemma OpeningInFront(s: Lexer, a: Text, b: Text, k: nat, name: Text)
    requires k < |a|
    ensures Opening(s, a + b, k, name) <==> Opening(s, a, k, name)
  {
    assert (a + b)[..k] == a[..k];
  }

  lemma NothingJoin(s: Lexer, a: Text, b: Text)
    requires OpensNothing(s, a) && OpensNothing(IdealAll(s, a), b)
    ensures OpensNothing(s, a + b)
  {
    hide Opening, IdealAll;
    forall k: nat, name: Text | k < |a + b| ensures !Opening(s, a + b, k, name) {
      if k < |a| { OpeningInFront(s, a, b, k, name); } else { OpeningInRest(s, a, b, k - |a|, name); }
    }
  }

  /** One opening, and nothing opened around it. */
  lemma OnceAround(s: Lexer, a: Text, c: Unit, b: Text)
    requires !s.control.inString && OpensNothing(s, a) && OpensNothing(IdealAll(s, a + [c]), b)
    ensures OpensAtMostOnce(s, a + [c] + b)
  {
    hide Opening, IdealAll;
    var text := a + [c] + b;
    forall k: nat, name: Text | k < |text| && k != |a| ensures !Opening(s, text, k, name) {
      if k < |a| {
        assert text == a + ([c] + b);
        OpeningInFront(s, a, [c] + b, k, name);
      } else {
        OpeningInRest(s, a + [c], b, k - |a| - 1, name);
      }
    }
  }

  lemma OnlyQuotesOpen(s: Control, c: Unit, name: Text)
    requires c != QUOTE || s.inString || Idle(s)
    ensures Step(s, c).effect != OpenField(name)
  {}

  lemma QuotelessOpensNothing(s: Lexer, text: Text)
    requires QUOTE !in text
    ensures OpensNothing(s, text)
  {
    forall k: nat, name: Text | k < |text| ensures !Opening(s, text, k, name) {
      OnlyQuotesOpen(IdealAll(s, text[..k]).control, text[k], name);
    }
  }

  lemma SpacesAreNoQuotes(spaces: Text)
    requires AllSpace(spaces)
    ensures QUOTE !in spaces
  {}

  lemma NamesAreNoQuotes(name: Text)
    requires name in NAMES
    ensures QUOTE !in name
  {
    forall i: nat | i < |name| ensures name[i] != QUOTE { NamesArePlain(name, i); }
  }

  lemma QuoteOpensNothing(s: Lexer)
    requires s.control.inString || Idle(s.control)
    ensures OpensNothing(s, [QUOTE])
  {
    forall k: nat, name: Text | k < 1 ensures !Opening(s, [QUOTE], k, name) {
      assert k == 0 && [QUOTE][..0] == [];
      OnlyQuotesOpen(s.control, QUOTE, name);
    }
  }

  /** Up to its value a member opens nothing. */
  lemma KeyOpensNothing(s: Lexer, name: Text, before: Text, after: Text)
    requires Idle(s.control) && name in NAMES && AllSpace(before) && AllSpace(after)
    ensures OpensNothing(s, MemberKey(name, before, after))
  {
    hide OpensNothing, IdealAll, Step;
    var key, rest := [QUOTE] + name, before + [COLON] + after;
    NamesAreNoQuotes(name);
    SpacesAreNoQuotes(before);
    SpacesAreNoQuotes(after);
    QuoteOpensNothing(s);
    QuotelessOpensNothing(IdealAll(s, [QUOTE]), name);
    NothingJoin(s, [QUOTE], name);
    ReadsKey(s, name, |name|);
    assert name[..|name|] == name;
    QuoteOpensNothing(IdealAll(s, key));
    NothingJoin(s, key, [QUOTE]);
    QuotelessOpensNothing(IdealAll(s, key + [QUOTE]), rest);
    NothingJoin(s, key + [QUOTE], rest);
    assert key + [QUOTE] + rest == MemberKey(name, before, after);
  }

  /** A well-formed body, cut before its end, is well formed and not closed. */
  lemma {:induction false} PrefixStaysOpen(source: Text, k: nat)
    requires WellFormed(source) && k < |source|
    ensures WellFormed(source[..k]) && !Fragment(source[..k]).closed
    decreases |source|
  {
    var front := source[..k];
    if k > 0 && source[0] != BACKSLASH {
      PrefixStaysOpen(source[1..], k - 1);
      assert front[1..] == source[1..][..k - 1];
    } else if k > 1 && source[1] != LETTER_U {
      PrefixStaysOpen(source[2..], k - 2);
      assert front[2..] == source[2..][..k - 2];
    } else if k > 5 {
      PrefixStaysOpen(source[6..], k - 6);
      assert front[6..] == source[6..][..k - 6] && front[2..6] == source[2..6];
    } else if k > 1 {
      DigitsCut(source, k);
    }
  }

  lemma DigitsCut(source: Text, k: nat)
    requires WellFormed(source) && 2 <= k < |source| && k < 6 && source[0] == BACKSLASH && source[1] == LETTER_U
    ensures AllHex(source[..k][2..])
  {
    var digits := if |source| < 6 then source[2..] else source[2..6];
    forall i | 0 <= i < k - 2 ensures IsHexDigit(source[..k][2..][i]) {
      assert source[..k][2..][i] == digits[i];
    }
  }

  /** Nothing is opened within the body of a field. */
  lemma BodyOpensNothing(s: Lexer, name: Text, body: Text)
    requires InField(s, name, s.fields) && !s.fields[name].closed && WellFormed(body)
    ensures OpensNothing(s, body)
  {
    hide Step, IdealAll, Fragment, WellFormed;
    forall k: nat, other: Text | k < |body| ensures !Opening(s, body, k, other) {
      PrefixStaysOpen(body, k);
      FragmentIsShown(s, name, body[..k]);
      OnlyQuotesOpen(IdealAll(s, body[..k]).control, body[k], other);
    }
  }

  // ----- what is shown of a field, however its text is cut

  /** Inside a field, the deltas so far show what the fragment decoder makes of their text. */
  lemma FragmentInPieces(s: Lexer, deltas: seq<Text>, name: Text)
    requires InField(s, name, s.fields) && !s.fields[name].closed && WellFormed(Joined(deltas))
    ensures ShowsInstead(AdvanceEach(s, deltas), s, name, Fragment(Joined(deltas)))
  {
    hide Step, IdealAll, Fragment, WellFormed, Advance;
    BodyOpensNothing(s, name, Joined(deltas));
    StreamInvariance(s, deltas);
    FragmentIsShown(s, name, Joined(deltas));
  }

  /** The field shows the fragment after what it showed before, and no other field changed. */
  ghost predicate ShowsInstead(after: Lexer, before: Lexer, name: Text, fragment: FieldState)
    requires name in before.fields
  {
    after.fields == before.fields[name := FieldState(before.fields[name].value + fragment.value, fragment.closed)]
  }

  /** Key, colon and opening quote of a member, with any space between, leave the lexer in that field, which is empty. */
  lemma MemberInPieces(s: Lexer, deltas: seq<Text>, name: Text, before: Text, after: Text)
    requires Idle(s.control) && name in NAMES && AllSpace(before) && AllSpace(after)
    requires Joined(deltas) == MemberStart(name, before, after)
    ensures InField(AdvanceEach(s, deltas), name, s.fields[name := FieldState([], false)])
  {
    hide IdealAll, Advance;
    assert MemberStart(name, before, after) + [] == MemberStart(name, before, after);
    MemberOpensOnce(s, name, before, after, []);
    StreamInvariance(s, deltas);
    MemberOpens(s, name, before, after);
  }

  /** A whole member, from its key on, shows its decoded body. */
  lemma FieldInPieces(s: Lexer, deltas: seq<Text>, name: Text, before: Text, after: Text, body: Text)
    requires Idle(s.control) && name in NAMES && AllSpace(before) && AllSpace(after) && WellFormed(body)
    requires Joined(deltas) == MemberStart(name, before, after) + body
    ensures AdvanceEach(s, deltas).fields == s.fields[name := Fragment(body)]
  {
    hide IdealAll, Fragment, WellFormed, Advance;
    MemberOpensOnce(s, name, before, after, body);
    StreamInvariance(s, deltas);
    FieldIsShown(s, name, before, after, body);
  }

  lemma MemberOpensOnce(s: Lexer, name: Text, before: Text, after: Text, body: Text)
    requires Idle(s.control) && name in NAMES && AllSpace(before) && AllSpace(after) && WellFormed(body)
    ensures OpensAtMostOnce(s, MemberStart(name, before, after) + body)
  {
    hide IdealAll, WellFormed, OpensNothing, Step;
    KeyOpensNothing(s, name, before, after);
    MemberOpens(s, name, before, after);
    BodyOpensNothing(IdealAll(s, MemberStart(name, before, after)), name, body);
    OnceAround(s, MemberKey(name, before, after), QUOTE, body);
  }

  // ----- a field that comes twice in one delta

  /** The text between two members. */
  lemma {:induction false} StaysIdle(s: Lexer, between: Text)
    requires Idle(s.control) && QUOTE !in between
    ensures Idle(IdealAll(s, between).control) && IdealAll(s, between).fields == s.fields
  {
    if between != [] {
      var n := |between| - 1;
      assert between[n] != QUOTE && forall i | 0 <= i < n :: between[..n][i] == between[i];
      StaysIdle(s, between[..n]);
    }
  }

  /** A field opened in the delta has no value of its own before the delta ends. */
  lemma {:induction false} OpenedIsBlank(s: Lexer, text: Text, k: nat, name: Text)
    requires k < |text| && Opening(s, text, k, name)
    ensures ValueOf(ScanAll(Scan(s, map[]), text).state.fields, name) == []
  {
    hide Step, Opening, ScanChar, ScanAll;
    var n := |text| - 1;
    if k < n {
      SameOpening(s, text, n, k, name);
      OpenedIsBlank(s, text[..n], k, name);
    }
    BlankOneMore(s, text, name);
  }

  lemma BlankOneMore(s: Lexer, text: Text, name: Text)
    requires text != []
    requires Opening(s, text, |text| - 1, name) || ValueOf(ScanAll(Scan(s, map[]), text[..|text| - 1]).state.fields, name) == []
    ensures ValueOf(ScanAll(Scan(s, map[]), text).state.fields, name) == []
  {
    var front := text[..|text| - 1];
    ScanControl(s, front);
    hide IdealAll, ScanChar, Step;
    BlankStays(ScanAll(Scan(s, map[]), front), text[|text| - 1], name);
  }

  lemma BlankStays(scan: Scan, c: Unit, name: Text)
    requires Step(scan.state.control, c).effect == OpenField(name) || ValueOf(scan.state.fields, name) == []
    ensures ValueOf(ScanChar(scan, c).state.fields, name) == []
  {
    hide Step;
  }

  /** What is held for a field that the delta has opened is what the field should show by now. */
  lemma HeldIsShown(s: Lexer, text: Text, k: nat, name: Text)
    requires Sound(s) && OpensAtMostOnce(s, text) && k < |text| && Opening(s, text, k, name)
    ensures Held(ScanAll(Scan(s, map[]), text).decoded, name) == ValueOf(IdealAll(s, text).fields, name)
  {
    hide Step, Sound, OpensAtMostOnce, ScanAll, IdealAll;
    var lost := ScanAgrees(s, text);
    OnceIsNotReopened(s, text);
    OpenedIsBlank(s, text, k, name);
    var scan, shown := ScanAll(Scan(s, map[]), text), ValueOf(IdealAll(s, text).fields, name);
    assert AgreesOn(scan.state.fields, scan.decoded, IdealAll(s, text).fields, lost, name);
    assert [] + Held(scan.decoded, name) == Held(lost, name) + shown;
    assert Held(lost, name) == [];
    assert [] + Held(scan.decoded, name) == Held(scan.decoded, name) && [] + shown == shown;
  }

  /** A member with its body, then text without quotes, then the same key: the field shows body, and is awaited again. */
  lemma AwaitsAgain(s: Lexer, name: Text, before: Text, after: Text, body: Text, between: Text, before2: Text, after2: Text)
    requires Idle(s.control) && name in NAMES && AllSpace(before) && AllSpace(after) && AllSpace(before2) && AllSpace(after2)
    requires WellFormed(body) && Fragment(body).closed && QUOTE !in between
    ensures var text := MemberStart(name, before, after) + (body + between + MemberKey(name, before2, after2));
      && OpensAtMostOnce(s, text) && Opening(s, text, |MemberKey(name, before, after)|, name)
      && AfterColon(IdealAll(s, text), name, s.fields[name := Fragment(body)])
  {
    hide IdealAll, WellFormed, Fragment, OpensNothing, Step;
    var key, start := MemberKey(name, before, after), MemberStart(name, before, after);
    var again := MemberKey(name, before2, after2);
    var started := IdealAll(s, start);
    MemberOpens(s, name, before, after);
    BodyOpensNothing(started, name, body);
    FragmentIsShown(started, name, body);
    var closed := IdealAll(started, body);
    FieldIsShown(s, name, before, after, body);
    IdealJoin(s, start, body);
    StaysIdle(closed, between);
    QuotelessOpensNothing(closed, between);
    NothingJoin(started, body, between);
    IdealJoin(started, body, between);
    KeyOpensNothing(IdealAll(closed, between), name, before2, after2);
    NothingJoin(started, body + between, again);
    IdealJoin(started, body + between, again);
    MemberAwaits(IdealAll(closed, between), name, before2, after2);
    IdealJoin(s, start, body + between + again);
    KeyOpensNothing(s, name, before, after);
    OnceAround(s, key, QUOTE, body + between + again);
    OpensThere(s, name, before, after, body + between + again);
  }

  lemma OpensThere(s: Lexer, name: Text, before: Text, after: Text, rest: Text)
    requires Idle(s.control) && name in NAMES && AllSpace(before) && AllSpace(after)
    ensures Opening(s, MemberStart(name, before, after) + rest, |MemberKey(name, before, after)|, name)
  {
    var key := MemberKey(name, before, after);
    MemberAwaits(s, name, before, after);
    assert (MemberStart(name, before, after) + rest)[..|key|] == key;
  }

  /** A field that comes twice in one delta is shown rightly exactly when its first value is empty. */
  lemma RepeatedFieldExactly(s: Lexer, name: Text, before: Text, after: Text, body: Text, between: Text, before2: Text, after2: Text)
    requires Sound(s) && Idle(s.control) && name in NAMES && QUOTE !in between
    requires AllSpace(before) && AllSpace(after) && AllSpace(before2) && AllSpace(after2)
    requires WellFormed(body) && Fragment(body).closed
    ensures var text := MemberStart(name, before, after) + (body + between + MemberKey(name, before2, after2)) + [QUOTE];
      Advance(s, text) == IdealAll(s, text) <==> Fragment(body).value == []
  {
    hide IdealAll, WellFormed, Fragment, Step, Sound, OpensAtMostOnce, Advance, AllSpace, Opening, Idle;
    var text := MemberStart(name, before, after) + (body + between + MemberKey(name, before2, after2));
    AwaitsAgain(s, name, before, after, body, between, before2, after2);
    OnceIsNotReopened(s, text);
    HeldIsShown(s, text, |MemberKey(name, before, after)|, name);
    AdvanceIsIdealExactly(s, text + [QUOTE]);
    ReopensOneMore(s, text + [QUOTE]);
    assert (text + [QUOTE])[..|text|] == text;
    OpensAgain(s, text, name);
  }

  lemma OpensAgain(s: Lexer, text: Text, name: Text)
    requires AfterColon(IdealAll(s, text), name, IdealAll(s, text).fields)
    ensures var scan := ScanAll(Scan(s, map[]), text); ReopensAt(scan, QUOTE) <==> Held(scan.decoded, name) != []
  {
    ScanControl(s, text);
    hide ScanAll, IdealAll;
  }
}
