/** A provider turn streamed in the regular way, item after item, and read back from the accumulator
    (backend/capabilities/openAIResponsesContinuationProjection.ts, lines 65-128). */
module StreamRoundTrip {
  import opened Options
  import opened ContinuationProjection
  import opened TerminalProjection

  // ----- a turn, and how it is streamed

  /** A piece of a reasoning summary, and the block it belongs to. */
  datatype Piece = Piece(block: nat, text: string)

  /** An output item as it is streamed: reasoning in pieces, a message in chunks, a call at once. rest is the
      canonical text of whatever else the item says. */
  datatype Member =
    | Thinking(id: string, rest: string, pieces: seq<Piece>, encrypted: Option<string>)
    | Answer(id: string, rest: string, texts: seq<string>)
    | Calling(id: string, rest: string, call: Call)

  /** The blocks of the summary, each on a line of its own. */
  function Summary(pieces: seq<Piece>): string {
    if pieces == [] then ""
    else
      var n := |pieces| - 1;
      Summary(pieces[..n]) + (if n > 0 && pieces[n].block != pieces[n - 1].block then "\n" else "") + pieces[n].text
  }

  function Text(texts: seq<string>): string {
    if texts == [] then "" else Text(texts[..|texts| - 1]) + texts[|texts| - 1]
  }

  function ItemOf(m: Member): Item {
    match m
    case Thinking(id, rest, pieces, encrypted) => Item("reasoning", Some(id), "completed", encrypted, rest, Some(Summary(pieces)), None, None)
    case Answer(id, rest, texts) => Item("message", Some(id), "completed", None, rest, None, Some(Text(texts)), None)
    case Calling(id, rest, call) => Item("function_call", Some(id), "completed", None, rest, None, None, Some(call))
  }

  const EMPTY_CHUNK := Chunk("", "", None, [])

  function IdentityOf(m: Member, k: nat): Identity {
    Identity(Some(m.id), Some(k))
  }

  function DoneStep(m: Member, k: nat): Step {
    Step(ItemDone(IdentityOf(m, k), Some(k), Some(ItemOf(m))), EMPTY_CHUNK.(signature := if m.Thinking? then m.encrypted else None))
  }

  function PieceStep(m: Member, k: nat, piece: Piece): Step {
    Step(Delta(IdentityOf(m, k), piece.block, Some(piece.text)), EMPTY_CHUNK.(thought := piece.text))
  }

  function ChunkStep(m: Member, k: nat, text: string, calls: seq<CallPart>): Step {
    Step(OtherEvent(IdentityOf(m, k)), EMPTY_CHUNK.(visible := text, calls := calls))
  }

  function PartOf(call: Call): CallPart {
    CallPart(Some(call.callId), call.name, call.args)
  }

  /** The events of output item k before it is done. */
  function Deltas(m: Member, k: nat): seq<Step> {
    match m
    case Thinking(_, _, pieces, _) => seq(|pieces|, i requires 0 <= i < |pieces| => PieceStep(m, k, pieces[i]))
    case Answer(_, _, texts) => seq(|texts|, i requires 0 <= i < |texts| => ChunkStep(m, k, texts[i], []))
    case Calling(_, _, call) => [ChunkStep(m, k, "", [PartOf(call)])]
  }

  function Streamed(members: seq<Member>): seq<Step> {
    if members == [] then []
    else
      var n := |members| - 1;
      Streamed(members[..n]) + Deltas(members[n], n) + [DoneStep(members[n], n)]
  }

  function ItemsOf(members: seq<Member>): seq<Item> {
    seq(|members|, k requires 0 <= k < |members| => ItemOf(members[k]))
  }

  /** The whole stream. The completed event may leave the output out. */
  function StreamOf(members: seq<Member>, listed: bool): seq<Step> {
    Streamed(members) + [Step(Completed(if listed then Items(ItemsOf(members)) else Missing), EMPTY_CHUNK)]
  }

  /** Blocks come in order from 0, and no piece is empty. */
  predicate RegularPieces(pieces: seq<Piece>) {
    forall i: nat | i < |pieces| :: IsRegular(pieces, i)
  }

  predicate IsRegular(pieces: seq<Piece>, i: nat)
    requires i < |pieces|
  {
    && pieces[i].text != ""
    && if i == 0 then pieces[i].block == 0 else pieces[i].block == pieces[i - 1].block || pieces[i].block == pieces[i - 1].block + 1
  }

  /** Items and calls have ids of their own, there is at most one message, and it is not empty. */
  predicate Regular(members: seq<Member>) {
    && (forall j: nat, k: nat | j < k < |members| :: Apart(members[j], members[k]))
    && (forall k: nat | k < |members| :: Wellformed(members[k]))
  }

  predicate Apart(a: Member, b: Member) {
    a.id != b.id && !(a.Answer? && b.Answer?) && (a.Calling? && b.Calling? ==> a.call.callId != b.call.callId)
  }

  predicate Wellformed(m: Member) {
    match m
    case Thinking(_, _, pieces, _) => RegularPieces(pieces)
    case Answer(_, _, texts) => Text(texts) != ""
    case Calling(_, _, _) => true
  }

  /** What the turn says, part by part. */
  function PartMeant(m: Member): Part {
    match m
    case Thinking(_, _, pieces, encrypted) => Thought(Summary(pieces), encrypted)
    case Answer(_, _, texts) => Part.Text(Text(texts))
    case Calling(_, _, call) => CallOf(call)
  }

  function PartsMeant(members: seq<Member>): seq<Part> {
    seq(|members|, k requires 0 <= k < |members| => PartMeant(members[k]))
  }

  // ----- what the accumulator holds once some items are done

  function AnswerOf(members: seq<Member>): string {
    if members == [] then ""
    else AnswerOf(members[..|members| - 1]) + if members[|members| - 1].Answer? then Text(members[|members| - 1].texts) else ""
  }

  function CallsOf(members: seq<Member>): seq<Call> {
    if members == [] then []
    else CallsOf(members[..|members| - 1]) + if members[|members| - 1].Calling? then [members[|members| - 1].call] else []
  }

  function ThinkingCount(members: seq<Member>): nat {
    if members == [] then 0 else ThinkingCount(members[..|members| - 1]) + if members[|members| - 1].Thinking? then 1 else 0
  }

  function DoneOf(m: Member, k: nat): DoneItem {
    DoneItem(ItemOf(m), Some(k), IdKey(m.id))
  }

  function DonesOf(members: seq<Member>): seq<DoneItem> {
    seq(|members|, k requires 0 <= k < |members| => DoneOf(members[k], k))
  }

  ghost predicate IdOf(members: seq<Member>, key: Key) {
    exists k: nat :: k < |members| && key == IdKey(members[k].id)
  }

  ghost predicate PlaceOf(members: seq<Member>, key: Key) {
    key.OutputKey? && key.index < |members|
  }

  /** The reasoning item r is that of output item k. */
  ghost predicate IsItem(s: State, r: nat, m: Member, k: nat)
    requires m.Thinking?
  {
    && r < |s.reasoningItems|
    && IdKey(m.id) in s.byKey && s.byKey[IdKey(m.id)] == r && OutputKey(k) in s.byKey && s.byKey[OutputKey(k)] == r
    && s.reasoningItems[r].text == Summary(m.pieces) && s.reasoningItems[r].signature == m.encrypted
  }

  ghost predicate ReasoningHeld(s: State, members: seq<Member>) {
    && |s.reasoningItems| == ThinkingCount(members)
    && (forall key | key in s.byKey :: IdOf(members, key) || PlaceOf(members, key))
    && forall k: nat | k < |members| && members[k].Thinking? :: IsItem(s, ThinkingCount(members[..k]), members[k], k)
  }

  ghost predicate DonesHeld(s: State, members: seq<Member>) {
    s.doneItems == DonesOf(members) && forall key | key in s.doneIndexes :: IdOf(members, key)
  }

  ghost predicate CallsHeld(s: State, members: seq<Member>) {
    s.functionCalls == CallsOf(members)
    && forall id | id in s.callIndexes :: exists k: nat :: k < |members| && members[k].Calling? && members[k].call.callId == id
  }

  /** More thoughts are shown on a line of their own. */
  function WithLine(before: string, text: string): string {
    if before != "" && text != "" then before + "\n" + text else before + text
  }

  /** The summaries that are not empty, each from a new line on. */
  function ThoughtOf(members: seq<Member>): string {
    if members == [] then ""
    else
      var before, m := ThoughtOf(members[..|members| - 1]), members[|members| - 1];
      if m.Thinking? then WithLine(before, Summary(m.pieces)) else before
  }

  ghost predicate Holds(s: State, members: seq<Member>) {
    && s.unsafeReason == None && s.completedOutput == None && s.visibleText == AnswerOf(members) && s.thoughtText == ThoughtOf(members)
    && CallsHeld(s, members) && DonesHeld(s, members) && ReasoningHeld(s, members)
  }

  // ----- events that are not about reasoning

  lemma {:induction false} RunJoin(s: State, a: seq<Step>, b: seq<Step>)
    ensures Run(s, a + b) == Run(Run(s, a), b)
  {
    hide Observe, Run;
    if b == [] {
      assert a + b == a;
      NoSteps(Run(s, a));
    } else {
      var n := |b| - 1;
      RunJoin(s, a, b[..n]);
      assert a + b == a + b[..n] + [b[n]] && b == b[..n] + [b[n]];
      RunPush(s, a + b[..n], b[n]);
      RunPush(Run(s, a), b[..n], b[n]);
    }
  }

  lemma NoSteps(s: State)
    ensures Run(s, []) == s
  {}

  lemma RunPush(s: State, steps: seq<Step>, step: Step)
    ensures Run(s, steps + [step]) == Observe(Run(s, steps), step.raw, step.decoded).state
  {
    hide Observe;
    assert (steps + [step])[..|steps|] == steps;
  }

  /** A chunk outside reasoning adds its text and its calls. */
  lemma ChunkIsTaken(s: State, identity: Identity, text: string, calls: seq<CallPart>)
    ensures Observe(s, OtherEvent(identity), EMPTY_CHUNK.(visible := text, calls := calls)).state
         == TakeCalls(s.(visibleText := s.visibleText + text), calls)
  {
    hide TakeCalls;
    assert s.thoughtText + "" == s.thoughtText;
  }

  lemma {:induction false} ChunksAreTaken(s: State, m: Member, k: nat, n: nat)
    requires m.Answer? && n <= |m.texts|
    ensures Run(s, Deltas(m, k)[..n]) == s.(visibleText := s.visibleText + Text(m.texts[..n]))
  {
    hide Observe, Run, Text;
    var steps := Deltas(m, k);
    NoText(m.texts);
    if n == 0 {
      NoSteps(s);
      assert s.visibleText + "" == s.visibleText;
    } else {
      ChunksAreTaken(s, m, k, n - 1);
      assert steps[..n] == steps[..n - 1] + [ChunkStep(m, k, m.texts[n - 1], [])];
      RunPush(s, steps[..n - 1], ChunkStep(m, k, m.texts[n - 1], []));
      ChunkIsTaken(Run(s, steps[..n - 1]), IdentityOf(m, k), m.texts[n - 1], []);
      TextPush(m.texts, n);
      assert s.visibleText + Text(m.texts[..n - 1]) + m.texts[n - 1] == s.visibleText + (Text(m.texts[..n - 1]) + m.texts[n - 1]);
    }
  }

  lemma NoText(texts: seq<string>)
    ensures Text(texts[..0]) == ""
  {}

  lemma TextPush(texts: seq<string>, n: nat)
    requires 0 < n <= |texts|
    ensures Text(texts[..n]) == Text(texts[..n - 1]) + texts[n - 1]
  {
    assert texts[..n][..n - 1] == texts[..n - 1];
  }

  /** A done item that is no reasoning is put on record. */
  lemma DoneIsTaken(s: State, m: Member, k: nat)
    requires !m.Thinking? && IdKey(m.id) !in s.doneIndexes
    ensures Observe(s, DoneStep(m, k).raw, DoneStep(m, k).decoded).state
         == s.(doneIndexes := s.doneIndexes[IdKey(m.id) := |s.doneItems|], doneItems := s.doneItems + [DoneOf(m, k)])
  {
    hide ItemFor;
    assert s.thoughtText + "" == s.thoughtText && s.visibleText + "" == s.visibleText;
  }

  // ----- the record with one more item

  lemma IdsPush(members: seq<Member>, m: Member)
    ensures forall key :: IdOf(members + [m], key) <==> IdOf(members, key) || key == IdKey(m.id)
    ensures forall key :: PlaceOf(members + [m], key) <==> PlaceOf(members, key) || key == OutputKey(|members|)
  {
    var all := members + [m];
    forall key ensures IdOf(all, key) <==> IdOf(members, key) || key == IdKey(m.id) {
      if IdOf(members, key) {
        var k: nat :| k < |members| && key == IdKey(members[k].id);
        assert all[k] == members[k];
      }
      if key == IdKey(m.id) { assert all[|members|] == m; }
    }
  }

  lemma DonesHeldPush(s: State, q: State, members: seq<Member>, m: Member)
    requires DonesHeld(s, members)
    requires q.doneItems == s.doneItems + [DoneOf(m, |members|)] && q.doneIndexes == s.doneIndexes[IdKey(m.id) := |s.doneItems|]
    ensures DonesHeld(q, members + [m])
  {
    hide IdOf;
    IdsPush(members, m);
    assert DonesOf(members + [m]) == DonesOf(members) + [DoneOf(m, |members|)];
  }

  /** A member that is no reasoning leaves the reasoning items alone. */
  lemma ReasoningHeldPush(s: State, q: State, members: seq<Member>, m: Member)
    requires ReasoningHeld(s, members) && !m.Thinking? && q.reasoningItems == s.reasoningItems && q.byKey == s.byKey
    ensures ReasoningHeld(q, members + [m])
  {
    hide IdOf, PlaceOf, ThinkingCount;
    var all := members + [m];
    IdsPush(members, m);
    CountsPush(members, m);
    forall k: nat | k < |all| && all[k].Thinking? ensures IsItem(q, ThinkingCount(all[..k]), all[k], k) {
      assert all[k] == members[k] && all[..k] == members[..k];
      assert IsItem(s, ThinkingCount(members[..k]), members[k], k);
    }
  }

  lemma CountsPush(members: seq<Member>, m: Member)
    ensures ThinkingCount(members + [m]) == ThinkingCount(members) + if m.Thinking? then 1 else 0
    ensures CallsOf(members + [m]) == if m.Calling? then CallsOf(members) + [m.call] else CallsOf(members)
    ensures AnswerOf(members + [m]) == if m.Answer? then AnswerOf(members) + Text(m.texts) else AnswerOf(members)
    ensures ThoughtOf(members + [m]) == if m.Thinking? then WithLine(ThoughtOf(members), Summary(m.pieces)) else ThoughtOf(members)
  {
    assert (members + [m])[..|members|] == members;
    assert CallsOf(members) + [] == CallsOf(members) && AnswerOf(members) + "" == AnswerOf(members);
  }

  lemma CallsHeldPush(s: State, q: State, members: seq<Member>, m: Member)
    requires CallsHeld(s, members) && !m.Calling? && q.functionCalls == s.functionCalls && q.callIndexes == s.callIndexes
    ensures CallsHeld(q, members + [m])
  {
    CountsPush(members, m);
    hide CallsOf;
    forall id | id in q.callIndexes ensures exists k: nat :: k < |members + [m]| && (members + [m])[k].Calling? && (members + [m])[k].call.callId == id {
      var k: nat :| k < |members| && members[k].Calling? && members[k].call.callId == id;
      assert (members + [m])[k] == members[k];
    }
  }

  /** The ids of the next item are new. */
  lemma NextIsApart(members: seq<Member>, m: Member)
    requires Regular(members + [m])
    ensures Regular(members) && Wellformed(m) && !IdOf(members, IdKey(m.id)) && !PlaceOf(members, OutputKey(|members|))
    ensures forall k: nat | k < |members| :: Apart(members[k], m)
    ensures m.Answer? ==> AnswerOf(members) == ""
  {
    var all := members + [m];
    assert all[|members|] == m;
    forall k: nat | k < |members| ensures Apart(members[k], m) && Wellformed(members[k]) {
      assert all[k] == members[k];
      assert Apart(all[k], all[|members|]);
    }
    forall j: nat, k: nat | j < k < |members| ensures Apart(members[j], members[k]) {
      assert all[j] == members[j] && all[k] == members[k];
    }
    if m.Answer? { NoAnswer(members); }
  }

  lemma {:induction false} NoAnswer(members: seq<Member>)
    requires forall k: nat | k < |members| :: !members[k].Answer?
    ensures AnswerOf(members) == ""
  {
    if members != [] { NoAnswer(members[..|members| - 1]); }
  }

  lemma AnswerIsHeld(s: State, members: seq<Member>, m: Member)
    requires Holds(s, members) && Regular(members + [m]) && m.Answer?
    ensures Holds(Run(s, Deltas(m, |members|) + [DoneStep(m, |members|)]), members + [m])
  {
    hide Run, Observe, ReasoningHeld, CallsHeld, Text, AnswerOf;
    var k := |members|;
    NextIsApart(members, m);
    ChunksAreTaken(s, m, k, |m.texts|);
    assert Deltas(m, k)[..|m.texts|] == Deltas(m, k) && m.texts[..|m.texts|] == m.texts;
    var texted := Run(s, Deltas(m, k));
    RunPush(s, Deltas(m, k), DoneStep(m, k));
    assert IdKey(m.id) !in s.doneIndexes;
    DoneIsTaken(texted, m, k);
    var q := Run(s, Deltas(m, k) + [DoneStep(m, k)]);
    DonesHeldPush(s, q, members, m);
    ReasoningHeldPush(s, q, members, m);
    CallsHeldPush(s, q, members, m);
    CountsPush(members, m);
  }

  lemma CallingIsHeld(s: State, members: seq<Member>, m: Member)
    requires Holds(s, members) && Regular(members + [m]) && m.Calling?
    ensures Holds(Run(s, Deltas(m, |members|) + [DoneStep(m, |members|)]), members + [m])
  {
    hide Run, Observe, ReasoningHeld, AnswerOf, CallsOf;
    var k := |members|;
    var step := ChunkStep(m, k, "", [PartOf(m.call)]);
    NextIsApart(members, m);
    RunPush(s, [], step);
    NoSteps(s);
    assert [] + [step] == Deltas(m, k);
    ChunkIsTaken(s, IdentityOf(m, k), "", [PartOf(m.call)]);
    assert s.visibleText + "" == s.visibleText;
    OneCallIsTaken(s, members, m);
    var called := Run(s, Deltas(m, k));
    RunPush(s, Deltas(m, k), DoneStep(m, k));
    assert IdKey(m.id) !in s.doneIndexes;
    DoneIsTaken(called, m, k);
    var q := Run(s, Deltas(m, k) + [DoneStep(m, k)]);
    DonesHeldPush(s, q, members, m);
    ReasoningHeldPush(s, q, members, m);
    CountsPush(members, m);
  }

  lemma OneCallIsTaken(s: State, members: seq<Member>, m: Member)
    requires CallsHeld(s, members) && m.Calling? && forall k: nat | k < |members| :: Apart(members[k], m)
    ensures var q := TakeCalls(s, [PartOf(m.call)]);
      q == s.(functionCalls := q.functionCalls, callIndexes := q.callIndexes) && CallsHeld(q, members + [m])
  {
    var all, q := members + [m], TakeCalls(s, [PartOf(m.call)]);
    assert [PartOf(m.call)][..0] == [];
    assert TakeCalls(s, []) == s && q == TakeCall(s, PartOf(m.call));
    forall k: nat | k < |members| && members[k].Calling? ensures members[k].call.callId != m.call.callId {
      assert Apart(members[k], m);
    }
    assert m.call.callId !in s.callIndexes;
    assert Call(m.call.callId, m.call.name, m.call.args) == m.call;
    CountsPush(members, m);
    hide CallsOf;
    forall id | id in q.callIndexes ensures exists k: nat :: k < |all| && all[k].Calling? && all[k].call.callId == id {
      if id == m.call.callId {
        assert all[|members|] == m;
      } else {
        assert id in s.callIndexes;
        var k: nat :| k < |members| && members[k].Calling? && members[k].call.callId == id;
        assert all[k] == members[k];
      }
    }
  }

  // ----- reasoning

  /** Item i is known by both its names. */
  ghost predicate Known(s: State, id: string, k: nat, i: nat) {
    && i < |s.reasoningItems|
    && IdKey(id) in s.byKey && s.byKey[IdKey(id)] == i && OutputKey(k) in s.byKey && s.byKey[OutputKey(k)] == i
    && s.reasoningItems[i].itemId == Some(id) && s.reasoningItems[i].outputIndex == Some(k)
  }

  lemma KnownIsFound(s: State, id: string, k: nat, i: nat)
    requires Known(s, id, k, i)
    ensures ItemFor(s, Identity(Some(id), Some(k))) == Found(s, Some(i))
  {
    assert s.byKey[IdKey(id) := i][OutputKey(k) := i] == s.byKey;
    assert s.reasoningItems[i := s.reasoningItems[i].(itemId := Some(id), outputIndex := Some(k))] == s.reasoningItems;
  }

  /** The reasoning items with a new one, known by both its names. */
  function WithItem(s: State, id: string, k: nat, r: Reasoning): State {
    s.(reasoningItems := s.reasoningItems + [r], byKey := s.byKey[IdKey(id) := |s.reasoningItems|][OutputKey(k) := |s.reasoningItems|])
  }

  function NewItem(id: string, k: nat): Reasoning {
    Reasoning(Some(id), Some(k), "", None, map[], {}, None)
  }

  lemma NewIsMade(s: State, id: string, k: nat)
    requires IdKey(id) !in s.byKey && OutputKey(k) !in s.byKey
    ensures ItemFor(s, Identity(Some(id), Some(k))) == Found(WithItem(s, id, k, NewItem(id, k)), Some(|s.reasoningItems|))
  {}

  lemma NewIsKnown(s: State, id: string, k: nat, r: Reasoning)
    requires r.itemId == Some(id) && r.outputIndex == Some(k)
    ensures Known(WithItem(s, id, k, r), id, k, |s.reasoningItems|)
  {}

  /** The new item after some pieces: its text, and its blocks numbered from 0. */
  ghost predicate HasPieces(r: Reasoning, id: string, k: nat, pieces: seq<Piece>) {
    && r.itemId == Some(id) && r.outputIndex == Some(k) && r.text == Summary(pieces) && r.signature == None && r.completed == {}
    && if pieces == [] then r.last == None && r.blocks == map[]
       else r.last == Some(pieces[|pieces| - 1].block) && forall b: nat :: b in r.blocks <==> b <= pieces[|pieces| - 1].block
  }

  predicate StartsBlock(pieces: seq<Piece>, piece: Piece) {
    pieces == [] || piece.block != pieces[|pieces| - 1].block
  }

  lemma PieceIsTaken(s0: State, s: State, id: string, k: nat, r: Reasoning, pieces: seq<Piece>, piece: Piece) returns (grown: Reasoning)
    requires s == WithItem(s0, id, k, r) && HasPieces(r, id, k, pieces) && RegularPieces(pieces + [piece])
    ensures HasPieces(grown, id, k, pieces + [piece])
    ensures var q := CanonicalChunk(s, Delta(Identity(Some(id), Some(k)), piece.block, Some(piece.text)), EMPTY_CHUNK.(thought := piece.text));
      && q.state == WithItem(s0, id, k, grown) && q.chunk == EMPTY_CHUNK.(thought := q.chunk.thought)
      && q.chunk.thought == if StartsBlock(pieces, piece) && s.thoughtText != "" then "\n" + piece.text else piece.text
  {
    var i := |s0.reasoningItems|;
    NewIsKnown(s0, id, k, r);
    KnownIsFound(s, id, k, i);
    var isNewBlock := piece.block !in r.blocks;
    var begun := r.(blocks := if isNewBlock then r.blocks[piece.block := ""] else r.blocks, last := Some(piece.block));
    grown := begun.(blocks := begun.blocks[piece.block := begun.blocks[piece.block] + piece.text], text := Extended(begun, isNewBlock, piece.text));
    PieceExtends(r, id, k, pieces, piece);
    hide ItemFor, Known, HasPieces, Extended;
    BlockIsOpen(s0, s, id, k, r, pieces, piece);
    LastIsReplaced(s0.reasoningItems, r, begun);
    LastIsReplaced(s0.reasoningItems, begun, grown);
  }

  lemma BlockIsOpen(s0: State, s: State, id: string, k: nat, r: Reasoning, pieces: seq<Piece>, piece: Piece)
    requires s == WithItem(s0, id, k, r) && HasPieces(r, id, k, pieces) && RegularPieces(pieces + [piece])
    ensures var begun := r.(blocks := if piece.block !in r.blocks then r.blocks[piece.block := ""] else r.blocks, last := Some(piece.block));
      RegisterBlock(s, |s0.reasoningItems|, piece.block) == Registered(WithItem(s0, id, k, begun), true)
    ensures piece.block !in r.blocks <==> StartsBlock(pieces, piece)
    ensures piece.text != ""
  {
    var all := pieces + [piece];
    assert all[|pieces|] == piece && (pieces != [] ==> all[|pieces| - 1] == pieces[|pieces| - 1]);
    assert IsRegular(all, |pieces|);
    hide Summary;
    LastIsReplaced(s0.reasoningItems, r, r.(blocks := r.blocks[piece.block := ""], last := Some(piece.block)));
  }

  lemma PieceExtends(r: Reasoning, id: string, k: nat, pieces: seq<Piece>, piece: Piece)
    requires HasPieces(r, id, k, pieces) && RegularPieces(pieces + [piece])
    ensures var isNewBlock := piece.block !in r.blocks;
      var begun := r.(blocks := if isNewBlock then r.blocks[piece.block := ""] else r.blocks, last := Some(piece.block));
      HasPieces(begun.(blocks := begun.blocks[piece.block := begun.blocks[piece.block] + piece.text], text := Extended(begun, isNewBlock, piece.text)),
                id, k, pieces + [piece]) && r.completed == {}
  {
    var all := pieces + [piece];
    assert all[|pieces|] == piece && all[..|pieces|] == pieces;
    assert pieces != [] ==> all[|pieces| - 1] == pieces[|pieces| - 1];
    assert IsRegular(all, |pieces|);
    forall i: nat | i < |pieces| ensures pieces[i].text != "" {
      assert IsRegular(all, i) && all[i] == pieces[i];
    }
    SummaryEmpty(pieces);
  }

  /** Only no pieces make an empty summary. */
  lemma SummaryEmpty(pieces: seq<Piece>)
    requires forall i: nat | i < |pieces| :: pieces[i].text != ""
    ensures Summary(pieces) == "" <==> pieces == []
  {}

  /** Taking a reasoning event only changes the item, and what was shown. */
  ghost predicate IsThinking(s0: State, s: State, id: string, k: nat, r: Reasoning) {
    s == WithItem(s0, id, k, r).(thoughtText := s.thoughtText)
  }

  lemma FirstPiece(s0: State, m: Member, k: nat) returns (r: Reasoning)
    requires m.Thinking? && m.pieces != [] && RegularPieces(m.pieces) && s0.unsafeReason == None
    requires IdKey(m.id) !in s0.byKey && OutputKey(k) !in s0.byKey
    ensures var step := PieceStep(m, k, m.pieces[0]);
      HasPieces(r, m.id, k, m.pieces[..1]) && IsThinking(s0, Observe(s0, step.raw, step.decoded).state, m.id, k, r)
      && Observe(s0, step.raw, step.decoded).state.thoughtText == WithLine(s0.thoughtText, Summary(m.pieces[..1]))
  {
    var piece := m.pieces[0];
    var step := PieceStep(m, k, piece);
    NewIsMade(s0, m.id, k);
    var made := WithItem(s0, m.id, k, NewItem(m.id, k));
    assert m.pieces[..1] == [] + [piece];
    assert Summary([]) == "";
    FrontIsRegular(m.pieces, 1);
    r := PieceIsTaken(s0, made, m.id, k, NewItem(m.id, k), [], piece);
    NewIsKnown(s0, m.id, k, NewItem(m.id, k));
    KnownIsFound(made, m.id, k, |s0.reasoningItems|);
    SameWhenMade(s0, made, step);
    DeltaShows(s0, step, WithItem(s0, m.id, k, r));
    LineGrows(s0.thoughtText, m.pieces, 0);
    NoSummary(m.pieces);
  }

  lemma NoSummary(pieces: seq<Piece>)
    ensures Summary(pieces[..0]) == "" && forall before :: WithLine(before, "") == before
  {
    assert forall before: string :: before + "" == before;
  }

  /** One more piece, shown. */
  lemma LineGrows(before: string, pieces: seq<Piece>, n: nat)
    requires RegularPieces(pieces) && n < |pieces|
    ensures var shown := WithLine(before, Summary(pieces[..n]));
      WithLine(before, Summary(pieces[..n + 1])) ==
        shown + if StartsBlock(pieces[..n], pieces[n]) && shown != "" then "\n" + pieces[n].text else pieces[n].text
  {
    hide Summary, WithLine, RegularPieces;
    SummaryPush(pieces, n);
    LineMore(before, Summary(pieces[..n]), pieces[n].text);
  }

  lemma SummaryPush(pieces: seq<Piece>, n: nat)
    requires RegularPieces(pieces) && n < |pieces|
    ensures var front, text := Summary(pieces[..n]), pieces[n].text;
      && text != "" && (front == "" <==> n == 0) && (n == 0 ==> StartsBlock(pieces[..n], pieces[n]))
      && Summary(pieces[..n + 1]) == if front != "" && StartsBlock(pieces[..n], pieces[n]) then front + ("\n" + text) else front + text
  {
    FrontIsRegular(pieces, n);
    forall i: nat | i < n ensures pieces[..n][i].text != "" { assert IsRegular(pieces[..n], i); }
    SummaryEmpty(pieces[..n]);
    assert IsRegular(pieces, n);
    var all := pieces[..n + 1];
    assert all[..n] == pieces[..n] && all[n] == pieces[n] && (n > 0 ==> all[n - 1] == pieces[..n][n - 1]);
    SummaryStep(all);
    hide Summary;
    var front, text := Summary(pieces[..n]), pieces[n].text;
    assert front + "" + text == front + text && front + "\n" + text == front + ("\n" + text);
  }

  lemma SummaryStep(pieces: seq<Piece>)
    requires pieces != []
    ensures var n := |pieces| - 1;
      Summary(pieces) == Summary(pieces[..n]) + (if n > 0 && pieces[n].block != pieces[n - 1].block then "\n" else "") + pieces[n].text
  {}

  lemma LineMore(before: string, front: string, text: string)
    requires text != ""
    ensures front != "" ==> WithLine(before, front + text) == WithLine(before, front) + text
    ensures front != "" ==> WithLine(before, front + ("\n" + text)) == WithLine(before, front) + ("\n" + text)
    ensures front == "" ==> WithLine(before, front) == before && WithLine(before, front + text) == if before != "" then before + ("\n" + text) else before + text
    ensures front != "" ==> WithLine(before, front) != ""
  {
    assert before + "\n" + (front + text) == before + "\n" + front + text && before + (front + text) == before + front + text;
    assert before + "\n" + (front + ("\n" + text)) == before + "\n" + front + ("\n" + text) && before + (front + ("\n" + text)) == before + front + ("\n" + text);
    if front == "" {
      assert front + text == text && before + front == before && before + "\n" + text == before + ("\n" + text);
    }
  }

  lemma SameWhenMade(s0: State, made: State, step: Step)
    requires step.raw.Delta? && step.raw.delta.Some? && ItemFor(s0, step.raw.identity).state == made
    requires ItemFor(s0, step.raw.identity).index.Some? && ItemFor(made, step.raw.identity) == ItemFor(s0, step.raw.identity)
    ensures CanonicalChunk(s0, step.raw, step.decoded) == CanonicalChunk(made, step.raw, step.decoded)
  {
    hide ItemFor, RegisterBlock, AddDelta;
  }

  /** What is left of a delta once its piece is on record: the thought that is shown. */
  lemma DeltaShows(s: State, step: Step, canonical: State)
    requires step.raw.Delta? && step.decoded.visible == "" && step.decoded.signature == None && step.decoded.calls == []
    requires var c := CanonicalChunk(s, step.raw, step.decoded); c.state == canonical && c.chunk == EMPTY_CHUNK.(thought := c.chunk.thought)
    ensures var q := Observe(s, step.raw, step.decoded).state;
      q == canonical.(thoughtText := q.thoughtText) && q.thoughtText == canonical.thoughtText + CanonicalChunk(s, step.raw, step.decoded).chunk.thought
  {
    hide CanonicalChunk;
    assert canonical.visibleText + "" == canonical.visibleText;
  }

  lemma NextPiece(s0: State, s: State, m: Member, k: nat, n: nat, r: Reasoning) returns (grown: Reasoning)
    requires m.Thinking? && RegularPieces(m.pieces) && 0 < n < |m.pieces|
    requires HasPieces(r, m.id, k, m.pieces[..n]) && IsThinking(s0, s, m.id, k, r) && s.thoughtText == WithLine(s0.thoughtText, Summary(m.pieces[..n]))
    ensures var step := PieceStep(m, k, m.pieces[n]);
      HasPieces(grown, m.id, k, m.pieces[..n + 1]) && IsThinking(s0, Observe(s, step.raw, step.decoded).state, m.id, k, grown)
      && Observe(s, step.raw, step.decoded).state.thoughtText == WithLine(s0.thoughtText, Summary(m.pieces[..n + 1]))
  {
    hide HasPieces, Observe, RegularPieces, CanonicalChunk, Summary, WithLine;
    LineGrows(s0.thoughtText, m.pieces, n);
    var shown := s0.(thoughtText := s.thoughtText);
    assert m.pieces[..n + 1] == m.pieces[..n] + [m.pieces[n]];
    FrontIsRegular(m.pieces, n + 1);
    grown := PieceIsTaken(shown, s, m.id, k, r, m.pieces[..n], m.pieces[n]);
    DeltaShows(s, PieceStep(m, k, m.pieces[n]), WithItem(shown, m.id, k, grown));
  }

  lemma FrontIsRegular(pieces: seq<Piece>, n: nat)
    requires RegularPieces(pieces) && n <= |pieces|
    ensures RegularPieces(pieces[..n])
  {
    var front := pieces[..n];
    forall i: nat | i < n ensures IsRegular(front, i) {
      assert IsRegular(pieces, i);
    }
  }

  lemma {:induction false} PiecesAreTaken(s0: State, m: Member, k: nat, n: nat) returns (r: Reasoning)
    requires m.Thinking? && RegularPieces(m.pieces) && 0 < n <= |m.pieces| && s0.unsafeReason == None
    requires IdKey(m.id) !in s0.byKey && OutputKey(k) !in s0.byKey
    ensures HasPieces(r, m.id, k, m.pieces[..n]) && IsThinking(s0, Run(s0, Deltas(m, k)[..n]), m.id, k, r)
    ensures Run(s0, Deltas(m, k)[..n]).thoughtText == WithLine(s0.thoughtText, Summary(m.pieces[..n]))
  {
    hide WithLine, Summary, HasPieces, Observe, Run, RegularPieces, IsThinking;
    var steps := Deltas(m, k);
    var step := PieceStep(m, k, m.pieces[n - 1]);
    assert steps[..n] == steps[..n - 1] + [step];
    RunPush(s0, steps[..n - 1], step);
    if n == 1 {
      assert steps[..0] == [];
      NoSteps(s0);
      r := FirstPiece(s0, m, k);
    } else {
      var before := PiecesAreTaken(s0, m, k, n - 1);
      r := NextPiece(s0, Run(s0, steps[..n - 1]), m, k, n - 1, before);
    }
  }

  /** The done item on record, before its text and signature are compared. */
  function WithDone(s: State, m: Member, k: nat): State {
    s.(doneIndexes := s.doneIndexes[IdKey(m.id) := |s.doneItems|], doneItems := s.doneItems + [DoneOf(m, k)])
  }

  /** The item is closed: its text is the terminal summary, and it has its signature. */
  function ClosedItem(s: State, m: Member, i: nat): State
    requires m.Thinking? && i < |s.reasoningItems|
  {
    s.(reasoningItems := s.reasoningItems[i := s.reasoningItems[i].(text := Summary(m.pieces), signature := m.encrypted)], closed := s.closed + {i})
  }

  lemma SignatureIsTaken(s: State, m: Member, k: nat, i: nat)
    requires m.Thinking? && Known(s, m.id, k, i) && s.reasoningItems[i].signature == None
    ensures Accumulate(s, DoneStep(m, k).raw, DoneStep(m, k).decoded)
         == s.(reasoningItems := s.reasoningItems[i := s.reasoningItems[i].(signature := m.encrypted)])
  {
    assert s.visibleText + "" == s.visibleText && s.thoughtText + "" == s.thoughtText;
    KnownIsFound(s, m.id, k, i);
    hide ItemFor;
    assert s.reasoningItems[i := s.reasoningItems[i].(signature := None)] == s.reasoningItems;
  }

  lemma SummaryIsTaken(s: State, m: Member, k: nat, i: nat)
    requires m.Thinking? && Known(s, m.id, k, i) && s.reasoningItems[i].text == Summary(m.pieces)
    ensures ValidateReasoning(s, DoneStep(m, k).raw)
         == s.(reasoningItems := s.reasoningItems[i := s.reasoningItems[i].(text := Summary(m.pieces))], closed := s.closed + {i})
  {
    KnownIsFound(s, m.id, k, i);
    hide ItemFor, Summary;
  }

  lemma ThinkingIsClosed(s: State, captured: State, m: Member, k: nat, i: nat)
    requires m.Thinking? && Capture(s, DoneStep(m, k).raw) == captured && Known(captured, m.id, k, i)
    requires captured.reasoningItems[i].text == Summary(m.pieces) && captured.reasoningItems[i].signature == None
    ensures Observe(s, DoneStep(m, k).raw, DoneStep(m, k).decoded).state == ClosedItem(captured, m, i)
  {
    hide ItemFor, Capture, Accumulate, ValidateReasoning, Summary;
    var raw, chunk := DoneStep(m, k).raw, DoneStep(m, k).decoded;
    KnownIsFound(captured, m.id, k, i);
    assert Boundary(captured, raw, chunk) == Canonical(captured, chunk);
    SignatureIsTaken(captured, m, k, i);
    var signed := Accumulate(captured, raw, chunk);
    assert Known(signed, m.id, k, i);
    SummaryIsTaken(signed, m, k, i);
    assert captured.reasoningItems[i := signed.reasoningItems[i]][i := signed.reasoningItems[i].(text := Summary(m.pieces))]
        == captured.reasoningItems[i := signed.reasoningItems[i].(text := Summary(m.pieces))];
  }

  /** The item's record is complete once it is done, whether its summary came in pieces or is empty. */
  lemma ThinkingIsDone(s0: State, m: Member, k: nat) returns (r: Reasoning)
    requires m.Thinking? && RegularPieces(m.pieces) && s0.unsafeReason == None && IdKey(m.id) !in s0.doneIndexes
    requires IdKey(m.id) !in s0.byKey && OutputKey(k) !in s0.byKey
    ensures var q := Run(s0, Deltas(m, k) + [DoneStep(m, k)]);
      && r.text == Summary(m.pieces) && r.signature == m.encrypted
      && q == WithItem(WithDone(s0, m, k), m.id, k, r).(thoughtText := q.thoughtText, closed := q.closed)
      && q.thoughtText == WithLine(s0.thoughtText, Summary(m.pieces))
  {
    hide Run, Observe, Summary, RegularPieces;
    var i := |s0.reasoningItems|;
    RunPush(s0, Deltas(m, k), DoneStep(m, k));
    if m.pieces == [] {
      assert Deltas(m, k) == [] && m.pieces[..0] == [];
      NoSteps(s0);
      EmptySummary();
      NoSummary(m.pieces);
      NewIsMade(WithDone(s0, m, k), m.id, k);
      var captured := WithItem(WithDone(s0, m, k), m.id, k, NewItem(m.id, k));
      NewIsKnown(WithDone(s0, m, k), m.id, k, NewItem(m.id, k));
      ThinkingIsClosed(s0, captured, m, k, i);
      r := NewItem(m.id, k).(text := Summary(m.pieces), signature := m.encrypted);
      LastIsReplaced(s0.reasoningItems, NewItem(m.id, k), r);
    } else {
      var taken := PiecesAreTaken(s0, m, k, |m.pieces|);
      assert Deltas(m, k)[..|m.pieces|] == Deltas(m, k) && m.pieces[..|m.pieces|] == m.pieces;
      var s := Run(s0, Deltas(m, k));
      var shown := WithDone(s0, m, k).(thoughtText := s.thoughtText);
      NewIsKnown(shown, m.id, k, taken);
      KnownIsFound(WithItem(shown, m.id, k, taken), m.id, k, i);
      assert WithDone(s, m, k) == WithItem(shown, m.id, k, taken);
      CaptureKnown(s, m, k, i);
      ThinkingIsClosed(s, WithDone(s, m, k), m, k, i);
      r := taken.(text := Summary(m.pieces), signature := m.encrypted);
      LastIsReplaced(s0.reasoningItems, taken, r);
    }
  }

  lemma CaptureKnown(s: State, m: Member, k: nat, i: nat)
    requires m.Thinking? && IdKey(m.id) !in s.doneIndexes && ItemFor(WithDone(s, m, k), IdentityOf(m, k)) == Found(WithDone(s, m, k), Some(i))
    ensures Capture(s, DoneStep(m, k).raw) == WithDone(s, m, k)
  {
    hide ItemFor;
  }

  lemma EmptySummary()
    ensures Summary([]) == ""
  {}

  lemma LastIsReplaced(items: seq<Reasoning>, a: Reasoning, b: Reasoning)
    ensures (items + [a])[|items| := b] == items + [b]
  {}

  /** Items held so far are still those of their members. */
  lemma ItemsStayHeld(s: State, q: State, members: seq<Member>, id: string, r: Reasoning)
    requires ReasoningHeld(s, members) && !IdOf(members, IdKey(id))
    requires var w := WithItem(s, id, |members|, r); q.reasoningItems == w.reasoningItems && q.byKey == w.byKey
    ensures forall k: nat | k < |members| && members[k].Thinking? :: IsItem(q, ThinkingCount(members[..k]), members[k], k)
  {
    hide ThinkingCount, Summary, PlaceOf;
    forall k: nat | k < |members| && members[k].Thinking? ensures IsItem(q, ThinkingCount(members[..k]), members[k], k) {
      assert IsItem(s, ThinkingCount(members[..k]), members[k], k);
      assert IdOf(members, IdKey(members[k].id));
    }
  }

  lemma ReasoningHeldWith(s: State, q: State, members: seq<Member>, m: Member, r: Reasoning)
    requires ReasoningHeld(s, members) && m.Thinking? && r.text == Summary(m.pieces) && r.signature == m.encrypted
    requires !IdOf(members, IdKey(m.id))
    requires var w := WithItem(s, m.id, |members|, r); q.reasoningItems == w.reasoningItems && q.byKey == w.byKey
    ensures ReasoningHeld(q, members + [m])
  {
    var all := members + [m];
    ItemsStayHeld(s, q, members, m.id, r);
    assert IsItem(q, |s.reasoningItems|, m, |members|);
    hide ThinkingCount, Summary, IsItem, IdOf, PlaceOf;
    CountsPush(members, m);
    IdsPush(members, m);
    forall k: nat | k < |all| && all[k].Thinking? ensures IsItem(q, ThinkingCount(all[..k]), all[k], k) {
      if k < |members| {
        assert all[k] == members[k] && all[..k] == members[..k];
      } else {
        assert all[..k] == members && all[k] == m;
      }
    }
  }

  lemma ThinkingIsHeld(s: State, members: seq<Member>, m: Member)
    requires Holds(s, members) && Regular(members + [m]) && m.Thinking?
    ensures Holds(Run(s, Deltas(m, |members|) + [DoneStep(m, |members|)]), members + [m])
  {
    hide Run, Observe, Summary, RegularPieces, CallsHeld;
    var k := |members|;
    NextIsApart(members, m);
    assert IdKey(m.id) !in s.doneIndexes;
    assert IdKey(m.id) !in s.byKey && OutputKey(k) !in s.byKey;
    var r := ThinkingIsDone(s, m, k);
    var q := Run(s, Deltas(m, k) + [DoneStep(m, k)]);
    DonesHeldPush(s, q, members, m);
    ReasoningHeldWith(s, q, members, m, r);
    CallsHeldPush(s, q, members, m);
    CountsPush(members, m);
  }

  /** Once the items are streamed, the accumulator holds just what they said. */
  lemma {:induction false} StreamedIsHeld(members: seq<Member>)
    requires Regular(members)
    ensures Holds(Run(START, Streamed(members)), members)
  {
    hide Run, Holds, Regular;
    if members == [] {
      NoSteps(START);
      NothingHeld();
    } else {
      var n := |members| - 1;
      var m, steps := members[n], Deltas(members[n], n) + [DoneStep(members[n], n)];
      StreamedPush(members);
      hide Streamed, Deltas, DoneStep;
      assert members == members[..n] + [m];
      NextIsApart(members[..n], m);
      StreamedIsHeld(members[..n]);
      var s := Run(START, Streamed(members[..n]));
      RunJoin(START, Streamed(members[..n]), steps);
      match m
      case Thinking(_, _, _, _) => ThinkingIsHeld(s, members[..n], m);
      case Answer(_, _, _) => AnswerIsHeld(s, members[..n], m);
      case Calling(_, _, _) => CallingIsHeld(s, members[..n], m);
    }
  }

  lemma StreamedPush(members: seq<Member>)
    requires members != []
    ensures var n := |members| - 1;
      Streamed(members) == Streamed(members[..n]) + (Deltas(members[n], n) + [DoneStep(members[n], n)])
  {
    hide Deltas;
  }

  lemma NothingHeld()
    ensures Holds(START, [])
  {}

  // ----- the completed event, and what comes back

  lemma CompletedIsTaken(s: State, output: Output)
    requires s.completedOutput == None && (output.Missing? || output.Items?)
    ensures Observe(s, Completed(output), EMPTY_CHUNK).state == s.(completedOutput := Some(if output.Items? then output.items else []))
  {
    assert s.visibleText + "" == s.visibleText && s.thoughtText + "" == s.thoughtText;
  }

  function TerminalOf(m: Member, k: nat): TerminalItem {
    TerminalItem(ItemOf(m), k, if m.Thinking? then m.encrypted else None)
  }

  function TerminalsOf(members: seq<Member>): seq<TerminalItem> {
    seq(|members|, k requires 0 <= k < |members| => TerminalOf(members[k], k))
  }

  /** Among the done items, item k matches its own and no other. */
  lemma {:induction false} OneMatches(members: seq<Member>, consumed: set<nat>, k: nat, n: nat)
    requires Regular(members) && k < |members| && k !in consumed && n <= |members|
    ensures Matches(DonesOf(members), consumed, ItemOf(members[k]), k, n) == if k < n then [k] else []
  {
    if n > 0 {
      OneMatches(members, consumed, k, n - 1);
      assert n - 1 < k ==> Apart(members[n - 1], members[k]);
      assert k < n - 1 ==> Apart(members[k], members[n - 1]);
    }
  }

  function UpTo(n: nat): (r: set<nat>)
    ensures |r| == n && forall k: nat :: k in r <==> k < n
  {
    if n == 0 then {} else UpTo(n - 1) + {n - 1}
  }

  lemma {:induction false} AllMatch(members: seq<Member>, n: nat)
    requires Regular(members) && n <= |members|
    ensures MatchAll(DonesOf(members), ItemsOf(members)[..n]) == Matching(UpTo(n), TerminalsOf(members)[..n])
  {
    hide Regular, MatchAll, MatchOne, TerminalsOf, DonesOf, UpTo;
    if n == 0 {
      NoneMatched(members);
    } else {
      AllMatch(members, n - 1);
      MatchOneMore(DonesOf(members), ItemsOf(members), n - 1);
      NextMatches(members, n - 1);
    }
  }

  lemma NoneMatched(members: seq<Member>)
    ensures MatchAll(DonesOf(members), ItemsOf(members)[..0]) == Matching(UpTo(0), TerminalsOf(members)[..0])
  {}

  lemma NextMatches(members: seq<Member>, k: nat)
    requires Regular(members) && k < |members|
    ensures MatchOne(DonesOf(members), Matching(UpTo(k), TerminalsOf(members)[..k]), ItemsOf(members)[k], k)
         == Matching(UpTo(k + 1), TerminalsOf(members)[..k + 1])
  {
    hide Regular, Summary, Text, Matches, ItemOf, TerminalsOf, DonesOf;
    OneMatches(members, UpTo(k), k, |members|);
    TerminalsPush(members, k);
    DoneAt(members, k);
    DoneIsTerminal(members[k], k);
  }

  lemma TerminalsPush(members: seq<Member>, k: nat)
    requires k < |members|
    ensures k < |TerminalsOf(members)| && TerminalsOf(members)[..k + 1] == TerminalsOf(members)[..k] + [TerminalOf(members[k], k)]
  {}

  lemma DoneAt(members: seq<Member>, k: nat)
    requires k < |members|
    ensures |DonesOf(members)| == |members| && DonesOf(members)[k] == DoneOf(members[k], k)
  {}

  lemma ListedTerminals(s: State, members: seq<Member>)
    requires Regular(members) && members != [] && s.doneItems == DonesOf(members) && s.completedOutput == Some(ItemsOf(members))
    ensures TerminalItems(s).items == Some(TerminalsOf(members))
  {
    hide MatchAll, Regular;
    AllMatch(members, |members|);
    assert ItemsOf(members)[..|members|] == ItemsOf(members) && TerminalsOf(members)[..|members|] == TerminalsOf(members);
  }

  lemma UnlistedTerminals(s: State, members: seq<Member>)
    requires s.doneItems == DonesOf(members) && s.completedOutput == Some([])
    ensures TerminalItems(s).items == Some(TerminalsOf(members))
  {
    hide TerminalItems, ItemOf;
    DoneInAnyOrder(s);
    var items := TerminalItems(s).items.value;
    forall k: nat | k < |members| ensures items[k] == TerminalOf(members[k], k) {
      assert DonesOf(members)[k] in s.doneItems;
      DoneIsTerminal(members[k], k);
    }
    assert items == TerminalsOf(members);
  }

  lemma DoneIsTerminal(m: Member, k: nat)
    ensures TerminalItem(ItemOf(m), k, TrustedSignature(ItemOf(m), ItemOf(m))) == TerminalOf(m, k)
  {}

  lemma {:induction false} KindsCounted(members: seq<Member>)
    ensures CountKind(TerminalsOf(members), "reasoning") == ThinkingCount(members)
    ensures CountKind(TerminalsOf(members), "function_call") == |CallsOf(members)|
    ensures CountKind(TerminalsOf(members), "message") == AnswerCount(members)
  {
    hide CountKind, ThinkingCount, CallsOf, AnswerCount, TerminalsOf;
    if members == [] {
      NoneCounted();
    } else {
      var n := |members| - 1;
      KindsCounted(members[..n]);
      KindOneMore(members, "reasoning");
      KindOneMore(members, "function_call");
      KindOneMore(members, "message");
      CountsPush(members[..n], members[n]);
      AnswersPush(members[..n], members[n]);
      assert members == members[..n] + [members[n]];
      KindOf(members[n]);
    }
  }

  lemma KindOneMore(members: seq<Member>, kind: string)
    requires members != []
    ensures var n := |members| - 1;
      CountKind(TerminalsOf(members), kind) == CountKind(TerminalsOf(members[..n]), kind) + if ItemOf(members[n]).kind == kind then 1 else 0
  {
    hide ItemOf;
    TerminalsOfFront(members, |members| - 1);
  }

  lemma TerminalsOfFront(members: seq<Member>, n: nat)
    requires n <= |members|
    ensures TerminalsOf(members)[..n] == TerminalsOf(members[..n])
  {}

  lemma KindOf(m: Member)
    ensures ItemOf(m).kind == if m.Thinking? then "reasoning" else if m.Answer? then "message" else "function_call"
  {}

  lemma NoneCounted()
    ensures TerminalsOf([]) == []
    ensures forall kind :: CountKind([], kind) == 0
    ensures ThinkingCount([]) == 0 && CallsOf([]) == [] && AnswerCount([]) == 0
  {}

  lemma AnswersPush(members: seq<Member>, m: Member)
    ensures AnswerCount(members + [m]) == AnswerCount(members) + if m.Answer? then 1 else 0
  {
    assert (members + [m])[..|members|] == members;
  }

  function AnswerCount(members: seq<Member>): nat {
    if members == [] then 0 else AnswerCount(members[..|members| - 1]) + if members[|members| - 1].Answer? then 1 else 0
  }

  lemma {:induction false} CountsAddUp(members: seq<Member>)
    ensures ThinkingCount(members) + AnswerCount(members) + |CallsOf(members)| == |members|
  {
    if members != [] { CountsAddUp(members[..|members| - 1]); }
  }

  lemma {:induction false} OneAnswer(members: seq<Member>)
    requires Regular(members)
    ensures AnswerCount(members) == if AnswerOf(members) != "" then 1 else 0
    ensures forall k: nat | k < |members| && members[k].Answer? :: AnswerOf(members) == Text(members[k].texts)
  {
    if members != [] {
      var n := |members| - 1;
      var front, m := members[..n], members[n];
      assert members == front + [m];
      NextIsApart(front, m);
      OneAnswer(front);
      CountsPush(front, m);
      hide Regular, Text, AnswerOf;
      if m.Answer? { assert "" + Text(m.texts) == Text(m.texts); }
      forall k: nat | k < |members| && members[k].Answer? ensures AnswerOf(members) == Text(members[k].texts) {
        if k < n {
          assert front[k] == members[k] && Apart(front[k], m);
        }
      }
    }
  }

  lemma {:induction false} CallInPlace(members: seq<Member>, k: nat)
    requires k < |members| && members[k].Calling?
    ensures |CallsOf(members[..k])| < |CallsOf(members)| && CallsOf(members)[|CallsOf(members[..k])|] == members[k].call
  {
    var n := |members| - 1;
    if k < n {
      CallInPlace(members[..n], k);
      assert members[..n][..k] == members[..k];
    }
  }

  lemma MemberIsAgreed(s: State, members: seq<Member>, k: nat)
    requires Regular(members) && s.visibleText == AnswerOf(members) && s.functionCalls == CallsOf(members) && ReasoningHeld(s, members)
    requires k < |members|
    ensures MemberAgrees(s, TerminalsOf(members), k) && PartFor(s, TerminalsOf(members), k) == PartMeant(members[k])
  {
    hide Regular, AnswerOf, CallsOf, ThinkingCount, Text, Summary, CountKind;
    KindsCounted(members[..k]);
    TerminalsOfFront(members, k);
    KindOf(members[k]);
    if members[k].Thinking? {
      ItemIsFound(s, members, k);
    } else if members[k].Answer? {
      OneAnswer(members);
    } else {
      CallInPlace(members, k);
    }
  }

  lemma ItemIsFound(s: State, members: seq<Member>, k: nat)
    requires ReasoningHeld(s, members) && k < |members| && members[k].Thinking?
    ensures var i := ReasoningFor(s, TerminalOf(members[k], k));
      i.Some? && i.value < |s.reasoningItems|
      && s.reasoningItems[i.value].text == Summary(members[k].pieces) && s.reasoningItems[i.value].signature == members[k].encrypted
  {
    hide ThinkingCount, Summary;
    assert IsItem(s, ThinkingCount(members[..k]), members[k], k);
  }

  lemma AllIsAgreed(s: State, members: seq<Member>)
    requires Regular(members) && s.visibleText == AnswerOf(members) && s.functionCalls == CallsOf(members) && ReasoningHeld(s, members)
    ensures AllAgree(s, TerminalsOf(members)) && PartsFor(s, TerminalsOf(members)) == PartsMeant(members)
  {
    hide Regular, AnswerOf, CallsOf, ThinkingCount, CountKind, MemberAgrees, PartFor;
    KindsCounted(members);
    CountsAddUp(members);
    OneAnswer(members);
    forall k: nat | k < |members| ensures MemberAgrees(s, TerminalsOf(members), k) && PartFor(s, TerminalsOf(members), k) == PartMeant(members[k]) {
      MemberIsAgreed(s, members, k);
    }
    ThinkingIsCounted(s, members);
  }

  lemma ThinkingIsCounted(s: State, members: seq<Member>)
    requires ReasoningHeld(s, members)
    ensures |s.reasoningItems| == ThinkingCount(members)
  {}

  lemma StreamIsHeld(members: seq<Member>, listed: bool)
    requires Regular(members)
    ensures var s := Run(START, StreamOf(members, listed));
      && s.unsafeReason == None && s.visibleText == AnswerOf(members) && s.functionCalls == CallsOf(members) && ReasoningHeld(s, members)
      && s.thoughtText == ThoughtOf(members)
      && s.doneItems == DonesOf(members) && s.completedOutput == Some(if listed then ItemsOf(members) else [])
  {
    hide Run, Observe, Regular, ReasoningHeld;
    var held := Run(START, Streamed(members));
    var output := if listed then Items(ItemsOf(members)) else Missing;
    StreamedIsHeld(members);
    RunPush(START, Streamed(members), Step(Completed(output), EMPTY_CHUNK));
    CompletedIsTaken(held, output);
    SameReasoning(held, Run(START, StreamOf(members, listed)), members);
  }

  lemma SameReasoning(s: State, q: State, members: seq<Member>)
    requires ReasoningHeld(s, members) && q.reasoningItems == s.reasoningItems && q.byKey == s.byKey
    ensures ReasoningHeld(q, members)
  {
    forall k: nat | k < |members| && members[k].Thinking? ensures IsItem(q, ThinkingCount(members[..k]), members[k], k) {
      assert IsItem(s, ThinkingCount(members[..k]), members[k], k);
    }
  }

  /** A regular turn comes back whole: streaming any items in pieces, done events and a completed event, the projection
      has exactly the parts that the items say, in their order, and the encoding of those. */
  lemma TurnComesBack(members: seq<Member>, listed: bool, encode: Encoder)
    requires Regular(members)
    ensures Project(Run(START, StreamOf(members, listed)), encode).projection ==
      if members == [] then Some(Projection([], []))
      else if encode(PartsMeant(members)).Some? then Some(Projection(PartsMeant(members), encode(PartsMeant(members)).value))
      else None
  {
    var s := Run(START, StreamOf(members, listed));
    StreamIsHeld(members, listed);
    hide Run, Regular, ReasoningHeld, AllAgree, TerminalItems, AnswerOf, CallsOf, DonesOf, ThoughtOf, StreamOf;
    if listed && members != [] {
      ListedTerminals(s, members);
    } else {
      assert listed ==> ItemsOf(members) == [];
      UnlistedTerminals(s, members);
    }
    AllIsAgreed(s, members);
  }
}
