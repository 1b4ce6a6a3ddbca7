/** What the accumulator has on record after any run, told from the chunks and events alone
    (backend/capabilities/openAIResponsesContinuationProjection.ts, lines 65-128 and 207-255). */
module StreamRecord {
  import opened Options
  import opened ContinuationProjection
  import opened TerminalProjection

  // ----- reading the run

  /** The visible texts of the chunks, in order. */
  function Visible(steps: seq<Step>): string {
    if steps == [] then "" else steps[0].decoded.visible + Visible(steps[1..])
  }

  /** The function calls of the chunks, in order. */
  function CallParts(steps: seq<Step>): seq<CallPart> {
    if steps == [] then [] else steps[0].decoded.calls + CallParts(steps[1..])
  }

  /** The chunks handed on to be shown. */
  function Shown(s: State, steps: seq<Step>): seq<Chunk> {
    if steps == [] then []
    else
      var n := |steps| - 1;
      Shown(s, steps[..n]) + [Observe(Run(s, steps[..n]), steps[n].raw, steps[n].decoded).chunk]
  }

  function Thoughts(chunks: seq<Chunk>): string {
    if chunks == [] then "" else chunks[0].thought + Thoughts(chunks[1..])
  }

  function CallFrom(part: CallPart): Call
    requires part.callId.Some?
  {
    Call(part.callId.value, part.name, part.args)
  }

  /** The first call with this id. */
  function FirstWith(parts: seq<CallPart>, id: string): Option<Call> {
    if parts == [] then None
    else if parts[0].callId == Some(id) then Some(CallFrom(parts[0]))
    else FirstWith(parts[1..], id)
  }

  /** The first occurrence of every call id, in order. */
  function FirstCalls(parts: seq<CallPart>): seq<Call> {
    if parts == [] then []
    else
      var n := |parts| - 1;
      FirstCalls(parts[..n])
      + if parts[n].callId.Some? && FirstWith(parts[..n], parts[n].callId.value) == None then [CallFrom(parts[n])] else []
  }

  /** The part has an id, and says what the first part with that id said. */
  predicate IsSteady(parts: seq<CallPart>, j: nat)
    requires j < |parts|
  {
    parts[j].callId.Some? && FirstWith(parts, parts[j].callId.value) == Some(CallFrom(parts[j]))
  }

  predicate AllSteady(parts: seq<CallPart>) {
    forall j: nat | j < |parts| :: IsSteady(parts, j)
  }

  // ----- the calls on record

  lemma {:induction false} FirstWithJoin(a: seq<CallPart>, b: seq<CallPart>, id: string)
    ensures FirstWith(a + b, id) == if FirstWith(a, id).Some? then FirstWith(a, id) else FirstWith(b, id)
  {
    if a == [] {
      assert a + b == b;
    } else {
      FirstWithJoin(a[1..], b, id);
      assert (a + b)[1..] == a[1..] + b;
    }
  }

  lemma FirstWithPush(parts: seq<CallPart>, part: CallPart, id: string)
    ensures FirstWith(parts + [part], id) ==
      if FirstWith(parts, id).Some? then FirstWith(parts, id) else if part.callId == Some(id) then Some(CallFrom(part)) else None
  {
    FirstWithJoin(parts, [part], id);
    assert [part][1..] == [];
  }

  /** Under every id recorded stands the first call with it. */
  ghost predicate Records(s: State, parts: seq<CallPart>) {
    && s.functionCalls == FirstCalls(parts)
    && forall id :: if id in s.callIndexes then s.callIndexes[id] < |s.functionCalls| && FirstWith(parts, id) == Some(s.functionCalls[s.callIndexes[id]])
                    else FirstWith(parts, id) == None
  }

  lemma CallIsRecorded(s: State, parts: seq<CallPart>, part: CallPart)
    requires Records(s, parts)
    ensures Records(TakeCall(s, part), parts + [part])
    ensures TakeCall(s, part).unsafeReason == None <==>
      s.unsafeReason == None && part.callId.Some? && FirstWith(parts + [part], part.callId.value) == Some(CallFrom(part))
  {
    hide FirstWith, FirstCalls;
    FirstCallsPush(parts, part);
    forall id {:trigger FirstWith(parts + [part], id)}
      ensures FirstWith(parts + [part], id) ==
        if FirstWith(parts, id).Some? then FirstWith(parts, id) else if part.callId == Some(id) then Some(CallFrom(part)) else None
    {
      FirstWithPush(parts, part, id);
    }
    if part.callId.Some? {
      var id := part.callId.value;
      FirstWithPush(parts, part, id);
      assert id in s.callIndexes <==> FirstWith(parts, id).Some?;
    }
  }

  lemma FirstCallsPush(parts: seq<CallPart>, part: CallPart)
    ensures FirstCalls(parts + [part]) ==
      if part.callId.Some? && FirstWith(parts, part.callId.value) == None then FirstCalls(parts) + [CallFrom(part)] else FirstCalls(parts)
  {
    hide FirstWith;
    assert (parts + [part])[..|parts|] == parts;
    assert FirstCalls(parts) + [] == FirstCalls(parts);
  }

  lemma SteadyPush(parts: seq<CallPart>, part: CallPart)
    ensures AllSteady(parts + [part]) <==> AllSteady(parts) && IsSteady(parts + [part], |parts|)
  {
    var all := parts + [part];
    forall j: nat | j < |parts| ensures IsSteady(all, j) <==> IsSteady(parts, j) {
      assert all[j] == parts[j];
      if parts[j].callId.Some? {
        FirstWithPush(parts, part, parts[j].callId.value);
        IsThere(parts, j);
      }
    }
    hide IsSteady;
  }

  lemma {:induction false} IsThere(parts: seq<CallPart>, j: nat)
    requires j < |parts| && parts[j].callId.Some?
    ensures FirstWith(parts, parts[j].callId.value).Some?
  {
    if j > 0 {
      assert parts[1..][j - 1] == parts[j];
      IsThere(parts[1..], j - 1);
    }
  }

  lemma {:induction false} CallsAreRecorded(s: State, before: seq<CallPart>, parts: seq<CallPart>)
    requires Records(s, before)
    ensures Records(TakeCalls(s, parts), before + parts)
    ensures AllSteady(before) ==> (TakeCalls(s, parts).unsafeReason == None <==> s.unsafeReason == None && AllSteady(before + parts))
  {
    hide Records, AllSteady, FirstWith, TakeCall;
    if parts == [] {
      assert before + parts == before;
    } else {
      var n := |parts| - 1;
      CallsAreRecorded(s, before, parts[..n]);
      CallIsRecorded(TakeCalls(s, parts[..n]), before + parts[..n], parts[n]);
      SteadyPush(before + parts[..n], parts[n]);
      assert before + parts[..n] + [parts[n]] == before + parts;
    }
  }

  // ----- one event

  /** Visible text, thought text and calls are as they were, and distrust stays. */
  predicate SameRecord(s: State, q: State) {
    RecordOf(q) == RecordOf(s) && (s.unsafeReason.Some? ==> q.unsafeReason == s.unsafeReason)
  }

  datatype Record = Record(visible: string, thought: string, calls: seq<Call>, indexes: map<string, nat>)

  function RecordOf(s: State): Record {
    Record(s.visibleText, s.thoughtText, s.functionCalls, s.callIndexes)
  }

  lemma ItemForSame(s: State, identity: Identity)
    ensures SameRecord(s, ItemFor(s, identity).state)
  {}

  lemma MarkSame(s: State, reason: string)
    ensures SameRecord(s, MarkUnsafe(s, reason))
  {}

  lemma AddDoneSame(s: State, candidate: DoneItem)
    ensures SameRecord(s, AddDone(s, candidate))
  {}

  lemma CaptureSame(s: State, raw: Raw)
    ensures SameRecord(s, Capture(s, raw))
  {
    hide ItemFor, AddDone, MarkUnsafe;
    if raw.ItemDone? && raw.item.Some? {
      DoneSame(s, raw, DoneItem(raw.item.value, raw.outputIndex, DoneKey(|s.doneItems|, raw.item.value, raw.outputIndex)));
    }
    MarkSame(s, "output_item_done_without_item");
    MarkSame(s, "duplicate_response_completed");
    MarkSame(s, "response_completed_without_output_membership");
    MarkSame(s, "response_completed_invalid_output_member");
  }

  lemma DoneSame(s: State, raw: Raw, candidate: DoneItem)
    requires raw.ItemDone?
    ensures var added := AddDone(s, candidate); var found := ItemFor(added, raw.identity).state;
      SameRecord(s, added) && SameRecord(s, found) && SameRecord(s, MarkUnsafe(found, "reasoning_item_without_identity"))
  {
    hide ItemFor, AddDone;
    AddDoneSame(s, candidate);
    ItemForSame(AddDone(s, candidate), raw.identity);
  }

  lemma DeltaSame(s: State, i: nat, block: nat, isNewBlock: bool, text: string, chunk: Chunk)
    requires i < |s.reasoningItems| && block in s.reasoningItems[i].blocks
    ensures var c := AddDelta(s, i, block, isNewBlock, text, chunk); SameRecord(s, c.state) && c.chunk == chunk.(thought := c.chunk.thought)
  {
    hide Extended;
  }

  lemma FullTextSame(s: State, i: nat, block: nat, isNewBlock: bool, text: string, isDone: bool, chunk: Chunk)
    requires i < |s.reasoningItems| && block in s.reasoningItems[i].blocks
    ensures var c := AddFullText(s, i, block, isNewBlock, text, isDone, chunk); SameRecord(s, c.state) && c.chunk == chunk.(thought := c.chunk.thought)
  {
    hide Extended;
  }

  lemma RegisterSame(s: State, i: nat, block: nat)
    requires i < |s.reasoningItems|
    ensures SameRecord(s, RegisterBlock(s, i, block).state)
  {}

  lemma CanonicalSame(s: State, raw: Raw, chunk: Chunk)
    ensures var c := CanonicalChunk(s, raw, chunk);
      SameRecord(s, c.state) && c.chunk == chunk.(thought := c.chunk.thought)
  {
    hide ItemFor, AddDelta, AddFullText;
    if (raw.Delta? && raw.delta.Some?) || (raw.FullText? && raw.text.Some?) {
      ItemForSame(s, raw.identity);
      var found := ItemFor(s, raw.identity);
      if found.index.Some? {
        var i := found.index.value;
        var isNewBlock := raw.summaryIndex !in found.state.reasoningItems[i].blocks;
        RegisterSame(found.state, i, raw.summaryIndex);
        var registered := RegisterBlock(found.state, i, raw.summaryIndex);
        if registered.ok {
          if raw.Delta? {
            DeltaSame(registered.state, i, raw.summaryIndex, isNewBlock, raw.delta.value, chunk);
          } else {
            FullTextSame(registered.state, i, raw.summaryIndex, isNewBlock, raw.text.value, raw.isDone, chunk);
          }
        }
      }
    }
  }

  lemma BoundarySame(s: State, raw: Raw, chunk: Chunk)
    ensures var c := Boundary(s, raw, chunk);
      SameRecord(s, c.state) && c.chunk == chunk.(thought := c.chunk.thought)
  {
    hide ItemFor;
    if raw.ItemDone? { ItemForSame(s, raw.identity); }
  }

  lemma SignatureSame(s: State, raw: Raw, signature: string)
    ensures SameRecord(s, TakeSignature(s, raw, signature))
  {
    hide ItemFor;
    ItemForSame(s, if raw.Completed? then Identity(None, None) else raw.identity);
  }

  lemma ValidateSame(s: State, raw: Raw)
    ensures SameRecord(s, ValidateReasoning(s, raw))
  {
    hide ItemFor;
    if raw.ItemDone? { ItemForSame(s, raw.identity); }
  }

  lemma CallSame(s: State, part: CallPart)
    ensures var q := TakeCall(s, part);
      TextsOf(q) == TextsOf(s) && (s.unsafeReason.Some? ==> q.unsafeReason == s.unsafeReason)
  {}

  function TextsOf(s: State): (string, string) {
    (s.visibleText, s.thoughtText)
  }

  lemma {:induction false} CallsSame(s: State, parts: seq<CallPart>)
    ensures s.unsafeReason.Some? ==> TakeCalls(s, parts).unsafeReason == s.unsafeReason
    ensures TextsOf(TakeCalls(s, parts)) == TextsOf(s)
  {
    hide TakeCall;
    if parts != [] {
      CallsSame(s, parts[..|parts| - 1]);
      CallSame(TakeCalls(s, parts[..|parts| - 1]), parts[|parts| - 1]);
    }
  }

  /** An event adds its chunk's visible text, the thought it shows, and its calls. */
  lemma EventIsRecorded(s: State, raw: Raw, decoded: Chunk, parts: seq<CallPart>)
    requires Records(s, parts) && (s.unsafeReason == None ==> AllSteady(parts))
    ensures Observe(s, raw, decoded).state.unsafeReason == None ==> s.unsafeReason == None && AllSteady(parts + decoded.calls)
    ensures var o := Observe(s, raw, decoded);
      && o.state.visibleText == s.visibleText + decoded.visible && o.state.thoughtText == s.thoughtText + o.chunk.thought
      && o.chunk == decoded.(thought := o.chunk.thought)
      && Records(o.state, parts + decoded.calls)
  {
    hide Records, AllSteady, Capture, CanonicalChunk, Boundary, TakeSignature, TakeCalls, ValidateReasoning, FirstCalls, FirstWith;
    var captured := Capture(s, raw);
    var canonical := CanonicalChunk(captured, raw, decoded);
    var bounded := Boundary(canonical.state, raw, canonical.chunk);
    CaptureSame(s, raw);
    CanonicalSame(captured, raw, decoded);
    BoundarySame(canonical.state, raw, canonical.chunk);
    var texted := bounded.state.(visibleText := bounded.state.visibleText + bounded.chunk.visible, thoughtText := bounded.state.thoughtText + bounded.chunk.thought);
    var signed := if bounded.chunk.signature.Some? then TakeSignature(texted, raw, bounded.chunk.signature.value) else texted;
    if bounded.chunk.signature.Some? { SignatureSame(texted, raw, bounded.chunk.signature.value); }
    SameCalls(s, signed, parts);
    CallsAreRecorded(signed, parts, decoded.calls);
    CallsSame(signed, decoded.calls);
    var accumulated := TakeCalls(signed, decoded.calls);
    ValidateSame(accumulated, raw);
    SameCalls(accumulated, ValidateReasoning(accumulated, raw), parts + decoded.calls);
  }

  lemma SameCalls(s: State, q: State, parts: seq<CallPart>)
    requires Records(s, parts) && q.functionCalls == s.functionCalls && q.callIndexes == s.callIndexes
    ensures Records(q, parts)
  {
    hide FirstCalls, FirstWith;
  }

  // ----- every run

  lemma VisiblePush(steps: seq<Step>, step: Step)
    ensures Visible(steps + [step]) == Visible(steps) + step.decoded.visible
    ensures CallParts(steps + [step]) == CallParts(steps) + step.decoded.calls
    decreases |steps|
  {
    if steps == [] {
      assert [step][1..] == [] && [] + [step] == [step];
      assert step.decoded.visible + "" == "" + step.decoded.visible;
      assert step.decoded.calls + [] == [] + step.decoded.calls;
    } else {
      VisiblePush(steps[1..], step);
      assert (steps + [step])[1..] == steps[1..] + [step];
      assert steps[0].decoded.visible + (Visible(steps[1..]) + step.decoded.visible) == steps[0].decoded.visible + Visible(steps[1..]) + step.decoded.visible;
      assert steps[0].decoded.calls + (CallParts(steps[1..]) + step.decoded.calls) == steps[0].decoded.calls + CallParts(steps[1..]) + step.decoded.calls;
    }
  }

  lemma {:induction false} ThoughtsPush(chunks: seq<Chunk>, chunk: Chunk)
    ensures Thoughts(chunks + [chunk]) == Thoughts(chunks) + chunk.thought
  {
    if chunks == [] {
      assert [chunk][1..] == [] && [] + [chunk] == [chunk];
      assert chunk.thought + "" == "" + chunk.thought;
    } else {
      ThoughtsPush(chunks[1..], chunk);
      assert (chunks + [chunk])[1..] == chunks[1..] + [chunk];
    }
  }

  /** After any run the accumulator holds the visible texts of the chunks in order, the thoughts that were shown in
      order, and the first call with each id in order; and it is distrusted if a call had no id or changed later on. */
  lemma {:induction false} RunIsRecorded(steps: seq<Step>)
    ensures var q := Run(START, steps);
      && q.visibleText == Visible(steps) && q.thoughtText == Thoughts(Shown(START, steps))
      && q.functionCalls == FirstCalls(CallParts(steps))
      && (q.unsafeReason == None ==> AllSteady(CallParts(steps)))
      && Records(q, CallParts(steps))
  {
    hide Observe, Records, AllSteady, FirstCalls, FirstWith, Visible, CallParts, Thoughts;
    if steps == [] {
      NothingRecorded();
    } else {
      var n := |steps| - 1;
      var before := Run(START, steps[..n]);
      RunIsRecorded(steps[..n]);
      assert steps == steps[..n] + [steps[n]];
      VisiblePush(steps[..n], steps[n]);
      EventIsRecorded(before, steps[n].raw, steps[n].decoded, CallParts(steps[..n]));
      ThoughtsPush(Shown(START, steps[..n]), Observe(before, steps[n].raw, steps[n].decoded).chunk);
      RecordsCalls(Run(START, steps), CallParts(steps));
    }
  }

  lemma RecordsCalls(s: State, parts: seq<CallPart>)
    requires Records(s, parts)
    ensures s.functionCalls == FirstCalls(parts)
  {}

  lemma NothingRecorded()
    ensures Visible([]) == "" && Thoughts([]) == "" && FirstCalls(CallParts([])) == [] && AllSteady(CallParts([])) && Records(START, CallParts([]))
  {}

  // ----- what the run yields

  /** The terminal members are what the chunks spelled out: the message their visible text, the calls their calls in
      order, and the reasoning items their own. */
  ghost predicate SpelledOut(steps: seq<Step>, items: seq<TerminalItem>) {
    && CountKind(items, "message") == (if Visible(steps) != "" then 1 else 0)
    && CountKind(items, "function_call") == |FirstCalls(CallParts(steps))|
    && CountKind(items, "reasoning") == |Run(START, steps).reasoningItems|
    && |items| == CountKind(items, "reasoning") + CountKind(items, "message") + CountKind(items, "function_call")
    && forall k: nat | k < |items| :: MemberSpelledOut(steps, items, k)
  }

  ghost predicate MemberSpelledOut(steps: seq<Step>, items: seq<TerminalItem>, k: nat)
    requires k < |items|
  {
    var entry := items[k];
    if entry.item.kind == "reasoning" then MemberAgrees(Run(START, steps), items, k)
    else if entry.item.kind == "message" then entry.item.text == Some(Visible(steps))
    else
      var j := CountKind(items[..k], "function_call");
      entry.item.kind == "function_call" && j < |FirstCalls(CallParts(steps))| && entry.item.call == Some(FirstCalls(CallParts(steps))[j])
  }

  /** A run yields a projection exactly when it is trusted and its chunks spell out the terminal output, provided that
      can be encoded. */
  lemma YieldsExactly(steps: seq<Step>, encode: Encoder)
    ensures var q := Run(START, steps);
      Project(q, encode).projection.Some? <==>
        && q.unsafeReason == None && TerminalItems(q).items.Some? && SpelledOut(steps, TerminalItems(q).items.value)
        && (TerminalItems(q).items.value == [] || (AllAgree(q, TerminalItems(q).items.value) && encode(PartsFor(q, TerminalItems(q).items.value)).Some?))
  {
    var q := Run(START, steps);
    ProjectionExactly(q, encode);
    if TerminalItems(q).items.Some? { SpelledOutAgrees(steps, TerminalItems(q).items.value); }
    hide TerminalItems, AllAgree, SpelledOut, PartsFor, Project, Run;
  }

  lemma SpelledOutAgrees(steps: seq<Step>, items: seq<TerminalItem>)
    ensures SpelledOut(steps, items) <==> AllAgree(Run(START, steps), items)
  {
    RunIsRecorded(steps);
    hide Run, CountKind, FirstCalls, CallParts, Visible, ReasoningFor;
    forall k: nat | k < |items| ensures MemberSpelledOut(steps, items, k) <==> MemberAgrees(Run(START, steps), items, k) {}
  }
}
