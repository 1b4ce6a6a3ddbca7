/** The accumulator that must prove the streamed chunks equal to the terminal output before they are reused
    as a continuation baseline
    (backend/capabilities/openAIResponsesContinuationProjection.ts, lines 53-75, 130-322, 411-460 and 551-577). */
module ContinuationProjection {
  import opened Options

  /** What an event says about the reasoning item it belongs to. */
  datatype Identity = Identity(itemId: Option<string>, outputIndex: Option<nat>)
  datatype Key = IdKey(id: string) | OutputKey(index: nat) | OrdinalKey(ordinal: nat)

  datatype Call = Call(callId: string, name: string, args: string)

  /** An output item by the parts that matter: rest is the canonical text of everything but its id, its status
      and its encrypted content; summary, text and call are what those parts of it read as. */
  datatype Item = Item(kind: string, id: Option<string>, status: string, encrypted: Option<string>, rest: string,
                       summary: Option<string>, text: Option<string>, call: Option<Call>)

  datatype Output = Missing | NotAList | BadMember | Items(items: seq<Item>)

  /** A provider event. Texts are None when they are missing or empty. */
  datatype Raw =
    | Delta(identity: Identity, summaryIndex: nat, delta: Option<string>)
    | FullText(identity: Identity, summaryIndex: nat, text: Option<string>, isDone: bool)
    | ItemDone(identity: Identity, outputIndex: Option<nat>, item: Option<Item>)
    | Completed(output: Output)
    | OtherEvent(identity: Identity)

  datatype CallPart = CallPart(callId: Option<string>, name: string, args: string)
  /** A decoded chunk: its visible text, its thought text, its signature and its calls. */
  datatype Chunk = Chunk(visible: string, thought: string, signature: Option<string>, calls: seq<CallPart>)

  datatype Reasoning = Reasoning(itemId: Option<string>, outputIndex: Option<nat>, text: string, signature: Option<string>,
                                 blocks: map<nat, string>, completed: set<nat>, last: Option<nat>)
  datatype DoneItem = DoneItem(item: Item, outputIndex: Option<nat>, key: Key)

  /** closed is the history of the reasoning items whose text was taken from their terminal item. */
  datatype State = State(visibleText: string, thoughtText: string, functionCalls: seq<Call>, callIndexes: map<string, nat>,
                         doneItems: seq<DoneItem>, doneIndexes: map<Key, nat>, completedOutput: Option<seq<Item>>,
                         reasoningItems: seq<Reasoning>, byKey: map<Key, nat>, unsafeReason: Option<string>, closed: set<nat>)

  const START := State("", "", [], map[], [], map[], None, [], map[], None, {})

  function MarkUnsafe(s: State, reason: string): State {
    if s.unsafeReason.Some? then s else s.(unsafeReason := Some(reason))
  }

  // ----- reasoning items and their blocks

  function WithKeys(byKey: map<Key, nat>, identity: Identity, index: nat): map<Key, nat> {
    var named := if identity.itemId.Some? then byKey[IdKey(identity.itemId.value) := index] else byKey;
    if identity.outputIndex.Some? then named[OutputKey(identity.outputIndex.value) := index] else named
  }

  function FoundBy(s: State, key: Option<Key>): Option<nat> {
    if key.Some? && key.value in s.byKey && s.byKey[key.value] < |s.reasoningItems| then Some(s.byKey[key.value]) else None
  }

  function IdKeyOf(identity: Identity): Option<Key> {
    if identity.itemId.Some? then Some(IdKey(identity.itemId.value)) else None
  }

  function OutputKeyOf(identity: Identity): Option<Key> {
    if identity.outputIndex.Some? then Some(OutputKey(identity.outputIndex.value)) else None
  }

  function First<T>(a: Option<T>, b: Option<T>): Option<T> {
    if a.Some? then a else b
  }

  predicate Clash<T(==)>(a: Option<T>, b: Option<T>) {
    a.Some? && b.Some? && a != b
  }

  datatype Found = Found(state: State, index: Option<nat>)

  function ItemFor(s: State, identity: Identity): (found: Found)
    ensures found.index.Some? ==> found.index.value < |found.state.reasoningItems|
  {
    var byId, byOutput := FoundBy(s, IdKeyOf(identity)), FoundBy(s, OutputKeyOf(identity));
    if identity.itemId == None && identity.outputIndex == None then Found(MarkUnsafe(s, "reasoning_item_without_identity"), None)
    else if Clash(byId, byOutput) then Found(MarkUnsafe(s, "reasoning_identity_conflict"), None)
    else
      var existing := First(byId, byOutput);
      if existing == None then
        var index := |s.reasoningItems|;
        Found(s.(reasoningItems := s.reasoningItems + [Reasoning(identity.itemId, identity.outputIndex, "", None, map[], {}, None)],
                 byKey := WithKeys(s.byKey, identity, index)), Some(index))
      else
        var r := s.reasoningItems[existing.value];
        if Clash(r.itemId, identity.itemId) || Clash(r.outputIndex, identity.outputIndex)
        then Found(MarkUnsafe(s, "reasoning_identity_conflict"), None)
        else
          var named := r.(itemId := First(r.itemId, identity.itemId), outputIndex := First(r.outputIndex, identity.outputIndex));
          Found(s.(reasoningItems := s.reasoningItems[existing.value := named], byKey := WithKeys(s.byKey, identity, existing.value)), existing)
  }

  datatype Registered = Registered(state: State, ok: bool)

  /** Blocks open in order from 0, and only the last one may go on. */
  function RegisterBlock(s: State, i: nat, block: nat): Registered
    requires i < |s.reasoningItems|
  {
    var r := s.reasoningItems[i];
    if block in r.blocks then
      if r.last != Some(block) then Registered(MarkUnsafe(s, "reasoning_summary_blocks_out_of_order"), false) else Registered(s, true)
    else if block != (if r.last == None then 0 else r.last.value + 1) then Registered(MarkUnsafe(s, "reasoning_summary_index_gap"), false)
    else Registered(s.(reasoningItems := s.reasoningItems[i := r.(blocks := r.blocks[block := ""], last := Some(block))]), true)
  }

  predicate StartsWith(text: string, prefix: string) {
    prefix <= text
  }

  /** The new text of the item after a piece was added to one of its blocks. */
  function Extended(r: Reasoning, isNewBlock: bool, piece: string): string {
    r.text + (if isNewBlock && r.text != "" && piece != "" then "\n" else "") + piece
  }

  datatype Canonical = Canonical(state: State, chunk: Chunk)

  function Displayed(s: State, chunk: Chunk, isNewBlock: bool, piece: string): Chunk {
    chunk.(thought := if isNewBlock && s.thoughtText != "" && piece != "" then "\n" + piece else piece)
  }

  function AddDelta(s: State, i: nat, block: nat, isNewBlock: bool, text: string, chunk: Chunk): Canonical
    requires i < |s.reasoningItems| && block in s.reasoningItems[i].blocks
  {
    var r := s.reasoningItems[i];
    var s1 := if block in r.completed then MarkUnsafe(s, "reasoning_delta_after_summary_done") else s;
    var s2 := if chunk.thought != text then MarkUnsafe(s1, "reasoning_delta_projection_changed") else s1;
    var grown := r.(blocks := r.blocks[block := r.blocks[block] + text], text := Extended(r, isNewBlock, text));
    Canonical(s2.(reasoningItems := s2.reasoningItems[i := grown]), Displayed(s, chunk, isNewBlock, text))
  }

  function AddFullText(s: State, i: nat, block: nat, isNewBlock: bool, text: string, isDone: bool, chunk: Chunk): Canonical
    requires i < |s.reasoningItems| && block in s.reasoningItems[i].blocks
  {
    var r := s.reasoningItems[i];
    if !StartsWith(text, r.blocks[block]) then
      Canonical(MarkUnsafe(s, "reasoning_summary_terminal_revision_conflict"), chunk.(thought := ""))
    else
      var piece := text[|r.blocks[block]|..];
      var s1 := if chunk.thought != "" && chunk.thought != piece && chunk.thought != text
                then MarkUnsafe(s, "reasoning_full_text_projection_changed") else s;
      var grown := r.(blocks := r.blocks[block := text], text := Extended(r, isNewBlock, piece),
                      completed := if isDone then r.completed + {block} else r.completed);
      Canonical(s1.(reasoningItems := s1.reasoningItems[i := grown]), Displayed(s, chunk, isNewBlock, piece))
  }

  function CanonicalChunk(s: State, raw: Raw, chunk: Chunk): Canonical {
    if !((raw.Delta? && raw.delta.Some?) || (raw.FullText? && raw.text.Some?)) then Canonical(s, chunk)
    else
      var found := ItemFor(s, raw.identity);
      if found.index == None then Canonical(found.state, chunk)
      else
        var i := found.index.value;
        var isNewBlock := raw.summaryIndex !in found.state.reasoningItems[i].blocks;
        var registered := RegisterBlock(found.state, i, raw.summaryIndex);
        if !registered.ok then Canonical(registered.state, chunk)
        else if raw.Delta? then AddDelta(registered.state, i, raw.summaryIndex, isNewBlock, raw.delta.value, chunk)
        else AddFullText(registered.state, i, raw.summaryIndex, isNewBlock, raw.text.value, raw.isDone, chunk)
  }

  // ----- terminal evidence

  predicate IsReasoning(item: Item) {
    item.kind == "reasoning"
  }

  function DoneKey(ordinal: nat, item: Item, outputIndex: Option<nat>): Key {
    if item.id.Some? then IdKey(item.id.value) else if outputIndex.Some? then OutputKey(outputIndex.value) else OrdinalKey(ordinal)
  }

  function AddDone(s: State, candidate: DoneItem): State {
    if candidate.key !in s.doneIndexes then
      s.(doneIndexes := s.doneIndexes[candidate.key := |s.doneItems|], doneItems := s.doneItems + [candidate])
    else if s.doneIndexes[candidate.key] < |s.doneItems| && s.doneItems[s.doneIndexes[candidate.key]] == candidate then s
    else MarkUnsafe(s, "output_item_done_conflict")
  }

  function Capture(s: State, raw: Raw): State {
    match raw
    case ItemDone(identity, outputIndex, item) =>
      if item == None then MarkUnsafe(s, "output_item_done_without_item")
      else
        var added := AddDone(s, DoneItem(item.value, outputIndex, DoneKey(|s.doneItems|, item.value, outputIndex)));
        if !IsReasoning(item.value) then added
        else
          var found := ItemFor(added, identity);
          if found.index == None then MarkUnsafe(found.state, "reasoning_item_without_identity") else found.state
    case Completed(output) =>
      if s.completedOutput.Some? then MarkUnsafe(s, "duplicate_response_completed")
      else (match output
            case Missing => s.(completedOutput := Some([]))
            case NotAList => MarkUnsafe(s, "response_completed_without_output_membership")
            case BadMember => MarkUnsafe(s, "response_completed_invalid_output_member")
            case Items(items) => s.(completedOutput := Some(items)))
    case _ => s
  }

  /** The first thought of a reasoning item that has only a terminal text starts on a new line. */
  function Boundary(s: State, raw: Raw, chunk: Chunk): Canonical {
    if !(raw.ItemDone? && raw.item.Some? && IsReasoning(raw.item.value)) then Canonical(s, chunk)
    else
      var found := ItemFor(s, raw.identity);
      if found.index == None || found.state.reasoningItems[found.index.value].text != "" || s.thoughtText == "" || chunk.thought == ""
      then Canonical(found.state, chunk)
      else Canonical(found.state, chunk.(thought := "\n" + chunk.thought))
  }

  function TakeSignature(s: State, raw: Raw, signature: string): State {
    var trusted := raw.ItemDone? && raw.item.Some? && IsReasoning(raw.item.value) && raw.item.value.encrypted == Some(signature);
    var found := ItemFor(s, if raw.Completed? then Identity(None, None) else raw.identity);
    if !trusted || found.index == None then MarkUnsafe(found.state, "reasoning_signature_from_untrusted_event")
    else
      var r := found.state.reasoningItems[found.index.value];
      if r.signature.Some? && r.signature != Some(signature) then MarkUnsafe(found.state, "reasoning_signature_conflict")
      else found.state.(reasoningItems := found.state.reasoningItems[found.index.value := r.(signature := Some(signature))])
  }

  function TakeCall(s: State, part: CallPart): State {
    if part.callId == None then MarkUnsafe(s, "function_call_without_provider_id")
    else
      var candidate := Call(part.callId.value, part.name, part.args);
      if candidate.callId !in s.callIndexes then
        s.(callIndexes := s.callIndexes[candidate.callId := |s.functionCalls|], functionCalls := s.functionCalls + [candidate])
      else if s.callIndexes[candidate.callId] < |s.functionCalls| && s.functionCalls[s.callIndexes[candidate.callId]] == candidate then s
      else MarkUnsafe(s, "function_call_projection_conflict")
  }

  function TakeCalls(s: State, parts: seq<CallPart>): State {
    if parts == [] then s else TakeCall(TakeCalls(s, parts[..|parts| - 1]), parts[|parts| - 1])
  }

  function Accumulate(s: State, raw: Raw, chunk: Chunk): State {
    var texted := s.(visibleText := s.visibleText + chunk.visible, thoughtText := s.thoughtText + chunk.thought);
    TakeCalls(if chunk.signature.Some? then TakeSignature(texted, raw, chunk.signature.value) else texted, chunk.calls)
  }

  function ValidateReasoning(s: State, raw: Raw): State {
    if !(raw.ItemDone? && raw.item.Some? && IsReasoning(raw.item.value)) then s
    else if raw.item.value.summary == None then MarkUnsafe(s, "reasoning_terminal_summary_invalid")
    else
      var found := ItemFor(s, raw.identity);
      if found.index == None then found.state
      else
        var i := found.index.value;
        var r := found.state.reasoningItems[i];
        if r.text != "" && !StartsWith(raw.item.value.summary.value, r.text) then MarkUnsafe(found.state, "reasoning_terminal_revision_conflict")
        else found.state.(reasoningItems := found.state.reasoningItems[i := r.(text := raw.item.value.summary.value)],
                          closed := found.state.closed + {i})
  }

  function Observe(s: State, raw: Raw, decoded: Chunk): Canonical {
    var canonical := CanonicalChunk(Capture(s, raw), raw, decoded);
    var bounded := Boundary(canonical.state, raw, canonical.chunk);
    Canonical(ValidateReasoning(Accumulate(bounded.state, raw, bounded.chunk), raw), bounded.chunk)
  }

  // ----- what every event keeps

  function Count(r: Reasoning): nat {
    if r.last.Some? then r.last.value + 1 else 0
  }

  /** The first n blocks, one to a line. */
  function Joined(blocks: map<nat, string>, n: nat): string
    requires forall k: nat | k < n :: k in blocks
  {
    if n == 0 then "" else if n == 1 then blocks[0] else Joined(blocks, n - 1) + "\n" + blocks[n - 1]
  }

  /** The blocks of an item are numbered from 0 without a gap, and none is empty. */
  ghost predicate BlocksAreSound(r: Reasoning) {
    && (forall k: nat :: k in r.blocks <==> k < Count(r))
    && (forall k | k in r.blocks :: r.blocks[k] != "")
  }

  ghost predicate TextIsBlocks(r: Reasoning)
    requires BlocksAreSound(r)
  {
    r.text == Joined(r.blocks, Count(r))
  }

  ghost predicate ItemIsSound(s: State, i: nat)
    requires i < |s.reasoningItems|
  {
    BlocksAreSound(s.reasoningItems[i]) && (i !in s.closed ==> TextIsBlocks(s.reasoningItems[i]))
  }

  /** Until its terminal item, the text of a reasoning item is its blocks joined by newlines. */
  ghost predicate Inv(s: State) {
    (forall i: nat | i < |s.reasoningItems| :: ItemIsSound(s, i)) && forall i | i in s.closed :: i < |s.reasoningItems|
  }

  /** No reasoning text is ever rewritten, and a reason to distrust the stream is never forgotten. */
  ghost predicate Grows(s: State, q: State) {
    && |s.reasoningItems| <= |q.reasoningItems|
    && (forall i | 0 <= i < |s.reasoningItems| :: s.reasoningItems[i].text <= q.reasoningItems[i].text)
    && (s.unsafeReason.Some? ==> q.unsafeReason == s.unsafeReason) && s.closed <= q.closed
  }

  ghost predicate Kept(s: State, q: State) {
    Inv(q) && Grows(s, q)
  }

  /** Only one item changed, and only by growing. */
  ghost predicate OneGrew(s: State, q: State, i: nat) {
    && i < |s.reasoningItems| == |q.reasoningItems| && q.reasoningItems == s.reasoningItems[i := q.reasoningItems[i]]
    && s.reasoningItems[i].text <= q.reasoningItems[i].text
    && (s.unsafeReason.Some? ==> q.unsafeReason == s.unsafeReason) && s.closed <= q.closed <= s.closed + {i}
  }

  lemma OneGrewKept(s: State, q: State, i: nat)
    requires Inv(s) && OneGrew(s, q, i) && ItemIsSound(q, i)
    ensures Kept(s, q)
  {
    forall j: nat | j < |q.reasoningItems| ensures ItemIsSound(q, j) {
      assert ItemIsSound(s, j);
    }
  }

  lemma MarkKeeps(s: State, reason: string)
    requires Inv(s)
    ensures Kept(s, MarkUnsafe(s, reason))
  {
    forall j: nat | j < |s.reasoningItems| ensures ItemIsSound(MarkUnsafe(s, reason), j) { assert ItemIsSound(s, j); }
  }

  lemma KeptTwice(s: State, q: State, u: State)
    requires Kept(s, q) && Kept(q, u)
    ensures Kept(s, u)
  {
    forall i | 0 <= i < |s.reasoningItems| ensures s.reasoningItems[i].text <= u.reasoningItems[i].text {
      assert s.reasoningItems[i].text <= q.reasoningItems[i].text <= u.reasoningItems[i].text;
    }
  }

  /** A step that leaves the reasoning items alone keeps everything about them. */
  lemma SameItemsKept(s: State, q: State)
    requires Inv(s) && q.reasoningItems == s.reasoningItems && q.closed == s.closed && (s.unsafeReason.Some? ==> q.unsafeReason == s.unsafeReason)
    ensures Kept(s, q)
  {
    forall j: nat | j < |s.reasoningItems| ensures ItemIsSound(q, j) { assert ItemIsSound(s, j); }
  }

  /** Finding the item of an event adds one, gives one a name, or leaves them as they are. */
  lemma ItemForShape(s: State, identity: Identity)
    ensures var found := ItemFor(s, identity); var q := found.state;
      && q.closed == s.closed && (s.unsafeReason.Some? ==> q.unsafeReason == s.unsafeReason)
      && (q.reasoningItems != s.reasoningItems ==> q.unsafeReason == s.unsafeReason && found.index.Some?)
      && (q.reasoningItems == s.reasoningItems || IsNewItem(s, q) || IsRenamed(s, q, found.index.value))
  {}

  ghost predicate IsNewItem(s: State, q: State) {
    && |q.reasoningItems| == |s.reasoningItems| + 1 && q.reasoningItems[..|s.reasoningItems|] == s.reasoningItems
    && var r := q.reasoningItems[|s.reasoningItems|]; r.text == "" && r.blocks == map[] && r.last == None
  }

  ghost predicate IsRenamed(s: State, q: State, i: nat) {
    && i < |s.reasoningItems| == |q.reasoningItems|
    && q.reasoningItems == s.reasoningItems[i := s.reasoningItems[i].(itemId := q.reasoningItems[i].itemId, outputIndex := q.reasoningItems[i].outputIndex)]
  }

  /** A new item is one that no earlier event has closed. */
  lemma ItemForKeeps(s: State, identity: Identity)
    requires Inv(s)
    ensures Kept(s, ItemFor(s, identity).state)
  {
    ItemForShape(s, identity);
    hide Inv, ItemFor, IsNewItem, IsRenamed, Grows;
    var found := ItemFor(s, identity);
    if found.state.reasoningItems == s.reasoningItems {
      SameItemsKept(s, found.state);
    } else if IsNewItem(s, found.state) {
      NewItemKept(s, found.state);
    } else {
      RenamedItemKept(s, found.state, found.index.value);
    }
  }

  lemma NewItemKept(s: State, q: State)
    requires Inv(s) && q.closed == s.closed && q.unsafeReason == s.unsafeReason
    requires IsNewItem(s, q)
    ensures Kept(s, q)
  {
    forall j: nat | j < |q.reasoningItems| ensures ItemIsSound(q, j) {
      if j < |s.reasoningItems| {
        assert ItemIsSound(s, j) && q.reasoningItems[j] == q.reasoningItems[..|s.reasoningItems|][j];
      }
    }
    forall j | 0 <= j < |s.reasoningItems| ensures s.reasoningItems[j].text <= q.reasoningItems[j].text {
      assert q.reasoningItems[j] == q.reasoningItems[..|s.reasoningItems|][j];
    }
  }

  lemma RenamedItemKept(s: State, q: State, i: nat)
    requires Inv(s) && q.closed == s.closed && q.unsafeReason == s.unsafeReason && IsRenamed(s, q, i)
    ensures Kept(s, q)
  {
    assert ItemIsSound(s, i);
    OneGrewKept(s, q, i);
  }

  // ----- a piece of text for a block

  lemma {:induction false} JoinedSame(a: map<nat, string>, b: map<nat, string>, n: nat)
    requires forall k: nat | k < n :: k in a && k in b && a[k] == b[k]
    ensures Joined(a, n) == Joined(b, n)
  {
    if n > 1 { JoinedSame(a, b, n - 1); }
  }

  lemma {:induction false} JoinedNotEmpty(blocks: map<nat, string>, n: nat)
    requires forall k: nat | k < n :: k in blocks && blocks[k] != ""
    ensures Joined(blocks, n) == "" <==> n == 0
  {
    if n > 1 { assert |Joined(blocks, n)| >= |blocks[n - 1]|; }
  }

  lemma Regroup(a: string, b: string, c: string)
    ensures a + (b + c) == (a + b) + c
  {}

  lemma LastBlockGrows(blocks: map<nat, string>, n: nat, piece: string)
    requires 0 < n && forall k: nat | k < n :: k in blocks
    ensures Joined(blocks[n - 1 := blocks[n - 1] + piece], n) == Joined(blocks, n) + piece
  {
    if n > 1 {
      JoinedSame(blocks, blocks[n - 1 := blocks[n - 1] + piece], n - 1);
      Regroup(Joined(blocks, n - 1) + "\n", blocks[n - 1], piece);
    }
  }

  /** The item after a piece was added: to a block that is new and next in line, or to the last one. */
  ghost predicate GrewByPiece(r: Reasoning, grown: Reasoning, block: nat, isNewBlock: bool, piece: string) {
    && (if isNewBlock then block == Count(r) && piece != "" else r.last == Some(block) && block in r.blocks)
    && grown.last == Some(block) && grown.text == Extended(r, isNewBlock, piece)
    && grown.blocks == r.blocks[block := if isNewBlock then piece else r.blocks[block] + piece]
  }

  lemma PieceKeepsItem(r: Reasoning, grown: Reasoning, block: nat, isNewBlock: bool, piece: string)
    requires BlocksAreSound(r) && GrewByPiece(r, grown, block, isNewBlock, piece)
    ensures BlocksAreSound(grown) && r.text <= grown.text
    ensures TextIsBlocks(r) ==> TextIsBlocks(grown)
  {
    if TextIsBlocks(r) {
      if isNewBlock {
        JoinedSame(r.blocks, grown.blocks, block);
        JoinedNotEmpty(r.blocks, block);
        assert grown.blocks[block] == piece;
        assert "" + piece == piece;
      } else {
        LastBlockGrows(r.blocks, block + 1, piece);
      }
    }
  }

  /** What adding text to a registered block does to its item. */
  lemma PieceKeepsState(s: State, q: State, i: nat, block: nat, isNewBlock: bool, piece: string)
    requires Inv(s) && i < |s.reasoningItems| == |q.reasoningItems| && q.reasoningItems == s.reasoningItems[i := q.reasoningItems[i]]
    requires q.closed == s.closed && (s.unsafeReason.Some? ==> q.unsafeReason == s.unsafeReason)
    requires GrewByPiece(s.reasoningItems[i], q.reasoningItems[i], block, isNewBlock, piece)
    ensures Kept(s, q)
  {
    assert ItemIsSound(s, i);
    PieceKeepsItem(s.reasoningItems[i], q.reasoningItems[i], block, isNewBlock, piece);
    hide Joined, BlocksAreSound, TextIsBlocks;
    OneGrewKept(s, q, i);
  }

  lemma UpdateTwice(items: seq<Reasoning>, i: nat, a: Reasoning, b: Reasoning)
    requires i < |items|
    ensures items[i := a][i := b] == items[i := b]
  {}

  /** A block that may be written: the item it stands in, with the block opened if it is new. */
  lemma RegisteredBlock(s: State, i: nat, block: nat)
    requires i < |s.reasoningItems| && RegisterBlock(s, i, block).ok
    ensures var r, q := s.reasoningItems[i], RegisterBlock(s, i, block).state;
      && q == s.(reasoningItems := q.reasoningItems) && |q.reasoningItems| == |s.reasoningItems|
      && (if block in r.blocks then r.last == Some(block) && q.reasoningItems == s.reasoningItems
          else block == Count(r) && q.reasoningItems == s.reasoningItems[i := r.(blocks := r.blocks[block := ""], last := Some(block))])
  {
    assert s.reasoningItems == s.reasoningItems[i := s.reasoningItems[i]];
  }

  lemma AddDeltaFields(s: State, i: nat, block: nat, isNewBlock: bool, text: string, chunk: Chunk)
    requires i < |s.reasoningItems| && block in s.reasoningItems[i].blocks
    ensures var q := AddDelta(s, i, block, isNewBlock, text, chunk).state; var r := s.reasoningItems[i];
      && |q.reasoningItems| == |s.reasoningItems| && q.reasoningItems == s.reasoningItems[i := q.reasoningItems[i]]
      && q.closed == s.closed && (s.unsafeReason.Some? ==> q.unsafeReason == s.unsafeReason)
      && q.reasoningItems[i] == r.(blocks := r.blocks[block := r.blocks[block] + text], text := Extended(r, isNewBlock, text))
  {}

  lemma AddDeltaKeeps(s: State, i: nat, block: nat, isNewBlock: bool, text: string, chunk: Chunk)
    requires Inv(s) && i < |s.reasoningItems| && text != "" && RegisterBlock(s, i, block).ok
    requires isNewBlock <==> block !in s.reasoningItems[i].blocks
    ensures Kept(s, AddDelta(RegisterBlock(s, i, block).state, i, block, isNewBlock, text, chunk).state)
  {
    RegisteredBlock(s, i, block);
    hide RegisterBlock, Inv;
    var registered := RegisterBlock(s, i, block).state;
    var q := AddDelta(registered, i, block, isNewBlock, text, chunk).state;
    AddDeltaFields(registered, i, block, isNewBlock, text, chunk);
    hide AddDelta, Extended;
    UpdateTwice(s.reasoningItems, i, registered.reasoningItems[i], q.reasoningItems[i]);
    DeltaIsPiece(s.reasoningItems[i], registered.reasoningItems[i], q.reasoningItems[i], block, isNewBlock, text);
    PieceKeepsState(s, q, i, block, isNewBlock, text);
  }

  /** Opening the block and then adding to it is adding a piece to the item as it was. */
  lemma DeltaIsPiece(r: Reasoning, registered: Reasoning, grown: Reasoning, block: nat, isNewBlock: bool, piece: string)
    requires isNewBlock <==> block !in r.blocks
    requires if isNewBlock then block == Count(r) && piece != "" && registered == r.(blocks := r.blocks[block := ""], last := Some(block))
             else r.last == Some(block) && registered == r
    requires grown.last == registered.last && grown.text == Extended(registered, isNewBlock, piece)
    requires grown.blocks == registered.blocks[block := registered.blocks[block] + piece]
    ensures GrewByPiece(r, grown, block, isNewBlock, piece)
  {
    assert "" + piece == piece;
  }

  lemma AddFullTextKeeps(s: State, i: nat, block: nat, isNewBlock: bool, text: string, isDone: bool, chunk: Chunk)
    requires Inv(s) && i < |s.reasoningItems| && text != "" && RegisterBlock(s, i, block).ok
    requires isNewBlock <==> block !in s.reasoningItems[i].blocks
    ensures Kept(s, AddFullText(RegisterBlock(s, i, block).state, i, block, isNewBlock, text, isDone, chunk).state)
  {
    RegisteredBlock(s, i, block);
    hide RegisterBlock, Inv;
    var registered := RegisterBlock(s, i, block).state;
    var existing := registered.reasoningItems[i].blocks[block];
    var q := AddFullText(registered, i, block, isNewBlock, text, isDone, chunk).state;
    if !StartsWith(text, existing) {
      MarkKeeps(s, "reasoning_summary_terminal_revision_conflict");
    } else {
      var piece := text[|existing|..];
      assert existing + piece == text;
      UpdateTwice(s.reasoningItems, i, registered.reasoningItems[i], q.reasoningItems[i]);
      DeltaIsPiece(s.reasoningItems[i], registered.reasoningItems[i], q.reasoningItems[i], block, isNewBlock, piece);
      PieceKeepsState(s, q, i, block, isNewBlock, piece);
    }
  }

  // ----- every event

  lemma CanonicalKeeps(s: State, raw: Raw, chunk: Chunk)
    requires Inv(s) && Texts(raw)
    ensures Kept(s, CanonicalChunk(s, raw, chunk).state)
  {
    hide Inv;
    KeptItself(s);
    if (raw.Delta? && raw.delta.Some?) || (raw.FullText? && raw.text.Some?) {
      ItemForKeeps(s, raw.identity);
      var found := ItemFor(s, raw.identity);
      if found.index.Some? {
        var i, u := found.index.value, found.state;
        var registered := RegisterBlock(u, i, raw.summaryIndex);
        var isNewBlock := raw.summaryIndex !in u.reasoningItems[i].blocks;
        if !registered.ok {
          MarkKeeps(u, "reasoning_summary_blocks_out_of_order");
          MarkKeeps(u, "reasoning_summary_index_gap");
        } else if raw.Delta? {
          AddDeltaKeeps(u, i, raw.summaryIndex, isNewBlock, raw.delta.value, chunk);
        } else {
          AddFullTextKeeps(u, i, raw.summaryIndex, isNewBlock, raw.text.value, raw.isDone, chunk);
        }
        hide ItemFor, RegisterBlock, AddDelta, AddFullText;
        KeptTwice(s, u, CanonicalChunk(s, raw, chunk).state);
      }
    }
  }

  /** A text that is there is not empty. */
  predicate Texts(raw: Raw) {
    (raw.Delta? && raw.delta.Some? ==> raw.delta.value != "") && (raw.FullText? && raw.text.Some? ==> raw.text.value != "")
  }

  lemma KeptItself(s: State)
    requires Inv(s)
    ensures Kept(s, s)
  {}

  lemma AddDoneKeeps(s: State, candidate: DoneItem)
    requires Inv(s)
    ensures Kept(s, AddDone(s, candidate))
  {
    SameItemsKept(s, AddDone(s, candidate));
  }

  lemma CaptureKeeps(s: State, raw: Raw)
    requires Inv(s)
    ensures Kept(s, Capture(s, raw))
  {
    hide Inv, ItemFor, AddDone, Grows;
    if raw.ItemDone? && raw.item.Some? {
      var candidate := DoneItem(raw.item.value, raw.outputIndex, DoneKey(|s.doneItems|, raw.item.value, raw.outputIndex));
      AddDoneKeeps(s, candidate);
      if IsReasoning(raw.item.value) { NamedKeeps(s, AddDone(s, candidate), raw.identity); }
    } else {
      hide AddDone;
      SameItemsKept(s, Capture(s, raw));
    }
  }

  /** A done reasoning item must have an identity. */
  lemma NamedKeeps(s: State, added: State, identity: Identity)
    requires Inv(s) && Kept(s, added)
    ensures Kept(s, ItemFor(added, identity).state)
    ensures Kept(s, MarkUnsafe(ItemFor(added, identity).state, "reasoning_item_without_identity"))
  {
    hide Inv, ItemFor, Grows;
    var found := ItemFor(added, identity).state;
    ItemForKeeps(added, identity);
    MarkKeeps(found, "reasoning_item_without_identity");
    KeptTwice(s, added, found);
    KeptTwice(s, found, MarkUnsafe(found, "reasoning_item_without_identity"));
  }

  lemma BoundaryKeeps(s: State, raw: Raw, chunk: Chunk)
    requires Inv(s)
    ensures Kept(s, Boundary(s, raw, chunk).state)
  {
    hide Inv, ItemFor;
    KeptItself(s);
    if raw.ItemDone? { ItemForKeeps(s, raw.identity); }
  }

  lemma SignatureKeeps(s: State, raw: Raw, signature: string)
    requires Inv(s)
    ensures Kept(s, TakeSignature(s, raw, signature))
  {
    var identity := if raw.Completed? then Identity(None, None) else raw.identity;
    ItemForKeeps(s, identity);
    var found, q := ItemFor(s, identity), TakeSignature(s, raw, signature);
    hide ItemFor;
    MarkKeeps(found.state, "reasoning_signature_from_untrusted_event");
    MarkKeeps(found.state, "reasoning_signature_conflict");
    if found.index.Some? && q.unsafeReason == found.state.unsafeReason && q != found.state {
      var i := found.index.value;
      if q.reasoningItems == found.state.reasoningItems[i := found.state.reasoningItems[i].(signature := Some(signature))] {
        SignedKept(found.state, q, i, signature);
      }
    }
    KeptTwice(s, found.state, q);
  }

  lemma SignedKept(s: State, q: State, i: nat, signature: string)
    requires Inv(s) && i < |s.reasoningItems| && q.closed == s.closed && q.unsafeReason == s.unsafeReason
    requires q.reasoningItems == s.reasoningItems[i := s.reasoningItems[i].(signature := Some(signature))]
    ensures Kept(s, q)
  {
    assert ItemIsSound(s, i);
    OneGrewKept(s, q, i);
  }

  lemma {:induction false} CallsKeep(s: State, parts: seq<CallPart>)
    requires Inv(s)
    ensures Kept(s, TakeCalls(s, parts))
  {
    hide Inv;
    if parts == [] {
      KeptItself(s);
    } else {
      var before := TakeCalls(s, parts[..|parts| - 1]);
      CallsKeep(s, parts[..|parts| - 1]);
      SameItemsKept(before, TakeCall(before, parts[|parts| - 1]));
      KeptTwice(s, before, TakeCalls(s, parts));
    }
  }

  lemma AccumulateKeeps(s: State, raw: Raw, chunk: Chunk)
    requires Inv(s)
    ensures Kept(s, Accumulate(s, raw, chunk))
  {
    hide Inv, TakeSignature, TakeCalls;
    var texted := s.(visibleText := s.visibleText + chunk.visible, thoughtText := s.thoughtText + chunk.thought);
    SameItemsKept(s, texted);
    var signed := if chunk.signature.Some? then TakeSignature(texted, raw, chunk.signature.value) else texted;
    if chunk.signature.Some? {
      SignatureKeeps(texted, raw, chunk.signature.value);
      KeptTwice(s, texted, signed);
    }
    CallsKeep(signed, chunk.calls);
    KeptTwice(s, signed, Accumulate(s, raw, chunk));
  }

  lemma ValidateKeeps(s: State, raw: Raw)
    requires Inv(s)
    ensures Kept(s, ValidateReasoning(s, raw))
  {
    KeptItself(s);
    MarkKeeps(s, "reasoning_terminal_summary_invalid");
    if raw.ItemDone? && raw.item.Some? && IsReasoning(raw.item.value) && raw.item.value.summary.Some? {
      ItemForKeeps(s, raw.identity);
      var found, q := ItemFor(s, raw.identity), ValidateReasoning(s, raw);
      hide ItemFor;
      MarkKeeps(found.state, "reasoning_terminal_revision_conflict");
      if found.index.Some? {
        var i := found.index.value;
        if found.state.reasoningItems[i].text == "" || StartsWith(raw.item.value.summary.value, found.state.reasoningItems[i].text) {
          TerminalTextKept(found.state, q, i, raw.item.value.summary.value);
        }
      }
      KeptTwice(s, found.state, q);
    }
  }

  lemma TerminalTextKept(s: State, q: State, i: nat, summary: string)
    requires Inv(s) && i < |s.reasoningItems| && s.reasoningItems[i].text <= summary
    requires q.closed == s.closed + {i} && q.unsafeReason == s.unsafeReason
    requires q.reasoningItems == s.reasoningItems[i := s.reasoningItems[i].(text := summary)]
    ensures Kept(s, q)
  {
    assert ItemIsSound(s, i);
    OneGrewKept(s, q, i);
  }

  /** One event: the items stay sound, no reasoning text is rewritten, and distrust stays. */
  lemma ObserveKeeps(s: State, raw: Raw, decoded: Chunk)
    requires Inv(s) && Texts(raw)
    ensures Kept(s, Observe(s, raw, decoded).state)
  {
    hide Inv, Capture, CanonicalChunk, Boundary, Accumulate, ValidateReasoning;
    var captured := Capture(s, raw);
    CaptureKeeps(s, raw);
    var canonical := CanonicalChunk(captured, raw, decoded);
    CanonicalKeeps(captured, raw, decoded);
    KeptTwice(s, captured, canonical.state);
    var bounded := Boundary(canonical.state, raw, canonical.chunk);
    BoundaryKeeps(canonical.state, raw, canonical.chunk);
    KeptTwice(s, canonical.state, bounded.state);
    var accumulated := Accumulate(bounded.state, raw, bounded.chunk);
    AccumulateKeeps(bounded.state, raw, bounded.chunk);
    KeptTwice(s, bounded.state, accumulated);
    ValidateKeeps(accumulated, raw);
    KeptTwice(s, accumulated, Observe(s, raw, decoded).state);
  }

  datatype Step = Step(raw: Raw, decoded: Chunk)

  function Run(s: State, steps: seq<Step>): State {
    if steps == [] then s else Observe(Run(s, steps[..|steps| - 1]), steps[|steps| - 1].raw, steps[|steps| - 1].decoded).state
  }

  /** For every sequence of events. */
  lemma {:induction false} RunKeeps(s: State, steps: seq<Step>)
    requires Inv(s) && forall i | 0 <= i < |steps| :: Texts(steps[i].raw)
    ensures Kept(s, Run(s, steps))
  {
    hide Inv, Observe;
    if steps == [] {
      KeptItself(s);
    } else {
      var n := |steps| - 1;
      assert forall i | 0 <= i < n :: steps[..n][i] == steps[i];
      RunKeeps(s, steps[..n]);
      ObserveKeeps(Run(s, steps[..n]), steps[n].raw, steps[n].decoded);
      KeptTwice(s, Run(s, steps[..n]), Run(s, steps));
    }
  }

  // ----- the accumulator as the source changes it

  class Accumulator {
    var visibleText: string
    var thoughtText: string
    var functionCalls: seq<Call>
    var functionCallIndexes: map<string, nat>
    var doneItems: seq<DoneItem>
    var doneItemIndexes: map<Key, nat>
    var completedOutput: Option<seq<Item>>
    var reasoningItems: seq<Reasoning>
    var reasoningItemsByKey: map<Key, nat>
    var unsafeReason: Option<string>
    ghost var closed: set<nat>

    ghost function View(): State
      reads this
    {
      State(visibleText, thoughtText, functionCalls, functionCallIndexes, doneItems, doneItemIndexes, completedOutput,
            reasoningItems, reasoningItemsByKey, unsafeReason, closed)
    }

    constructor ()
      ensures View() == START
    {
      visibleText, thoughtText, functionCalls, functionCallIndexes := "", "", [], map[];
      doneItems, doneItemIndexes, completedOutput := [], map[], None;
      reasoningItems, reasoningItemsByKey, unsafeReason, closed := [], map[], None, {};
    }

    method Distrust(reason: string)
      modifies this`unsafeReason
      ensures View() == MarkUnsafe(old(View()), reason)
    {
      if unsafeReason == None { unsafeReason := Some(reason); }
    }

    method Lookup(key: Option<Key>) returns (index: Option<nat>)
      ensures index == FoundBy(View(), key)
    {
      if key.Some? && key.value in reasoningItemsByKey && reasoningItemsByKey[key.value] < |reasoningItems| {
        return Some(reasoningItemsByKey[key.value]);
      }
      return None;
    }

    method ReasoningItemForEvent(identity: Identity) returns (index: Option<nat>)
      modifies this
      ensures Found(View(), index) == ItemFor(old(View()), identity)
    {
      if identity.itemId == None && identity.outputIndex == None {
        Distrust("reasoning_item_without_identity");
        return None;
      }
      var byId := Lookup(IdKeyOf(identity));
      var byOutput := Lookup(OutputKeyOf(identity));
      if Clash(byId, byOutput) {
        Distrust("reasoning_identity_conflict");
        return None;
      }
      var existing := First(byId, byOutput);
      if existing.Some? {
        var r := reasoningItems[existing.value];
        if Clash(r.itemId, identity.itemId) || Clash(r.outputIndex, identity.outputIndex) {
          Distrust("reasoning_identity_conflict");
          return None;
        }
        reasoningItems := reasoningItems[existing.value :=
          r.(itemId := First(r.itemId, identity.itemId), outputIndex := First(r.outputIndex, identity.outputIndex))];
        reasoningItemsByKey := WithKeys(reasoningItemsByKey, identity, existing.value);
        return existing;
      }
      reasoningItemsByKey := WithKeys(reasoningItemsByKey, identity, |reasoningItems|);
      reasoningItems := reasoningItems + [Reasoning(identity.itemId, identity.outputIndex, "", None, map[], {}, None)];
      return Some(|reasoningItems| - 1);
    }

    method RegisterSummaryBlock(i: nat, block: nat) returns (ok: bool)
      requires i < |reasoningItems|
      modifies this`reasoningItems, this`unsafeReason
      ensures Registered(View(), ok) == RegisterBlock(old(View()), i, block)
      ensures i < |reasoningItems| && (ok ==> block in reasoningItems[i].blocks)
    {
      var r := reasoningItems[i];
      if block in r.blocks {
        if r.last != Some(block) {
          Distrust("reasoning_summary_blocks_out_of_order");
          return false;
        }
        return true;
      }
      if block != (if r.last == None then 0 else r.last.value + 1) {
        Distrust("reasoning_summary_index_gap");
        return false;
      }
      reasoningItems := reasoningItems[i := r.(blocks := r.blocks[block := ""], last := Some(block))];
      return true;
    }

    method AddToBlock(i: nat, block: nat, isNewBlock: bool, raw: Raw, decoded: Chunk) returns (chunk: Chunk)
      requires i < |reasoningItems| && block in reasoningItems[i].blocks
      requires (raw.Delta? && raw.delta.Some?) || (raw.FullText? && raw.text.Some?)
      modifies this`reasoningItems, this`unsafeReason
      ensures Canonical(View(), chunk) ==
        (if raw.Delta? then AddDelta(old(View()), i, block, isNewBlock, raw.delta.value, decoded)
         else AddFullText(old(View()), i, block, isNewBlock, raw.text.value, raw.isDone, decoded))
    {
      var r := reasoningItems[i];
      var piece: string;
      if raw.Delta? {
        if block in r.completed { Distrust("reasoning_delta_after_summary_done"); }
        if decoded.thought != raw.delta.value { Distrust("reasoning_delta_projection_changed"); }
        piece := raw.delta.value;
        r := r.(blocks := r.blocks[block := r.blocks[block] + piece]);
      } else {
        if !StartsWith(raw.text.value, r.blocks[block]) {
          Distrust("reasoning_summary_terminal_revision_conflict");
          return decoded.(thought := "");
        }
        piece := raw.text.value[|r.blocks[block]|..];
        r := r.(blocks := r.blocks[block := raw.text.value], completed := if raw.isDone then r.completed + {block} else r.completed);
        if decoded.thought != "" && decoded.thought != piece && decoded.thought != raw.text.value {
          Distrust("reasoning_full_text_projection_changed");
        }
      }
      reasoningItems := reasoningItems[i := r.(text := Extended(r, isNewBlock, piece))];
      return decoded.(thought := if isNewBlock && thoughtText != "" && piece != "" then "\n" + piece else piece);
    }

    method CanonicalThought(raw: Raw, decoded: Chunk) returns (chunk: Chunk)
      modifies this
      ensures Canonical(View(), chunk) == CanonicalChunk(old(View()), raw, decoded)
    {
      hide ItemFor, RegisterBlock, AddDelta, AddFullText;
      if !((raw.Delta? && raw.delta.Some?) || (raw.FullText? && raw.text.Some?)) { return decoded; }
      var index := ReasoningItemForEvent(raw.identity);
      if index == None { return decoded; }
      var isNewBlock := raw.summaryIndex !in reasoningItems[index.value].blocks;
      var ok := RegisterSummaryBlock(index.value, raw.summaryIndex);
      if !ok { return decoded; }
      chunk := AddToBlock(index.value, raw.summaryIndex, isNewBlock, raw, decoded);
    }

    method CaptureTerminalEvidence(raw: Raw)
      modifies this
      ensures View() == Capture(old(View()), raw)
    {
      hide ItemFor;
      if raw.ItemDone? {
        if raw.item == None {
          Distrust("output_item_done_without_item");
          return;
        }
        var candidate := DoneItem(raw.item.value, raw.outputIndex, DoneKey(|doneItems|, raw.item.value, raw.outputIndex));
        if candidate.key !in doneItemIndexes {
          doneItemIndexes := doneItemIndexes[candidate.key := |doneItems|];
          doneItems := doneItems + [candidate];
        } else if !(doneItemIndexes[candidate.key] < |doneItems| && doneItems[doneItemIndexes[candidate.key]] == candidate) {
          Distrust("output_item_done_conflict");
        }
        if IsReasoning(raw.item.value) {
          var index := ReasoningItemForEvent(raw.identity);
          if index == None { Distrust("reasoning_item_without_identity"); }
        }
        return;
      }
      if !raw.Completed? { return; }
      if completedOutput.Some? {
        Distrust("duplicate_response_completed");
        return;
      }
      match raw.output
      case Missing => completedOutput := Some([]);
      case NotAList => Distrust("response_completed_without_output_membership");
      case BadMember => Distrust("response_completed_invalid_output_member");
      case Items(items) => completedOutput := Some(items);
    }

    method WithReasoningItemBoundary(raw: Raw, decoded: Chunk) returns (chunk: Chunk)
      modifies this
      ensures Canonical(View(), chunk) == Boundary(old(View()), raw, decoded)
    {
      if !(raw.ItemDone? && raw.item.Some? && IsReasoning(raw.item.value)) { return decoded; }
      var index := ReasoningItemForEvent(raw.identity);
      if index == None || reasoningItems[index.value].text != "" || thoughtText == "" || decoded.thought == "" { return decoded; }
      return decoded.(thought := "\n" + decoded.thought);
    }

    method AccumulateFunctionCall(part: CallPart)
      modifies this
      ensures View() == TakeCall(old(View()), part)
    {
      if part.callId == None {
        Distrust("function_call_without_provider_id");
        return;
      }
      var candidate := Call(part.callId.value, part.name, part.args);
      if candidate.callId !in functionCallIndexes {
        functionCallIndexes := functionCallIndexes[candidate.callId := |functionCalls|];
        functionCalls := functionCalls + [candidate];
        return;
      }
      var existing := functionCallIndexes[candidate.callId];
      if !(existing < |functionCalls| && functionCalls[existing] == candidate) { Distrust("function_call_projection_conflict"); }
    }

    method AcceptSignature(raw: Raw, signature: string)
      modifies this
      ensures View() == TakeSignature(old(View()), raw, signature)
    {
      var trusted := raw.ItemDone? && raw.item.Some? && IsReasoning(raw.item.value) && raw.item.value.encrypted == Some(signature);
      var index := ReasoningItemForEvent(if raw.Completed? then Identity(None, None) else raw.identity);
      if !trusted || index == None {
        Distrust("reasoning_signature_from_untrusted_event");
        return;
      }
      var r := reasoningItems[index.value];
      if r.signature.Some? && r.signature != Some(signature) {
        Distrust("reasoning_signature_conflict");
        return;
      }
      reasoningItems := reasoningItems[index.value := r.(signature := Some(signature))];
    }

    method AccumulateChunk(raw: Raw, chunk: Chunk)
      modifies this
      ensures View() == Accumulate(old(View()), raw, chunk)
    {
      hide TakeSignature, TakeCall;
      visibleText := visibleText + chunk.visible;
      thoughtText := thoughtText + chunk.thought;
      if chunk.signature.Some? { AcceptSignature(raw, chunk.signature.value); }
      ghost var start := View();
      for i := 0 to |chunk.calls|
        invariant View() == TakeCalls(start, chunk.calls[..i])
      {
        assert chunk.calls[..i + 1][..i] == chunk.calls[..i];
        AccumulateFunctionCall(chunk.calls[i]);
      }
      assert chunk.calls[..|chunk.calls|] == chunk.calls;
    }

    method ValidateReasoningTerminal(raw: Raw)
      modifies this
      ensures View() == ValidateReasoning(old(View()), raw)
    {
      if !(raw.ItemDone? && raw.item.Some? && IsReasoning(raw.item.value)) { return; }
      if raw.item.value.summary == None {
        Distrust("reasoning_terminal_summary_invalid");
        return;
      }
      var index := ReasoningItemForEvent(raw.identity);
      if index == None { return; }
      var r := reasoningItems[index.value];
      if r.text != "" && !StartsWith(raw.item.value.summary.value, r.text) {
        Distrust("reasoning_terminal_revision_conflict");
        return;
      }
      reasoningItems := reasoningItems[index.value := r.(text := raw.item.value.summary.value)];
      closed := closed + {index.value};
    }

    method ObserveEvent(raw: Raw, decoded: Chunk) returns (chunk: Chunk)
      modifies this
      ensures Canonical(View(), chunk) == Observe(old(View()), raw, decoded)
    {
      hide Capture, CanonicalChunk, Boundary, Accumulate, ValidateReasoning;
      CaptureTerminalEvidence(raw);
      var canonical := CanonicalThought(raw, decoded);
      chunk := WithReasoningItemBoundary(raw, canonical);
      AccumulateChunk(raw, chunk);
      ValidateReasoningTerminal(raw);
    }
  }
}
