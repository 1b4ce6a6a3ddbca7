/** Adjacent stream deltas of one kind are merged for a short time before they are passed on
    (backend/capabilities/llmStreamEventBatcher.ts, lines 44-249). */
module StreamBatcher {
  import opened Options

  datatype Ident = Ident(requestId: string, attemptId: Option<string>, generation: Option<int>)

  /** Whether a call has a replace field, and its value. */
  datatype Flag = NoFlag | Yes | No
  datatype Call = Call(id: string, argumentsDelta: string, replace: Flag)

  datatype Event =
    | Delta(ident: Ident, streamSeq: Option<int>, text: string)
    | ThoughtDelta(ident: Ident, streamSeq: Option<int>, signature: Option<string>, text: string, elapsed: Option<int>)
    | ThoughtProgress(ident: Ident, streamSeq: Option<int>, signature: Option<string>, progress: int)
    | ToolCallDelta(ident: Ident, streamSeq: Option<int>, calls: seq<Call>)
    | Terminal(ident: Ident, failed: bool)
    | PreviewDone(requestId: string)
    | Other(kind: string)

  predicate IsMergeable(event: Event) {
    event.Delta? || event.ThoughtDelta? || event.ThoughtProgress? || event.ToolCallDelta?
  }

  function Max(a: int, b: int): int {
    if a >= b then a else b
  }

  // ----- merging

  function LastIndexOf(calls: seq<Call>, id: string): (r: Option<nat>)
    ensures r.Some? ==> r.value < |calls| && calls[r.value].id == id
    ensures forall i: nat | i < |calls| && (r.Some? ==> i > r.value) :: calls[i].id != id
  {
    if calls == [] then None
    else if calls[|calls| - 1].id == id then Some(|calls| - 1)
    else LastIndexOf(calls[..|calls| - 1], id)
  }

  /** The later call's fields win; its arguments follow the earlier ones unless it replaces them. */
  function MergeCall(previous: Call, call: Call): Call {
    Call(call.id, if call.replace == Yes then call.argumentsDelta else previous.argumentsDelta + call.argumentsDelta,
         if call.replace == NoFlag then previous.replace else call.replace)
  }

  function MergeInto(merged: seq<Call>, call: Call): seq<Call> {
    var index := LastIndexOf(merged, call.id);
    if index == None then merged + [call] else merged[index.value := MergeCall(merged[index.value], call)]
  }

  function MergeCalls(left: seq<Call>, right: seq<Call>): seq<Call> {
    if right == [] then left else MergeInto(MergeCalls(left, right[..|right| - 1]), right[|right| - 1])
  }

  predicate SameStream(previous: Event, next: Event) {
    IsMergeable(previous) && IsMergeable(next) && previous.ident == next.ident && previous.streamSeq == None && next.streamSeq == None
  }

  function MergeAdjacent(previous: Event, next: Event): (merged: Option<Event>)
    ensures merged.Some? ==> IsMergeable(merged.value)
  {
    if !SameStream(previous, next) then None
    else if previous.Delta? && next.Delta? then Some(Delta(next.ident, None, previous.text + next.text))
    else if previous.ToolCallDelta? && next.ToolCallDelta? then Some(next.(calls := MergeCalls(previous.calls, next.calls)))
    else if previous.ThoughtDelta? && next.ThoughtDelta? && previous.signature == next.signature then
      Some(ThoughtDelta(next.ident, None, next.signature, previous.text + next.text, LaterOf(previous.elapsed, next.elapsed)))
    else if previous.ThoughtProgress? && next.ThoughtProgress? && previous.signature == next.signature then
      Some(next.(progress := Max(previous.progress, next.progress)))
    else None
  }

  /** A time that is missing counts as 0 when the other one is there. */
  function LaterOf(a: Option<int>, b: Option<int>): Option<int> {
    if a == None && b == None then None
    else Some(Max(if a.Some? then a.value else 0, if b.Some? then b.value else 0))
  }

  // ----- a consumer

  datatype Stream = Stream(text: string, thought: string, signature: Option<string>, elapsed: Option<int>, args: map<string, string>)
  /** What a consumer has made of the events: a stream per identity, and the streams as they were at every
      event that is not a delta. */
  datatype Consumer = Consumer(streams: map<Ident, Stream>, seen: seq<(Event, map<Ident, Stream>)>)

  const NEW_CONSUMER := Consumer(map[], [])

  function StreamOf(c: Consumer, ident: Ident): Stream {
    if ident in c.streams then c.streams[ident] else Stream("", "", None, None, map[])
  }

  function ArgsOf(args: map<string, string>, id: string): string {
    if id in args then args[id] else ""
  }

  function TakeCall(args: map<string, string>, call: Call): map<string, string> {
    args[call.id := if call.replace == Yes then call.argumentsDelta else ArgsOf(args, call.id) + call.argumentsDelta]
  }

  function TakeCalls(args: map<string, string>, calls: seq<Call>): map<string, string> {
    if calls == [] then args else TakeCall(TakeCalls(args, calls[..|calls| - 1]), calls[|calls| - 1])
  }

  function TakeDelta(s: Stream, event: Event): Stream
    requires IsMergeable(event)
  {
    match event
    case Delta(_, _, text) => s.(text := s.text + text)
    case ThoughtDelta(_, _, signature, text, elapsed) => s.(thought := s.thought + text, signature := signature, elapsed := LaterOf(s.elapsed, elapsed))
    case ThoughtProgress(_, _, signature, progress) => s.(signature := signature, elapsed := LaterOf(s.elapsed, Some(progress)))
    case ToolCallDelta(_, _, calls) => s.(args := TakeCalls(s.args, calls))
  }

  function Take(c: Consumer, event: Event): Consumer {
    if IsMergeable(event) then c.(streams := c.streams[event.ident := TakeDelta(StreamOf(c, event.ident), event)])
    else c.(seen := c.seen + [(event, c.streams)])
  }

  function TakeAll(c: Consumer, events: seq<Event>): Consumer {
    if events == [] then c else Take(TakeAll(c, events[..|events| - 1]), events[|events| - 1])
  }

  // ----- merged events do what their parts did

  /** The call does not carry an explicit false for a call that is to replace. */
  predicate Fits(merged: seq<Call>, call: Call) {
    var index := LastIndexOf(merged, call.id);
    index.Some? ==> !(merged[index.value].replace == Yes && call.replace == No)
  }

  /** Every call on the right fits what it is merged into. */
  predicate AllFit(left: seq<Call>, right: seq<Call>) {
    right == [] || (AllFit(left, right[..|right| - 1]) && Fits(MergeCalls(left, right[..|right| - 1]), right[|right| - 1]))
  }

  predicate Joinable(previous: Event, next: Event) {
    previous.ToolCallDelta? && next.ToolCallDelta? ==> AllFit(previous.calls, next.calls)
  }

  lemma Regroup(a: string, b: string, c: string)
    ensures a + (b + c) == (a + b) + c
  {}

  /** Two deltas of one call merge into one for every consumer exactly when the second does not carry an
      explicit false after the first has asked to replace. */
  lemma MergeCallExactly(previous: Call, call: Call)
    requires previous.id == call.id
    ensures (forall args :: TakeCall(args, MergeCall(previous, call)) == TakeCall(TakeCall(args, previous), call))
      <==> !(previous.replace == Yes && call.replace == No)
  {
    if previous.replace == Yes && call.replace == No {
      var args := map[call.id := "x"];
      assert TakeCall(args, MergeCall(previous, call))[call.id] == "x" + (previous.argumentsDelta + call.argumentsDelta);
      assert TakeCall(TakeCall(args, previous), call)[call.id] == previous.argumentsDelta + call.argumentsDelta;
    } else {
      forall args: map<string, string> ensures TakeCall(args, MergeCall(previous, call)) == TakeCall(TakeCall(args, previous), call) {
        Regroup(ArgsOf(args, call.id), previous.argumentsDelta, call.argumentsDelta);
      }
    }
  }

  lemma OtherCallsCommute(args: map<string, string>, a: Call, b: Call)
    requires a.id != b.id
    ensures TakeCall(TakeCall(args, a), b) == TakeCall(TakeCall(args, b), a)
  {}

  lemma {:induction false} MergeIntoTakes(args: map<string, string>, merged: seq<Call>, call: Call)
    requires Fits(merged, call)
    ensures TakeCalls(args, MergeInto(merged, call)) == TakeCall(TakeCalls(args, merged), call)
    decreases |merged|
  {
    var index := LastIndexOf(merged, call.id);
    if index == None {
      assert (merged + [call])[..|merged|] == merged;
    } else {
      var n := |merged| - 1;
      if index.value == n {
        MergeLastTakes(args, merged, call);
      } else {
        MergeIntoTakes(args, merged[..n], call);
        MergeEarlierTakes(args, merged, call);
      }
    }
  }

  lemma MergeLastTakes(args: map<string, string>, merged: seq<Call>, call: Call)
    requires Fits(merged, call) && merged != [] && LastIndexOf(merged, call.id) == Some(|merged| - 1)
    ensures TakeCalls(args, MergeInto(merged, call)) == TakeCall(TakeCalls(args, merged), call)
  {
    var n := |merged| - 1;
    MergeCallExactly(merged[n], call);
    hide TakeCall, MergeCall, LastIndexOf;
    var before := TakeCalls(args, merged[..n]);
    assert MergeInto(merged, call)[..n] == merged[..n];
    assert TakeCall(before, MergeCall(merged[n], call)) == TakeCall(TakeCall(before, merged[n]), call);
  }

  lemma MergeEarlierTakes(args: map<string, string>, merged: seq<Call>, call: Call)
    requires merged != [] && LastIndexOf(merged, call.id).Some? && LastIndexOf(merged, call.id).value < |merged| - 1
    requires TakeCalls(args, MergeInto(merged[..|merged| - 1], call)) == TakeCall(TakeCalls(args, merged[..|merged| - 1]), call)
    ensures TakeCalls(args, MergeInto(merged, call)) == TakeCall(TakeCalls(args, merged), call)
  {
    var n := |merged| - 1;
    OtherCallsCommute(TakeCalls(args, merged[..n]), call, merged[n]);
    hide TakeCall, MergeCall;
    assert MergeInto(merged, call)[..n] == MergeInto(merged[..n], call);
  }

  lemma {:induction false} MergeCallsTakes(args: map<string, string>, left: seq<Call>, right: seq<Call>)
    requires AllFit(left, right)
    ensures TakeCalls(args, MergeCalls(left, right)) == TakeCalls(TakeCalls(args, left), right)
  {
    if right != [] {
      var n := |right| - 1;
      MergeCallsTakes(args, left, right[..n]);
      MergeIntoTakes(args, MergeCalls(left, right[..n]), right[n]);
    }
  }

  lemma MergeTakesStream(s: Stream, previous: Event, next: Event)
    requires IsMergeable(previous) && IsMergeable(next) && Joinable(previous, next) && MergeAdjacent(previous, next).Some?
    ensures TakeDelta(s, MergeAdjacent(previous, next).value) == TakeDelta(TakeDelta(s, previous), next)
  {
    match previous
    case Delta(_, _, text) => Regroup(s.text, text, next.text);
    case ThoughtDelta(_, _, _, text, _) => Regroup(s.thought, text, next.text);
    case ToolCallDelta(_, _, calls) => MergeCallsTakes(s.args, calls, next.calls);
    case _ =>
  }

  /** A merged event does to a consumer what its two parts do, one after the other. */
  lemma MergeTakesBoth(c: Consumer, previous: Event, next: Event)
    requires IsMergeable(previous) && IsMergeable(next) && Joinable(previous, next) && MergeAdjacent(previous, next).Some?
    ensures Take(c, MergeAdjacent(previous, next).value) == Take(Take(c, previous), next)
  {
    MergedIdent(previous, next);
    MergeTakesStream(StreamOf(c, next.ident), previous, next);
    hide TakeDelta, MergeAdjacent, Joinable;
    OneStream(c, previous, next, MergeAdjacent(previous, next).value);
  }

  lemma MergedIdent(previous: Event, next: Event)
    requires MergeAdjacent(previous, next).Some?
    ensures MergeAdjacent(previous, next).value.ident == next.ident && previous.ident == next.ident
  {}

  lemma OneStream(c: Consumer, previous: Event, next: Event, merged: Event)
    requires IsMergeable(previous) && IsMergeable(next) && IsMergeable(merged) && previous.ident == next.ident == merged.ident
    requires var s := StreamOf(c, next.ident); TakeDelta(s, merged) == TakeDelta(TakeDelta(s, previous), next)
    ensures Take(c, merged) == Take(Take(c, previous), next)
  {
    hide TakeDelta;
    var ident, s := next.ident, StreamOf(c, next.ident);
    assert c.streams[ident := TakeDelta(s, previous)][ident := TakeDelta(s, merged)] == c.streams[ident := TakeDelta(s, merged)];
  }

  // ----- the batcher

  datatype Limits = Limits(immediate: bool, maxBatchEvents: nat, maxBufferedChars: nat)
  datatype Pending = Pending(event: Event, eventCount: nat, bufferedChars: nat)

  /** delivered holds what went to the sink; counts says of each delivered delta how many deltas it stands for. */
  datatype Batcher = Batcher(limits: Limits, pending: Option<Pending>, disposed: bool, terminal: bool, rawDeltaEvents: nat,
                             emittedDeltaEvents: nat, delivered: seq<Event>, counts: seq<nat>)

  datatype Action = Emit(event: Event) | Flush | Dispose(flush: bool)

  function CallsLength(calls: seq<Call>): nat {
    if calls == [] then 0 else CallsLength(calls[..|calls| - 1]) + |calls[|calls| - 1].argumentsDelta|
  }

  function TextLength(event: Event): nat {
    match event
    case ToolCallDelta(_, _, calls) => CallsLength(calls)
    case Delta(_, _, text) => |text|
    case ThoughtDelta(_, _, _, text, _) => |text|
    case _ => 0
  }

  function NewBatcher(immediate: bool, maxBatchEvents: int, maxBufferedChars: int): Batcher {
    Batcher(Limits(immediate, Max(1, maxBatchEvents), Max(1, maxBufferedChars)), None, false, false, 0, 0, [], [])
  }

  function Flushed(b: Batcher): Batcher {
    if b.pending == None then b
    else b.(pending := None, emittedDeltaEvents := b.emittedDeltaEvents + 1,
            delivered := b.delivered + [b.pending.value.event], counts := b.counts + [b.pending.value.eventCount])
  }

  /** Joins the delta to the pending one, or passes that one on and holds this one back. */
  function Held(b: Batcher, event: Event): Batcher
    requires IsMergeable(event)
  {
    var merged := if b.pending.Some? then MergeAdjacent(b.pending.value.event, event) else None;
    if merged == None then Flushed(b).(pending := Some(Pending(event, 1, TextLength(event))))
    else b.(pending := Some(Pending(merged.value, b.pending.value.eventCount + 1, b.pending.value.bufferedChars + TextLength(event))))
  }

  function Queued(b: Batcher, event: Event): Batcher
    requires IsMergeable(event)
  {
    var held := Held(b, event).(rawDeltaEvents := b.rawDeltaEvents + 1);
    if held.pending.value.eventCount >= b.limits.maxBatchEvents || held.pending.value.bufferedChars >= b.limits.maxBufferedChars
       || b.limits.immediate then Flushed(held)
    else held
  }

  function Next(b: Batcher, action: Action): Batcher {
    match action
    case Flush => Flushed(b)
    case Dispose(flush) =>
      if b.disposed then b
      else (if flush && !b.terminal then Flushed(b) else b).(pending := None, disposed := true)
    case Emit(event) =>
      if b.disposed || b.terminal then b
      else if IsMergeable(event) then Queued(b, event)
      else if event.Terminal? then
        var flushed := Flushed(b);
        flushed.(terminal := true, delivered := flushed.delivered + [PreviewDone(event.ident.requestId), event])
      else
        var flushed := Flushed(b);
        flushed.(delivered := flushed.delivered + [event])
  }

  function Sum(counts: seq<nat>): nat {
    if counts == [] then 0 else Sum(counts[..|counts| - 1]) + counts[|counts| - 1]
  }

  // ----- against no batching at all

  /** What the action hands to the consumer when nothing is held back. */
  function Direct(b: Batcher, action: Action): seq<Event> {
    if !action.Emit? || b.disposed || b.terminal then []
    else if action.event.Terminal? then [PreviewDone(action.event.ident.requestId), action.event]
    else [action.event]
  }

  function PendingEvents(b: Batcher): seq<Event> {
    if b.pending.Some? then [b.pending.value.event] else []
  }

  /** The consumer with what is pending, had it been delivered by now, is where it would be without batching;
      the counts add up; and what is pending stays below the limits. */
  ghost predicate Inv(b: Batcher, direct: seq<Event>) {
    && (b.pending.Some? ==> IsMergeable(b.pending.value.event))
    && TakeAll(NEW_CONSUMER, b.delivered + PendingEvents(b)) == TakeAll(NEW_CONSUMER, direct)
    && (b.terminal || b.disposed ==> b.pending == None)
    && b.emittedDeltaEvents == |b.counts|
    && b.rawDeltaEvents == Sum(b.counts) + (if b.pending.Some? then b.pending.value.eventCount else 0)
    && 1 <= b.limits.maxBatchEvents && (forall i | 0 <= i < |b.counts| :: 1 <= b.counts[i] <= b.limits.maxBatchEvents)
    && (b.pending.Some? ==> 1 <= b.pending.value.eventCount < b.limits.maxBatchEvents
                            && b.pending.value.bufferedChars < b.limits.maxBufferedChars && !b.limits.immediate)
  }

  lemma TakePush(c: Consumer, events: seq<Event>, event: Event)
    ensures TakeAll(c, events + [event]) == Take(TakeAll(c, events), event)
  {
    assert (events + [event])[..|events|] == events;
  }

  lemma {:induction false} TakeJoin(c: Consumer, a: seq<Event>, b: seq<Event>)
    ensures TakeAll(c, a + b) == TakeAll(TakeAll(c, a), b)
  {
    if b == [] {
      assert a + b == a;
    } else {
      hide TakeAll;
      var n := |b| - 1;
      TakeJoin(c, a, b[..n]);
      assert a + b == a + b[..n] + [b[n]] && b == b[..n] + [b[n]];
      TakePush(c, a + b[..n], b[n]);
      TakePush(TakeAll(c, a), b[..n], b[n]);
    }
  }

  lemma SumPush(counts: seq<nat>, n: nat)
    ensures Sum(counts + [n]) == Sum(counts) + n
  {
    assert (counts + [n])[..|counts|] == counts;
  }

  /** Passing on what is pending changes nothing for the consumer. */
  lemma FlushKeepsInv(b: Batcher, direct: seq<Event>)
    requires Inv(b, direct)
    ensures Inv(Flushed(b), direct) && Flushed(b).pending == None && TakeAll(NEW_CONSUMER, Flushed(b).delivered) == TakeAll(NEW_CONSUMER, direct)
  {
    hide Take, TakeAll;
    var q := Flushed(b);
    assert q.delivered + [] == q.delivered;
    if b.pending.Some? { SumPush(b.counts, b.pending.value.eventCount); }
  }

  /** If the delta is merged into the pending one, its calls fit those. */
  predicate JoinsWell(b: Batcher, event: Event) {
    b.pending.Some? && MergeAdjacent(b.pending.value.event, event).Some? ==> Joinable(b.pending.value.event, event)
  }

  /** What is held back after a delta, before the limits are looked at. */
  ghost predicate HeldInv(b: Batcher, direct: seq<Event>) {
    && b.pending.Some? && IsMergeable(b.pending.value.event)
    && TakeAll(NEW_CONSUMER, b.delivered + PendingEvents(b)) == TakeAll(NEW_CONSUMER, direct)
    && !b.terminal && !b.disposed
    && b.emittedDeltaEvents == |b.counts| && b.rawDeltaEvents == Sum(b.counts) + b.pending.value.eventCount
    && 1 <= b.limits.maxBatchEvents && (forall i | 0 <= i < |b.counts| :: 1 <= b.counts[i] <= b.limits.maxBatchEvents)
    && 1 <= b.pending.value.eventCount <= b.limits.maxBatchEvents
  }

  lemma HoldsBack(b: Batcher, direct: seq<Event>, event: Event)
    requires Inv(b, direct) && !b.terminal && !b.disposed && IsMergeable(event) && JoinsWell(b, event)
    ensures HeldInv(Held(b, event).(rawDeltaEvents := b.rawDeltaEvents + 1), direct + [event])
  {
    if b.pending.Some? && MergeAdjacent(b.pending.value.event, event).Some? {
      HoldsMerged(b, direct, event);
    } else {
      HoldsAlone(b, direct, event);
    }
  }

  lemma HoldsMerged(b: Batcher, direct: seq<Event>, event: Event)
    requires Inv(b, direct) && !b.terminal && !b.disposed && IsMergeable(event) && JoinsWell(b, event)
    requires b.pending.Some? && MergeAdjacent(b.pending.value.event, event).Some?
    ensures HeldInv(Held(b, event).(rawDeltaEvents := b.rawDeltaEvents + 1), direct + [event])
  {
    hide Take, TakeAll, MergeAdjacent, Sum;
    var previous := b.pending.value.event;
    var merged := MergeAdjacent(previous, event).value;
    TakePush(NEW_CONSUMER, direct, event);
    TakePush(NEW_CONSUMER, b.delivered, previous);
    TakePush(NEW_CONSUMER, b.delivered, merged);
    MergeTakesBoth(TakeAll(NEW_CONSUMER, b.delivered), previous, event);
  }

  lemma HoldsAlone(b: Batcher, direct: seq<Event>, event: Event)
    requires Inv(b, direct) && !b.terminal && !b.disposed && IsMergeable(event)
    requires !(b.pending.Some? && MergeAdjacent(b.pending.value.event, event).Some?)
    ensures HeldInv(Held(b, event).(rawDeltaEvents := b.rawDeltaEvents + 1), direct + [event])
  {
    hide Take, TakeAll, MergeAdjacent, Sum, Flushed, TextLength;
    FlushKeepsInv(b, direct);
    FlushCounts(b, direct);
    FlushedFlags(b);
    hide Inv;
    TakePush(NEW_CONSUMER, direct, event);
    TakePush(NEW_CONSUMER, Flushed(b).delivered, event);
  }

  lemma FlushedFlags(b: Batcher)
    ensures var q := Flushed(b);
      q.terminal == b.terminal && q.disposed == b.disposed && q.rawDeltaEvents == b.rawDeltaEvents && q.limits == b.limits
  {}

  lemma FlushCounts(b: Batcher, direct: seq<Event>)
    requires Inv(b, direct)
    ensures var q := Flushed(b);
      && q.emittedDeltaEvents == |q.counts| && q.rawDeltaEvents == Sum(q.counts)
      && 1 <= q.limits.maxBatchEvents && forall i | 0 <= i < |q.counts| :: 1 <= q.counts[i] <= q.limits.maxBatchEvents
  {
    FlushKeepsInv(b, direct);
  }

  lemma HeldFlushed(held: Batcher, direct: seq<Event>)
    requires HeldInv(held, direct)
    ensures Inv(Flushed(held), direct)
  {
    hide Take, TakeAll;
    assert held.delivered + [held.pending.value.event] + [] == held.delivered + [held.pending.value.event];
    SumPush(held.counts, held.pending.value.eventCount);
  }

  lemma HeldBelowLimits(held: Batcher, direct: seq<Event>)
    requires HeldInv(held, direct) && !held.limits.immediate
    requires held.pending.value.eventCount < held.limits.maxBatchEvents && held.pending.value.bufferedChars < held.limits.maxBufferedChars
    ensures Inv(held, direct)
  {}

  lemma QueuedCases(b: Batcher, event: Event)
    requires IsMergeable(event)
    ensures var held := Held(b, event).(rawDeltaEvents := b.rawDeltaEvents + 1);
      && held.pending.Some?
      && Queued(b, event) == if held.pending.value.eventCount >= b.limits.maxBatchEvents
                                || held.pending.value.bufferedChars >= b.limits.maxBufferedChars || b.limits.immediate
                             then Flushed(held) else held
  {}

  lemma QueueKeepsInv(b: Batcher, direct: seq<Event>, event: Event)
    requires Inv(b, direct) && !b.terminal && !b.disposed && IsMergeable(event) && JoinsWell(b, event)
    ensures Inv(Queued(b, event), direct + [event])
  {
    HoldsBack(b, direct, event);
    HeldKeepsLimits(b, event);
    QueuedCases(b, event);
    hide Inv, HeldInv, Held, Flushed, Queued;
    var held := Held(b, event).(rawDeltaEvents := b.rawDeltaEvents + 1);
    if held.pending.value.eventCount >= b.limits.maxBatchEvents || held.pending.value.bufferedChars >= b.limits.maxBufferedChars || b.limits.immediate {
      HeldFlushed(held, direct + [event]);
    } else {
      HeldBelowLimits(held, direct + [event]);
    }
  }

  lemma HeldKeepsLimits(b: Batcher, event: Event)
    requires IsMergeable(event)
    ensures Held(b, event).limits == b.limits
  {}

  lemma DeliverKeepsInv(b: Batcher, direct: seq<Event>, events: seq<Event>, terminal: bool)
    requires Inv(b, direct) && b.pending == None
    ensures Inv(b.(delivered := b.delivered + events, terminal := terminal), direct + events)
  {
    TakeJoin(NEW_CONSUMER, b.delivered, events);
    TakeJoin(NEW_CONSUMER, direct, events);
    assert b.delivered + [] == b.delivered && b.delivered + events + [] == b.delivered + events;
  }

  /** Any action but a disposal that throws away what is pending, and a call that takes back a replacement still
      pending. */
  predicate Harmless(b: Batcher, action: Action) {
    && (action == Dispose(false) ==> b.pending == None)
    && (action.Emit? ==> JoinsWell(b, action.event))
  }

  lemma OtherKeepsInv(b: Batcher, direct: seq<Event>, event: Event)
    requires Inv(b, direct) && !b.terminal && !b.disposed && !IsMergeable(event)
    ensures var q := Next(b, Emit(event)); var all := direct + Direct(b, Emit(event));
      Inv(q, all) && TakeAll(NEW_CONSUMER, q.delivered) == TakeAll(NEW_CONSUMER, all)
  {
    FlushKeepsInv(b, direct);
    var q := Next(b, Emit(event));
    DeliverKeepsInv(Flushed(b), direct, Direct(b, Emit(event)), event.Terminal?);
    hide Take, TakeAll, Flushed;
    assert q.delivered + [] == q.delivered;
  }

  lemma DisposeKeepsInv(b: Batcher, direct: seq<Event>, flush: bool)
    requires Inv(b, direct) && (!flush ==> b.pending == None)
    ensures Inv(Next(b, Dispose(flush)), direct)
  {
    FlushKeepsInv(b, direct);
    hide Take, TakeAll;
  }

  /** Every action keeps the consumer where it would be without batching; at every event that is not a delta
      it is there without waiting for anything pending. */
  lemma ActionKeepsInv(b: Batcher, direct: seq<Event>, action: Action)
    requires Inv(b, direct) && Harmless(b, action)
    ensures Inv(Next(b, action), direct + Direct(b, action))
    ensures Direct(b, action) != [] && !IsMergeable(action.event) ==>
      TakeAll(NEW_CONSUMER, Next(b, action).delivered) == TakeAll(NEW_CONSUMER, direct + Direct(b, action))
  {
    assert direct + [] == direct;
    match action
    case Flush => FlushKeepsInv(b, direct);
    case Dispose(flush) => DisposeKeepsInv(b, direct, flush);
    case Emit(event) =>
      if !b.disposed && !b.terminal {
        if IsMergeable(event) { QueueKeepsInv(b, direct, event); } else { OtherKeepsInv(b, direct, event); }
      }
  }

  // ----- every run

  /** The batcher after some actions, and what an unbatched consumer has been handed by then. */
  datatype Both = Both(batcher: Batcher, direct: seq<Event>)

  predicate AllHarmless(b: Batcher, actions: seq<Action>)
    decreases |actions|
  {
    actions == [] || (Harmless(b, actions[0]) && AllHarmless(Next(b, actions[0]), actions[1..]))
  }

  ghost function RunBoth(b: Batcher, direct: seq<Event>, actions: seq<Action>): Both
    decreases |actions|
  {
    if actions == [] then Both(b, direct) else RunBoth(Next(b, actions[0]), direct + Direct(b, actions[0]), actions[1..])
  }

  /** For any deltas and any timing of flushes, batching cannot be noticed at an event that is not a delta, nor
      once everything is flushed; and every delta is delivered or pending. */
  lemma {:induction false} BatchingIsTransparent(b: Batcher, direct: seq<Event>, actions: seq<Action>)
    requires Inv(b, direct) && AllHarmless(b, actions)
    ensures var both := RunBoth(b, direct, actions);
      Inv(both.batcher, both.direct) && TakeAll(NEW_CONSUMER, Flushed(both.batcher).delivered) == TakeAll(NEW_CONSUMER, both.direct)
    decreases |actions|
  {
    hide Inv, Next, Direct, Harmless, TakeAll;
    if actions == [] {
      FlushKeepsInv(b, direct);
    } else {
      ActionKeepsInv(b, direct, actions[0]);
      BatchingIsTransparent(Next(b, actions[0]), direct + Direct(b, actions[0]), actions[1..]);
    }
  }

  lemma NewBatcherIsSound(immediate: bool, maxBatchEvents: int, maxBufferedChars: int)
    ensures Inv(NewBatcher(immediate, maxBatchEvents, maxBufferedChars), [])
  {}

  // ----- every run of a new batcher

  /** The ids of the calls that are to replace. */
  function Replacing(calls: seq<Call>): set<string> {
    set i: nat | i < |calls| && calls[i].replace == Yes :: calls[i].id
  }

  /** No call of the list carries an explicit false after one of its id, here or before, was to replace. */
  predicate TakesNothingBack(replacing: set<string>, calls: seq<Call>) {
    forall j: nat | j < |calls| && calls[j].replace == No ::
      calls[j].id !in replacing && forall i: nat | i < j :: !(calls[i].id == calls[j].id && calls[i].replace == Yes)
  }

  function CallsOf(action: Action): seq<Call> {
    if action.Emit? && action.event.ToolCallDelta? then action.event.calls else []
  }

  /** No call of the run carries an explicit false after one of its id was to replace. */
  predicate RunTakesNothingBack(replacing: set<string>, actions: seq<Action>)
    decreases |actions|
  {
    actions == [] ||
      (TakesNothingBack(replacing, CallsOf(actions[0])) && RunTakesNothingBack(replacing + Replacing(CallsOf(actions[0])), actions[1..]))
  }

  lemma MergeIntoReplacing(merged: seq<Call>, call: Call)
    ensures Replacing(MergeInto(merged, call)) <= Replacing(merged) + Replacing([call])
  {
    var index := LastIndexOf(merged, call.id);
    assert call.replace == Yes ==> [call][0].id in Replacing([call]);
    assert index.Some? && merged[index.value].replace == Yes ==> merged[index.value].id in Replacing(merged);
  }

  lemma ReplacingPush(calls: seq<Call>, call: Call)
    ensures Replacing(calls + [call]) == Replacing(calls) + Replacing([call])
  {
    var more := calls + [call];
    forall i: nat | i < |calls| && calls[i].replace == Yes ensures calls[i].id in Replacing(more) { assert more[i] == calls[i]; }
    if call.replace == Yes { assert more[|calls|] == call && [call][0] == call; }
  }

  lemma {:induction false} MergedReplacing(left: seq<Call>, right: seq<Call>)
    ensures Replacing(MergeCalls(left, right)) <= Replacing(left) + Replacing(right)
  {
    if right != [] {
      var n := |right| - 1;
      var merged := MergeCalls(left, right[..n]);
      assert MergeCalls(left, right) == MergeInto(merged, right[n]);
      hide MergeInto, MergeCalls, Replacing;
      MergedReplacing(left, right[..n]);
      MergeIntoReplacing(merged, right[n]);
      ReplacingPush(right[..n], right[n]);
      assert right == right[..n] + [right[n]];
    }
  }

  lemma {:induction false} NothingBackFits(replacing: set<string>, left: seq<Call>, right: seq<Call>)
    requires Replacing(left) <= replacing && TakesNothingBack(replacing, right)
    ensures AllFit(left, right)
  {
    if right != [] {
      var n := |right| - 1;
      NothingBackFits(replacing, left, right[..n]);
      MergedReplacing(left, right[..n]);
      FitsUnlessReplacing(MergeCalls(left, right[..n]), right[n]);
    }
  }

  lemma FitsUnlessReplacing(merged: seq<Call>, call: Call)
    requires call.replace == No ==> call.id !in Replacing(merged)
    ensures Fits(merged, call)
  {
    var index := LastIndexOf(merged, call.id);
    assert index.Some? && merged[index.value].replace == Yes ==> merged[index.value].id in Replacing(merged);
  }

  /** The replacing calls among those pending were emitted. */
  predicate PendingReplaces(b: Batcher, replacing: set<string>) {
    b.pending.Some? && b.pending.value.event.ToolCallDelta? ==> Replacing(b.pending.value.event.calls) <= replacing
  }

  lemma PendingStays(b: Batcher, replacing: set<string>, action: Action)
    requires PendingReplaces(b, replacing)
    ensures PendingReplaces(Next(b, action), replacing + Replacing(CallsOf(action)))
  {
    if b.pending.Some? && b.pending.value.event.ToolCallDelta? {
      MergedReplacing(b.pending.value.event.calls, CallsOf(action));
    }
    hide Replacing, MergeCalls;
  }

  lemma {:induction false} NothingBackIsHarmless(b: Batcher, replacing: set<string>, actions: seq<Action>)
    requires PendingReplaces(b, replacing) && RunTakesNothingBack(replacing, actions) && Dispose(false) !in actions
    ensures AllHarmless(b, actions)
    decreases |actions|
  {
    if actions != [] {
      if b.pending.Some? && b.pending.value.event.ToolCallDelta? {
        NothingBackFits(replacing, b.pending.value.event.calls, CallsOf(actions[0]));
      }
      PendingStays(b, replacing, actions[0]);
      hide Next, PendingReplaces, TakesNothingBack, AllFit;
      NothingBackIsHarmless(Next(b, actions[0]), replacing + Replacing(CallsOf(actions[0])), actions[1..]);
    }
  }

  /** A new batcher, whatever its limits, cannot be noticed in any run that drops nothing and in which no call
      takes back an earlier replacement. */
  lemma NewBatcherIsTransparent(immediate: bool, maxBatchEvents: int, maxBufferedChars: int, actions: seq<Action>)
    requires RunTakesNothingBack({}, actions) && Dispose(false) !in actions
    ensures var both := RunBoth(NewBatcher(immediate, maxBatchEvents, maxBufferedChars), [], actions);
      Inv(both.batcher, both.direct) && TakeAll(NEW_CONSUMER, Flushed(both.batcher).delivered) == TakeAll(NEW_CONSUMER, both.direct)
  {
    var b := NewBatcher(immediate, maxBatchEvents, maxBufferedChars);
    NewBatcherIsSound(immediate, maxBatchEvents, maxBufferedChars);
    NothingBackIsHarmless(b, {}, actions);
    BatchingIsTransparent(b, [], actions);
  }

  // ----- when deltas wait, and how much text they hold

  /** Deltas of one kind, on one stream, without a number of their own, and of one thought signature. */
  predicate BelongTogether(previous: Event, next: Event)
    requires IsMergeable(previous) && IsMergeable(next)
  {
    && previous.ident == next.ident && previous.streamSeq == None && next.streamSeq == None
    && (previous.Delta? <==> next.Delta?) && (previous.ToolCallDelta? <==> next.ToolCallDelta?)
    && (previous.ThoughtDelta? <==> next.ThoughtDelta?)
    && (previous.ThoughtDelta? || previous.ThoughtProgress? ==> previous.signature == next.signature)
  }

  lemma MergesExactly(previous: Event, next: Event)
    requires IsMergeable(previous) && IsMergeable(next)
    ensures MergeAdjacent(previous, next).Some? <==> BelongTogether(previous, next)
  {}

  /** The text a delta brings. */
  function TextOf(event: Event): string {
    match event
    case Delta(_, _, text) => text
    case ThoughtDelta(_, _, _, text, _) => text
    case ToolCallDelta(_, _, calls) => ArgumentsOf(calls)
    case _ => ""
  }

  function ArgumentsOf(calls: seq<Call>): string {
    if calls == [] then "" else calls[0].argumentsDelta + ArgumentsOf(calls[1..])
  }

  function TextOfAll(events: seq<Event>): string {
    if events == [] then "" else TextOfAll(events[..|events| - 1]) + TextOf(events[|events| - 1])
  }

  lemma {:induction false} ArgumentsPush(calls: seq<Call>, call: Call)
    ensures ArgumentsOf(calls + [call]) == ArgumentsOf(calls) + call.argumentsDelta
  {
    if calls == [] {
      assert [call][1..] == [] && [] + [call] == [call];
      assert call.argumentsDelta + "" == "" + call.argumentsDelta;
    } else {
      ArgumentsPush(calls[1..], call);
      assert (calls + [call])[1..] == calls[1..] + [call];
      Regroup(calls[0].argumentsDelta, ArgumentsOf(calls[1..]), call.argumentsDelta);
    }
  }

  lemma {:induction false} CallsLengthIsText(calls: seq<Call>)
    ensures CallsLength(calls) == |ArgumentsOf(calls)|
  {
    if calls != [] {
      var n := |calls| - 1;
      CallsLengthIsText(calls[..n]);
      ArgumentsPush(calls[..n], calls[n]);
      assert calls == calls[..n] + [calls[n]];
    }
  }

  lemma LengthIsText(event: Event)
    ensures TextLength(event) == |TextOf(event)|
  {
    if event.ToolCallDelta? { CallsLengthIsText(event.calls); }
  }

  /** What is pending stands for the last deltas handed in, and the count of characters is the length of their text. */
  ghost predicate Buffers(b: Batcher, direct: seq<Event>) {
    && (b.terminal || b.disposed ==> b.pending == None)
    && (b.pending.Some? ==>
          var n := b.pending.value.eventCount;
          && 1 <= n <= |direct| && b.pending.value.bufferedChars == |TextOfAll(direct[|direct| - n..])|
          && IsMergeable(b.pending.value.event) && forall i | |direct| - n <= i < |direct| :: IsMergeable(direct[i]))
  }

  lemma TextOfOne(direct: seq<Event>, event: Event)
    ensures (direct + [event])[|direct|..] == [event] && TextOfAll([event]) == TextOf(event)
  {
    assert [event][..0] == [];
    assert "" + TextOf(event) == TextOf(event);
  }

  lemma TextOfMore(direct: seq<Event>, from: nat, event: Event)
    requires from <= |direct|
    ensures (direct + [event])[from..] == direct[from..] + [event]
    ensures TextOfAll(direct[from..] + [event]) == TextOfAll(direct[from..]) + TextOf(event)
  {
    assert (direct[from..] + [event])[..|direct| - from] == direct[from..];
  }

  lemma HeldBuffers(b: Batcher, direct: seq<Event>, event: Event)
    requires Buffers(b, direct) && IsMergeable(event) && !b.terminal && !b.disposed
    ensures Buffers(Held(b, event), direct + [event]) && Held(b, event).pending.Some?
  {
    hide TextOfAll, TextOf, TextLength, MergeAdjacent;
    LengthIsText(event);
    TextOfOne(direct, event);
    if b.pending.Some? { TextOfMore(direct, |direct| - b.pending.value.eventCount, event); }
  }

  lemma ActionBuffers(b: Batcher, direct: seq<Event>, action: Action)
    requires Buffers(b, direct)
    ensures Buffers(Next(b, action), direct + Direct(b, action))
  {
    hide TextOfAll, Held;
    assert direct + [] == direct;
    if action.Emit? && !b.disposed && !b.terminal && IsMergeable(action.event) {
      HeldBuffers(b, direct, action.event);
    }
  }

  /** In every run of a new batcher. */
  lemma {:induction false} RunBuffers(b: Batcher, direct: seq<Event>, actions: seq<Action>)
    requires Buffers(b, direct)
    ensures var both := RunBoth(b, direct, actions); Buffers(both.batcher, both.direct)
    decreases |actions|
  {
    hide Buffers, Next, Direct;
    if actions != [] {
      ActionBuffers(b, direct, actions[0]);
      RunBuffers(Next(b, actions[0]), direct + Direct(b, actions[0]), actions[1..]);
    }
  }

  lemma NewBuffers(immediate: bool, maxBatchEvents: int, maxBufferedChars: int)
    ensures Buffers(NewBatcher(immediate, maxBatchEvents, maxBufferedChars), [])
  {}

  /** A delta that belongs to the pending one is not delivered yet while both limits allow more; it is merged and counted. */
  lemma WaitsToMerge(b: Batcher, event: Event)
    requires b.pending.Some? && IsMergeable(b.pending.value.event) && IsMergeable(event) && !b.terminal && !b.disposed && !b.limits.immediate
    requires BelongTogether(b.pending.value.event, event)
    requires b.pending.value.eventCount + 1 < b.limits.maxBatchEvents && b.pending.value.bufferedChars + |TextOf(event)| < b.limits.maxBufferedChars
    ensures var q := Next(b, Emit(event));
      && q.delivered == b.delivered && q.emittedDeltaEvents == b.emittedDeltaEvents && q.rawDeltaEvents == b.rawDeltaEvents + 1
      && q.pending.Some? && q.pending.value.eventCount == b.pending.value.eventCount + 1
  {
    MergesExactly(b.pending.value.event, event);
    LengthIsText(event);
    hide MergeAdjacent, TextOf, TextLength;
  }

  /** After the terminal event nothing more is delivered, and no other event comes after it. */
  lemma NothingFollowsTerminal(b: Batcher, direct: seq<Event>, action: Action)
    requires Inv(b, direct) && b.terminal
    ensures Next(b, action).delivered == b.delivered && Next(b, action).terminal
  {}

  // ----- the batcher as the source changes it

  /** The index by id names the last call of each id. */
  ghost predicate Indexes(index: map<string, nat>, calls: seq<Call>) {
    forall id :: LastIndexOf(calls, id) == if id in index then Some(index[id]) else None
  }

  lemma LastAt(calls: seq<Call>, id: string, k: nat)
    requires k < |calls| && calls[k].id == id && forall i: nat | k < i < |calls| :: calls[i].id != id
    ensures LastIndexOf(calls, id) == Some(k)
  {}

  lemma IndexesPush(index: map<string, nat>, calls: seq<Call>, call: Call)
    requires Indexes(index, calls)
    ensures Indexes(index[call.id := |calls|], calls + [call])
  {
    forall id ensures LastIndexOf(calls + [call], id) == if id in index[call.id := |calls|] then Some(index[call.id := |calls|][id]) else None {
      assert (calls + [call])[..|calls|] == calls;
    }
  }

  lemma {:induction false} SameIdsSameIndex(a: seq<Call>, b: seq<Call>, id: string)
    requires |a| == |b| && forall i | 0 <= i < |a| :: a[i].id == b[i].id
    ensures LastIndexOf(a, id) == LastIndexOf(b, id)
  {
    if a != [] { SameIdsSameIndex(a[..|a| - 1], b[..|b| - 1], id); }
  }

  method MergeToolCallArgumentDeltas(left: seq<Call>, right: seq<Call>) returns (merged: seq<Call>)
    ensures merged == MergeCalls(left, right)
  {
    merged := left;
    var indexById: map<string, nat> := map[];
    for i := 0 to |left|
      invariant Indexes(indexById, left[..i])
    {
      IndexesPush(indexById, left[..i], left[i]);
      assert left[..i] + [left[i]] == left[..i + 1];
      indexById := indexById[left[i].id := i];
    }
    assert left[..|left|] == left;
    for i := 0 to |right|
      invariant merged == MergeCalls(left, right[..i]) && Indexes(indexById, merged)
    {
      assert right[..i + 1][..i] == right[..i];
      var call := right[i];
      assert LastIndexOf(merged, call.id) == if call.id in indexById then Some(indexById[call.id]) else None;
      if call.id !in indexById {
        IndexesPush(indexById, merged, call);
        indexById := indexById[call.id := |merged|];
        merged := merged + [call];
        continue;
      }
      var k := indexById[call.id];
      var previous := merged[k];
      ghost var before := merged;
      merged := merged[k := Call(call.id, if call.replace == Yes then call.argumentsDelta else previous.argumentsDelta + call.argumentsDelta,
                                 if call.replace == NoFlag then previous.replace else call.replace)];
      forall id ensures LastIndexOf(merged, id) == LastIndexOf(before, id) { SameIdsSameIndex(merged, before, id); }
    }
    assert right[..|right|] == right;
  }

  lemma HeldKeepsRaw(b: Batcher, event: Event)
    requires IsMergeable(event)
    ensures Held(b, event).rawDeltaEvents == b.rawDeltaEvents && Held(b, event).limits == b.limits
  {}

  class LlmStreamEventBatcher {
    const limits: Limits
    var pending: Option<Pending>
    var disposed: bool
    var terminal: bool
    var rawDeltaEvents: nat
    var emittedDeltaEvents: nat
    var delivered: seq<Event>
    ghost var counts: seq<nat>

    ghost function View(): Batcher
      reads this
    {
      Batcher(limits, pending, disposed, terminal, rawDeltaEvents, emittedDeltaEvents, delivered, counts)
    }

    constructor (immediate: bool, maxBatchEvents: int, maxBufferedChars: int)
      ensures View() == NewBatcher(immediate, maxBatchEvents, maxBufferedChars)
    {
      limits := Limits(immediate, Max(1, maxBatchEvents), Max(1, maxBufferedChars));
      pending, disposed, terminal, rawDeltaEvents, emittedDeltaEvents, delivered, counts := None, false, false, 0, 0, [], [];
    }

    method FlushPending()
      modifies this
      ensures View() == Flushed(old(View()))
    {
      var current := pending;
      pending := None;
      if current == None { return; }
      emittedDeltaEvents := emittedDeltaEvents + 1;
      delivered := delivered + [current.value.event];
      counts := counts + [current.value.eventCount];
    }

    /** Joins the delta to what is pending, or flushes that and starts a new batch. */
    method HoldBack(event: Event)
      requires IsMergeable(event)
      modifies this
      ensures View() == Held(old(View()), event)
      ensures pending.Some?
    {
      hide MergeAdjacent, TextLength;
      var merged := if pending.Some? then MergeAdjacent(pending.value.event, event) else None;
      if merged == None {
        FlushPending();
        pending := Some(Pending(event, 1, TextLength(event)));
      } else {
        pending := Some(Pending(merged.value, pending.value.eventCount + 1, pending.value.bufferedChars + TextLength(event)));
      }
    }

    method QueueMergeable(event: Event)
      requires IsMergeable(event)
      modifies this
      ensures View() == Queued(old(View()), event)
    {
      hide Held, Flushed;
      HoldBack(event);
      rawDeltaEvents := rawDeltaEvents + 1;
      assert View() == Held(old(View()), event).(rawDeltaEvents := old(rawDeltaEvents) + 1) by { HeldKeepsRaw(old(View()), event); }
      if pending.value.eventCount >= limits.maxBatchEvents || pending.value.bufferedChars >= limits.maxBufferedChars {
        FlushPending();
      } else if limits.immediate {
        FlushPending();
      }
    }

    method EmitEvent(event: Event)
      modifies this
      ensures View() == Next(old(View()), Emit(event))
    {
      if disposed || terminal { return; }
      if IsMergeable(event) {
        QueueMergeable(event);
        return;
      }
      FlushPending();
      if event.Terminal? {
        terminal := true;
        delivered := delivered + [PreviewDone(event.ident.requestId), event];
        return;
      }
      delivered := delivered + [event];
    }

    method DisposeBatcher(flush: bool)
      modifies this
      ensures View() == Next(old(View()), Dispose(flush))
    {
      if disposed { return; }
      if flush && !terminal { FlushPending(); }
      pending := None;
      disposed := true;
    }
  }
}
