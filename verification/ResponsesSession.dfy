/** A Responses WebSocket session that sends only the new part of its history and relies on the server
    to remember the rest (backend/capabilities/openAIResponsesWebSocketSession.ts, lines 276-420,
    568-641, 705-863, 899-907 and 1560-1581). */
module ResponsesSession {
  import opened Options

  /** An input item in its canonical text form; the source compares items by that form only. */
  type Item = string
  type ResponseId = string
  type Signature = string
  type Kind = string

  /** The kinds of the volatile tail; absent when the caller does not manage one. */
  type Layout = Option<seq<Kind>>

  /** `encoded` is what the format adapter makes of the tail contents, absent when it fails. */
  datatype Continuation = Continuation(kinds: seq<Kind>, contentCount: nat, encoded: Option<seq<Item>>, forceFull: Option<string>)

  datatype Request = Request(input: seq<Item>, signature: Signature, continuation: Option<Continuation>)

  datatype Boundary = Boundary(durable: seq<Item>, volatile: seq<Item>, layout: Layout, forceFull: Option<string>)

  datatype LastRequest = LastRequest(durable: seq<Item>, signature: Signature, layout: Layout)
  datatype LastResponse = LastResponse(id: ResponseId, output: seq<Item>)

  datatype Reason =
    | NewSocketGeneration | NoCompletedBaseline | Forced(why: string) | RequestPropertiesChanged
    | VolatileTailLayoutChanged | PeriodicRebase | CachedPrefixLonger | InputPrefixMismatchAt(index: nat)
    | NoStrictInputSuffix | MatchedExactPrefix

  datatype Payload = Payload(sent: seq<Item>, previous: Option<ResponseId>, reason: Reason)

  const MAX_SUCCESSFUL_INCREMENTAL_REQUESTS := 16

  // ----- the boundary between durable history and volatile tail

  function LocalContinuationBoundary(input: seq<Item>, continuation: Option<Continuation>): Boundary {
    match continuation
    case None => Boundary(input, [], None, None)
    case Some(c) =>
      var layout := Some(c.kinds);
      if c.forceFull.Some? then Boundary(input, [], layout, c.forceFull)
      else if c.contentCount != |c.kinds| then Boundary(input, [], layout, Some("invalid_volatile_tail_boundary"))
      else if c.contentCount == 0 then Boundary(input, [], layout, None)
      else if c.encoded == None || c.encoded.value == [] then Boundary(input, [], layout, Some("volatile_tail_encode_failed"))
      else
        var offset := |input| - |c.encoded.value|;
        if offset < 0 || input[offset..] != c.encoded.value
        then Boundary(input, [], layout, Some("volatile_tail_boundary_mismatch"))
        else Boundary(input[..offset], c.encoded.value, layout, None)
  }

  predicate ManagesNoTail(layout: Layout) {
    layout == None || layout.value == []
  }

  /** The boundary only cuts the input in two, and a layout without kinds has no volatile part. */
  lemma BoundaryCutsInput(input: seq<Item>, continuation: Option<Continuation>)
    ensures var b := LocalContinuationBoundary(input, continuation);
            b.durable + b.volatile == input && (ManagesNoTail(b.layout) ==> b.volatile == [])
  {
  }

  /** The input ends in the tail that the caller manages. */
  predicate EndsInTail(input: seq<Item>, c: Continuation, durable: seq<Item>, tail: seq<Item>) {
    && c.forceFull == None && c.contentCount == |c.kinds| > 0 && c.encoded == Some(tail) && tail != []
    && input == durable + tail
  }

  /** Where the input is cut: before the managed tail if it ends in it, and otherwise nowhere, for a reason unless
      there is no tail to manage. */
  lemma BoundaryExactly(input: seq<Item>, c: Continuation)
    ensures LocalContinuationBoundary(input, None) == Boundary(input, [], None, None)
    ensures var b := LocalContinuationBoundary(input, Some(c));
      && b.layout == Some(c.kinds)
      && (forall durable, tail | EndsInTail(input, c, durable, tail) :: b.durable == durable && b.volatile == tail && b.forceFull == None)
      && ((forall durable, tail :: !EndsInTail(input, c, durable, tail)) ==> b.durable == input && b.volatile == [])
      && (c.forceFull.Some? ==> b.forceFull == c.forceFull)
      && (c.forceFull == None && c.contentCount != |c.kinds| ==> b.forceFull == Some("invalid_volatile_tail_boundary"))
      && (c.forceFull == None && c.contentCount == |c.kinds| == 0 ==> b.forceFull == None)
      && (c.forceFull == None && c.contentCount == |c.kinds| > 0 && (c.encoded == None || c.encoded == Some([])) ==>
            b.forceFull == Some("volatile_tail_encode_failed"))
      && ((c.forceFull == None && c.contentCount == |c.kinds| > 0 && c.encoded.Some? && c.encoded.value != []
           && forall durable :: input != durable + c.encoded.value) ==> b.forceFull == Some("volatile_tail_boundary_mismatch"))
  {
    if c.encoded.Some? && |c.encoded.value| <= |input| {
      var offset := |input| - |c.encoded.value|;
      if input[offset..] == c.encoded.value {
        assert input == input[..offset] + c.encoded.value;
        assert c.forceFull == None && c.contentCount == |c.kinds| > 0 && c.encoded.value != [] ==> EndsInTail(input, c, input[..offset], c.encoded.value);
      }
    }
  }

  // ----- the decision between a full and an incremental request

  function PrefixMismatchReason(items: seq<Item>, prefix: seq<Item>, from: nat := 0): (r: Option<Reason>)
    requires from <= |prefix| && (from <= |items| ==> prefix[..from] == items[..from])
    ensures r == None <==> prefix <= items
    ensures r.Some? ==> match r.value
                        case CachedPrefixLonger => |prefix| > |items|
                        case InputPrefixMismatchAt(i) => i < |prefix| <= |items| && prefix[..i] == items[..i] && prefix[i] != items[i]
                        case _ => false
    decreases |prefix| - from
  {
    if |prefix| > |items| then Some(CachedPrefixLonger)
    else if from == |prefix| then None
    else if items[from] != prefix[from] then Some(InputPrefixMismatchAt(from))
    else PrefixMismatchReason(items, prefix, from + 1)
  }

  /** What the client keeps between requests. Sockets are named by their generation. */
  datatype Client = Client(socket: Option<nat>, generation: nat, lastRequest: Option<LastRequest>,
                           lastResponse: Option<LastResponse>, increments: nat)

  function Baseline(c: Client): Option<seq<Item>> {
    if c.lastRequest.Some? && c.lastResponse.Some? then Some(c.lastRequest.value.durable + c.lastResponse.value.output) else None
  }

  function ReasonFor(c: Client, b: Boundary, signature: Signature, reused: bool): Reason {
    if !reused then NewSocketGeneration
    else if Baseline(c) == None then NoCompletedBaseline
    else if b.forceFull.Some? then Forced(b.forceFull.value)
    else if c.lastRequest.value.signature != signature then RequestPropertiesChanged
    else if c.lastRequest.value.layout != b.layout then VolatileTailLayoutChanged
    else if c.increments >= MAX_SUCCESSFUL_INCREMENTAL_REQUESTS then PeriodicRebase
    else
      var mismatch := PrefixMismatchReason(b.durable, Baseline(c).value);
      if mismatch.Some? then mismatch.value
      else if |b.durable| == |Baseline(c).value| && b.volatile == [] then NoStrictInputSuffix
      else MatchedExactPrefix
  }

  function PrepareCreatePayload(c: Client, request: Request, reused: bool): Payload {
    var b := LocalContinuationBoundary(request.input, request.continuation);
    var reason := ReasonFor(c, b, request.signature, reused);
    if reason == MatchedExactPrefix
    then Payload(b.durable[|Baseline(c).value|..] + b.volatile, Some(c.lastResponse.value.id), reason)
    else Payload(request.input, None, reason)
  }

  // ----- the session object

  /** What the outside world does during one request. `opens` is false when no socket can be had. */
  datatype Connection = Connection(forceNew: bool, healthy: bool, opens: bool)

  /** A completed response may come without an id, without a reliable output projection, or after its
      socket has gone; everything else that ends a request is a failure. */
  datatype Outcome =
    | Completed(id: Option<ResponseId>, output: Option<seq<Item>>, sawSemanticOutput: bool, socketOpen: bool)
    | Failed

  function Invalidated(c: Client): Client {
    c.(lastRequest := None, lastResponse := None, increments := 0)
  }

  function Closed(c: Client): Client {
    Invalidated(c).(socket := None)
  }

  function Reuses(c: Client, connection: Connection): bool {
    !connection.forceNew && c.socket.Some? && connection.healthy
  }

  function Connected(c: Client, connection: Connection): Client {
    if Reuses(c, connection) then c
    else if connection.opens then Closed(c).(socket := Some(c.generation + 1), generation := c.generation + 1)
    else Closed(c)
  }

  function Reliable(outcome: Outcome): bool {
    outcome.Completed? && outcome.id.Some? && outcome.output.Some?
    && (outcome.output.value != [] || !outcome.sawSemanticOutput) && outcome.socketOpen
  }

  function Finished(c: Client, request: Request, payload: Payload, outcome: Outcome): Client {
    if outcome.Failed? then Closed(c)
    else if !Reliable(outcome) then Invalidated(c)
    else
      var b := LocalContinuationBoundary(request.input, request.continuation);
      c.(lastRequest := Some(LastRequest(b.durable, request.signature, b.layout)),
         lastResponse := Some(LastResponse(outcome.id.value, outcome.output.value)),
         increments := if payload.reason == MatchedExactPrefix then c.increments + 1 else 0)
  }

  class WebSocketSession {
    var socket: Option<nat>
    var connectionGeneration: nat
    var lastRequest: Option<LastRequest>
    var lastResponse: Option<LastResponse>
    var successfulIncrementalRequests: nat

    function View(): Client
      reads this
    {
      Client(socket, connectionGeneration, lastRequest, lastResponse, successfulIncrementalRequests)
    }

    constructor ()
      ensures View() == Client(None, 0, None, None, 0)
    {
      socket, connectionGeneration, lastRequest, lastResponse, successfulIncrementalRequests := None, 0, None, None, 0;
    }

    method InvalidateContinuation()
      modifies this
      ensures View() == Invalidated(old(View()))
    {
      lastRequest, lastResponse, successfulIncrementalRequests := None, None, 0;
    }

    method CloseAndInvalidate()
      modifies this
      ensures View() == Closed(old(View()))
    {
      socket := None;
      InvalidateContinuation();
    }

    method EnsureSocket(connection: Connection) returns (ok: bool, reused: bool)
      modifies this
      ensures View() == Connected(old(View()), connection)
      ensures reused == Reuses(old(View()), connection)
      ensures ok == (reused || connection.opens)
    {
      if connection.forceNew { CloseAndInvalidate(); }
      if socket.Some? && connection.healthy { return true, true; }
      CloseAndInvalidate();
      if !connection.opens { return false, false; }
      connectionGeneration := connectionGeneration + 1;
      socket := Some(connectionGeneration);
      return true, false;
    }

    /** One request, from connecting to committing or dropping the baseline. */
    method StreamLocked(request: Request, connection: Connection, outcome: Outcome) returns (payload: Option<Payload>)
      modifies this
      ensures var c := Connected(old(View()), connection);
              var reused := Reuses(old(View()), connection);
              if reused || connection.opens
              then payload == Some(PrepareCreatePayload(c, request, reused)) && View() == Finished(c, request, payload.value, outcome)
              else payload == None && View() == Closed(c)
    {
      var ok, reused := EnsureSocket(connection);
      if !ok {
        CloseAndInvalidate();
        return None;
      }
      var boundary := LocalContinuationBoundary(request.input, request.continuation);
      var prepared := PrepareCreatePayload(View(), request, reused);
      payload := Some(prepared);
      match outcome {
        case Failed => CloseAndInvalidate();
        case Completed(id, output, sawSemanticOutput, socketOpen) =>
          if id == None || output == None || (output.value == [] && sawSemanticOutput) || !socketOpen {
            InvalidateContinuation();
          } else {
            lastRequest := Some(LastRequest(boundary.durable, request.signature, boundary.layout));
            lastResponse := Some(LastResponse(id.value, output.value));
            successfulIncrementalRequests :=
              if prepared.reason == MatchedExactPrefix then successfulIncrementalRequests + 1 else 0;
          }
      }
    }
  }

  // ----- the server and whole runs

  /** Per socket and response id, the server keeps the request context and the response output. */
  type Server = map<(nat, ResponseId), seq<Item>>

  datatype System = System(client: Client, server: Server)

  /** One call of the stream operation, or the loss of the socket noticed between two calls. What the
      server remembers as its output matters only when the client trusts its own projection of it. */
  datatype Event =
    | Call(request: Request, connection: Connection, outcome: Outcome, remembered: seq<Item>)
    | SocketLost

  const INITIAL := System(Client(None, 0, None, None, 0), map[])

  /** The terminal projection is what the server remembers. */
  predicate Faithful(e: Event) {
    e.Call? && e.outcome.Completed? && e.outcome.output.Some? ==> e.remembered == e.outcome.output.value
  }

  predicate Sends(c: Client, e: Event) {
    e.Call? && (Reuses(c, e.connection) || e.connection.opens)
  }

  function SentPayload(c: Client, e: Event): Payload
    requires Sends(c, e)
  {
    PrepareCreatePayload(Connected(c, e.connection), e.request, Reuses(c, e.connection))
  }

  /** The server can resolve the request: the previous response, if named, was made on this socket. */
  predicate Resolvable(sys: System, e: Event)
    requires Sends(sys.client, e)
  {
    var c := Connected(sys.client, e.connection);
    var p := SentPayload(sys.client, e);
    c.socket.Some? && (p.previous.Some? ==> (c.socket.value, p.previous.value) in sys.server)
  }

  /** The context the server answers from. */
  function ServerContext(sys: System, e: Event): seq<Item>
    requires Sends(sys.client, e) && Resolvable(sys, e)
  {
    var c := Connected(sys.client, e.connection);
    var p := SentPayload(sys.client, e);
    (if p.previous.Some? then sys.server[(c.socket.value, p.previous.value)] else []) + p.sent
  }

  function Step(sys: System, e: Event): System {
    var c := sys.client;
    match e
    case SocketLost => sys.(client := Closed(c))
    case Call(request, connection, outcome, remembered) =>
      if !Sends(c, e) then sys.(client := Closed(Connected(c, connection)))
      else if !Resolvable(sys, e) then sys.(client := Closed(Connected(c, connection)))
      else
        var c' := Connected(c, connection);
        var client := Finished(c', request, SentPayload(c, e), outcome);
        if outcome.Completed? && outcome.id.Some?
        then System(client, sys.server[(c'.socket.value, outcome.id.value) := ServerContext(sys, e) + remembered])
        else System(client, sys.server)
  }

  function Run(sys: System, events: seq<Event>): System
    decreases events
  {
    if events == [] then sys else Run(Step(sys, events[0]), events[1..])
  }

  // ----- the requests the server's memory is made of

  function BoundaryOf(request: Request): Boundary {
    LocalContinuationBoundary(request.input, request.continuation)
  }

  /** A call whose response became the client's baseline. */
  predicate Committed(e: Event) {
    e.Call? && Reliable(e.outcome)
  }

  function BaselineOf(turn: Event): seq<Item>
    requires Committed(turn)
  {
    BoundaryOf(turn.request).durable + turn.outcome.output.value
  }

  /** The request repeats what the last turn left behind, under the same properties and tail layout. */
  predicate Continues(turns: seq<Event>, request: Request) {
    turns != [] ==>
      var last := turns[|turns| - 1];
      && Committed(last) && BaselineOf(last) <= BoundaryOf(request).durable
      && last.request.signature == request.signature && BoundaryOf(last.request).layout == BoundaryOf(request).layout
  }

  /** Committed calls, each of which continues those before it. */
  predicate Chain(turns: seq<Event>) {
    turns == [] ||
      var n := |turns| - 1;
      Chain(turns[..n]) && Committed(turns[n]) && Continues(turns[..n], turns[n].request)
  }

  /** The durable items that are new after the turns. */
  function News(turns: seq<Event>, request: Request): seq<Item>
    requires Continues(turns, request)
  {
    if turns == [] then BoundaryOf(request).durable else BoundaryOf(request).durable[|BaselineOf(turns[|turns| - 1])|..]
  }

  /** What the turns leave in the server's memory: of each one its new durable items, its own tail and its output. */
  function Remembered(turns: seq<Event>): seq<Item>
    requires Chain(turns)
  {
    if turns == [] then []
    else
      var before, turn := turns[..|turns| - 1], turns[|turns| - 1];
      Remembered(before) + News(before, turn.request) + BoundaryOf(turn.request).volatile + turn.outcome.output.value
  }

  /** The same without the tails. */
  function DurablePart(turns: seq<Event>): seq<Item>
    requires Chain(turns)
  {
    if turns == [] then []
    else
      var before, turn := turns[..|turns| - 1], turns[|turns| - 1];
      DurablePart(before) + News(before, turn.request) + turn.outcome.output.value
  }

  /** The server answers from what the turns left behind, then the request's new durable items, then its tail.
      Without the tails of the turns, of which there are at most 16, that is the input. */
  ghost predicate Rebuilds(context: seq<Item>, turns: seq<Event>, request: Request) {
    && Chain(turns) && Continues(turns, request) && |turns| <= MAX_SUCCESSFUL_INCREMENTAL_REQUESTS
    && context == Remembered(turns) + News(turns, request) + BoundaryOf(request).volatile
    && request.input == DurablePart(turns) + News(turns, request) + BoundaryOf(request).volatile
    && (turns == [] || ManagesNoTail(BoundaryOf(request).layout) ==> context == request.input)
  }

  lemma PrefixAndRest(prefix: seq<Item>, items: seq<Item>)
    requires prefix <= items
    ensures prefix + items[|prefix|..] == items
  {}

  /** The new items of a chain and its outputs add up to the last baseline. */
  lemma {:induction false} DurableIsBaseline(turns: seq<Event>)
    requires Chain(turns) && turns != []
    ensures DurablePart(turns) == BaselineOf(turns[|turns| - 1])
  {
    hide LocalContinuationBoundary;
    var n := |turns| - 1;
    if n == 0 {
      assert turns[..n] == [];
    } else {
      DurableIsBaseline(turns[..n]);
      PrefixAndRest(BaselineOf(turns[n - 1]), BoundaryOf(turns[n].request).durable);
    }
  }

  lemma {:induction false} NoTailsNoDifference(turns: seq<Event>)
    requires Chain(turns) && turns != [] && ManagesNoTail(BoundaryOf(turns[|turns| - 1].request).layout)
    ensures Remembered(turns) == DurablePart(turns)
  {
    hide LocalContinuationBoundary;
    var n := |turns| - 1;
    var request := turns[n].request;
    BoundaryCutsInput(request.input, request.continuation);
    if n > 0 { NoTailsNoDifference(turns[..n]); }
    assert Remembered(turns[..n]) + News(turns[..n], request) + [] == Remembered(turns[..n]) + News(turns[..n], request);
  }

  lemma ChainGrows(turns: seq<Event>, turn: Event)
    requires Chain(turns) && Committed(turn) && Continues(turns, turn.request)
    ensures Chain(turns + [turn])
    ensures Remembered(turns + [turn])
         == Remembered(turns) + News(turns, turn.request) + BoundaryOf(turn.request).volatile + turn.outcome.output.value
  {
    assert (turns + [turn])[..|turns|] == turns;
  }

  // ----- continuation safety

  /** The calls since the last one that was sent in full, that one included. */
  function LastTurns(past: seq<Event>, c: Client): seq<Event>
    requires c.increments < |past|
  {
    past[|past| - c.increments - 1..]
  }

  /** The baseline was committed on the socket still in use; it is that of the last call of the run; and the server
      holds there what the calls since the last full one left behind, nothing else. */
  ghost predicate Inv(past: seq<Event>, sys: System) {
    var c := sys.client;
    && c.increments <= MAX_SUCCESSFUL_INCREMENTAL_REQUESTS
    && (c.lastResponse.Some? ==>
          && c.lastRequest.Some? && c.socket.Some? && c.increments < |past|
          && (c.socket.value, c.lastResponse.value.id) in sys.server
          && var turns := LastTurns(past, c); var last := turns[|turns| - 1];
             && Chain(turns) && Committed(last)
             && c.lastRequest.value == LastRequest(BoundaryOf(last.request).durable, last.request.signature, BoundaryOf(last.request).layout)
             && c.lastResponse.value == LastResponse(last.outcome.id.value, last.outcome.output.value)
             && sys.server[(c.socket.value, c.lastResponse.value.id)] == Remembered(turns))
  }

  /** The turns a request builds on: those since the last full call, or none when it is sent in full itself. */
  function TurnsBefore(past: seq<Event>, sys: System, e: Event): seq<Event>
    requires Inv(past, sys) && Sends(sys.client, e)
  {
    if SentPayload(sys.client, e).reason == MatchedExactPrefix then LastTurns(past, sys.client) else []
  }

  lemma Regroup(a: seq<Item>, b: seq<Item>, c: seq<Item>)
    ensures a + (b + c) == (a + b) + c
  {}

  /** After a match only the new durable items and the tail go out, and the server puts them after what the
      turns left behind. */
  lemma MatchedHistory(past: seq<Event>, sys: System, e: Event)
    requires Inv(past, sys) && Sends(sys.client, e) && SentPayload(sys.client, e).reason == MatchedExactPrefix
    ensures Resolvable(sys, e) && sys.client.increments < MAX_SUCCESSFUL_INCREMENTAL_REQUESTS && sys.client.increments < |past|
    ensures var turns := LastTurns(past, sys.client);
      && Chain(turns) && Continues(turns, e.request)
      && ServerContext(sys, e) == Remembered(turns) + News(turns, e.request) + BoundaryOf(e.request).volatile
  {
    hide LocalContinuationBoundary, Chain, Remembered;
    var turns := LastTurns(past, sys.client);
    Regroup(Remembered(turns), News(turns, e.request), BoundaryOf(e.request).volatile);
  }

  /** Otherwise the whole input is sent, and the server starts from nothing. */
  lemma FullHistory(past: seq<Event>, sys: System, e: Event)
    requires Inv(past, sys) && Sends(sys.client, e) && SentPayload(sys.client, e).reason != MatchedExactPrefix
    ensures Resolvable(sys, e) && ServerContext(sys, e) == e.request.input
  {
    assert [] + SentPayload(sys.client, e).sent == SentPayload(sys.client, e).sent;
  }

  lemma FullRebuilds(request: Request)
    ensures Rebuilds(request.input, [], request)
  {
    BoundaryCutsInput(request.input, request.continuation);
    hide LocalContinuationBoundary;
    var b := BoundaryOf(request);
    assert [] + b.durable == b.durable;
  }

  /** A request of the chain rebuilds its input. */
  lemma ChainRebuilds(turns: seq<Event>, request: Request)
    requires Chain(turns) && turns != [] && Continues(turns, request) && |turns| <= MAX_SUCCESSFUL_INCREMENTAL_REQUESTS
    ensures Rebuilds(Remembered(turns) + News(turns, request) + BoundaryOf(request).volatile, turns, request)
  {
    hide LocalContinuationBoundary, Chain, Remembered, DurablePart;
    var b, baseline := BoundaryOf(request), BaselineOf(turns[|turns| - 1]);
    BoundaryCutsInput(request.input, request.continuation);
    DurableIsBaseline(turns);
    PrefixAndRest(baseline, b.durable);
    if ManagesNoTail(b.layout) { NoTailsNoDifference(turns); }
  }

  lemma RequestRebuildsInput(past: seq<Event>, sys: System, e: Event)
    requires Inv(past, sys) && Sends(sys.client, e)
    ensures Resolvable(sys, e) && Rebuilds(ServerContext(sys, e), TurnsBefore(past, sys, e), e.request)
  {
    hide ServerContext, SentPayload, Resolvable, Rebuilds, Chain, Remembered;
    if SentPayload(sys.client, e).reason == MatchedExactPrefix {
      MatchedHistory(past, sys, e);
      ChainRebuilds(LastTurns(past, sys.client), e.request);
    } else {
      FullHistory(past, sys, e);
      FullRebuilds(e.request);
    }
  }

  lemma StepKeepsInv(past: seq<Event>, sys: System, e: Event)
    requires Inv(past, sys) && Faithful(e)
    ensures Inv(past + [e], Step(sys, e))
  {
    hide ServerContext, ReasonFor, LocalContinuationBoundary, Chain, Remembered;
    if Sends(sys.client, e) && Resolvable(sys, e) && Reliable(e.outcome) {
      CommitKeepsInv(past, sys, e);
    }
  }

  lemma CommitKeepsInv(past: seq<Event>, sys: System, e: Event)
    requires Inv(past, sys) && Faithful(e) && Sends(sys.client, e) && Resolvable(sys, e) && Committed(e)
    ensures Inv(past + [e], Step(sys, e))
  {
    var before := TurnsBefore(past, sys, e);
    RequestRebuildsInput(past, sys, e);
    TurnsGrow(past, sys, e);
    hide ServerContext, SentPayload, LocalContinuationBoundary, Chain, Remembered, News;
    ChainGrows(before, e);
    var turns := LastTurns(past + [e], Step(sys, e).client);
    assert turns[|turns| - 1] == e;
  }

  lemma TurnsGrow(past: seq<Event>, sys: System, e: Event)
    requires Inv(past, sys) && Sends(sys.client, e) && Committed(e)
    ensures var c := Finished(Connected(sys.client, e.connection), e.request, SentPayload(sys.client, e), e.outcome);
      && c.increments <= MAX_SUCCESSFUL_INCREMENTAL_REQUESTS && c.increments < |past + [e]|
      && LastTurns(past + [e], c) == TurnsBefore(past, sys, e) + [e]
  {
    if SentPayload(sys.client, e).reason == MatchedExactPrefix {
      IncrementBelowCap(sys.client, e);
    }
    hide SentPayload, LocalContinuationBoundary, Chain, Remembered;
  }

  lemma IncrementBelowCap(c: Client, e: Event)
    requires Sends(c, e) && SentPayload(c, e).reason == MatchedExactPrefix
    ensures c.increments < MAX_SUCCESSFUL_INCREMENTAL_REQUESTS && Connected(c, e.connection) == c
  {
  }

  lemma {:induction false} RunKeepsInv(past: seq<Event>, sys: System, events: seq<Event>)
    requires Inv(past, sys) && forall i | 0 <= i < |events| :: Faithful(events[i])
    ensures Inv(past + events, Run(sys, events))
    decreases events
  {
    if events == [] {
      assert past + events == past;
    } else {
      StepKeepsInv(past, sys, events[0]);
      RunKeepsInv(past + [events[0]], Step(sys, events[0]), events[1..]);
      assert past + [events[0]] + events[1..] == past + events;
    }
  }

  /** Over any run of full, incremental, failed and reconnecting requests, the next request can be resolved on the
      socket it goes out on, and the server answers from its full input with nothing added but the tails of the
      last calls of the run, each in its own place. */
  lemma ContinuationSafety(events: seq<Event>, e: Event)
    requires forall i | 0 <= i < |events| :: Faithful(events[i])
    requires Sends(Run(INITIAL, events).client, e)
    ensures var sys := Run(INITIAL, events);
      && Inv(events, sys) && Resolvable(sys, e)
      && Rebuilds(ServerContext(sys, e), TurnsBefore(events, sys, e), e.request)
  {
    hide Run, Inv, Rebuilds, Resolvable, ServerContext;
    InitialInv();
    RunKeepsInv([], INITIAL, events);
    assert [] + events == events;
    RequestRebuildsInput(events, Run(INITIAL, events), e);
  }

  lemma InitialInv()
    ensures Inv([], INITIAL)
  {}

  /** A baseline never outlives its socket: a request on another socket names no previous response. */
  lemma NewSocketStartsOver(sys: System, e: Event)
    requires Sends(sys.client, e)
    ensures Connected(sys.client, e.connection).socket != sys.client.socket || !Reuses(sys.client, e.connection) ==>
              SentPayload(sys.client, e) == Payload(e.request.input, None, NewSocketGeneration)
    ensures Step(sys, SocketLost).client.lastResponse == None
  {
  }

  /** After a committed response, a next turn that only appends on the same socket sends nothing but
      the appended items and its tail. */
  lemma NextTurnSendsOnlyNews(c: Client, first: Request, payload: Payload, outcome: Outcome, next: Request, news: seq<Item>)
    requires Reliable(outcome)
    requires var c' := Finished(c, first, payload, outcome);
             var b := LocalContinuationBoundary(next.input, next.continuation);
             && b.durable == Baseline(c').value + news && news + b.volatile != [] && b.forceFull == None
             && b.layout == LocalContinuationBoundary(first.input, first.continuation).layout
             && next.signature == first.signature && c'.increments < MAX_SUCCESSFUL_INCREMENTAL_REQUESTS
    ensures var p := PrepareCreatePayload(Finished(c, first, payload, outcome), next, true);
            p.previous == outcome.id && p.sent == news + LocalContinuationBoundary(next.input, next.continuation).volatile
  {
    var c' := Finished(c, first, payload, outcome);
    var b := LocalContinuationBoundary(next.input, next.continuation);
    assert Baseline(c').value <= b.durable;
    assert b.durable[|Baseline(c').value|..] == news;
  }

  /** The caller manages this tail under this layout, or manages none. */
  predicate Manages(continuation: Option<Continuation>, layout: Layout, tail: seq<Item>) {
    match layout
    case None => continuation == None && tail == []
    case Some(kinds) =>
      && continuation.Some? && continuation.value.kinds == kinds && continuation.value.forceFull == None
      && continuation.value.contentCount == |kinds|
      && if kinds == [] then tail == [] else continuation.value.encoded == Some(tail) && tail != []
  }

  lemma ManagedBoundary(durable: seq<Item>, tail: seq<Item>, continuation: Option<Continuation>, layout: Layout)
    requires Manages(continuation, layout, tail)
    ensures LocalContinuationBoundary(durable + tail, continuation) == Boundary(durable, tail, layout, None)
  {
    if tail == [] { assert durable + tail == durable; }
    if continuation.Some? {
      BoundaryExactly(durable + tail, continuation.value);
      if tail != [] { assert EndsInTail(durable + tail, continuation.value, durable, tail); }
    }
  }

  /** End to end: in any run, after a reliable answer to durable items and a tail, a call on the same socket that goes
      on with the answer, some news and its own tail sends the news and that tail, and nothing else. */
  lemma NextTurnContinues(events: seq<Event>, first: Event, second: Event, durable: seq<Item>, news: seq<Item>,
                          tail: seq<Item>, tail2: seq<Item>, layout: Layout)
    requires (forall i | 0 <= i < |events| :: Faithful(events[i])) && Faithful(first)
    requires var sys := Run(INITIAL, events);
      && Sends(sys.client, first) && Committed(first)
      && first.request.input == durable + tail && Manages(first.request.continuation, layout, tail)
    requires var client := Run(INITIAL, events + [first]).client;
      && second.Call? && Reuses(client, second.connection) && client.increments < MAX_SUCCESSFUL_INCREMENTAL_REQUESTS
      && second.request.signature == first.request.signature
      && second.request.input == durable + first.outcome.output.value + news + tail2
      && Manages(second.request.continuation, layout, tail2) && news + tail2 != []
    ensures SentPayload(Run(INITIAL, events + [first]).client, second) == Payload(news + tail2, first.outcome.id, MatchedExactPrefix)
  {
    var sys, output := Run(INITIAL, events), first.outcome.output.value;
    RunKeepsInv([], INITIAL, events);
    assert [] + events == events;
    RequestRebuildsInput(events, sys, first);
    RunOneMore(INITIAL, events, first);
    ManagedBoundary(durable, tail, first.request.continuation, layout);
    ManagedBoundary(durable + output + news, tail2, second.request.continuation, layout);
    hide Inv, LocalContinuationBoundary, Rebuilds, Run;
    AnswerIsContinued(sys, first, second, durable, news, tail, tail2, layout);
  }

  lemma AnswerIsContinued(sys: System, first: Event, second: Event, durable: seq<Item>, news: seq<Item>,
                          tail: seq<Item>, tail2: seq<Item>, layout: Layout)
    requires Sends(sys.client, first) && Resolvable(sys, first) && Committed(first)
    requires BoundaryOf(first.request) == Boundary(durable, tail, layout, None)
    requires second.Call? && BoundaryOf(second.request) == Boundary(durable + first.outcome.output.value + news, tail2, layout, None)
    requires var client := Step(sys, first).client;
      Reuses(client, second.connection) && client.increments < MAX_SUCCESSFUL_INCREMENTAL_REQUESTS
    requires second.request.signature == first.request.signature && news + tail2 != []
    ensures SentPayload(Step(sys, first).client, second) == Payload(news + tail2, first.outcome.id, MatchedExactPrefix)
  {
    hide LocalContinuationBoundary, ServerContext, Resolvable;
    var client, baseline := Step(sys, first).client, durable + first.outcome.output.value;
    assert client == Finished(Connected(sys.client, first.connection), first.request, SentPayload(sys.client, first), first.outcome);
    assert Baseline(client) == Some(baseline);
    assert baseline <= baseline + news && (baseline + news)[|baseline|..] == news;
  }

  lemma {:induction false} RunOneMore(sys: System, events: seq<Event>, e: Event)
    ensures Run(sys, events + [e]) == Step(Run(sys, events), e)
    decreases events
  {
    if events == [] {
      assert [e][1..] == [];
    } else {
      hide Step;
      RunOneMore(Step(sys, events[0]), events[1..], e);
      assert (events + [e])[1..] == events[1..] + [e];
    }
  }
}
