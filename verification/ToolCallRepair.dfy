/** Matching tool responses to tool calls and repairing what is left over
    (backend/capabilities/llmProvider.ts, lines 3121-3236). */
module ToolCallRepair {

  type Id = string
  type Name = string

  /** Ids are trimmed; the empty id stands for a missing or blank one. */
  datatype Part =
    | Call(id: Id, name: Name, args: string)
    | Response(id: Id, name: Name, result: string)
    | Other(text: string)

  datatype Content = Content(role: string, parts: seq<Part>)

  datatype Tracked = Tracked(id: Id, name: Name, contentIndex: nat)

  /** State of one pass: calls seen so far, which of them are closed, and who waits for a response. */
  datatype Scan = Scan(calls: seq<Tracked>, closed: set<nat>, byId: map<Id, nat>, byName: map<Name, seq<nat>>)

  datatype Repair = Repair(contents: seq<Content>, orphanResponseCount: nat, fallbackResponseCount: nat)

  const FRESH := Scan([], {}, map[], map[])

  const FALLBACK_RESULT := "interrupted"

  function OrphanText(response: Part): Part
    requires response.Response?
  {
    Other("name: " + response.name + (if response.id != "" then "\ncallId: " + response.id else "") + "\nresponse: " + response.result)
  }

  function Fallback(call: Tracked): Part {
    Response(call.id, call.name, FALLBACK_RESULT)
  }

  // ----- one pass

  function Queue(s: Scan, name: Name): seq<nat> {
    if name in s.byName then s.byName[name] else []
  }

  function WithQueue(s: Scan, name: Name, queue: seq<nat>): Scan {
    if queue == [] then s.(byName := s.byName - {name}) else s.(byName := s.byName[name := queue])
  }

  function AddCall(s: Scan, contentIndex: nat, call: Part): Scan
    requires call.Call?
  {
    var index := |s.calls|;
    var s' := s.(calls := s.calls + [Tracked(call.id, call.name, contentIndex)]);
    if call.id != "" then s'.(byId := s.byId[call.id := index]) else WithQueue(s', call.name, Queue(s, call.name) + [index])
  }

  predicate Matches(s: Scan, response: Part)
    requires response.Response?
  {
    (response.id != "" && response.id in s.byId) || Queue(s, response.name) != []
  }

  /** The call a response closes: by id first, else the oldest waiting call of that name. */
  function Matched(s: Scan, response: Part): nat
    requires response.Response? && Matches(s, response)
  {
    if response.id != "" && response.id in s.byId then s.byId[response.id] else Queue(s, response.name)[0]
  }

  function Consume(s: Scan, response: Part): Scan
    requires response.Response? && Matches(s, response)
  {
    var s' := s.(closed := s.closed + {Matched(s, response)});
    if response.id != "" && response.id in s.byId then s'.(byId := s.byId - {response.id})
    else WithQueue(s', response.name, Queue(s, response.name)[1..])
  }

  function ScanPart(s: Scan, contentIndex: nat, part: Part): Scan {
    match part
    case Call(_, _, _) => AddCall(s, contentIndex, part)
    case Response(_, _, _) => if Matches(s, part) then Consume(s, part) else s
    case Other(_) => s
  }

  function Normalized(s: Scan, part: Part): Part {
    if IsOrphan(s, part) then OrphanText(part) else part
  }

  function ScanParts(s: Scan, contentIndex: nat, parts: seq<Part>): Scan
    decreases parts
  {
    if parts == [] then s else ScanParts(ScanPart(s, contentIndex, parts[0]), contentIndex, parts[1..])
  }

  function NormalizedParts(s: Scan, contentIndex: nat, parts: seq<Part>): seq<Part>
    decreases parts
  {
    if parts == [] then []
    else [Normalized(s, parts[0])] + NormalizedParts(ScanPart(s, contentIndex, parts[0]), contentIndex, parts[1..])
  }

  function ScanContents(s: Scan, first: nat, contents: seq<Content>): Scan
    decreases contents
  {
    if contents == [] then s else ScanContents(ScanParts(s, first, contents[0].parts), first + 1, contents[1..])
  }

  function NormalizedContents(s: Scan, first: nat, contents: seq<Content>): seq<Content>
    decreases contents
  {
    if contents == [] then []
    else [Content(contents[0].role, NormalizedParts(s, first, contents[0].parts))]
         + NormalizedContents(ScanParts(s, first, contents[0].parts), first + 1, contents[1..])
  }

  predicate IsOrphan(s: Scan, part: Part) {
    part.Response? && !Matches(s, part)
  }

  function OrphansInParts(s: Scan, contentIndex: nat, parts: seq<Part>): nat
    decreases parts
  {
    if parts == [] then 0
    else (if IsOrphan(s, parts[0]) then 1 else 0) + OrphansInParts(ScanPart(s, contentIndex, parts[0]), contentIndex, parts[1..])
  }

  function Orphans(s: Scan, first: nat, contents: seq<Content>): nat
    decreases contents
  {
    if contents == [] then 0
    else OrphansInParts(s, first, contents[0].parts) + Orphans(ScanParts(s, first, contents[0].parts), first + 1, contents[1..])
  }

  // ----- the repair

  /** Fallback responses for the open calls of one content, from call i on. */
  function FallbacksFrom(final: Scan, contentIndex: nat, i: nat): seq<Part>
    requires i <= |final.calls|
    decreases |final.calls| - i
  {
    if i == |final.calls| then []
    else (if i !in final.closed && final.calls[i].contentIndex == contentIndex then [Fallback(final.calls[i])] else [])
         + FallbacksFrom(final, contentIndex, i + 1)
  }

  /** After each content, one user message with the fallbacks of its open calls, if there are any. */
  function WithFallbacks(final: Scan, first: nat, contents: seq<Content>): seq<Content>
    decreases contents
  {
    if contents == [] then []
    else
      var fallbacks := FallbacksFrom(final, first, 0);
      [contents[0]] + (if fallbacks == [] then [] else [Content("user", fallbacks)]) + WithFallbacks(final, first + 1, contents[1..])
  }

  function FallbackCount(final: Scan, first: nat, contents: seq<Content>): nat
    decreases contents
  {
    if contents == [] then 0
    else |FallbacksFrom(final, first, 0)| + FallbackCount(final, first + 1, contents[1..])
  }

  function Normalize(contents: seq<Content>): Repair {
    var final := ScanContents(FRESH, 0, contents);
    Repair(WithFallbacks(final, 0, NormalizedContents(FRESH, 0, contents)), Orphans(FRESH, 0, contents), FallbackCount(final, 0, contents))
  }

  /** Provider boundaries accept a context only when nothing in it needs repair. */
  predicate IsCanonical(contents: seq<Content>) {
    Normalize(contents).orphanResponseCount == 0 && Normalize(contents).fallbackResponseCount == 0
  }

  // ----- what a pass keeps

  predicate IsWaiting(s: Scan, i: nat) {
    i < |s.calls| && if s.calls[i].id != "" then s.calls[i].id in s.byId && s.byId[s.calls[i].id] == i
                     else i in Queue(s, s.calls[i].name)
  }

  predicate ValidId(s: Scan, x: Id) {
    x in s.byId ==> x != "" && s.byId[x] < |s.calls| && s.calls[s.byId[x]].id == x && s.byId[x] !in s.closed
  }

  predicate ValidQueue(s: Scan, name: Name) {
    Queues(s, Queue(s, name), name)
  }

  ghost predicate Valid(s: Scan) {
    && (forall i | i in s.closed :: i < |s.calls|)
    && (forall x :: ValidId(s, x))
    && (forall n :: ValidQueue(s, n))
  }

  /** An open call that no response can reach any more. */
  predicate Lost(s: Scan, i: nat) {
    i < |s.calls| && i !in s.closed && !IsWaiting(s, i)
  }

  lemma QueuesAfterCall(s: Scan, contentIndex: nat, call: Part)
    requires call.Call?
    ensures forall n :: Queue(AddCall(s, contentIndex, call), n)
                     == if call.id == "" && n == call.name then Queue(s, n) + [|s.calls|] else Queue(s, n)
  {
  }

  lemma QueuesAfterResponse(s: Scan, response: Part)
    requires response.Response? && Matches(s, response)
    ensures forall n :: Queue(Consume(s, response), n)
                     == if !(response.id != "" && response.id in s.byId) && n == response.name then Queue(s, n)[1..] else Queue(s, n)
  {
  }

  lemma CallKeepsValid(s: Scan, contentIndex: nat, call: Part)
    requires Valid(s) && call.Call?
    ensures Valid(AddCall(s, contentIndex, call))
  {
    var s' := AddCall(s, contentIndex, call);
    QueuesAfterCall(s, contentIndex, call);
    hide Queue;
    forall x ensures ValidId(s', x) {
      assert ValidId(s, x);
    }
    hide WithQueue, ValidId, ValidQueue, AddCall;
    forall n ensures ValidQueue(s', n) {
      CallKeepsQueue(s, contentIndex, call, n);
    }
    ClosedAreCalls(s, contentIndex, call);
  }

  lemma ClosedAreCalls(s: Scan, contentIndex: nat, call: Part)
    requires call.Call? && forall i | i in s.closed :: i < |s.calls|
    ensures var s' := AddCall(s, contentIndex, call); forall i | i in s'.closed :: i < |s'.calls|
  {}

  lemma CallKeepsQueue(s: Scan, contentIndex: nat, call: Part, name: Name)
    requires ValidQueue(s, name) && call.Call? && forall i | i in s.closed :: i < |s.calls|
    ensures ValidQueue(AddCall(s, contentIndex, call), name)
  {
    QueuesAfterCall(s, contentIndex, call);
    CallIsAdded(s, contentIndex, call);
    hide Queue, AddCall;
    var s' := AddCall(s, contentIndex, call);
    if call.id == "" && name == call.name {
      QueueLonger(s, s', Queue(s, name), name);
    } else {
      QueueOver(s, s', Queue(s, name), name);
    }
  }

  /** Every call in the list is open, nameless and of this name, and they stand in the order they came. */
  predicate Queues(s: Scan, queue: seq<nat>, name: Name) {
    && (forall k | 0 <= k < |queue| ::
          queue[k] < |s.calls| && s.calls[queue[k]].id == "" && s.calls[queue[k]].name == name && queue[k] !in s.closed)
    && (forall k, m | 0 <= k < m < |queue| :: queue[k] < queue[m])
  }

  lemma QueueOver(s: Scan, s': Scan, queue: seq<nat>, name: Name)
    requires Queues(s, queue, name) && s.calls <= s'.calls && s'.closed == s.closed
    ensures Queues(s', queue, name)
  {}

  lemma QueueLonger(s: Scan, s': Scan, queue: seq<nat>, name: Name)
    requires Queues(s, queue, name) && s.calls <= s'.calls && |s'.calls| == |s.calls| + 1 && s'.closed == s.closed && |s.calls| !in s.closed
    requires s'.calls[|s.calls|].id == "" && s'.calls[|s.calls|].name == name
    ensures Queues(s', queue + [|s.calls|], name)
  {
    QueueOver(s, s', queue, name);
    var longer := queue + [|s.calls|];
    forall k, m | 0 <= k < m < |longer| ensures longer[k] < longer[m] {
      assert longer[k] == queue[k];
      if m < |queue| { assert longer[m] == queue[m]; }
    }
  }

  lemma CallIsAdded(s: Scan, contentIndex: nat, call: Part)
    requires call.Call?
    ensures var s' := AddCall(s, contentIndex, call);
      s'.calls == s.calls + [Tracked(call.id, call.name, contentIndex)] && s'.closed == s.closed
  {}

  lemma ResponseKeepsValid(s: Scan, response: Part)
    requires Valid(s) && response.Response? && Matches(s, response)
    ensures Valid(Consume(s, response))
  {
    assert ValidId(s, response.id) && ValidQueue(s, response.name);
    forall x ensures ValidId(Consume(s, response), x) {
      assert ValidId(s, x);
    }
    forall n ensures ValidQueue(Consume(s, response), n) {
      ResponseKeepsQueue(s, response, n);
    }
  }

  lemma ResponseKeepsQueue(s: Scan, response: Part, name: Name)
    requires Valid(s) && response.Response? && Matches(s, response)
    ensures ValidQueue(Consume(s, response), name)
  {
    QueuesAfterResponse(s, response);
    assert ValidId(s, response.id) && ValidQueue(s, response.name) && ValidQueue(s, name);
    var s', h := Consume(s, response), Matched(s, response);
    var byId := response.id != "" && response.id in s.byId;
    assert s'.calls == s.calls && s'.closed == s.closed + {h};
    hide Valid, ValidId, Consume, Matched, Matches;
    if byId {
      assert s.calls[h].id != "";
      QueueKept(s, s', h, name);
    } else if name == response.name {
      QueueShortened(s, s', h, name);
    } else {
      assert s.calls[h].name == response.name;
      QueueKept(s, s', h, name);
    }
  }

  /** Closing a call that is not in the queue leaves the queue valid. */
  lemma QueueKept(s: Scan, s': Scan, h: nat, name: Name)
    requires ValidQueue(s, name) && s'.calls == s.calls && s'.closed == s.closed + {h} && Queue(s', name) == Queue(s, name)
    requires h < |s.calls| ==> s.calls[h].id != "" || s.calls[h].name != name
    ensures ValidQueue(s', name)
  {
    hide Queue;
  }

  /** Closing the head of the queue and taking it off leaves the rest valid. */
  lemma QueueShortened(s: Scan, s': Scan, h: nat, name: Name)
    requires ValidQueue(s, name) && s'.calls == s.calls && s'.closed == s.closed + {h}
    requires Queue(s, name) != [] && h == Queue(s, name)[0] && Queue(s', name) == Queue(s, name)[1..]
    ensures ValidQueue(s', name)
  {
    hide Queue;
    var queue := Queue(s, name);
    assert forall k | 0 <= k < |queue| - 1 :: queue[1..][k] == queue[k + 1] > queue[0];
  }

  lemma PartKeepsValid(s: Scan, contentIndex: nat, part: Part)
    requires Valid(s)
    ensures var s' := ScanPart(s, contentIndex, part);
            && Valid(s') && s.closed <= s'.closed && |s.calls| <= |s'.calls|
            && (forall i | 0 <= i < |s.calls| :: s'.calls[i] == s.calls[i])
            && (forall i | Lost(s, i) :: Lost(s', i))
  {
    if part.Call? {
      CallKeepsValid(s, contentIndex, part);
      QueuesAfterCall(s, contentIndex, part);
    } else if part.Response? && Matches(s, part) {
      ResponseKeepsValid(s, part);
      QueuesAfterResponse(s, part);
      var h := Matched(s, part);
      assert ValidId(s, part.id) && ValidQueue(s, part.name);
      assert IsWaiting(s, h);
      assert ScanPart(s, contentIndex, part) == Consume(s, part);
    }
  }

  lemma {:induction false} PartsKeepValid(s: Scan, contentIndex: nat, parts: seq<Part>)
    requires Valid(s)
    ensures var s' := ScanParts(s, contentIndex, parts);
            && Valid(s') && s.closed <= s'.closed && |s.calls| <= |s'.calls|
            && (forall i | 0 <= i < |s.calls| :: s'.calls[i] == s.calls[i])
            && (forall i | Lost(s, i) :: Lost(s', i))
    decreases parts
  {
    hide Valid, ScanPart, Lost;
    if parts != [] {
      PartKeepsValid(s, contentIndex, parts[0]);
      PartsKeepValid(ScanPart(s, contentIndex, parts[0]), contentIndex, parts[1..]);
    }
  }

  lemma {:induction false} ContentsKeepValid(s: Scan, first: nat, contents: seq<Content>)
    requires Valid(s)
    ensures var s' := ScanContents(s, first, contents);
            && Valid(s') && s.closed <= s'.closed && |s.calls| <= |s'.calls|
            && (forall i | 0 <= i < |s.calls| :: s'.calls[i] == s.calls[i])
            && (forall i | Lost(s, i) :: Lost(s', i))
    decreases contents
  {
    hide Valid, ScanParts, Lost;
    if contents != [] {
      PartsKeepValid(s, first, contents[0].parts);
      ContentsKeepValid(ScanParts(s, first, contents[0].parts), first + 1, contents[1..]);
    }
  }

  // ----- the second pass against the first

  /** Elements of a queue that are not in the set. */
  function CountOutside(queue: seq<nat>, answered: set<nat>): nat {
    if queue == [] then 0 else (if queue[0] in answered then 0 else 1) + CountOutside(queue[1..], answered)
  }

  lemma {:induction false} CountAppend(queue: seq<nat>, i: nat, answered: set<nat>)
    ensures CountOutside(queue + [i], answered) == CountOutside(queue, answered) + if i in answered then 0 else 1
  {
    if queue == [] {
      assert queue + [i] == [i];
    } else {
      assert (queue + [i])[1..] == queue[1..] + [i];
      CountAppend(queue[1..], i, answered);
    }
  }

  /** Answering one more call takes it out of the count once. */
  lemma {:induction false} CountAnswered(queue: seq<nat>, answered: set<nat>, c: nat)
    requires forall k, m | 0 <= k < m < |queue| :: queue[k] < queue[m]
    requires c !in answered
    ensures CountOutside(queue, answered + {c}) == CountOutside(queue, answered) - if c in queue then 1 else 0
  {
    if queue != [] {
      CountAnswered(queue[1..], answered, c);
      assert c in queue <==> c == queue[0] || c in queue[1..];
    }
  }

  ghost predicate FollowsId(s: Scan, t: Scan, answered: set<nat>, x: Id) {
    && (x in t.byId <==> x in s.byId && s.byId[x] !in answered)
    && (x in t.byId ==> t.byId[x] == s.byId[x])
  }

  predicate FollowsQueue(s: Scan, t: Scan, answered: set<nat>, name: Name) {
    |Queue(t, name)| == CountOutside(Queue(s, name), answered)
  }

  /** The second pass t has seen the calls the first pass s has seen, and the calls in `answered` have
      been closed by fallbacks only the second pass sees. */
  ghost predicate Follows(s: Scan, t: Scan, answered: set<nat>) {
    && |t.calls| == |s.calls|
    && (forall i | 0 <= i < |s.calls| :: t.calls[i].id == s.calls[i].id && t.calls[i].name == s.calls[i].name)
    && (forall x :: FollowsId(s, t, answered, x))
    && (forall n :: FollowsQueue(s, t, answered, n))
  }

  /** A pass in good order: every open call can still be reached. */
  ghost predicate Healthy(t: Scan) {
    Valid(t) && forall i: nat :: !Lost(t, i)
  }

  lemma CallFollows(s: Scan, t: Scan, answered: set<nat>, ci: nat, cj: nat, call: Part)
    requires Follows(s, t, answered) && call.Call? && |s.calls| !in answered
    ensures Follows(AddCall(s, ci, call), AddCall(t, cj, call), answered)
  {
    forall x ensures FollowsId(AddCall(s, ci, call), AddCall(t, cj, call), answered, x) {
      assert FollowsId(s, t, answered, x);
    }
    forall n ensures FollowsQueue(AddCall(s, ci, call), AddCall(t, cj, call), answered, n) {
      CallFollowsQueue(s, t, answered, ci, cj, call, n);
    }
  }

  lemma CallFollowsQueue(s: Scan, t: Scan, answered: set<nat>, ci: nat, cj: nat, call: Part, name: Name)
    requires FollowsQueue(s, t, answered, name) && call.Call? && |s.calls| !in answered
    ensures FollowsQueue(AddCall(s, ci, call), AddCall(t, cj, call), answered, name)
  {
    QueuesAfterCall(s, ci, call);
    QueuesAfterCall(t, cj, call);
    hide Queue, AddCall;
    CountAppend(Queue(s, name), |s.calls|, answered);
  }

  /** A call can push aside only the open call that held its id. */
  lemma CallLoses(s: Scan, ci: nat, call: Part, c: nat)
    requires call.Call? && Lost(AddCall(s, ci, call), c)
    ensures Lost(s, c) || (call.id != "" && call.id in s.byId && s.byId[call.id] == c)
  {
    QueuesAfterCall(s, ci, call);
  }

  /** A response takes nobody but its match out of the waiting calls. */
  lemma ResponseKeepsOthers(s: Scan, response: Part, c: nat)
    requires Valid(s) && response.Response? && Matches(s, response) && IsWaiting(s, c) && c != Matched(s, response)
    ensures IsWaiting(Consume(s, response), c)
  {
    QueuesAfterResponse(s, response);
    assert ValidId(s, response.id) && ValidQueue(s, response.name);
    if s.calls[c].id == "" {
      var queue := Queue(s, s.calls[c].name);
      assert c == queue[0] || c in queue[1..];
    }
  }

  lemma ResponseLoses(s: Scan, response: Part, c: nat)
    requires Valid(s) && response.Response? && Matches(s, response) && Lost(Consume(s, response), c)
    ensures Lost(s, c)
  {
    if IsWaiting(s, c) { ResponseKeepsOthers(s, response, c); }
  }

  lemma CallKeepsHealthy(t: Scan, cj: nat, call: Part)
    requires Healthy(t) && call.Call? && (call.id != "" ==> call.id !in t.byId)
    ensures Healthy(AddCall(t, cj, call))
  {
    CallKeepsValid(t, cj, call);
    forall i: nat ensures !Lost(AddCall(t, cj, call), i) {
      if Lost(AddCall(t, cj, call), i) { CallLoses(t, cj, call, i); }
    }
  }

  lemma ResponseKeepsHealthy(t: Scan, response: Part)
    requires Healthy(t) && response.Response? && Matches(t, response)
    ensures Healthy(Consume(t, response))
  {
    ResponseKeepsValid(t, response);
    forall i: nat ensures !Lost(Consume(t, response), i) {
      if Lost(Consume(t, response), i) { ResponseLoses(t, response, i); }
    }
  }

  lemma ResponseFollows(s: Scan, t: Scan, answered: set<nat>, response: Part)
    requires Follows(s, t, answered) && response.Response? && Matches(s, response) && Matched(s, response) !in answered
    requires Valid(s)
    ensures Matches(t, response)
    ensures Follows(Consume(s, response), Consume(t, response), answered)
  {
    assert FollowsId(s, t, answered, response.id) && FollowsQueue(s, t, answered, response.name);
    var s', t' := Consume(s, response), Consume(t, response);
    QueuesAfterResponse(s, response);
    QueuesAfterResponse(t, response);
    forall x ensures FollowsId(s', t', answered, x) { assert FollowsId(s, t, answered, x); }
    hide Queue, WithQueue;
    forall n ensures FollowsQueue(s', t', answered, n) { assert FollowsQueue(s, t, answered, n); }
  }

  /** A fallback closes some waiting call of the second pass; what is left corresponds again. */
  lemma FallbackFollows(s: Scan, t: Scan, answered: set<nat>, c: nat)
    requires Valid(s) && Follows(s, t, answered) && IsWaiting(s, c) && c !in answered
    ensures Matches(t, Fallback(s.calls[c]))
    ensures Follows(s, Consume(t, Fallback(s.calls[c])), answered + {c})
  {
    var response := Fallback(s.calls[c]);
    assert FollowsId(s, t, answered, response.id) && FollowsQueue(s, t, answered, response.name);
    assert ValidQueue(s, response.name);
    CountAnswered(Queue(s, response.name), answered, c);
    var t' := Consume(t, response);
    QueuesAfterResponse(t, response);
    forall x ensures FollowsId(s, t', answered + {c}, x) {
      assert FollowsId(s, t, answered, x) && ValidId(s, x);
    }
    hide Queue, WithQueue;
    forall n ensures FollowsQueue(s, t', answered + {c}, n) {
      assert FollowsQueue(s, t, answered, n) && ValidQueue(s, n);
      CountAnswered(Queue(s, n), answered, c);
    }
  }

  // ----- one content

  /** No call of the content takes an id that an earlier call of it still holds unanswered. */
  predicate AnsweredBeforeReuse(open: set<Id>, parts: seq<Part>)
    decreases parts
  {
    parts == [] ||
    match parts[0]
    case Call(id, _, _) => if id == "" then AnsweredBeforeReuse(open, parts[1..])
                           else id !in open && AnsweredBeforeReuse(open + {id}, parts[1..])
    case Response(id, _, _) => AnsweredBeforeReuse(open - {id}, parts[1..])
    case Other(_) => AnsweredBeforeReuse(open, parts[1..])
  }

  /** What a pass holds in the middle of content `ci`, whose calls start at index `start`. `closed` is
      the set of calls that will have been closed when the whole pass ends. */
  ghost predicate MidContent(s: Scan, t: Scan, start: nat, open: set<Id>, answered: set<nat>, closed: set<nat>) {
    && Valid(s) && Healthy(t) && Follows(s, t, answered)
    && start <= |s.calls|
    && (forall c | c in answered :: c < start && c !in closed)
    && (forall c | 0 <= c < start && c !in answered :: c in closed)
    && (forall x | x in s.byId && s.byId[x] >= start :: x in open)
    && (forall c | start <= c < |s.calls| :: !Lost(s, c))
  }

  lemma CallPushesAside(s: Scan, ci: nat, call: Part)
    requires Valid(s) && call.Call? && call.id != "" && call.id in s.byId
    ensures Lost(AddCall(s, ci, call), s.byId[call.id])
  {
    assert ValidId(s, call.id);
  }

  /** One part, in both passes. */
  lemma PartMidContent(s: Scan, t: Scan, start: nat, open: set<Id>, answered: set<nat>, closed: set<nat>,
                       ci: nat, cj: nat, part: Part)
    requires MidContent(s, t, start, open, answered, closed)
    requires AnsweredBeforeReuse(open, [part])
    requires ScanPart(s, ci, part).closed <= closed
    requires forall c | Lost(ScanPart(s, ci, part), c) :: c !in closed
    ensures var open' := if part.Call? && part.id != "" then open + {part.id} else if part.Response? then open - {part.id} else open;
            MidContent(ScanPart(s, ci, part), ScanPart(t, cj, Normalized(s, part)), start, open', answered, closed)
  {
    PartKeepsValid(s, ci, part);
    var s' := ScanPart(s, ci, part);
    assert forall x | x in s.byId :: ValidId(s, x);
    if part.Call? {
      assert [part][1..] == [];
      if part.id != "" && part.id in t.byId {
        assert FollowsId(s, t, answered, part.id);
        CallPushesAside(s, ci, part);
        assert false;
      }
      CallFollows(s, t, answered, ci, cj, part);
      CallKeepsHealthy(t, cj, part);
      forall c | start <= c < |s'.calls| ensures !Lost(s', c) {
        if Lost(s', c) { CallLoses(s, ci, part, c); }
      }
    } else if part.Response? && Matches(s, part) {
      ResponseFollows(s, t, answered, part);
      ResponseKeepsHealthy(t, part);
      forall c | start <= c < |s'.calls| ensures !Lost(s', c) {
        if Lost(s', c) { ResponseLoses(s, part, c); }
      }
    }
  }

  lemma {:induction false} PartsMidContent(s: Scan, t: Scan, start: nat, open: set<Id>, answered: set<nat>, closed: set<nat>,
                                           ci: nat, cj: nat, parts: seq<Part>)
    requires MidContent(s, t, start, open, answered, closed)
    requires AnsweredBeforeReuse(open, parts)
    requires ScanParts(s, ci, parts).closed <= closed
    requires forall c | Lost(ScanParts(s, ci, parts), c) :: c !in closed
    ensures exists open' :: MidContent(ScanParts(s, ci, parts), ScanParts(t, cj, NormalizedParts(s, ci, parts)), start, open', answered, closed)
    ensures OrphansInParts(t, cj, NormalizedParts(s, ci, parts)) == 0
    decreases parts
  {
    if parts == [] {
      assert MidContent(ScanParts(s, ci, parts), ScanParts(t, cj, NormalizedParts(s, ci, parts)), start, open, answered, closed);
    } else {
      var part, rest := parts[0], parts[1..];
      var s', t' := ScanPart(s, ci, part), ScanPart(t, cj, Normalized(s, part));
      assert Valid(s);
      PartKeepsValid(s, ci, part);
      PartsKeepValid(s', ci, rest);
      assert [part][1..] == [];
      PartMidContent(s, t, start, open, answered, closed, ci, cj, part);
      PartNotOrphaned(s, t, start, open, answered, closed, ci, part);
      var open' := if part.Call? && part.id != "" then open + {part.id} else if part.Response? then open - {part.id} else open;
      hide MidContent, Lost, Valid, ScanPart, Matches, Normalized;
      PartsMidContent(s', t', start, open', answered, closed, ci, cj, rest);
      var out := NormalizedParts(s, ci, parts);
      assert out[0] == Normalized(s, part) && out[1..] == NormalizedParts(s', ci, rest);
      var end :| MidContent(ScanParts(s', ci, rest), ScanParts(t', cj, NormalizedParts(s', ci, rest)), start, end, answered, closed);
      assert MidContent(ScanParts(s, ci, parts), ScanParts(t, cj, out), start, end, answered, closed);
    }
  }

  /** What the first pass keeps as a response has a match in the second pass. */
  lemma PartNotOrphaned(s: Scan, t: Scan, start: nat, open: set<Id>, answered: set<nat>, closed: set<nat>, ci: nat, part: Part)
    requires MidContent(s, t, start, open, answered, closed)
    requires ScanPart(s, ci, part).closed <= closed
    ensures !IsOrphan(t, Normalized(s, part))
  {
    if part.Response? && Matches(s, part) {
      ResponseFollows(s, t, answered, part);
    }
  }

  // ----- the fallbacks of one content

  ghost function Open(final: Scan, n: nat): set<nat> {
    set i | 0 <= i < n && i !in final.closed
  }

  lemma {:induction false} NoFallbacks(final: Scan, ci: nat, i: nat)
    requires i <= |final.calls|
    requires forall c | i <= c < |final.calls| :: final.calls[c].contentIndex != ci || c in final.closed
    ensures FallbacksFrom(final, ci, i) == []
    decreases |final.calls| - i
  {
    if i < |final.calls| { NoFallbacks(final, ci, i + 1); }
  }

  lemma {:induction false} SkipCalls(final: Scan, ci: nat, i: nat, n: nat)
    requires i <= n <= |final.calls| && forall c | i <= c < n :: final.calls[c].contentIndex != ci
    ensures FallbacksFrom(final, ci, i) == FallbacksFrom(final, ci, n)
    decreases n - i
  {
    if i < n { SkipCalls(final, ci, i + 1, n); }
  }

  lemma {:induction false} FallbacksFollow(s: Scan, t: Scan, final: Scan, ci: nat, cj: nat, i: nat)
    requires i <= |s.calls| <= |final.calls| && s.calls == final.calls[..|s.calls|]
    requires Valid(s) && Healthy(t) && Follows(s, t, Open(final, i))
    requires forall c | i <= c < |s.calls| :: s.calls[c].contentIndex == ci && (c !in final.closed ==> IsWaiting(s, c))
    requires forall c | |s.calls| <= c < |final.calls| :: final.calls[c].contentIndex != ci
    ensures var fallbacks := FallbacksFrom(final, ci, i); var t' := ScanParts(t, cj, fallbacks);
            Healthy(t') && Follows(s, t', Open(final, |s.calls|)) && OrphansInParts(t, cj, fallbacks) == 0
    decreases |s.calls| - i
  {
    hide Valid, Healthy, Follows, IsWaiting, Matches, Consume;
    if i == |s.calls| {
      NoFallbacks(final, ci, i);
    } else {
      assert s.calls[i] == final.calls[i];
      if i in final.closed {
        assert Open(final, i + 1) == Open(final, i);
        FallbacksFollow(s, t, final, ci, cj, i + 1);
        assert FallbacksFrom(final, ci, i) == FallbacksFrom(final, ci, i + 1);
      } else {
        var response := Fallback(final.calls[i]);
        assert i !in Open(final, i) && Open(final, i + 1) == Open(final, i) + {i};
        FallbackFollows(s, t, Open(final, i), i);
        ResponseKeepsHealthy(t, response);
        FallbacksFollow(s, Consume(t, response), final, ci, cj, i + 1);
        var fallbacks := FallbacksFrom(final, ci, i);
        assert fallbacks[0] == response && fallbacks[1..] == FallbacksFrom(final, ci, i + 1);
      }
    }
  }

  // ----- all contents

  lemma {:induction false} CallsOfParts(s: Scan, ci: nat, parts: seq<Part>)
    ensures var s' := ScanParts(s, ci, parts);
            |s.calls| <= |s'.calls| && s.calls == s'.calls[..|s.calls|]
            && forall c | |s.calls| <= c < |s'.calls| :: s'.calls[c].contentIndex == ci
    decreases parts
  {
    if parts != [] {
      CallsOfParts(ScanPart(s, ci, parts[0]), ci, parts[1..]);
    }
  }

  lemma {:induction false} CallsOfContents(s: Scan, first: nat, contents: seq<Content>)
    ensures var s' := ScanContents(s, first, contents);
            |s.calls| <= |s'.calls| && s.calls == s'.calls[..|s.calls|]
            && forall c | |s.calls| <= c < |s'.calls| :: first <= s'.calls[c].contentIndex < first + |contents|
    decreases contents
  {
    if contents != [] {
      hide ScanParts;
      CallsOfParts(s, first, contents[0].parts);
      CallsOfContents(ScanParts(s, first, contents[0].parts), first + 1, contents[1..]);
    }
  }

  lemma ScanCons(t: Scan, cj: nat, content: Content, rest: seq<Content>)
    ensures ScanContents(t, cj, [content] + rest) == ScanContents(ScanParts(t, cj, content.parts), cj + 1, rest)
    ensures Orphans(t, cj, [content] + rest)
         == OrphansInParts(t, cj, content.parts) + Orphans(ScanParts(t, cj, content.parts), cj + 1, rest)
  {
    assert ([content] + rest)[1..] == rest;
  }

  /** One content of the first pass, and the content with its fallback message in the second. */
  lemma ContentFollows(s: Scan, t: Scan, final: Scan, first: nat, cj: nat, parts: seq<Part>)
    requires Valid(s) && Healthy(t) && Follows(s, t, Open(final, |s.calls|))
    requires forall c | 0 <= c < |s.calls| :: s.calls[c].contentIndex < first
    requires AnsweredBeforeReuse({}, parts)
    requires var s' := ScanParts(s, first, parts);
             && |s'.calls| <= |final.calls| && s'.calls == final.calls[..|s'.calls|] && s'.closed <= final.closed
             && (forall c | Lost(s', c) :: c !in final.closed)
             && (forall c | |s'.calls| <= c < |final.calls| :: final.calls[c].contentIndex > first)
    ensures var s', out, fallbacks := ScanParts(s, first, parts), NormalizedParts(s, first, parts), FallbacksFrom(final, first, 0);
            var t1 := ScanParts(t, cj, out); var t2 := ScanParts(t1, cj + 1, fallbacks);
            && OrphansInParts(t, cj, out) == 0 && OrphansInParts(t1, cj + 1, fallbacks) == 0
            && Valid(s') && Healthy(t2) && Follows(s', t2, Open(final, |s'.calls|))
  {
    hide ScanPart, Matches, Normalized, Queue;
    var s' := ScanParts(s, first, parts);
    var start := |s.calls|;
    assert forall x | x in s.byId :: ValidId(s, x);
    assert MidContent(s, t, start, {}, Open(final, start), final.closed);
    PartsMidContent(s, t, start, {}, Open(final, start), final.closed, first, cj, parts);
    var t' := ScanParts(t, cj, NormalizedParts(s, first, parts));
    var open :| MidContent(s', t', start, open, Open(final, start), final.closed);
    CallsOfParts(s, first, parts);
    forall c | start <= c < |s'.calls| && c !in final.closed ensures IsWaiting(s', c) {
      assert !Lost(s', c);
    }
    SkipCalls(final, first, 0, start);
    FallbacksFollow(s', t', final, first, cj + 1, start);
  }

  lemma {:induction false} ContentsFollow(s: Scan, t: Scan, final: Scan, first: nat, cj: nat, contents: seq<Content>)
    requires Valid(s) && Healthy(t) && Follows(s, t, Open(final, |s.calls|))
    requires forall c | 0 <= c < |s.calls| :: s.calls[c].contentIndex < first
    requires forall k | 0 <= k < |contents| :: AnsweredBeforeReuse({}, contents[k].parts)
    requires final == ScanContents(s, first, contents)
    ensures var out := WithFallbacks(final, first, NormalizedContents(s, first, contents));
            Orphans(t, cj, out) == 0 && Healthy(ScanContents(t, cj, out))
            && Follows(final, ScanContents(t, cj, out), Open(final, |final.calls|))
    decreases contents
  {
    if contents != [] {
      var parts, rest := contents[0].parts, contents[1..];
      var s' := ScanParts(s, first, parts);
      PartsKeepValid(s, first, parts);
      ContentsKeepValid(s', first + 1, rest);
      CallsOfParts(s, first, parts);
      CallsOfContents(s', first + 1, rest);
      assert forall c | 0 <= c < |s'.calls| :: s'.calls[c].contentIndex < first + 1;
      ContentFollows(s, t, final, first, cj, parts);
      var content := Content(contents[0].role, NormalizedParts(s, first, parts));
      var fallbacks := FallbacksFrom(final, first, 0);
      var tail := WithFallbacks(final, first + 1, NormalizedContents(s', first + 1, rest));
      hide Valid, Healthy, Follows, ScanParts, NormalizedParts, OrphansInParts, Lost, Open;
      var t1 := ScanParts(t, cj, content.parts);
      NormalizedCons(s, final, first, contents);
      if fallbacks == [] {
        NothingScanned(t1, cj + 1);
        ContentsFollow(s', t1, final, first + 1, cj + 1, rest);
        ScanCons(t, cj, content, tail);
      } else {
        var message := Content("user", fallbacks);
        ContentsFollow(s', ScanParts(t1, cj + 1, fallbacks), final, first + 1, cj + 2, rest);
        ScanCons(t1, cj + 1, message, tail);
        ScanCons(t, cj, content, [message] + tail);
      }
    }
  }

  lemma NothingScanned(t: Scan, cj: nat)
    ensures ScanParts(t, cj, []) == t
  {
  }

  lemma NormalizedCons(s: Scan, final: Scan, first: nat, contents: seq<Content>)
    requires contents != []
    ensures var content := Content(contents[0].role, NormalizedParts(s, first, contents[0].parts));
            var fallbacks := FallbacksFrom(final, first, 0);
            var tail := WithFallbacks(final, first + 1, NormalizedContents(ScanParts(s, first, contents[0].parts), first + 1, contents[1..]));
            WithFallbacks(final, first, NormalizedContents(s, first, contents))
              == [content] + if fallbacks == [] then tail else [Content("user", fallbacks)] + tail
  {
    hide ScanParts, NormalizedParts, FallbacksFrom;
    var all := NormalizedContents(s, first, contents);
    assert all[1..] == NormalizedContents(ScanParts(s, first, contents[0].parts), first + 1, contents[1..]);
  }

  lemma {:induction false} NoneOutside(queue: seq<nat>, answered: set<nat>)
    requires forall k | 0 <= k < |queue| :: queue[k] in answered
    ensures CountOutside(queue, answered) == 0
  {
    if queue != [] { NoneOutside(queue[1..], answered); }
  }

  /** When all open calls of the first pass have been answered, the second pass leaves none open. */
  lemma NothingLeftOpen(final: Scan, t: Scan, i: nat)
    requires Valid(final) && Healthy(t) && Follows(final, t, Open(final, |final.calls|)) && i < |t.calls|
    ensures i in t.closed
  {
    if i !in t.closed {
      assert !Lost(t, i);
      var id, name := t.calls[i].id, t.calls[i].name;
      assert FollowsId(final, t, Open(final, |final.calls|), id) && ValidId(final, id);
      assert FollowsQueue(final, t, Open(final, |final.calls|), name) && ValidQueue(final, name);
      if id == "" { NoneOutside(Queue(final, name), Open(final, |final.calls|)); }
      assert false;
    }
  }

  lemma {:induction false} NoFallbackCount(final: Scan, first: nat, contents: seq<Content>)
    requires forall c | 0 <= c < |final.calls| :: c in final.closed
    ensures FallbackCount(final, first, contents) == 0
    decreases contents
  {
    if contents != [] {
      NoFallbacks(final, first, 0);
      NoFallbackCount(final, first + 1, contents[1..]);
    }
  }

  lemma FreshIsHealthy()
    ensures Valid(FRESH) && Healthy(FRESH) && Follows(FRESH, FRESH, {})
  {
  }

  /** If every content answers an id before it reuses it, one repair is enough. */
  lemma RepairIsComplete(contents: seq<Content>)
    requires forall k | 0 <= k < |contents| :: AnsweredBeforeReuse({}, contents[k].parts)
    ensures IsCanonical(Normalize(contents).contents)
  {
    var final := ScanContents(FRESH, 0, contents);
    var out := Normalize(contents).contents;
    FreshIsHealthy();
    assert Open(final, 0) == {};
    ContentsKeepValid(FRESH, 0, contents);
    ContentsFollow(FRESH, FRESH, final, 0, 0, contents);
    var t := ScanContents(FRESH, 0, out);
    forall i | 0 <= i < |t.calls| ensures i in t.closed { NothingLeftOpen(final, t, i); }
    NoFallbackCount(t, 0, out);
  }

  // ----- and reuse within one content is never repaired

  /** A call that takes an open id leaves the earlier call lost. */
  lemma {:induction false} ReuseLosesACall(t: Scan, cj: nat, open: set<Id>, parts: seq<Part>)
    requires Valid(t) && (forall x | x in open :: x in t.byId) && !AnsweredBeforeReuse(open, parts)
    ensures exists c :: Lost(ScanParts(t, cj, parts), c)
    decreases parts
  {
    var part, rest := parts[0], parts[1..];
    var t' := ScanPart(t, cj, part);
    PartKeepsValid(t, cj, part);
    assert forall x | x in t.byId :: ValidId(t, x);
    assert ScanParts(t, cj, parts) == ScanParts(t', cj, rest);
    if part.Call? && part.id != "" && part.id in open {
      assert Lost(t', t.byId[part.id]);
      PartsKeepValid(t', cj, rest);
      assert Lost(ScanParts(t, cj, parts), t.byId[part.id]);
    } else {
      var open' := if part.Call? && part.id != "" then open + {part.id} else if part.Response? then open - {part.id} else open;
      ReuseLosesACall(t', cj, open', rest);
    }
  }

  lemma {:induction false} NormalizingKeepsReuse(s: Scan, ci: nat, open: set<Id>, more: set<Id>, parts: seq<Part>)
    requires open <= more && !AnsweredBeforeReuse(open, parts)
    ensures !AnsweredBeforeReuse(more, NormalizedParts(s, ci, parts))
    decreases parts
  {
    var part, rest := parts[0], parts[1..];
    var out := NormalizedParts(s, ci, parts);
    assert out[0] == Normalized(s, part) && out[1..] == NormalizedParts(ScanPart(s, ci, part), ci, rest);
    match part
    case Call(id, _, _) =>
      if id == "" {
        NormalizingKeepsReuse(ScanPart(s, ci, part), ci, open, more, rest);
      } else if id !in open {
        NormalizingKeepsReuse(ScanPart(s, ci, part), ci, open + {id}, more + {id}, rest);
      }
    case Response(id, _, _) =>
      NormalizingKeepsReuse(ScanPart(s, ci, part), ci, open - {id}, if IsOrphan(s, part) then more else more - {id}, rest);
    case Other(_) =>
      NormalizingKeepsReuse(ScanPart(s, ci, part), ci, open, more, rest);
  }

  lemma {:induction false} ReuseStays(s: Scan, t: Scan, final: Scan, first: nat, cj: nat, contents: seq<Content>, k: nat)
    requires Valid(t) && k < |contents| && !AnsweredBeforeReuse({}, contents[k].parts)
    ensures exists c :: Lost(ScanContents(t, cj, WithFallbacks(final, first, NormalizedContents(s, first, contents))), c)
    decreases contents
  {
    hide Valid, Lost, ScanParts, NormalizedParts, AnsweredBeforeReuse;
    var parts, rest := contents[0].parts, contents[1..];
    var content := Content(contents[0].role, NormalizedParts(s, first, parts));
    var fallbacks := FallbacksFrom(final, first, 0);
    var s' := ScanParts(s, first, parts);
    var tail := WithFallbacks(final, first + 1, NormalizedContents(s', first + 1, rest));
    var message := Content("user", fallbacks);
    var t1 := ScanParts(t, cj, content.parts);
    NormalizedCons(s, final, first, contents);
    PartsKeepValid(t, cj, content.parts);
    PartsKeepValid(t1, cj + 1, fallbacks);
    ScanCons(t1, cj + 1, message, tail);
    var after := if fallbacks == [] then tail else [message] + tail;
    ScanCons(t, cj, content, after);
    if k == 0 {
      NormalizingKeepsReuse(s, first, {}, {}, parts);
      ReuseLosesACall(t, cj, {}, content.parts);
      var c :| Lost(t1, c);
      ContentsKeepValid(t1, cj + 1, after);
      assert Lost(ScanContents(t1, cj + 1, after), c);
    } else if fallbacks == [] {
      ReuseStays(s', t1, final, first + 1, cj + 1, rest, k - 1);
    } else {
      ReuseStays(s', ScanParts(t1, cj + 1, fallbacks), final, first + 1, cj + 2, rest, k - 1);
    }
  }

  lemma {:induction false} OpenCallIsCounted(final: Scan, first: nat, contents: seq<Content>, c: nat)
    requires c < |final.calls| && c !in final.closed
    requires first <= final.calls[c].contentIndex < first + |contents|
    ensures FallbackCount(final, first, contents) > 0
    decreases contents
  {
    if final.calls[c].contentIndex == first {
      OpenCallGetsFallback(final, first, 0, c);
    } else {
      OpenCallIsCounted(final, first + 1, contents[1..], c);
    }
  }

  lemma {:induction false} OpenCallGetsFallback(final: Scan, ci: nat, i: nat, c: nat)
    requires i <= c < |final.calls| && c !in final.closed && final.calls[c].contentIndex == ci
    ensures FallbacksFrom(final, ci, i) != []
    decreases c - i
  {
    if i < c { OpenCallGetsFallback(final, ci, i + 1, c); }
  }

  /** One repair is enough exactly when every content answers an id before it reuses it. */
  lemma RepairIsCompleteExactly(contents: seq<Content>)
    ensures IsCanonical(Normalize(contents).contents)
       <==> forall k | 0 <= k < |contents| :: AnsweredBeforeReuse({}, contents[k].parts)
  {
    if k :| 0 <= k < |contents| && !AnsweredBeforeReuse({}, contents[k].parts) {
      var final := ScanContents(FRESH, 0, contents);
      var out := Normalize(contents).contents;
      FreshIsHealthy();
      ReuseStays(FRESH, FRESH, final, 0, 0, contents, k);
      var t := ScanContents(FRESH, 0, out);
      var c :| Lost(t, c);
      CallsOfContents(FRESH, 0, out);
      OpenCallIsCounted(t, 0, out, c);
    } else {
      RepairIsComplete(contents);
    }
  }

  /** No two calls of the content share an id that is not empty. */
  predicate DistinctCallIds(parts: seq<Part>) {
    forall i: nat, j: nat | i < j < |parts| && parts[i].Call? && parts[j].Call? && parts[i].id != "" :: parts[i].id != parts[j].id
  }

  lemma {:induction false} DistinctIsAnswered(open: set<Id>, parts: seq<Part>)
    requires DistinctCallIds(parts) && forall i | 0 <= i < |parts| && parts[i].Call? && parts[i].id != "" :: parts[i].id !in open
    ensures AnsweredBeforeReuse(open, parts)
    decreases parts
  {
    if parts != [] {
      var open' := if parts[0].Call? && parts[0].id != "" then open + {parts[0].id} else if parts[0].Response? then open - {parts[0].id} else open;
      forall i | 0 <= i < |parts[1..]| && parts[1..][i].Call? && parts[1..][i].id != "" ensures parts[1..][i].id !in open' {
        assert parts[1..][i] == parts[i + 1];
      }
      DistinctIsAnswered(open', parts[1..]);
    }
  }

  /** So distinct ids within each content are enough, whatever contents share. */
  lemma DistinctIdsAreRepaired(contents: seq<Content>)
    requires forall k | 0 <= k < |contents| :: DistinctCallIds(contents[k].parts)
    ensures IsCanonical(Normalize(contents).contents)
  {
    forall k | 0 <= k < |contents| ensures AnsweredBeforeReuse({}, contents[k].parts) {
      DistinctIsAnswered({}, contents[k].parts);
    }
    RepairIsComplete(contents);
  }

  // ----- what a repair leaves alone, and its counts

  lemma {:induction false} NoOrphanPartsUnchanged(s: Scan, ci: nat, parts: seq<Part>)
    requires OrphansInParts(s, ci, parts) == 0
    ensures NormalizedParts(s, ci, parts) == parts
    decreases parts
  {
    if parts != [] {
      NoOrphanPartsUnchanged(ScanPart(s, ci, parts[0]), ci, parts[1..]);
    }
  }

  lemma {:induction false} NothingToRepair(s: Scan, final: Scan, first: nat, contents: seq<Content>)
    requires Orphans(s, first, contents) == 0 && FallbackCount(final, first, contents) == 0
    ensures WithFallbacks(final, first, NormalizedContents(s, first, contents)) == contents
    decreases contents
  {
    if contents != [] {
      NoOrphanPartsUnchanged(s, first, contents[0].parts);
      NothingToRepair(ScanParts(s, first, contents[0].parts), final, first + 1, contents[1..]);
      NormalizedCons(s, final, first, contents);
    }
  }

  /** A context that needs no repair is returned as it is; so a second repair changes nothing exactly
      in the case described above. */
  lemma CanonicalIsUnchanged(contents: seq<Content>)
    requires IsCanonical(contents)
    ensures Normalize(contents).contents == contents
  {
    NothingToRepair(FRESH, ScanContents(FRESH, 0, contents), 0, contents);
  }

  ghost function OpenIn(final: Scan, from: nat, lo: nat, hi: nat): set<nat> {
    set c | from <= c < |final.calls| && c !in final.closed && lo <= final.calls[c].contentIndex < hi
  }

  lemma {:induction false} FallbacksCounted(final: Scan, ci: nat, i: nat)
    requires i <= |final.calls|
    ensures |FallbacksFrom(final, ci, i)| == |OpenIn(final, i, ci, ci + 1)|
    decreases |final.calls| - i
  {
    if i < |final.calls| {
      FallbacksCounted(final, ci, i + 1);
      OpenOneLess(final, ci, i);
      FallbacksOneLess(final, ci, i);
      hide OpenIn, FallbacksFrom;
    } else {
      assert OpenIn(final, i, ci, ci + 1) == {};
    }
  }

  lemma OpenOneLess(final: Scan, ci: nat, i: nat)
    requires i < |final.calls|
    ensures |OpenIn(final, i, ci, ci + 1)|
         == |OpenIn(final, i + 1, ci, ci + 1)| + if i !in final.closed && final.calls[i].contentIndex == ci then 1 else 0
  {
    var all, rest := OpenIn(final, i, ci, ci + 1), OpenIn(final, i + 1, ci, ci + 1);
    assert i !in rest && all == if i in all then rest + {i} else rest;
  }

  lemma FallbacksOneLess(final: Scan, ci: nat, i: nat)
    requires i < |final.calls|
    ensures |FallbacksFrom(final, ci, i)|
         == |FallbacksFrom(final, ci, i + 1)| + if i !in final.closed && final.calls[i].contentIndex == ci then 1 else 0
  {}

  lemma {:induction false} OpenCallsCounted(final: Scan, first: nat, contents: seq<Content>)
    ensures FallbackCount(final, first, contents) == |OpenIn(final, 0, first, first + |contents|)|
    decreases contents
  {
    if contents == [] {
      assert OpenIn(final, 0, first, first) == {};
    } else {
      FallbacksCounted(final, first, 0);
      OpenCallsCounted(final, first + 1, contents[1..]);
      var here, later := OpenIn(final, 0, first, first + 1), OpenIn(final, 0, first + 1, first + |contents|);
      assert here !! later && OpenIn(final, 0, first, first + |contents|) == here + later;
    }
  }

  lemma {:induction false} RangeSize(n: nat, all: set<nat>)
    requires forall i :: i in all <==> 0 <= i < n
    ensures |all| == n
  {
    if n > 0 {
      RangeSize(n - 1, all - {n - 1});
    } else {
      assert all == {};
    }
  }

  /** Every call is closed by a response of the context or by one fallback, and by only one of them. */
  lemma CallsAreConserved(contents: seq<Content>)
    ensures var final := ScanContents(FRESH, 0, contents);
            |final.closed| + Normalize(contents).fallbackResponseCount == |final.calls|
  {
    var final := ScanContents(FRESH, 0, contents);
    FreshIsHealthy();
    ContentsKeepValid(FRESH, 0, contents);
    CallsOfContents(FRESH, 0, contents);
    OpenCallsCounted(final, 0, contents);
    var open := OpenIn(final, 0, 0, |contents|);
    assert forall i :: i in open <==> 0 <= i < |final.calls| && i !in final.closed;
    assert open !! final.closed;
    RangeSize(|final.calls|, open + final.closed);
  }

  // ----- the operation

  method NormalizeToolCallResponseContext(contents: seq<Content>) returns (r: Repair)
    ensures r == Normalize(contents)
  {
    hide ScanPart, Normalized, IsOrphan;
    var s := FRESH;
    var orphanResponseCount := 0;
    var normalized: seq<Content> := [];
    ghost var final := ScanContents(FRESH, 0, contents);
    for contentIndex := 0 to |contents|
      invariant ScanContents(s, contentIndex, contents[contentIndex..]) == final
      invariant normalized + NormalizedContents(s, contentIndex, contents[contentIndex..]) == NormalizedContents(FRESH, 0, contents)
      invariant orphanResponseCount + Orphans(s, contentIndex, contents[contentIndex..]) == Orphans(FRESH, 0, contents)
    {
      var content := contents[contentIndex];
      assert contents[contentIndex..][1..] == contents[contentIndex + 1..];
      var parts, orphans;
      s, parts, orphans := NormalizeParts(s, contentIndex, content.parts);
      normalized := normalized + [Content(content.role, parts)];
      orphanResponseCount := orphanResponseCount + orphans;
    }
    assert contents[|contents|..] == [];
    assert s == final && normalized == NormalizedContents(FRESH, 0, contents);
    assert orphanResponseCount == Orphans(FRESH, 0, contents);
    var repaired, fallbackResponseCount := AddFallbacks(s, normalized);
    r := Repair(repaired, orphanResponseCount, fallbackResponseCount);
    SameLengthSameCount(final, FRESH, 0, contents);
  }

  lemma PartsStep(s: Scan, ci: nat, parts: seq<Part>, i: nat)
    requires i < |parts|
    ensures var s', rest := ScanPart(s, ci, parts[i]), parts[i + 1..];
            && ScanParts(s, ci, parts[i..]) == ScanParts(s', ci, rest)
            && NormalizedParts(s, ci, parts[i..]) == [Normalized(s, parts[i])] + NormalizedParts(s', ci, rest)
            && OrphansInParts(s, ci, parts[i..]) == (if IsOrphan(s, parts[i]) then 1 else 0) + OrphansInParts(s', ci, rest)
  {
    assert parts[i..][1..] == parts[i + 1..];
  }

  method NormalizeParts(s: Scan, contentIndex: nat, parts: seq<Part>) returns (s': Scan, normalized: seq<Part>, orphans: nat)
    ensures s' == ScanParts(s, contentIndex, parts)
    ensures normalized == NormalizedParts(s, contentIndex, parts)
    ensures orphans == OrphansInParts(s, contentIndex, parts)
  {
    s', normalized, orphans := s, [], 0;
    assert parts[0..] == parts && parts[|parts|..] == [];
    forall s ensures ScanParts(s, contentIndex, []) == s && NormalizedParts(s, contentIndex, []) == [] && OrphansInParts(s, contentIndex, []) == 0 { }
    hide ScanPart, Normalized, IsOrphan, ScanParts, NormalizedParts, OrphansInParts;
    for i := 0 to |parts|
      invariant ScanParts(s', contentIndex, parts[i..]) == ScanParts(s, contentIndex, parts)
      invariant normalized + NormalizedParts(s', contentIndex, parts[i..]) == NormalizedParts(s, contentIndex, parts)
      invariant orphans + OrphansInParts(s', contentIndex, parts[i..]) == OrphansInParts(s, contentIndex, parts)
    {
      PartsStep(s', contentIndex, parts, i);
      var next, part, orphaned := VisitPart(s', contentIndex, parts[i]);
      s', normalized, orphans := next, normalized + [part], if orphaned then orphans + 1 else orphans;
    }
  }

  method VisitPart(s: Scan, contentIndex: nat, part: Part) returns (s': Scan, out: Part, orphaned: bool)
    ensures s' == ScanPart(s, contentIndex, part) && out == Normalized(s, part) && orphaned == IsOrphan(s, part)
  {
    s', out, orphaned := s, part, false;
    if part.Call? {
      s' := AddCall(s, contentIndex, part);
    } else if part.Response? {
      if Matches(s, part) {
        s' := Consume(s, part);
      } else {
        out, orphaned := OrphanText(part), true;
      }
    }
  }

  function ListAt(m: map<nat, seq<Part>>, contentIndex: nat): seq<Part> {
    if contentIndex in m then m[contentIndex] else []
  }

  lemma FallbackStep(final: Scan, ci: nat, i: nat, collected: seq<Part>)
    requires i < |final.calls|
    ensures var open := i !in final.closed && final.calls[i].contentIndex == ci;
            collected + FallbacksFrom(final, ci, i)
              == (if open then collected + [Fallback(final.calls[i])] else collected) + FallbacksFrom(final, ci, i + 1)
  {
  }

  method CollectFallbacks(final: Scan) returns (byContentIndex: map<nat, seq<Part>>)
    ensures forall ci: nat :: ListAt(byContentIndex, ci) == FallbacksFrom(final, ci, 0)
  {
    forall ci: nat ensures FallbacksFrom(final, ci, |final.calls|) == [] { }
    hide FallbacksFrom, Fallback;
    byContentIndex := map[];
    for i := 0 to |final.calls|
      invariant forall ci: nat :: ListAt(byContentIndex, ci) + FallbacksFrom(final, ci, i) == FallbacksFrom(final, ci, 0)
    {
      var call := final.calls[i];
      ghost var before := byContentIndex;
      if i !in final.closed {
        byContentIndex := byContentIndex[call.contentIndex := ListAt(byContentIndex, call.contentIndex) + [Fallback(call)]];
      }
      forall ci: nat ensures ListAt(byContentIndex, ci) + FallbacksFrom(final, ci, i + 1) == FallbacksFrom(final, ci, 0) {
        FallbackStep(final, ci, i, ListAt(before, ci));
      }
    }
  }

  lemma Regroup(a: seq<Content>, b: seq<Content>, c: seq<Content>, d: seq<Content>)
    ensures a + (b + c + d) == (a + b + c) + d
  {
  }

  lemma InsertStep(final: Scan, index: nat, normalized: seq<Content>)
    requires index < |normalized|
    ensures var fallbacks, rest := FallbacksFrom(final, index, 0), normalized[index + 1..];
            && WithFallbacks(final, index, normalized[index..])
                 == [normalized[index]] + (if fallbacks == [] then [] else [Content("user", fallbacks)]) + WithFallbacks(final, index + 1, rest)
            && FallbackCount(final, index, normalized[index..]) == |fallbacks| + FallbackCount(final, index + 1, rest)
  {
    assert normalized[index..][1..] == normalized[index + 1..];
  }

  method AddFallbacks(final: Scan, normalized: seq<Content>) returns (repaired: seq<Content>, count: nat)
    ensures repaired == WithFallbacks(final, 0, normalized)
    ensures count == FallbackCount(final, 0, normalized)
  {
    var byContentIndex := CollectFallbacks(final);
    repaired, count := [], 0;
    assert WithFallbacks(final, |normalized|, []) == [] && FallbackCount(final, |normalized|, []) == 0;
    assert normalized[0..] == normalized;
    hide FallbacksFrom, WithFallbacks, FallbackCount;
    for index := 0 to |normalized|
      invariant repaired + WithFallbacks(final, index, normalized[index..]) == WithFallbacks(final, 0, normalized)
      invariant count + FallbackCount(final, index, normalized[index..]) == FallbackCount(final, 0, normalized)
    {
      InsertStep(final, index, normalized);
      var fallbackResponses := ListAt(byContentIndex, index);
      var message := if fallbackResponses == [] then [] else [Content("user", fallbackResponses)];
      Regroup(repaired, [normalized[index]], message, WithFallbacks(final, index + 1, normalized[index + 1..]));
      repaired := repaired + [normalized[index]] + message;
      count := count + |fallbackResponses|;
    }
    assert normalized[|normalized|..] == [];
  }

  lemma {:induction false} SameLengthSameCount(final: Scan, s: Scan, first: nat, contents: seq<Content>)
    ensures FallbackCount(final, first, NormalizedContents(s, first, contents)) == FallbackCount(final, first, contents)
    decreases contents
  {
    if contents != [] {
      var all := NormalizedContents(s, first, contents);
      assert all[1..] == NormalizedContents(ScanParts(s, first, contents[0].parts), first + 1, contents[1..]);
      SameLengthSameCount(final, ScanParts(s, first, contents[0].parts), first + 1, contents[1..]);
    }
  }

  // ----- which call a response answers

  /** The open call with the response's own id. */
  predicate HasItsId(s: Scan, response: Part, c: nat)
    requires response.Response?
  {
    response.id != "" && IsWaiting(s, c) && s.calls[c].id == response.id
  }

  /** An open call without an id under the response's name. */
  predicate HasItsName(s: Scan, response: Part, c: nat)
    requires response.Response?
  {
    IsWaiting(s, c) && s.calls[c].id == "" && s.calls[c].name == response.name
  }

  /** A response answers the open call with its id, or else the oldest open call without an id under its name; it is an
      orphan exactly when there is neither. */
  lemma MatchExactly(s: Scan, response: Part)
    requires Valid(s) && response.Response?
    ensures Matches(s, response) <==> exists c: nat :: HasItsId(s, response, c) || HasItsName(s, response, c)
    ensures Matches(s, response) ==>
      var m := Matched(s, response);
      && (HasItsId(s, response, m) || HasItsName(s, response, m))
      && (HasItsName(s, response, m) ==> forall c: nat :: !HasItsId(s, response, c) && (HasItsName(s, response, c) ==> m <= c))
  {
    assert ValidId(s, response.id) && ValidQueue(s, response.name);
    var queue := Queue(s, response.name);
    if response.id != "" && response.id in s.byId {
      assert HasItsId(s, response, s.byId[response.id]);
    } else if queue != [] {
      assert HasItsName(s, response, queue[0]);
      forall c: nat | HasItsName(s, response, c) ensures queue[0] <= c {
        var k :| 0 <= k < |queue| && queue[k] == c;
        assert k > 0 ==> queue[0] < queue[k];
      }
    }
  }

  // ----- what the inserted parts say

  ghost predicate Contains(text: string, part: string) {
    exists before, after :: text == before + part + after
  }

  lemma Embedded(before: string, part: string, after: string, text: string)
    requires text == before + part + after
    ensures Contains(text, part)
  {}

  /** The text that takes the place of an orphaned response keeps its name, its id and its result. */
  lemma OrphanTextKeeps(s: Scan, response: Part)
    requires IsOrphan(s, response)
    ensures var text := Normalized(s, response);
      text.Other? && Contains(text.text, response.name) && Contains(text.text, response.id) && Contains(text.text, response.result)
  {
    var text := OrphanText(response).text;
    var id := if response.id != "" then "\ncallId: " + response.id else "";
    var end := "\nresponse: " + response.result;
    Embedded("name: ", response.name, id + end, text);
    if response.id != "" {
      Embedded("name: " + response.name + "\ncallId: ", response.id, end, text);
    } else {
      Embedded("", response.id, text, text);
    }
    Embedded("name: " + response.name + id + "\nresponse: ", response.result, "", text);
  }

  /** The calls of the contents in order, each with the place of its content. */
  function CallsIn(parts: seq<Part>, ci: nat): seq<Tracked> {
    if parts == [] then []
    else (if parts[0].Call? then [Tracked(parts[0].id, parts[0].name, ci)] else []) + CallsIn(parts[1..], ci)
  }

  function AllCalls(contents: seq<Content>, first: nat): seq<Tracked> {
    if contents == [] then [] else CallsIn(contents[0].parts, first) + AllCalls(contents[1..], first + 1)
  }

  lemma {:induction false} PartsTrackCalls(s: Scan, ci: nat, parts: seq<Part>)
    ensures ScanParts(s, ci, parts).calls == s.calls + CallsIn(parts, ci)
    decreases parts
  {
    if parts != [] {
      PartsTrackCalls(ScanPart(s, ci, parts[0]), ci, parts[1..]);
      PartTracksCall(s, ci, parts[0]);
    }
  }

  lemma PartTracksCall(s: Scan, ci: nat, part: Part)
    ensures ScanPart(s, ci, part).calls == s.calls + if part.Call? then [Tracked(part.id, part.name, ci)] else []
  {}

  lemma {:induction false} ContentsTrackCalls(s: Scan, first: nat, contents: seq<Content>)
    ensures ScanContents(s, first, contents).calls == s.calls + AllCalls(contents, first)
    decreases contents
  {
    if contents != [] {
      PartsTrackCalls(s, first, contents[0].parts);
      ContentsTrackCalls(ScanParts(s, first, contents[0].parts), first + 1, contents[1..]);
    }
  }

  /** The fallbacks after a content answer its open calls, one each and in their order, by id and by name. */
  lemma {:induction false} FallbacksAnswer(final: Scan, ci: nat, i: nat)
    requires i <= |final.calls|
    ensures forall part | part in FallbacksFrom(final, ci, i) ::
      part.Response? && part.result == FALLBACK_RESULT && exists c: nat :: i <= c < |final.calls| && IsAnswerTo(final, ci, c, part)
    ensures forall c: nat | i <= c < |final.calls| && c !in final.closed && final.calls[c].contentIndex == ci ::
      exists part :: part in FallbacksFrom(final, ci, i) && IsAnswerTo(final, ci, c, part)
    decreases |final.calls| - i
  {
    if i < |final.calls| {
      FallbacksAnswer(final, ci, i + 1);
      var rest := FallbacksFrom(final, ci, i + 1);
      if i !in final.closed && final.calls[i].contentIndex == ci {
        assert FallbacksFrom(final, ci, i) == [Fallback(final.calls[i])] + rest;
        assert IsAnswerTo(final, ci, i, Fallback(final.calls[i]));
      } else {
        assert FallbacksFrom(final, ci, i) == rest;
      }
      hide FallbacksFrom;
    }
  }

  /** The part answers the open call c of the content under its own id and name. */
  predicate IsAnswerTo(final: Scan, ci: nat, c: nat, part: Part) {
    && c < |final.calls| && c !in final.closed && final.calls[c].contentIndex == ci
    && part.Response? && part.id == final.calls[c].id && part.name == final.calls[c].name
  }

  /** In a whole context: every fallback is for a call of the contents, and carries that call's id and name. */
  lemma FallbacksNameCalls(contents: seq<Content>, ci: nat)
    ensures var final := ScanContents(FRESH, 0, contents);
      final.calls == AllCalls(contents, 0)
      && forall part | part in FallbacksFrom(final, ci, 0) :: part.Response? && Tracked(part.id, part.name, ci) in AllCalls(contents, 0)
  {
    var final := ScanContents(FRESH, 0, contents);
    ContentsTrackCalls(FRESH, 0, contents);
    FallbacksAnswer(final, ci, 0);
    forall part | part in FallbacksFrom(final, ci, 0) ensures part.Response? && Tracked(part.id, part.name, ci) in AllCalls(contents, 0) {
      var c: nat :| 0 <= c < |final.calls| && IsAnswerTo(final, ci, c, part);
      assert final.calls[c] == Tracked(part.id, part.name, ci);
    }
  }
}
