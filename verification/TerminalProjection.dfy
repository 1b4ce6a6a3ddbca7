/** The projection given out at the end: the stream's own record, proved equal member by member to the
    terminal output (backend/capabilities/openAIResponsesContinuationProjection.ts, lines 77-128, 324-409
    and 485-529). */
module TerminalProjection {
  import opened Options
  import opened ContinuationProjection

  // ----- the completed projection

  datatype TerminalItem = TerminalItem(item: Item, outputIndex: nat, trustedSignature: Option<string>)

  function TrustedSignature(item: Item, done: Item): Option<string> {
    if IsReasoning(item) then done.encrypted else None
  }

  function InsertDone(done: DoneItem, sorted: seq<DoneItem>): seq<DoneItem> {
    if sorted == [] || (done.outputIndex.Some? && sorted[0].outputIndex.Some? && done.outputIndex.value <= sorted[0].outputIndex.value)
    then [done] + sorted
    else [sorted[0]] + InsertDone(done, sorted[1..])
  }

  function SortDone(items: seq<DoneItem>): seq<DoneItem> {
    if items == [] then [] else InsertDone(items[0], SortDone(items[1..]))
  }

  predicate ItemsMatch(completed: Item, index: nat, done: DoneItem) {
    if completed.id.Some? && done.item.id.Some? then completed.id == done.item.id
    else done.outputIndex == Some(index) && completed.kind == done.item.kind
  }

  /** The done items among the first n that match and are not taken yet. */
  function Matches(doneItems: seq<DoneItem>, consumed: set<nat>, item: Item, index: nat, n: nat): (r: seq<nat>)
    requires n <= |doneItems|
    ensures forall i | i in r :: i < n && i !in consumed && ItemsMatch(item, index, doneItems[i])
    ensures forall i: nat | i < n && i !in consumed && ItemsMatch(item, index, doneItems[i]) :: i in r
  {
    if n == 0 then []
    else
      var before := Matches(doneItems, consumed, item, index, n - 1);
      if n - 1 !in consumed && ItemsMatch(item, index, doneItems[n - 1]) then before + [n - 1] else before
  }

  datatype Matching = NoMatching(reason: string) | Matching(consumed: set<nat>, result: seq<TerminalItem>)

  function MatchOne(doneItems: seq<DoneItem>, m: Matching, item: Item, index: nat): Matching {
    if m.NoMatching? then m
    else
      var matches := Matches(doneItems, m.consumed, item, index, |doneItems|);
      if |matches| > 1 then NoMatching("completed_done_match_ambiguous")
      else if |matches| == 1 then
        assert matches[0] in matches;
        var done := doneItems[matches[0]].item;
        if item.rest != done.rest then NoMatching("completed_done_item_conflict")
        else Matching(m.consumed + {matches[0]}, m.result + [TerminalItem(item, index, TrustedSignature(item, done))])
      else Matching(m.consumed, m.result + [TerminalItem(item, index, None)])
  }

  function MatchAll(doneItems: seq<DoneItem>, completed: seq<Item>): Matching {
    if completed == [] then Matching({}, [])
    else MatchOne(doneItems, MatchAll(doneItems, completed[..|completed| - 1]), completed[|completed| - 1], |completed| - 1)
  }

  datatype Terminal = Terminal(state: State, items: Option<seq<TerminalItem>>)

  function FromDone(sorted: seq<DoneItem>): seq<TerminalItem>
    requires forall i | 0 <= i < |sorted| :: sorted[i].outputIndex.Some?
  {
    seq(|sorted|, i requires 0 <= i < |sorted| =>
      TerminalItem(sorted[i].item, sorted[i].outputIndex.value, TrustedSignature(sorted[i].item, sorted[i].item)))
  }

  function TerminalItems(s: State): Terminal {
    if s.completedOutput == None then Terminal(s, None)
    else if s.completedOutput.value == [] then
      var sorted := SortDone(s.doneItems);
      if exists i :: 0 <= i < |sorted| && sorted[i].outputIndex == None then Terminal(MarkUnsafe(s, "done_output_index_missing"), None)
      else if exists i :: 0 <= i < |sorted| && sorted[i].outputIndex.value != i then Terminal(MarkUnsafe(s, "done_output_index_gap"), None)
      else Terminal(s, Some(FromDone(sorted)))
    else
      var m := MatchAll(s.doneItems, s.completedOutput.value);
      if m.NoMatching? then Terminal(MarkUnsafe(s, m.reason), None)
      else if |m.consumed| != |s.doneItems| then Terminal(MarkUnsafe(s, "completed_done_membership_conflict"), None)
      else Terminal(s, Some(m.result))
  }

  function ReasoningFor(s: State, entry: TerminalItem): Option<nat> {
    First(FoundBy(s, if entry.item.id.Some? then Some(IdKey(entry.item.id.value)) else None), FoundBy(s, Some(OutputKey(entry.outputIndex))))
  }

  function CountKind(items: seq<TerminalItem>, kind: string): nat {
    if items == [] then 0 else CountKind(items[..|items| - 1], kind) + (if items[|items| - 1].item.kind == kind then 1 else 0)
  }

  /** Whether a terminal member is what the stream showed; calls are compared in order. */
  predicate MemberAgrees(s: State, items: seq<TerminalItem>, k: nat)
    requires k < |items|
  {
    var entry := items[k];
    if entry.item.kind == "reasoning" then
      var i := ReasoningFor(s, entry);
      i.Some? && i.value < |s.reasoningItems| && entry.item.summary == Some(s.reasoningItems[i.value].text)
      && entry.trustedSignature == s.reasoningItems[i.value].signature
    else if entry.item.kind == "message" then entry.item.text == Some(s.visibleText)
    else
      var j := CountKind(items[..k], "function_call");
      entry.item.kind == "function_call" && j < |s.functionCalls| && entry.item.call == Some(s.functionCalls[j])
  }

  predicate CountsAgree(s: State, items: seq<TerminalItem>) {
    && CountKind(items, "reasoning") == |s.reasoningItems|
    && CountKind(items, "message") == (if s.visibleText != "" then 1 else 0)
    && CountKind(items, "function_call") == |s.functionCalls|
    && |items| == CountKind(items, "reasoning") + CountKind(items, "message") + CountKind(items, "function_call")
  }

  predicate AllAgree(s: State, items: seq<TerminalItem>) {
    CountsAgree(s, items) && forall k: nat | k < |items| :: MemberAgrees(s, items, k)
  }

  /** Why a member does not agree. */
  function MemberProblem(s: State, items: seq<TerminalItem>, k: nat): (problem: Option<string>)
    requires k < |items|
    ensures problem == None <==> MemberAgrees(s, items, k)
  {
    var entry := items[k];
    if entry.item.kind == "reasoning" then
      var i := ReasoningFor(s, entry);
      if i == None || i.value >= |s.reasoningItems| || entry.item.summary != Some(s.reasoningItems[i.value].text)
      then Some("reasoning_terminal_revision_conflict")
      else if entry.trustedSignature != s.reasoningItems[i.value].signature then Some("reasoning_terminal_signature_conflict")
      else None
    else if entry.item.kind == "message" then
      if entry.item.text != Some(s.visibleText) then Some("message_terminal_revision_conflict") else None
    else if entry.item.kind == "function_call" then
      var j := CountKind(items[..k], "function_call");
      if j >= |s.functionCalls| || entry.item.call != Some(s.functionCalls[j]) then Some("function_call_terminal_conflict") else None
    else Some("terminal_member_unrepresentable")
  }

  /** The first problem from member k on. */
  function ProblemFrom(s: State, items: seq<TerminalItem>, k: nat): (problem: Option<string>)
    requires k <= |items|
    ensures problem == None <==> forall j: nat | k <= j < |items| :: MemberAgrees(s, items, j)
    decreases |items| - k
  {
    if k == |items| then None else First(MemberProblem(s, items, k), ProblemFrom(s, items, k + 1))
  }

  function Problem(s: State, items: seq<TerminalItem>): (problem: Option<string>)
    ensures problem == None <==> AllAgree(s, items)
  {
    if !CountsAgree(s, items) then Some("terminal_member_count_mismatch") else ProblemFrom(s, items, 0)
  }

  datatype Part = Thought(text: string, signature: Option<string>) | Text(text: string) | CallOf(call: Call)

  /** The part built from the stream's own record of a member. */
  function PartFor(s: State, items: seq<TerminalItem>, k: nat): Part
    requires k < |items| && MemberAgrees(s, items, k)
  {
    var entry := items[k];
    if entry.item.kind == "reasoning" then
      var r := s.reasoningItems[ReasoningFor(s, entry).value];
      Thought(r.text, r.signature)
    else if entry.item.kind == "message" then Text(s.visibleText)
    else CallOf(s.functionCalls[CountKind(items[..k], "function_call")])
  }

  /** The part says what the terminal member says. */
  predicate Represents(entry: TerminalItem, part: Part) {
    if entry.item.kind == "reasoning" then entry.item.summary.Some? && part == Thought(entry.item.summary.value, entry.trustedSignature)
    else if entry.item.kind == "message" then entry.item.text.Some? && part == Text(entry.item.text.value)
    else entry.item.kind == "function_call" && entry.item.call.Some? && part == CallOf(entry.item.call.value)
  }

  /** What encoding the parts gives; None when it throws or gives no input list. */
  type Encoder = seq<Part> -> Option<seq<string>>

  datatype Projection = Projection(parts: seq<Part>, outputItems: seq<string>)
  datatype Projected = Projected(state: State, projection: Option<Projection>)

  function PartsFor(s: State, items: seq<TerminalItem>): seq<Part>
    requires AllAgree(s, items)
  {
    seq(|items|, k requires 0 <= k < |items| => PartFor(s, items, k))
  }

  function Project(s: State, encode: Encoder): Projected {
    if s.unsafeReason.Some? then Projected(s, None)
    else
      var terminal := TerminalItems(s);
      if terminal.items == None then Projected(terminal.state, None)
      else
        var items := terminal.items.value;
        var problem := Problem(s, items);
        if problem.Some? then Projected(MarkUnsafe(s, problem.value), None)
        else if items == [] then Projected(s, Some(Projection([], [])))
        else
          var encoded := encode(PartsFor(s, items));
          Projected(s, if encoded.Some? then Some(Projection(PartsFor(s, items), encoded.value)) else None)
  }

  /** A projection is given out exactly when the stream is trusted, there is a terminal output, it agrees with the
      stream, and its parts can be encoded. */
  lemma ProjectionExactly(s: State, encode: Encoder)
    ensures Project(s, encode).projection.Some? <==>
      && s.unsafeReason == None && TerminalItems(s).items.Some? && AllAgree(s, TerminalItems(s).items.value)
      && (TerminalItems(s).items.value == [] || encode(PartsFor(s, TerminalItems(s).items.value)).Some?)
  {
    hide TerminalItems, AllAgree, PartFor;
  }

  /** A projection that is given out was never distrusted, and agrees with the terminal output member by member;
      its output items are the encoding of just those members. */
  lemma ProjectionAgrees(s: State, encode: Encoder)
    requires Project(s, encode).projection.Some?
    ensures s.unsafeReason == None && TerminalItems(s).items.Some?
    ensures var items, parts := TerminalItems(s).items.value, Project(s, encode).projection.value.parts;
      |parts| == |items| && forall k: nat | k < |items| :: Represents(items[k], parts[k])
    ensures var projection := Project(s, encode).projection.value;
      if projection.parts == [] then projection.outputItems == [] else encode(projection.parts) == Some(projection.outputItems)
  {
    var items, parts := TerminalItems(s).items.value, Project(s, encode).projection.value.parts;
    hide TerminalItems, CountKind, ReasoningFor, CountsAgree, ProblemFrom;
    forall k: nat | k < |items| ensures Represents(items[k], parts[k]) {
      assert MemberAgrees(s, items, k);
    }
  }

  /** Once there is a reason to distrust the stream, no later event and no attempt brings a projection. */
  lemma DistrustIsFinal(s: State, steps: seq<Step>, encode: Encoder)
    requires Inv(s) && s.unsafeReason.Some? && forall i | 0 <= i < |steps| :: Texts(steps[i].raw)
    ensures Project(Run(s, steps), encode) == Projected(Run(s, steps), None)
  {
    RunKeeps(s, steps);
  }

  ghost predicate MatchedAt(completed: seq<Item>, k: nat, done: DoneItem) {
    k < |completed| && ItemsMatch(completed[k], k, done) && completed[k].rest == done.item.rest
  }

  /** Some member of the completed output is this done item. */
  ghost predicate MatchedIn(completed: seq<Item>, done: DoneItem) {
    exists k: nat :: MatchedAt(completed, k, done)
  }

  lemma MatchedLonger(completed: seq<Item>, done: DoneItem)
    requires completed != [] && MatchedIn(completed[..|completed| - 1], done)
    ensures MatchedIn(completed, done)
  {
    var k: nat :| MatchedAt(completed[..|completed| - 1], k, done);
    assert MatchedAt(completed, k, done);
  }

  lemma MatchOneFacts(doneItems: seq<DoneItem>, m: Matching, item: Item, index: nat)
    requires MatchOne(doneItems, m, item, index).Matching?
    ensures m.Matching?
    ensures var after := MatchOne(doneItems, m, item, index);
      && |after.result| == |m.result| + 1 && after.result[..|m.result|] == m.result
      && after.result[|m.result|].item == item && after.result[|m.result|].outputIndex == index
      && forall i | i in after.consumed && i !in m.consumed ::
        i < |doneItems| && ItemsMatch(item, index, doneItems[i]) && item.rest == doneItems[i].item.rest
  {
    var matches := Matches(doneItems, m.consumed, item, index, |doneItems|);
    assert |matches| == 1 ==> matches[0] in matches;
  }

  /** What is projected against is the completed output itself when there is one. */
  lemma {:induction false} MatchedIsCompleted(doneItems: seq<DoneItem>, completed: seq<Item>)
    requires MatchAll(doneItems, completed).Matching?
    ensures IsMatching(doneItems, completed, MatchAll(doneItems, completed))
  {
    if completed != [] {
      hide MatchOne, IsMatching;
      var n := |completed| - 1;
      MatchOneFacts(doneItems, MatchAll(doneItems, completed[..n]), completed[n], n);
      MatchedIsCompleted(doneItems, completed[..n]);
      hide MatchAll;
      MatchingGrows(doneItems, completed, MatchAll(doneItems, completed[..n]));
    }
  }

  /** Every completed item is in its place, and every done item taken says the same as one of them. */
  ghost predicate IsMatching(doneItems: seq<DoneItem>, completed: seq<Item>, m: Matching) {
    && m.Matching? && |m.result| == |completed|
    && (forall k: nat | k < |completed| :: m.result[k].item == completed[k] && m.result[k].outputIndex == k)
    && (forall i | i in m.consumed :: i < |doneItems| && MatchedIn(completed, doneItems[i]))
  }

  lemma MatchingGrows(doneItems: seq<DoneItem>, completed: seq<Item>, before: Matching)
    requires completed != []
    requires var n := |completed| - 1;
      IsMatching(doneItems, completed[..n], before) && MatchOne(doneItems, before, completed[n], n).Matching?
    ensures IsMatching(doneItems, completed, MatchOne(doneItems, before, completed[|completed| - 1], |completed| - 1))
  {
    var n := |completed| - 1;
    var after := MatchOne(doneItems, before, completed[n], n);
    MatchOneFacts(doneItems, before, completed[n], n);
    hide MatchOne, MatchedIn, ItemsMatch;
    forall i | i in after.consumed ensures i < |doneItems| && MatchedIn(completed, doneItems[i]) {
      if i in before.consumed { MatchedLonger(completed, doneItems[i]); } else { MatchedLast(completed, doneItems[i]); }
    }
    forall k: nat | k < |completed| ensures after.result[k].item == completed[k] && after.result[k].outputIndex == k {
      if k < n { assert after.result[k] == after.result[..n][k] && completed[k] == completed[..n][k]; }
    }
  }

  lemma MatchedLast(completed: seq<Item>, done: DoneItem)
    requires completed != [] && MatchedAt(completed, |completed| - 1, done)
    ensures MatchedIn(completed, done)
  {}

  lemma {:induction false} Pigeonhole(taken: set<nat>, n: nat)
    requires (forall i | i in taken :: i < n) && |taken| == n
    ensures forall i: nat | i < n :: i in taken
  {
    if n > 0 {
      if n - 1 in taken {
        Pigeonhole(taken - {n - 1}, n - 1);
      } else {
        FewerThan(taken, n - 1);
      }
    }
  }

  lemma {:induction false} FewerThan(taken: set<nat>, n: nat)
    requires forall i | i in taken :: i < n
    ensures |taken| <= n
  {
    if n == 0 {
      assert taken == {};
    } else {
      FewerThan(taken - {n - 1}, n - 1);
      assert taken <= (taken - {n - 1}) + {n - 1};
    }
  }

  lemma {:induction false} InsertIsAll(done: DoneItem, sorted: seq<DoneItem>)
    ensures multiset(InsertDone(done, sorted)) == multiset(sorted) + multiset{done}
  {
    if sorted != [] {
      assert sorted == [sorted[0]] + sorted[1..];
      InsertIsAll(done, sorted[1..]);
    }
  }

  lemma {:induction false} SortIsAll(items: seq<DoneItem>)
    ensures multiset(SortDone(items)) == multiset(items)
  {
    if items != [] {
      assert items == [items[0]] + items[1..];
      SortIsAll(items[1..]);
      InsertIsAll(items[0], SortDone(items[1..]));
    }
  }

  ghost predicate AllPlaced(items: seq<DoneItem>) {
    forall d | d in items :: d.outputIndex.Some?
  }

  /** Each output index occurs once. */
  ghost predicate PlacedApart(items: seq<DoneItem>) {
    forall i: nat, j: nat | i < j < |items| :: items[i].outputIndex != items[j].outputIndex
  }

  ghost predicate Comes(a: DoneItem, b: DoneItem) {
    a.outputIndex.Some? && b.outputIndex.Some? && a.outputIndex.value < b.outputIndex.value
  }

  ghost predicate Ascending(items: seq<DoneItem>) {
    forall i: nat, j: nat | i < j < |items| :: Comes(items[i], items[j])
  }

  lemma AscendingCons(first: DoneItem, rest: seq<DoneItem>)
    requires Ascending(rest) && forall d | d in rest :: Comes(first, d)
    ensures Ascending([first] + rest)
  {
    hide Comes;
    var all := [first] + rest;
    forall i: nat, j: nat | i < j < |all| ensures Comes(all[i], all[j]) {
      assert all[j] == rest[j - 1];
      if i > 0 { assert all[i] == rest[i - 1]; }
    }
  }

  lemma AscendingParts(items: seq<DoneItem>)
    requires Ascending(items) && items != []
    ensures Ascending(items[1..]) && forall d | d in items[1..] :: Comes(items[0], d)
  {
    hide Comes;
    var rest := items[1..];
    forall i: nat, j: nat | i < j < |rest| ensures Comes(rest[i], rest[j]) {
      assert rest[i] == items[i + 1] && rest[j] == items[j + 1];
    }
    forall d | d in rest ensures Comes(items[0], d) {
      var i :| 0 <= i < |rest| && rest[i] == d;
      assert rest[i] == items[i + 1];
    }
  }

  lemma {:induction false} InsertAscends(done: DoneItem, sorted: seq<DoneItem>)
    requires Ascending(sorted) && forall d | d in sorted :: Comes(done, d) || Comes(d, done)
    requires done.outputIndex.Some?
    ensures Ascending(InsertDone(done, sorted))
    ensures forall d :: d in InsertDone(done, sorted) <==> d in sorted || d == done
  {
    if sorted == [] {
      assert [done] + sorted == [done];
    } else {
      var first, rest := sorted[0], sorted[1..];
      AscendingParts(sorted);
      assert sorted == [first] + rest && first in sorted && forall d | d in rest :: d in sorted;
      if Comes(done, first) {
        forall d | d in sorted ensures Comes(done, d) {}
        AscendingCons(done, sorted);
      } else {
        InsertAscends(done, rest);
        AscendingCons(first, InsertDone(done, rest));
      }
    }
  }

  lemma ApartParts(items: seq<DoneItem>)
    requires items != [] && AllPlaced(items) && PlacedApart(items)
    ensures items[0].outputIndex.Some? && AllPlaced(items[1..]) && PlacedApart(items[1..])
    ensures forall d | d in items[1..] :: Comes(items[0], d) || Comes(d, items[0])
  {
    var rest := items[1..];
    assert items[0] in items;
    forall d | d in rest ensures d in items && d.outputIndex != items[0].outputIndex {
      var i :| 0 <= i < |rest| && rest[i] == d;
      assert rest[i] == items[i + 1];
    }
    forall i: nat, j: nat | i < j < |rest| ensures rest[i].outputIndex != rest[j].outputIndex {
      assert rest[i] == items[i + 1] && rest[j] == items[j + 1];
    }
  }

  lemma NoneAscend()
    ensures Ascending([]) && SortDone([]) == []
  {}

  lemma {:induction false} SortAscends(items: seq<DoneItem>)
    requires AllPlaced(items) && PlacedApart(items)
    ensures Ascending(SortDone(items)) && |SortDone(items)| == |items|
    ensures forall d :: d in SortDone(items) <==> d in items
  {
    hide Ascending, Comes, PlacedApart, AllPlaced, InsertDone;
    if items == [] {
      NoneAscend();
    } else {
      ApartParts(items);
      SortAscends(items[1..]);
      InsertAscends(items[0], SortDone(items[1..]));
      InsertIsAll(items[0], SortDone(items[1..]));
      assert |multiset(SortDone(items))| == |SortDone(items)|;
      assert items == [items[0]] + items[1..];
    }
  }

  lemma {:induction false} AscendingFrom(items: seq<DoneItem>, i: nat)
    requires Ascending(items) && i < |items| && items[i].outputIndex.Some?
    ensures i <= items[i].outputIndex.value
  {
    if i > 0 {
      assert Comes(items[i - 1], items[i]);
      AscendingFrom(items, i - 1);
    }
  }

  lemma {:induction false} AscendingTo(items: seq<DoneItem>, i: nat)
    requires Ascending(items) && i < |items| && (forall d | d in items :: d.outputIndex.Some? && d.outputIndex.value < |items|)
    ensures items[i].outputIndex.Some? && items[i].outputIndex.value <= i
    decreases |items| - i
  {
    assert items[i] in items;
    if i < |items| - 1 {
      assert Comes(items[i], items[i + 1]);
      AscendingTo(items, i + 1);
    }
  }

  /** When the completed output is empty, done items with the output indexes 0 to n-1, each once and in whatever order
      they came, always give terminal items: at place k the item that was done with index k. */
  lemma DoneInAnyOrder(s: State)
    requires s.completedOutput == Some([]) && PlacedApart(s.doneItems)
    requires forall d | d in s.doneItems :: d.outputIndex.Some? && d.outputIndex.value < |s.doneItems|
    ensures TerminalItems(s).items.Some? && |TerminalItems(s).items.value| == |s.doneItems|
    ensures var items := TerminalItems(s).items.value;
      forall d | d in s.doneItems :: d.outputIndex.value < |items|
        && items[d.outputIndex.value] == TerminalItem(d.item, d.outputIndex.value, TrustedSignature(d.item, d.item))
  {
    var sorted := SortDone(s.doneItems);
    SortAscends(s.doneItems);
    hide SortDone;
    forall i: nat | i < |sorted| ensures sorted[i].outputIndex == Some(i) {
      AscendingTo(sorted, i);
      AscendingFrom(sorted, i);
    }
    forall d | d in s.doneItems ensures sorted[d.outputIndex.value] == d {
      var i :| 0 <= i < |sorted| && sorted[i] == d;
    }
  }

  ghost predicate IsDoneAt(s: State, item: Item, k: nat) {
    exists d :: d in s.doneItems && d.outputIndex == Some(k) && item == d.item
  }

  lemma FromCompleted(s: State)
    requires TerminalItems(s).items.Some? && s.completedOutput.value != []
    ensures var items, completed := TerminalItems(s).items.value, s.completedOutput.value;
      && |items| == |completed| && (forall k: nat | k < |items| :: items[k].item == completed[k])
      && forall i: nat | i < |s.doneItems| :: MatchedIn(completed, s.doneItems[i])
  {
    hide MatchAll;
    MatchedIsCompleted(s.doneItems, s.completedOutput.value);
    Pigeonhole(MatchAll(s.doneItems, s.completedOutput.value).consumed, |s.doneItems|);
  }

  lemma FromDoneItems(s: State)
    requires TerminalItems(s).items.Some? && s.completedOutput.value == []
    ensures var items := TerminalItems(s).items.value;
      |items| == |s.doneItems| && forall k: nat | k < |items| :: IsDoneAt(s, items[k].item, k)
  {
    hide SortDone;
    var items, sorted := TerminalItems(s).items.value, SortDone(s.doneItems);
    SortIsAll(s.doneItems);
    assert |sorted| == |multiset(sorted)| == |s.doneItems|;
    forall k: nat | k < |items| ensures IsDoneAt(s, items[k].item, k) {
      assert sorted[k] in multiset(sorted);
      assert sorted[k] in s.doneItems;
    }
  }

  /** What a projection is compared with: the completed output, every done item being matched in it, or, when
      that is empty, the done items in the order of their output indexes. */
  lemma TerminalIsTheOutput(s: State)
    requires TerminalItems(s).items.Some?
    ensures s.completedOutput.Some?
    ensures var items, completed := TerminalItems(s).items.value, s.completedOutput.value;
      if completed != [] then
        && |items| == |completed| && (forall k: nat | k < |items| :: items[k].item == completed[k])
        && forall i: nat | i < |s.doneItems| :: MatchedIn(completed, s.doneItems[i])
      else |items| == |s.doneItems| && forall k: nat | k < |items| :: IsDoneAt(s, items[k].item, k)
  {
    assert s.completedOutput.Some?;
    hide TerminalItems, MatchedIn, IsDoneAt;
    if s.completedOutput.value != [] { FromCompleted(s); } else { FromDoneItems(s); }
  }

  // ----- the loops of the completed projection

  lemma MatchOneMore(doneItems: seq<DoneItem>, completed: seq<Item>, k: nat)
    requires k < |completed|
    ensures MatchAll(doneItems, completed[..k + 1]) == MatchOne(doneItems, MatchAll(doneItems, completed[..k]), completed[k], k)
  {
    assert completed[..k + 1][..k] == completed[..k];
  }

  /** A matching that has failed stays failed. */
  lemma {:induction false} MatchStops(doneItems: seq<DoneItem>, completed: seq<Item>, k: nat)
    requires k <= |completed| && MatchAll(doneItems, completed[..k]).NoMatching?
    ensures MatchAll(doneItems, completed) == MatchAll(doneItems, completed[..k])
    decreases |completed| - k
  {
    if k < |completed| {
      MatchOneMore(doneItems, completed, k);
      MatchStops(doneItems, completed, k + 1);
    } else {
      assert completed[..k] == completed;
    }
  }

  method MatchCompleted(doneItems: seq<DoneItem>, completed: seq<Item>) returns (m: Matching)
    ensures m == MatchAll(doneItems, completed)
  {
    var consumed: set<nat>, result: seq<TerminalItem> := {}, [];
    for k := 0 to |completed|
      invariant MatchAll(doneItems, completed[..k]) == Matching(consumed, result)
    {
      MatchOneMore(doneItems, completed, k);
      var matches := Matches(doneItems, consumed, completed[k], k, |doneItems|);
      if |matches| > 1 {
        MatchStops(doneItems, completed, k + 1);
        return NoMatching("completed_done_match_ambiguous");
      }
      var trusted: Option<string> := None;
      if |matches| == 1 {
        assert matches[0] in matches;
        var done := doneItems[matches[0]].item;
        if completed[k].rest != done.rest {
          MatchStops(doneItems, completed, k + 1);
          return NoMatching("completed_done_item_conflict");
        }
        consumed := consumed + {matches[0]};
        trusted := TrustedSignature(completed[k], done);
      }
      result := result + [TerminalItem(completed[k], k, trusted)];
    }
    assert completed[..|completed|] == completed;
    return Matching(consumed, result);
  }

  lemma CountOneMore(items: seq<TerminalItem>, k: nat, kind: string)
    requires k < |items|
    ensures CountKind(items[..k + 1], kind) == CountKind(items[..k], kind) + (if items[k].item.kind == kind then 1 else 0)
  {
    assert items[..k + 1][..k] == items[..k];
  }

  method ValidateTerminalProjection(s: State, items: seq<TerminalItem>) returns (problem: Option<string>)
    ensures problem == Problem(s, items)
  {
    if !CountsAgree(s, items) { return Some("terminal_member_count_mismatch"); }
    hide ReasoningFor, CountsAgree;
    var functionIndex := 0;
    for k := 0 to |items|
      invariant functionIndex == CountKind(items[..k], "function_call")
      invariant ProblemFrom(s, items, 0) == ProblemFrom(s, items, k)
    {
      CountOneMore(items, k, "function_call");
      var entry := items[k];
      if entry.item.kind == "reasoning" {
        var i := ReasoningFor(s, entry);
        if i == None || i.value >= |s.reasoningItems| || entry.item.summary != Some(s.reasoningItems[i.value].text) {
          return Some("reasoning_terminal_revision_conflict");
        }
        if entry.trustedSignature != s.reasoningItems[i.value].signature { return Some("reasoning_terminal_signature_conflict"); }
        continue;
      }
      if entry.item.kind == "message" {
        if entry.item.text != Some(s.visibleText) { return Some("message_terminal_revision_conflict"); }
        continue;
      }
      if entry.item.kind == "function_call" {
        if functionIndex >= |s.functionCalls| || entry.item.call != Some(s.functionCalls[functionIndex]) {
          return Some("function_call_terminal_conflict");
        }
        functionIndex := functionIndex + 1;
        continue;
      }
      return Some("terminal_member_unrepresentable");
    }
    return None;
  }
}
