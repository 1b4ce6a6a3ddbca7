/** The task list that tool calls build up: a keyed map with order numbers that must behave as a plain list
    (shared/taskListProjection.ts, lines 89-143, 350-399 and 462-516). */
module TaskList {
  import opened Options

  type Key = string

  datatype Status = Pending | InProgress | Completed | Blocked | Cancelled
  datatype Input = Input(title: string, description: Option<string>, status: Option<Status>, delete: bool)
  datatype Operation = Operation(rewrite: bool, items: seq<Input>)

  datatype Item = Item(key: Key, title: string, description: Option<string>, status: Status,
                       createdOrder: int, updatedOrder: int, sourceToolCallId: string)
  datatype Stats = Stats(total: nat, pending: nat, inProgress: nat, completed: nat, blocked: nat, cancelled: nat, open: nat)
  datatype Snapshot = Snapshot(items: seq<Item>, stats: Stats, activeItem: Option<Item>)

  /** Collapses white space, trims and lowers the case of a title. */
  type Titles = string -> Key

  // ----- the plain list

  /** A task without its order numbers. */
  datatype Task = Task(key: Key, title: string, description: Option<string>, status: Status)

  function IndexOf(tasks: seq<Task>, key: Key): (r: Option<nat>)
    ensures r.Some? ==> r.value < |tasks| && tasks[r.value].key == key
    ensures r == None <==> forall i | 0 <= i < |tasks| :: tasks[i].key != key
  {
    if tasks == [] then None
    else if tasks[0].key == key then Some(0)
    else
      var later := IndexOf(tasks[1..], key);
      if later.Some? then Some(later.value + 1) else None
  }

  function Without(tasks: seq<Task>, key: Key): seq<Task> {
    if tasks == [] then []
    else if tasks[|tasks| - 1].key == key then Without(tasks[..|tasks| - 1], key)
    else Without(tasks[..|tasks| - 1], key) + [tasks[|tasks| - 1]]
  }

  function Put(tasks: seq<Task>, task: Task): seq<Task> {
    var i := IndexOf(tasks, task.key);
    if i.Some? then tasks[i.value := task] else tasks + [task]
  }

  function Existing(tasks: seq<Task>, key: Key): Option<Task> {
    var i := IndexOf(tasks, key);
    if i.Some? then Some(tasks[i.value]) else None
  }

  function OrElse<T>(first: Option<T>, second: Option<T>): Option<T> {
    if first.Some? then first else second
  }

  /** The task an input writes over the one that is there. */
  function Written(existing: Option<Task>, key: Key, input: Input): Task {
    Task(key, input.title, OrElse(input.description, if existing.Some? then existing.value.description else None),
         OrElse(input.status, if existing.Some? then Some(existing.value.status) else Some(Pending)).value)
  }

  /** The list so far, and the last task an input left in progress. */
  datatype Progress = Progress(tasks: seq<Task>, active: Option<Key>)

  function ApplyInput(titles: Titles, p: Progress, input: Input): Progress {
    var key := titles(input.title);
    if input.delete then p.(tasks := Without(p.tasks, key))
    else
      var task := Written(Existing(p.tasks, key), key, input);
      Progress(Put(p.tasks, task), if task.status == InProgress then Some(key) else p.active)
  }

  function ApplyInputs(titles: Titles, tasks: seq<Task>, inputs: seq<Input>): Progress {
    if inputs == [] then Progress(tasks, None)
    else ApplyInput(titles, ApplyInputs(titles, tasks, inputs[..|inputs| - 1]), inputs[|inputs| - 1])
  }

  function Demote(task: Task, active: Key): Task {
    if task.key != active && task.status == InProgress then task.(status := Pending) else task
  }

  /** The empty string is no key here, as in the source's truth test. */
  function Settle(p: Progress): seq<Task> {
    if p.active == None || p.active.value == "" then p.tasks
    else seq(|p.tasks|, i requires 0 <= i < |p.tasks| => Demote(p.tasks[i], p.active.value))
  }

  function Apply(titles: Titles, tasks: seq<Task>, operation: Operation): seq<Task> {
    Settle(ApplyInputs(titles, if operation.rewrite then [] else tasks, operation.items))
  }

  function Replay(titles: Titles, tasks: seq<Task>, operations: seq<Operation>): seq<Task> {
    if operations == [] then tasks
    else Apply(titles, Replay(titles, tasks, operations[..|operations| - 1]), operations[|operations| - 1])
  }

  // ----- what every run of the plain list keeps

  ghost predicate DistinctKeys(tasks: seq<Task>) {
    forall i: nat, j: nat | i < j < |tasks| :: tasks[i].key != tasks[j].key
  }

  ghost predicate AtMostOneActive(tasks: seq<Task>) {
    forall i: nat, j: nat | i < j < |tasks| :: !(tasks[i].status == InProgress && tasks[j].status == InProgress)
  }

  lemma {:induction false} WithoutMembers(tasks: seq<Task>, key: Key)
    ensures forall t :: t in Without(tasks, key) <==> t in tasks && t.key != key
  {
    if tasks != [] {
      WithoutMembers(tasks[..|tasks| - 1], key);
      assert tasks == tasks[..|tasks| - 1] + [tasks[|tasks| - 1]];
    }
  }

  lemma {:induction false} WithoutFacts(tasks: seq<Task>, key: Key)
    ensures DistinctKeys(tasks) ==> DistinctKeys(Without(tasks, key))
    ensures AtMostOneActive(tasks) ==> AtMostOneActive(Without(tasks, key))
  {
    if tasks != [] {
      var n := |tasks| - 1;
      WithoutFacts(tasks[..n], key);
      WithoutMembers(tasks[..n], key);
      var front := Without(tasks[..n], key);
      forall i: nat | i < |front| ensures exists k: nat :: k < n && front[i] == tasks[k] {
        assert front[i] in front;
        var k :| 0 <= k < n && tasks[..n][k] == front[i];
        assert front[i] == tasks[k];
      }
    }
  }

  /** While the inputs are applied, either no input left a task in progress and at most one was so before, or
      one did, and it is the one that will be kept. */
  ghost predicate OneActiveSoFar(p: Progress) {
    DistinctKeys(p.tasks) && (p.active == None ==> AtMostOneActive(p.tasks))
  }

  lemma InputKeepsOne(titles: Titles, p: Progress, input: Input)
    requires OneActiveSoFar(p)
    ensures OneActiveSoFar(ApplyInput(titles, p, input))
  {
    WithoutFacts(p.tasks, titles(input.title));
  }

  lemma {:induction false} InputsKeepOne(titles: Titles, tasks: seq<Task>, inputs: seq<Input>)
    requires DistinctKeys(tasks) && AtMostOneActive(tasks)
    ensures OneActiveSoFar(ApplyInputs(titles, tasks, inputs))
  {
    if inputs != [] {
      InputsKeepOne(titles, tasks, inputs[..|inputs| - 1]);
      InputKeepsOne(titles, ApplyInputs(titles, tasks, inputs[..|inputs| - 1]), inputs[|inputs| - 1]);
    }
  }

  ghost predicate Titled(titles: Titles, operation: Operation) {
    forall i | 0 <= i < |operation.items| :: titles(operation.items[i].title) != ""
  }

  lemma {:induction false} ActiveIsTitled(titles: Titles, tasks: seq<Task>, inputs: seq<Input>)
    requires forall i | 0 <= i < |inputs| :: titles(inputs[i].title) != ""
    ensures ApplyInputs(titles, tasks, inputs).active != Some("")
  {
    if inputs != [] {
      assert forall i | 0 <= i < |inputs| - 1 :: inputs[..|inputs| - 1][i] == inputs[i];
      ActiveIsTitled(titles, tasks, inputs[..|inputs| - 1]);
    }
  }

  /** Keys stay distinct, and when every title has a key at most one task is in progress. */
  lemma ApplyKeepsOne(titles: Titles, tasks: seq<Task>, operation: Operation)
    requires DistinctKeys(tasks) && AtMostOneActive(tasks)
    ensures DistinctKeys(Apply(titles, tasks, operation))
    ensures Titled(titles, operation) ==> AtMostOneActive(Apply(titles, tasks, operation))
  {
    var start := if operation.rewrite then [] else tasks;
    InputsKeepOne(titles, start, operation.items);
    if Titled(titles, operation) { ActiveIsTitled(titles, start, operation.items); }
  }

  lemma {:induction false} ReplayKeepsOne(titles: Titles, operations: seq<Operation>)
    requires forall i | 0 <= i < |operations| :: Titled(titles, operations[i])
    ensures DistinctKeys(Replay(titles, [], operations)) && AtMostOneActive(Replay(titles, [], operations))
  {
    if operations != [] {
      var n := |operations| - 1;
      assert forall i | 0 <= i < n :: operations[..n][i] == operations[i];
      ReplayKeepsOne(titles, operations[..n]);
      ApplyKeepsOne(titles, Replay(titles, [], operations[..n]), operations[n]);
    }
  }

  /** A title without a key can leave two tasks in progress; the parser refuses such titles. */
  lemma UntitledBreaksOne(titles: Titles, title: string, other: string)
    requires titles(title) == "" && titles(other) != ""
    ensures var tasks := [Task(titles(other), other, None, InProgress)];
      !AtMostOneActive(Apply(titles, tasks, Operation(false, [Input(title, None, Some(InProgress), false)])))
  {
    var tasks := [Task(titles(other), other, None, InProgress)];
    var inputs := [Input(title, None, Some(InProgress), false)];
    assert inputs[..0] == [] && ApplyInputs(titles, tasks, []) == Progress(tasks, None);
    assert Existing(tasks, "") == None;
    var after := ApplyInputs(titles, tasks, inputs).tasks;
    assert after == tasks + [Task("", title, None, InProgress)];
    assert after[0].status == InProgress && after[1].status == InProgress;
  }

  /** Only allowed titles occur in the operations. */
  ghost predicate Allowed(allowed: iset<string>, operations: seq<Operation>) {
    forall k, i | 0 <= k < |operations| && 0 <= i < |operations[k].items| :: operations[k].items[i].title in allowed
  }

  lemma {:induction false} KeysOfInputs(titles: Titles, tasks: seq<Task>, inputs: seq<Input>)
    requires (forall i | 0 <= i < |tasks| :: tasks[i].key == "") && forall i | 0 <= i < |inputs| :: titles(inputs[i].title) == ""
    ensures forall t | t in ApplyInputs(titles, tasks, inputs).tasks :: t.key == ""
  {
    if inputs != [] {
      var n := |inputs| - 1;
      assert forall i | 0 <= i < n :: inputs[..n][i] == inputs[i];
      KeysOfInputs(titles, tasks, inputs[..n]);
      WithoutMembers(ApplyInputs(titles, tasks, inputs[..n]).tasks, "");
    }
  }

  lemma {:induction false} KeysOfReplay(titles: Titles, operations: seq<Operation>, allowed: iset<string>)
    requires Allowed(allowed, operations) && forall title | title in allowed :: titles(title) == ""
    ensures DistinctKeys(Replay(titles, [], operations)) && AtMostOneActive(Replay(titles, [], operations))
    ensures forall i | 0 <= i < |Replay(titles, [], operations)| :: Replay(titles, [], operations)[i].key == ""
  {
    if operations != [] {
      var n := |operations| - 1;
      assert forall k | 0 <= k < n :: operations[..n][k] == operations[k];
      KeysOfReplay(titles, operations[..n], allowed);
      var before, last := Replay(titles, [], operations[..n]), operations[n];
      KeysOfInputs(titles, if last.rewrite then [] else before, last.items);
      ApplyKeepsOne(titles, before, last);
    }
  }

  /** Whether every run of operations with allowed titles keeps at most one task in progress: exactly when no allowed
      title lacks a key, or all of them do. */
  lemma OneActiveExactly(titles: Titles, allowed: iset<string>)
    ensures (forall operations | Allowed(allowed, operations) :: AtMostOneActive(Replay(titles, [], operations)))
       <==> (forall title | title in allowed :: titles(title) != "") || (forall title | title in allowed :: titles(title) == "")
  {
    if forall title | title in allowed :: titles(title) != "" {
      forall operations | Allowed(allowed, operations) ensures AtMostOneActive(Replay(titles, [], operations)) {
        ReplayKeepsOne(titles, operations);
      }
    } else if forall title | title in allowed :: titles(title) == "" {
      forall operations | Allowed(allowed, operations) ensures AtMostOneActive(Replay(titles, [], operations)) {
        KeysOfReplay(titles, operations, allowed);
      }
    } else {
      var title :| title in allowed && titles(title) == "";
      var other :| other in allowed && titles(other) != "";
      UntitledRun(titles, title, other);
      assert Allowed(allowed, [Starting(other), Starting(title)]);
    }
  }

  function Starting(title: string): Operation {
    Operation(false, [Input(title, None, Some(InProgress), false)])
  }

  lemma UntitledRun(titles: Titles, title: string, other: string)
    requires titles(title) == "" && titles(other) != ""
    ensures !AtMostOneActive(Replay(titles, [], [Starting(other), Starting(title)]))
  {
    var first, both := [Starting(other)], [Starting(other), Starting(title)];
    assert first[..0] == [] && both[..1] == first && Starting(other).items[..0] == [];
    assert ApplyInputs(titles, [], []) == Progress([], None);
    assert Replay(titles, [], first) == [Task(titles(other), other, None, InProgress)];
    UntitledBreaksOne(titles, title, other);
  }

  /** Replaying a tail on a saved list is replaying everything. */
  lemma {:induction false} ReplayInTwo(titles: Titles, tasks: seq<Task>, a: seq<Operation>, b: seq<Operation>)
    ensures Replay(titles, tasks, a + b) == Replay(titles, Replay(titles, tasks, a), b)
  {
    if b == [] {
      assert a + b == a;
    } else {
      ReplayInTwo(titles, tasks, a, b[..|b| - 1]);
      assert (a + b)[..|a + b| - 1] == a + b[..|b| - 1];
    }
  }

  // ----- the keyed items

  function TaskOf(item: Item): Task {
    Task(item.key, item.title, item.description, item.status)
  }

  function Strip(items: seq<Item>): seq<Task> {
    seq(|items|, i requires 0 <= i < |items| => TaskOf(items[i]))
  }

  /** The order numbers grow along the list, below the bound. */
  ghost predicate Increasing(items: seq<Item>, bound: int) {
    && (forall i: nat, j: nat | i < j < |items| :: items[i].createdOrder < items[j].createdOrder)
    && (forall i | 0 <= i < |items| :: items[i].createdOrder < bound)
  }

  ghost predicate InItsOrder(items: seq<Item>) {
    DistinctKeys(Strip(items)) && forall i: nat, j: nat | i < j < |items| :: items[i].createdOrder < items[j].createdOrder
  }

  /** A map by key whose entries stay in the order in which their keys were first set. */
  class InsertionMap {
    var entries: seq<Item>

    ghost predicate Valid()
      reads this
    {
      DistinctKeys(Strip(entries))
    }

    constructor ()
      ensures Valid() && entries == []
    {
      entries := [];
    }

    method Get(key: Key) returns (found: Option<nat>)
      ensures found == IndexOf(Strip(entries), key)
    {
      found := IndexOf(Strip(entries), key);
    }

    /** A key that is there keeps its place; a new one goes to the end. */
    method Set(item: Item)
      requires Valid()
      modifies this
      ensures Valid()
      ensures Strip(entries) == Put(old(Strip(entries)), TaskOf(item))
      ensures var found := IndexOf(old(Strip(entries)), item.key);
        entries == if found.Some? then old(entries)[found.value := item] else old(entries) + [item]
    {
      var found := Get(item.key);
      PutKeepsDistinct(Strip(entries), TaskOf(item));
      entries := if found.Some? then entries[found.value := item] else entries + [item];
      assert Strip(entries) == Put(old(Strip(entries)), TaskOf(item));
    }

    method Delete(key: Key)
      requires Valid()
      modifies this
      ensures Valid()
      ensures Strip(entries) == Without(old(Strip(entries)), key)
      ensures var found := IndexOf(old(Strip(entries)), key);
        entries == if found.Some? then old(entries)[..found.value] + old(entries)[found.value + 1..] else old(entries)
    {
      var found := Get(key);
      WithoutFacts(Strip(entries), key);
      if found.Some? {
        WithoutAt(Strip(entries), key, found.value);
        StripCut(entries, found.value);
        entries := entries[..found.value] + entries[found.value + 1..];
      } else {
        WithoutNone(Strip(entries), key);
      }
    }
  }

  lemma PutKeepsDistinct(tasks: seq<Task>, task: Task)
    requires DistinctKeys(tasks)
    ensures DistinctKeys(Put(tasks, task))
  {}

  lemma StripCut(items: seq<Item>, i: nat)
    requires i < |items|
    ensures Strip(items[..i] + items[i + 1..]) == Strip(items)[..i] + Strip(items)[i + 1..]
  {}

  lemma {:induction false} WithoutAt(tasks: seq<Task>, key: Key, i: nat)
    requires DistinctKeys(tasks) && i < |tasks| && tasks[i].key == key
    ensures Without(tasks, key) == tasks[..i] + tasks[i + 1..]
  {
    var n := |tasks| - 1;
    if i == n {
      WithoutNone(tasks[..n], key);
      assert tasks[..i] + tasks[i + 1..] == tasks[..n];
    } else {
      WithoutAt(tasks[..n], key, i);
      assert tasks[i].key != tasks[n].key;
      assert tasks[..i] + tasks[i + 1..] == tasks[..n][..i] + tasks[..n][i + 1..] + [tasks[n]];
    }
  }

  lemma {:induction false} WithoutNone(tasks: seq<Task>, key: Key)
    requires forall i | 0 <= i < |tasks| :: tasks[i].key != key
    ensures Without(tasks, key) == tasks
  {
    if tasks != [] {
      WithoutNone(tasks[..|tasks| - 1], key);
      assert tasks == tasks[..|tasks| - 1] + [tasks[|tasks| - 1]];
    }
  }

  // ----- order numbers

  lemma ReplaceKeepsOrder(items: seq<Item>, i: nat, item: Item, bound: int)
    requires Increasing(items, bound) && i < |items| && item.createdOrder == items[i].createdOrder
    ensures Increasing(items[i := item], bound)
  {}

  lemma AppendKeepsOrder(items: seq<Item>, item: Item, bound: int)
    requires Increasing(items, bound) && item.createdOrder == bound
    ensures Increasing(items + [item], bound + 1)
  {}

  lemma CutKeepsOrder(items: seq<Item>, i: nat, bound: int)
    requires Increasing(items, bound) && i < |items|
    ensures Increasing(items[..i] + items[i + 1..], bound)
  {}

  method MaxCreatedOrder(items: seq<Item>) returns (max: int)
    ensures -1 <= max && forall i | 0 <= i < |items| :: items[i].createdOrder <= max
    ensures max == -1 || exists i: nat :: i < |items| && items[i].createdOrder == max
  {
    max := -1;
    for k := 0 to |items|
      invariant -1 <= max && forall i | 0 <= i < k :: items[i].createdOrder <= max
      invariant max == -1 || exists i: nat :: i < |items| && items[i].createdOrder == max
    {
      if items[k].createdOrder > max { max := items[k].createdOrder; }
    }
  }

  // ----- the snapshot

  function Count(items: seq<Item>, status: Status): nat {
    if items == [] then 0 else Count(items[..|items| - 1], status) + (if items[|items| - 1].status == status then 1 else 0)
  }

  ghost predicate StatsOf(stats: Stats, items: seq<Item>) {
    && stats.total == |items|
    && stats.pending == Count(items, Pending) && stats.inProgress == Count(items, InProgress)
    && stats.completed == Count(items, Completed) && stats.blocked == Count(items, Blocked) && stats.cancelled == Count(items, Cancelled)
    && stats.open + stats.completed + stats.cancelled == stats.total
  }

  /** The five counts add up to the total, and the open tasks are those that are not completed or cancelled. */
  lemma {:induction false} StatsAddUp(items: seq<Item>)
    ensures Count(items, Pending) + Count(items, InProgress) + Count(items, Completed) + Count(items, Blocked) + Count(items, Cancelled) == |items|
  {
    if items != [] { StatsAddUp(items[..|items| - 1]); }
  }

  method ComputeStats(items: seq<Item>) returns (stats: Stats)
    ensures StatsOf(stats, items)
  {
    stats := Stats(|items|, 0, 0, 0, 0, 0, 0);
    for i := 0 to |items|
      invariant stats.total == |items|
      invariant stats.pending == Count(items[..i], Pending) && stats.inProgress == Count(items[..i], InProgress)
      invariant stats.completed == Count(items[..i], Completed) && stats.blocked == Count(items[..i], Blocked)
      invariant stats.cancelled == Count(items[..i], Cancelled) && stats.open + stats.completed + stats.cancelled == i
    {
      assert items[..i + 1][..i] == items[..i];
      var status := items[i].status;
      if status == Pending { stats := stats.(pending := stats.pending + 1); }
      if status == InProgress { stats := stats.(inProgress := stats.inProgress + 1); }
      if status == Completed { stats := stats.(completed := stats.completed + 1); }
      if status == Blocked { stats := stats.(blocked := stats.blocked + 1); }
      if status == Cancelled { stats := stats.(cancelled := stats.cancelled + 1); }
      if status != Completed && status != Cancelled { stats := stats.(open := stats.open + 1); }
    }
    assert items[..|items|] == items;
  }

  /** The rank of a title in the comparison that breaks ties. */
  type Ranks = string -> int

  function Insert(item: Item, sorted: seq<Item>, ranks: Ranks): seq<Item> {
    if sorted == [] || item.createdOrder < sorted[0].createdOrder
       || (item.createdOrder == sorted[0].createdOrder && ranks(item.title) <= ranks(sorted[0].title))
    then [item] + sorted
    else [sorted[0]] + Insert(item, sorted[1..], ranks)
  }

  /** A stable sort, as Array.prototype.sort is. */
  function Sort(items: seq<Item>, ranks: Ranks): seq<Item> {
    if items == [] then [] else Insert(items[0], Sort(items[1..], ranks), ranks)
  }

  predicate Before(a: Item, b: Item, ranks: Ranks) {
    a.createdOrder < b.createdOrder || (a.createdOrder == b.createdOrder && ranks(a.title) <= ranks(b.title))
  }

  ghost predicate Sorted(items: seq<Item>, ranks: Ranks) {
    forall i: nat, j: nat | i < j < |items| :: Before(items[i], items[j], ranks)
  }

  /** The items that compare equal to one with this order number and rank, as they come. */
  function Ties(items: seq<Item>, createdOrder: int, rank: int, ranks: Ranks): seq<Item> {
    if items == [] then []
    else (if items[0].createdOrder == createdOrder && ranks(items[0].title) == rank then [items[0]] else []) + Ties(items[1..], createdOrder, rank, ranks)
  }

  lemma {:induction false} InsertSorts(item: Item, sorted: seq<Item>, ranks: Ranks)
    requires Sorted(sorted, ranks)
    ensures Sorted(Insert(item, sorted, ranks), ranks)
    ensures forall x :: x in Insert(item, sorted, ranks) <==> x in sorted || x == item
  {
    if sorted != [] {
      InsertSorts(item, sorted[1..], ranks);
      assert sorted == [sorted[0]] + sorted[1..];
      forall x | x in sorted ensures Before(sorted[0], x, ranks) {
        var i :| 0 <= i < |sorted| && sorted[i] == x;
      }
    }
  }

  lemma {:induction false} InsertGoesFirst(item: Item, sorted: seq<Item>, createdOrder: int, rank: int, ranks: Ranks)
    ensures Ties(Insert(item, sorted, ranks), createdOrder, rank, ranks) == Ties([item] + sorted, createdOrder, rank, ranks)
  {
    assert ([item] + sorted)[1..] == sorted;
    if sorted != [] && Insert(item, sorted, ranks) != [item] + sorted {
      InsertGoesFirst(item, sorted[1..], createdOrder, rank, ranks);
      assert ([item] + sorted[1..])[1..] == sorted[1..];
      assert ([sorted[0]] + Insert(item, sorted[1..], ranks))[1..] == Insert(item, sorted[1..], ranks);
    }
  }

  /** The result is in order, and items that compare equal keep their order, so nothing is lost or added. */
  lemma {:induction false} SortIsStable(items: seq<Item>, createdOrder: int, rank: int, ranks: Ranks)
    ensures Sorted(Sort(items, ranks), ranks)
    ensures Ties(Sort(items, ranks), createdOrder, rank, ranks) == Ties(items, createdOrder, rank, ranks)
  {
    if items != [] {
      var rest := Sort(items[1..], ranks);
      SortIsStable(items[1..], createdOrder, rank, ranks);
      InsertSorts(items[0], rest, ranks);
      InsertGoesFirst(items[0], rest, createdOrder, rank, ranks);
      assert ([items[0]] + rest)[1..] == rest;
    }
  }

  lemma {:induction false} SortKeepsOrder(items: seq<Item>, ranks: Ranks)
    requires forall i: nat, j: nat | i < j < |items| :: items[i].createdOrder < items[j].createdOrder
    ensures Sort(items, ranks) == items
  {
    if items != [] {
      SortKeepsOrder(items[1..], ranks);
      assert items == [items[0]] + items[1..];
    }
  }

  /** The item at i is the first one in progress. */
  predicate IsFirstActive(items: seq<Item>, i: nat) {
    i < |items| && items[i].status == InProgress && forall j: nat | j < i :: items[j].status != InProgress
  }

  /** The counts are those of the items, and the active item is the first one in progress. */
  ghost predicate ShowsItems(snapshot: Snapshot) {
    && StatsOf(snapshot.stats, snapshot.items)
    && (snapshot.activeItem == None ==> forall i | 0 <= i < |snapshot.items| :: snapshot.items[i].status != InProgress)
    && (snapshot.activeItem.Some? ==> exists i: nat :: IsFirstActive(snapshot.items, i) && snapshot.items[i] == snapshot.activeItem.value)
  }

  ghost predicate IsSnapshot(snapshot: Snapshot) {
    InItsOrder(snapshot.items) && ShowsItems(snapshot)
  }

  /** What is shown is the sorted list, its counts, and the first task in progress. */
  method SnapshotFromItems(items: seq<Item>, ranks: Ranks) returns (snapshot: Snapshot)
    ensures Sorted(snapshot.items, ranks)
    ensures forall createdOrder, rank :: Ties(snapshot.items, createdOrder, rank, ranks) == Ties(items, createdOrder, rank, ranks)
    ensures ShowsItems(snapshot)
    ensures InItsOrder(items) ==> snapshot.items == items && IsSnapshot(snapshot)
  {
    hide Ties, Sorted, Insert;
    var sorted := Sort(items, ranks);
    forall createdOrder, rank ensures Ties(sorted, createdOrder, rank, ranks) == Ties(items, createdOrder, rank, ranks) {
      SortIsStable(items, createdOrder, rank, ranks);
    }
    SortIsStable(items, 0, 0, ranks);
    if InItsOrder(items) { SortKeepsOrder(items, ranks); }
    hide Sort, InItsOrder, StatsOf;
    var stats := ComputeStats(sorted);
    var active: Option<Item> := None;
    var i := 0;
    while i < |sorted| && active == None
      invariant i <= |sorted|
      invariant active == None ==> forall j | 0 <= j < i :: sorted[j].status != InProgress
      invariant active.Some? ==> exists j: nat :: IsFirstActive(sorted, j) && sorted[j] == active.value
      decreases |sorted| - i
    {
      if sorted[i].status == InProgress {
        active := Some(sorted[i]);
        assert IsFirstActive(sorted, i);
      }
      i := i + 1;
    }
    return Snapshot(sorted, stats, active);
  }

  // ----- one operation

  method ApplyTaskListOperationToSnapshot(snapshot: Snapshot, operation: Operation, operationIndex: nat, toolCallId: string, titles: Titles, ranks: Ranks)
    returns (after: Snapshot)
    requires IsSnapshot(snapshot)
    ensures IsSnapshot(after)
    ensures Strip(after.items) == Apply(titles, Strip(snapshot.items), operation)
  {
    var byKey := new InsertionMap();
    if !operation.rewrite { LoadItems(byKey, snapshot.items); }
    ghost var start := if operation.rewrite then [] else Strip(snapshot.items);
    assert Strip(byKey.entries) == start;
    var max := MaxCreatedOrder(byKey.entries);
    var nextCreatedOrder := if operation.rewrite then operationIndex * 10000 else max + 1;
    var activeKeepKey: Option<Key>;
    StartsInOrder(byKey.entries, snapshot, nextCreatedOrder);
    hide ApplyInputs, Increasing, DistinctKeys;
    nextCreatedOrder, activeKeepKey := ApplyInputsToMap(byKey, operation.items, operationIndex * 10000, toolCallId, nextCreatedOrder, titles);
    if activeKeepKey.Some? && activeKeepKey.value != "" {
      DemoteOthers(byKey, activeKeepKey.value, operationIndex * 10000 + |operation.items|, nextCreatedOrder);
    }
    InOrder(byKey.entries, nextCreatedOrder);
    after := SnapshotFromItems(byKey.entries, ranks);
  }

  lemma StartsInOrder(entries: seq<Item>, snapshot: Snapshot, bound: int)
    requires IsSnapshot(snapshot) && (entries == [] || entries == snapshot.items)
    requires forall i | 0 <= i < |entries| :: entries[i].createdOrder < bound
    ensures Increasing(entries, bound)
  {}

  lemma InOrder(entries: seq<Item>, bound: int)
    requires DistinctKeys(Strip(entries)) && Increasing(entries, bound)
    ensures InItsOrder(entries)
  {}

  method LoadItems(byKey: InsertionMap, items: seq<Item>)
    requires byKey.Valid() && byKey.entries == [] && InItsOrder(items)
    modifies byKey
    ensures byKey.Valid() && byKey.entries == items
  {
    for i := 0 to |items|
      invariant byKey.Valid() && byKey.entries == items[..i]
    {
      NewKey(items, i);
      byKey.Set(items[i]);
    }
  }

  /** The inputs of an operation one after the other, against the map. */
  method ApplyInputsToMap(byKey: InsertionMap, inputs: seq<Input>, updatedFrom: int, toolCallId: string, nextCreatedOrder: int, titles: Titles)
    returns (nextOrder: int, active: Option<Key>)
    requires byKey.Valid() && Increasing(byKey.entries, nextCreatedOrder)
    modifies byKey
    ensures byKey.Valid() && Increasing(byKey.entries, nextOrder)
    ensures Progress(Strip(byKey.entries), active) == ApplyInputs(titles, old(Strip(byKey.entries)), inputs)
  {
    hide Increasing, DistinctKeys, ApplyInput;
    nextOrder, active := nextCreatedOrder, None;
    for i := 0 to |inputs|
      invariant byKey.Valid() && Increasing(byKey.entries, nextOrder)
      invariant Progress(Strip(byKey.entries), active) == ApplyInputs(titles, old(Strip(byKey.entries)), inputs[..i])
    {
      assert inputs[..i + 1][..i] == inputs[..i];
      nextOrder, active := ApplyInputToMap(byKey, inputs[i], updatedFrom + i, toolCallId, nextOrder, active, titles);
    }
    assert inputs[..|inputs|] == inputs;
  }

  /** One input of an operation, against the map. */
  method ApplyInputToMap(byKey: InsertionMap, input: Input, updatedOrder: int, toolCallId: string,
                         nextCreatedOrder: int, activeKeepKey: Option<Key>, titles: Titles)
    returns (nextOrder: int, active: Option<Key>)
    requires byKey.Valid() && Increasing(byKey.entries, nextCreatedOrder)
    modifies byKey
    ensures byKey.Valid() && Increasing(byKey.entries, nextOrder)
    ensures Progress(Strip(byKey.entries), active) == ApplyInput(titles, Progress(old(Strip(byKey.entries)), activeKeepKey), input)
  {
    nextOrder, active := nextCreatedOrder, activeKeepKey;
    hide Increasing, DistinctKeys;
    var key := titles(input.title);
    var found := byKey.Get(key);
    if input.delete {
      if found.Some? { CutKeepsOrder(byKey.entries, found.value, nextOrder); }
      byKey.Delete(key);
      return;
    }
    var existing := if found.Some? then Some(byKey.entries[found.value]) else None;
    var status := if input.status.Some? then input.status.value else if existing.Some? then existing.value.status else Pending;
    var description := if input.description.Some? then input.description else if existing.Some? then existing.value.description else None;
    var item := Item(key, input.title, description, status,
                     if existing.Some? then existing.value.createdOrder else nextOrder, updatedOrder, toolCallId);
    if existing.Some? {
      ReplaceKeepsOrder(byKey.entries, found.value, item, nextOrder);
    } else {
      AppendKeepsOrder(byKey.entries, item, nextOrder);
      nextOrder := nextOrder + 1;
    }
    byKey.Set(item);
    if status == InProgress { active := Some(key); }
  }

  lemma NewKey(items: seq<Item>, i: nat)
    requires InItsOrder(items) && i < |items|
    ensures IndexOf(Strip(items[..i]), items[i].key) == None && items[..i] + [items[i]] == items[..i + 1]
  {
    forall j | 0 <= j < i ensures Strip(items[..i])[j].key != items[i].key {
      assert Strip(items)[j].key != Strip(items)[i].key;
    }
  }

  /** Every task in progress but the one with this key goes back to pending. */
  method DemoteOthers(byKey: InsertionMap, key: Key, updatedOrder: int, ghost bound: int)
    requires byKey.Valid() && Increasing(byKey.entries, bound)
    modifies byKey
    ensures byKey.Valid() && Increasing(byKey.entries, bound)
    ensures Strip(byKey.entries) == seq(|old(byKey.entries)|, i requires 0 <= i < |old(byKey.entries)| => Demote(TaskOf(old(byKey.entries)[i]), key))
  {
    for i := 0 to |byKey.entries|
      invariant byKey.Valid() && |byKey.entries| == |old(byKey.entries)| && Increasing(byKey.entries, bound)
      invariant forall j | 0 <= j < |byKey.entries| ::
        TaskOf(byKey.entries[j]) == (if j < i then Demote(TaskOf(old(byKey.entries)[j]), key) else TaskOf(old(byKey.entries)[j]))
    {
      var item := byKey.entries[i];
      if item.key == key || item.status != InProgress { continue; }
      DistinctItems(byKey.entries, i);
      ReplaceKeepsOrder(byKey.entries, i, item.(status := Pending, updatedOrder := updatedOrder), bound);
      byKey.Set(item.(status := Pending, updatedOrder := updatedOrder));
    }
  }

  lemma {:induction false} DistinctTasks(tasks: seq<Task>, i: nat)
    requires DistinctKeys(tasks) && i < |tasks|
    ensures IndexOf(tasks, tasks[i].key) == Some(i)
  {
    if i > 0 {
      assert tasks[0].key != tasks[i].key;
      DistinctTasks(tasks[1..], i - 1);
    }
  }

  lemma DistinctItems(items: seq<Item>, i: nat)
    requires DistinctKeys(Strip(items)) && i < |items|
    ensures IndexOf(Strip(items), items[i].key) == Some(i)
  {
    DistinctTasks(Strip(items), i);
  }

  // ----- replaying the calls of a conversation

  /** An applied call in its place in the conversation; a call whose arguments hold no operation has None. */
  datatype Call = Call(id: string, messageSeq: int, operation: Option<Operation>)

  function Operations(calls: seq<Call>): seq<Operation> {
    if calls == [] then []
    else Operations(calls[..|calls| - 1]) + (if calls[|calls| - 1].operation.Some? then [calls[|calls| - 1].operation.value] else [])
  }

  function After(calls: seq<Call>, minSeq: int): seq<Call> {
    if calls == [] then []
    else After(calls[..|calls| - 1], minSeq) + (if calls[|calls| - 1].messageSeq > minSeq then [calls[|calls| - 1]] else [])
  }

  function UpTo(calls: seq<Call>, minSeq: int): seq<Call> {
    if calls == [] then []
    else UpTo(calls[..|calls| - 1], minSeq) + (if calls[|calls| - 1].messageSeq <= minSeq then [calls[|calls| - 1]] else [])
  }

  ghost predicate SortedCalls(calls: seq<Call>) {
    forall i: nat, j: nat | i < j < |calls| :: calls[i].messageSeq <= calls[j].messageSeq
  }

  lemma {:induction false} SplitAtSeq(calls: seq<Call>, minSeq: int)
    requires SortedCalls(calls)
    ensures calls == UpTo(calls, minSeq) + After(calls, minSeq)
    ensures After(calls, minSeq) != [] ==> calls[|calls| - 1].messageSeq > minSeq
  {
    if calls != [] {
      var n := |calls| - 1;
      SplitAtSeq(calls[..n], minSeq);
      SplitPush(calls[..n], calls[n], minSeq);
      hide UpTo, After;
      assert calls == calls[..n] + [calls[n]];
      assert After(calls[..n], minSeq) == [] ==> UpTo(calls[..n], minSeq) + [] == UpTo(calls[..n], minSeq);
      Regroup(UpTo(calls[..n], minSeq), After(calls[..n], minSeq), [calls[n]]);
    }
  }

  lemma Regroup(a: seq<Call>, b: seq<Call>, c: seq<Call>)
    ensures a + (b + c) == (a + b) + c
  {}

  lemma SplitPush(calls: seq<Call>, call: Call, minSeq: int)
    ensures UpTo(calls + [call], minSeq) == if call.messageSeq <= minSeq then UpTo(calls, minSeq) + [call] else UpTo(calls, minSeq)
    ensures After(calls + [call], minSeq) == if call.messageSeq <= minSeq then After(calls, minSeq) else After(calls, minSeq) + [call]
  {
    assert (calls + [call])[..|calls|] == calls;
    assert UpTo(calls, minSeq) + [] == UpTo(calls, minSeq) && After(calls, minSeq) + [] == After(calls, minSeq);
  }

  lemma {:induction false} OperationsJoin(a: seq<Call>, b: seq<Call>)
    ensures Operations(a + b) == Operations(a) + Operations(b)
  {
    if b == [] {
      assert a + b == a;
    } else {
      hide Operations;
      var n := |b| - 1;
      OperationsJoin(a, b[..n]);
      assert a + b == a + b[..n] + [b[n]] && b == b[..n] + [b[n]];
      OperationsPush(a + b[..n], b[n]);
      OperationsPush(b[..n], b[n]);
    }
  }

  lemma OperationsPush(calls: seq<Call>, call: Call)
    ensures Operations(calls + [call]) == Operations(calls) + if call.operation.Some? then [call.operation.value] else []
  {
    assert (calls + [call])[..|calls|] == calls;
  }

  /** Replaying the calls after a saved position on the list saved there gives the list of the full replay. */
  lemma TailReplayIsFullReplay(titles: Titles, calls: seq<Call>, minSeq: int)
    requires SortedCalls(calls)
    ensures Replay(titles, Replay(titles, [], Operations(UpTo(calls, minSeq))), Operations(After(calls, minSeq)))
      == Replay(titles, [], Operations(calls))
  {
    SplitAtSeq(calls, minSeq);
    OperationsJoin(UpTo(calls, minSeq), After(calls, minSeq));
    ReplayInTwo(titles, [], Operations(UpTo(calls, minSeq)), Operations(After(calls, minSeq)));
  }

  lemma OneMoreCall(titles: Titles, tasks: seq<Task>, calls: seq<Call>, i: nat)
    requires i < |calls|
    ensures Replay(titles, tasks, Operations(calls[..i + 1])) ==
      var before := Replay(titles, tasks, Operations(calls[..i]));
      if calls[i].operation.Some? then Apply(titles, before, calls[i].operation.value) else before
  {
    assert calls[..i + 1][..i] == calls[..i];
    var before := Operations(calls[..i]);
    if calls[i].operation.Some? {
      assert (before + [calls[i].operation.value])[..|before|] == before;
    } else {
      assert before + [] == before;
    }
  }

  /** The full replay from an empty list. */
  method BuildTaskListTimeline(calls: seq<Call>, titles: Titles, ranks: Ranks) returns (snapshot: Snapshot)
    ensures IsSnapshot(snapshot) && Strip(snapshot.items) == Replay(titles, [], Operations(calls))
  {
    snapshot := SnapshotFromItems([], ranks);
    for i := 0 to |calls|
      invariant IsSnapshot(snapshot) && Strip(snapshot.items) == Replay(titles, [], Operations(calls[..i]))
    {
      OneMoreCall(titles, [], calls, i);
      if calls[i].operation == None { continue; }
      snapshot := ApplyTaskListOperationToSnapshot(snapshot, calls[i].operation.value, i, calls[i].id, titles, ranks);
    }
    assert calls[..|calls|] == calls;
  }

  /** The first index whose order numbers are all above those in the snapshot. */
  method NextOperationIndex(snapshot: Snapshot) returns (index: nat)
    ensures forall i | 0 <= i < |snapshot.items| :: snapshot.items[i].updatedOrder < index * 10000
    ensures index == 0 || exists i: nat :: i < |snapshot.items| && (index - 1) * 10000 <= snapshot.items[i].updatedOrder
  {
    var max := -1;
    for k := 0 to |snapshot.items|
      invariant -1 <= max && forall i | 0 <= i < k :: snapshot.items[i].updatedOrder <= max
      invariant max == -1 || exists i: nat :: i < |snapshot.items| && snapshot.items[i].updatedOrder == max
    {
      if snapshot.items[k].updatedOrder > max { max := snapshot.items[k].updatedOrder; }
    }
    index := max / 10000 + 1;
  }

  /** The replay of the calls after minSeqExclusive on a saved snapshot. */
  method ApplyTaskListOperationsAfterMessageSeq(saved: Snapshot, calls: seq<Call>, minSeqExclusive: int, operationStartIndex: Option<nat>,
                                                titles: Titles, ranks: Ranks) returns (snapshot: Snapshot)
    requires IsSnapshot(saved)
    ensures IsSnapshot(snapshot) && Strip(snapshot.items) == Replay(titles, Strip(saved.items), Operations(After(calls, minSeqExclusive)))
  {
    var later: seq<Call> := [];
    for i := 0 to |calls|
      invariant later == After(calls[..i], minSeqExclusive)
    {
      assert calls[..i + 1][..i] == calls[..i];
      if calls[i].messageSeq > minSeqExclusive { later := later + [calls[i]]; }
    }
    assert calls[..|calls|] == calls;
    snapshot := SnapshotFromItems(saved.items, ranks);
    if later == [] { return; }
    var operationIndex: nat;
    if operationStartIndex.Some? {
      operationIndex := operationStartIndex.value;
    } else {
      operationIndex := NextOperationIndex(snapshot);
    }
    for i := 0 to |later|
      invariant IsSnapshot(snapshot) && Strip(snapshot.items) == Replay(titles, Strip(saved.items), Operations(later[..i]))
    {
      OneMoreCall(titles, Strip(saved.items), later, i);
      if later[i].operation == None { continue; }
      snapshot := ApplyTaskListOperationToSnapshot(snapshot, later[i].operation.value, operationIndex, later[i].id, titles, ranks);
      operationIndex := operationIndex + 1;
    }
    assert later[..|later|] == later;
  }

  // ----- the two replays side by side

  /** The same tasks in the same order, with the same counts and the same one shown as active; only the order
      numbers may differ. */
  ghost predicate SameTasks(a: Snapshot, b: Snapshot) {
    && Strip(a.items) == Strip(b.items) && a.stats == b.stats
    && (a.activeItem.Some? <==> b.activeItem.Some?)
    && (a.activeItem.Some? && b.activeItem.Some? ==> TaskOf(a.activeItem.value) == TaskOf(b.activeItem.value))
  }

  lemma {:induction false} SameCounts(a: seq<Item>, b: seq<Item>, status: Status)
    requires Strip(a) == Strip(b)
    ensures Count(a, status) == Count(b, status)
  {
    assert |a| == |Strip(a)| && |b| == |Strip(b)|;
    if a != [] {
      var n := |a| - 1;
      assert Strip(a)[n] == Strip(b)[n] && Strip(a[..n]) == Strip(a)[..n] && Strip(b[..n]) == Strip(b)[..n];
      SameCounts(a[..n], b[..n], status);
    }
  }

  lemma SnapshotsAgree(a: Snapshot, b: Snapshot)
    requires IsSnapshot(a) && IsSnapshot(b) && Strip(a.items) == Strip(b.items)
    ensures SameTasks(a, b)
  {
    assert |a.items| == |Strip(a.items)| && |b.items| == |Strip(b.items)|;
    forall i | 0 <= i < |a.items| ensures TaskOf(a.items[i]) == TaskOf(b.items[i]) {
      assert Strip(a.items)[i] == Strip(b.items)[i];
    }
    SameCounts(a.items, b.items, Pending);
    SameCounts(a.items, b.items, InProgress);
    SameCounts(a.items, b.items, Completed);
    SameCounts(a.items, b.items, Blocked);
    SameCounts(a.items, b.items, Cancelled);
  }

  /** Saving the list after the calls up to a position and replaying the later ones on it shows what the full
      replay shows, whatever index the tail starts from. */
  method ReplayBothWays(calls: seq<Call>, minSeqExclusive: int, operationStartIndex: Option<nat>, titles: Titles, ranks: Ranks)
    returns (full: Snapshot, resumed: Snapshot)
    requires SortedCalls(calls)
    ensures Strip(full.items) == Replay(titles, [], Operations(calls)) && SameTasks(resumed, full)
  {
    full := BuildTaskListTimeline(calls, titles, ranks);
    var saved := BuildTaskListTimeline(UpTo(calls, minSeqExclusive), titles, ranks);
    resumed := ApplyTaskListOperationsAfterMessageSeq(saved, calls, minSeqExclusive, operationStartIndex, titles, ranks);
    TailReplayIsFullReplay(titles, calls, minSeqExclusive);
    SnapshotsAgree(resumed, full);
  }
}
