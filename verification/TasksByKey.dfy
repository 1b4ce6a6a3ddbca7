/** What one operation on the task list does to each key, and to the order of the tasks
    (shared/taskListProjection.ts, lines 350-399). */
module TasksByKey {
  import opened Options
  import opened TaskList

  // ----- reading the inputs of an operation

  predicate Names(titles: Titles, input: Input, key: Key) {
    titles(input.title) == key
  }

  /** The last input with this key, if there is one. */
  function LastNaming(titles: Titles, inputs: seq<Input>, key: Key): (r: Option<nat>)
    ensures r.Some? ==> r.value < |inputs| && Names(titles, inputs[r.value], key)
    ensures forall i: nat | i < |inputs| && (r.Some? ==> i > r.value) :: !Names(titles, inputs[i], key)
  {
    if inputs == [] then None
    else if Names(titles, inputs[|inputs| - 1], key) then Some(|inputs| - 1)
    else LastNaming(titles, inputs[..|inputs| - 1], key)
  }

  predicate HasKey(tasks: seq<Task>, key: Key) {
    exists i: nat :: i < |tasks| && tasks[i].key == key
  }

  /** After these inputs the list has a task with the key: its last input is no deletion, or it has none and was there. */
  predicate Present(titles: Titles, tasks: seq<Task>, inputs: seq<Input>, key: Key) {
    var last := LastNaming(titles, inputs, key);
    if last.Some? then !inputs[last.value].delete else HasKey(tasks, key)
  }

  predicate Deletes(titles: Titles, inputs: seq<Input>, from: nat, key: Key) {
    exists i: nat :: from <= i < |inputs| && Names(titles, inputs[i], key) && inputs[i].delete
  }

  /** Input i adds its task at the end, and nothing deletes that task later on. */
  predicate AddsForGood(titles: Titles, tasks: seq<Task>, inputs: seq<Input>, i: nat)
    requires i < |inputs|
  {
    var key := titles(inputs[i].title);
    !inputs[i].delete && !Present(titles, tasks, inputs[..i], key) && !Deletes(titles, inputs, i + 1, key)
  }

  /** The keys that stay where they were: those no input deletes. */
  function KeptKeys(titles: Titles, tasks: seq<Task>, inputs: seq<Input>): seq<Key> {
    if tasks == [] then []
    else
      var n := |tasks| - 1;
      KeptKeys(titles, tasks[..n], inputs) + if Deletes(titles, inputs, 0, tasks[n].key) then [] else [tasks[n].key]
  }

  /** The keys the first n inputs added for good, in the order in which they did. */
  function AddedKeys(titles: Titles, tasks: seq<Task>, inputs: seq<Input>, n: nat): seq<Key>
    requires n <= |inputs|
  {
    if n == 0 then []
    else AddedKeys(titles, tasks, inputs, n - 1) + if AddsForGood(titles, tasks, inputs, n - 1) then [titles(inputs[n - 1].title)] else []
  }

  /** What becomes of the task of one key, each input taken against the one before it. */
  function TaskAfter(titles: Titles, prior: Option<Task>, inputs: seq<Input>, key: Key): Option<Task> {
    if inputs == [] then prior
    else
      var last, before := inputs[|inputs| - 1], TaskAfter(titles, prior, inputs[..|inputs| - 1], key);
      if !Names(titles, last, key) then before
      else if last.delete then None
      else
        var description := if last.description.Some? then last.description else if before.Some? then before.value.description else None;
        var status := if last.status.Some? then last.status.value else if before.Some? then before.value.status else Pending;
        Some(Task(key, last.title, description, status))
  }

  /** The key of the last input that leaves its task in progress. */
  function LastStarted(titles: Titles, tasks: seq<Task>, inputs: seq<Input>): Option<Key> {
    if inputs == [] then None
    else
      var last := inputs[|inputs| - 1];
      var key := titles(last.title);
      var after := TaskAfter(titles, Existing(tasks, key), inputs, key);
      if !last.delete && after.Some? && after.value.status == InProgress then Some(key)
      else LastStarted(titles, tasks, inputs[..|inputs| - 1])
  }

  function KeysOf(tasks: seq<Task>): seq<Key> {
    seq(|tasks|, i requires 0 <= i < |tasks| => tasks[i].key)
  }

  function Excluding(keys: seq<Key>, key: Key): seq<Key> {
    if keys == [] then []
    else Excluding(keys[..|keys| - 1], key) + if keys[|keys| - 1] == key then [] else [keys[|keys| - 1]]
  }

  // ----- one input

  lemma {:induction false} ExcludingJoin(a: seq<Key>, b: seq<Key>, key: Key)
    ensures Excluding(a + b, key) == Excluding(a, key) + Excluding(b, key)
  {
    if b == [] {
      assert a + b == a;
    } else {
      hide Excluding;
      var n := |b| - 1;
      ExcludingJoin(a, b[..n], key);
      assert a + b == a + b[..n] + [b[n]] && b == b[..n] + [b[n]];
      ExcludingPush(a + b[..n], b[n], key);
      ExcludingPush(b[..n], b[n], key);
    }
  }

  lemma ExcludingPush(keys: seq<Key>, last: Key, key: Key)
    ensures Excluding(keys + [last], key) == Excluding(keys, key) + if last == key then [] else [last]
  {
    assert (keys + [last])[..|keys|] == keys;
  }

  lemma {:induction false} WithoutKeys(tasks: seq<Task>, key: Key)
    ensures KeysOf(Without(tasks, key)) == Excluding(KeysOf(tasks), key)
  {
    if tasks != [] {
      var n := |tasks| - 1;
      WithoutKeys(tasks[..n], key);
      assert KeysOf(tasks) == KeysOf(tasks[..n]) + [tasks[n].key];
      ExcludingPush(KeysOf(tasks[..n]), tasks[n].key, key);
      hide Excluding;
      KeysPush(Without(tasks[..n], key), tasks[n]);
    }
  }

  lemma KeysPush(tasks: seq<Task>, task: Task)
    ensures KeysOf(tasks + [task]) == KeysOf(tasks) + [task.key]
  {}

  lemma PutKeys(tasks: seq<Task>, task: Task)
    ensures KeysOf(Put(tasks, task)) == if HasKey(tasks, task.key) then KeysOf(tasks) else KeysOf(tasks) + [task.key]
  {
    if IndexOf(tasks, task.key).Some? {
      assert tasks[IndexOf(tasks, task.key).value].key == task.key;
    }
  }

  lemma PutFinds(tasks: seq<Task>, task: Task, key: Key)
    requires DistinctKeys(tasks)
    ensures Existing(Put(tasks, task), key) == if key == task.key then Some(task) else Existing(tasks, key)
  {
    var after := Put(tasks, task);
    PutKeepsDistinct(tasks, task);
    var i := IndexOf(tasks, task.key);
    if key == task.key {
      if i.Some? { DistinctTasks(after, i.value); } else { DistinctTasks(after, |tasks|); }
    } else if IndexOf(tasks, key).Some? {
      assert after[IndexOf(tasks, key).value].key == key;
      DistinctTasks(after, IndexOf(tasks, key).value);
    } else {
      assert forall k | 0 <= k < |after| :: after[k].key != key;
    }
  }

  lemma FoundExactly(tasks: seq<Task>, key: Key, t: Task)
    requires DistinctKeys(tasks)
    ensures Existing(tasks, key) == Some(t) <==> t in tasks && t.key == key
  {
    if t in tasks && t.key == key {
      var i :| 0 <= i < |tasks| && tasks[i] == t;
      DistinctTasks(tasks, i);
    }
  }

  lemma WithoutFinds(tasks: seq<Task>, gone: Key, key: Key)
    requires DistinctKeys(tasks)
    ensures Existing(Without(tasks, gone), key) == if key == gone then None else Existing(tasks, key)
  {
    WithoutFacts(tasks, gone);
    WithoutMembers(tasks, gone);
    var after := Without(tasks, gone);
    hide Without;
    if Existing(tasks, key).Some? && key != gone {
      var t := Existing(tasks, key).value;
      FoundExactly(tasks, key, t);
      FoundExactly(after, key, t);
    } else if Existing(after, key).Some? {
      FoundExactly(after, key, Existing(after, key).value);
      FoundExactly(tasks, key, Existing(after, key).value);
    }
  }

  // ----- all inputs, key by key

  lemma {:induction false} InputsKeepDistinct(titles: Titles, tasks: seq<Task>, inputs: seq<Input>)
    requires DistinctKeys(tasks)
    ensures DistinctKeys(ApplyInputs(titles, tasks, inputs).tasks)
  {
    if inputs != [] {
      var n := |inputs| - 1;
      InputsKeepDistinct(titles, tasks, inputs[..n]);
      WithoutFacts(ApplyInputs(titles, tasks, inputs[..n]).tasks, titles(inputs[n].title));
    }
  }

  lemma {:induction false} InputsByKey(titles: Titles, tasks: seq<Task>, inputs: seq<Input>, key: Key)
    requires DistinctKeys(tasks)
    ensures Existing(ApplyInputs(titles, tasks, inputs).tasks, key) == TaskAfter(titles, Existing(tasks, key), inputs, key)
  {
    if inputs != [] {
      var n := |inputs| - 1;
      InputsByKey(titles, tasks, inputs[..n], key);
      InputsKeepDistinct(titles, tasks, inputs[..n]);
      InputByKey(titles, ApplyInputs(titles, tasks, inputs[..n]), inputs[n], key);
      hide ApplyInput, Existing;
    }
  }

  lemma InputByKey(titles: Titles, p: Progress, input: Input, key: Key)
    requires DistinctKeys(p.tasks)
    ensures Existing(ApplyInput(titles, p, input).tasks, key) ==
      if !Names(titles, input, key) then Existing(p.tasks, key)
      else if input.delete then None
      else Some(Written(Existing(p.tasks, key), key, input))
  {
    var own := titles(input.title);
    if input.delete {
      WithoutFinds(p.tasks, own, key);
    } else {
      PutFinds(p.tasks, Written(Existing(p.tasks, own), own, input), key);
    }
    hide Put, Without;
  }

  lemma {:induction false} InputsStart(titles: Titles, tasks: seq<Task>, inputs: seq<Input>)
    requires DistinctKeys(tasks)
    ensures ApplyInputs(titles, tasks, inputs).active == LastStarted(titles, tasks, inputs)
  {
    if inputs != [] {
      var n := |inputs| - 1;
      var before, key := ApplyInputs(titles, tasks, inputs[..n]), titles(inputs[n].title);
      InputsStart(titles, tasks, inputs[..n]);
      InputsByKey(titles, tasks, inputs[..n], key);
      hide Put, Without, Existing;
    }
  }

  // ----- all inputs, and the order of the keys

  lemma DeletesOneMore(titles: Titles, inputs: seq<Input>, from: nat, key: Key)
    requires from < |inputs|
    ensures var n := |inputs| - 1;
      Deletes(titles, inputs, from, key) <==> Deletes(titles, inputs[..n], from, key) || (inputs[n].delete && Names(titles, inputs[n], key))
  {
    var n := |inputs| - 1;
    if Deletes(titles, inputs[..n], from, key) {
      var i: nat :| from <= i < n && Names(titles, inputs[..n][i], key) && inputs[..n][i].delete;
      assert inputs[..n][i] == inputs[i];
    }
    if Deletes(titles, inputs, from, key) {
      var i: nat :| from <= i < |inputs| && Names(titles, inputs[i], key) && inputs[i].delete;
      if i < n { assert inputs[..n][i] == inputs[i]; }
    }
  }

  lemma {:induction false} KeptOneMore(titles: Titles, tasks: seq<Task>, inputs: seq<Input>)
    requires inputs != []
    ensures var n := |inputs| - 1; var before := KeptKeys(titles, tasks, inputs[..n]);
      KeptKeys(titles, tasks, inputs) == if inputs[n].delete then Excluding(before, titles(inputs[n].title)) else before
  {
    hide Deletes, KeptKeys, Excluding;
    var n, key := |inputs| - 1, titles(inputs[|inputs| - 1].title);
    if tasks != [] {
      var t := |tasks| - 1;
      KeptOneMore(titles, tasks[..t], inputs);
      DeletesOneMore(titles, inputs, 0, tasks[t].key);
      KeptPush(titles, tasks, inputs);
      KeptPush(titles, tasks, inputs[..n]);
      ExcludingPush(KeptKeys(titles, tasks[..t], inputs[..n]), tasks[t].key, key);
    } else {
      NoneKept(titles, inputs);
      NoneKept(titles, inputs[..n]);
      NoneAdded(titles, tasks, inputs, key);
    }
  }

  lemma KeptPush(titles: Titles, tasks: seq<Task>, inputs: seq<Input>)
    requires tasks != []
    ensures var t := |tasks| - 1; var before := KeptKeys(titles, tasks[..t], inputs);
      KeptKeys(titles, tasks, inputs) == if Deletes(titles, inputs, 0, tasks[t].key) then before else before + [tasks[t].key]
  {
    hide Deletes;
    var before := KeptKeys(titles, tasks[..|tasks| - 1], inputs);
    assert before + [] == before;
  }

  lemma NoneKept(titles: Titles, inputs: seq<Input>)
    ensures KeptKeys(titles, [], inputs) == []
  {}

  lemma AddsOneMore(titles: Titles, tasks: seq<Task>, inputs: seq<Input>, i: nat)
    requires i < |inputs| - 1
    ensures var n := |inputs| - 1;
      AddsForGood(titles, tasks, inputs, i) <==> AddsForGood(titles, tasks, inputs[..n], i) && !(inputs[n].delete && titles(inputs[n].title) == titles(inputs[i].title))
  {
    var n := |inputs| - 1;
    assert inputs[..n][..i] == inputs[..i] && inputs[..n][i] == inputs[i];
    DeletesOneMore(titles, inputs, i + 1, titles(inputs[i].title));
  }

  lemma {:induction false} AddedOneMore(titles: Titles, tasks: seq<Task>, inputs: seq<Input>, m: nat)
    requires m < |inputs|
    ensures var n := |inputs| - 1; var before := AddedKeys(titles, tasks, inputs[..n], m);
      AddedKeys(titles, tasks, inputs, m) == if inputs[n].delete then Excluding(before, titles(inputs[n].title)) else before
  {
    hide AddsForGood, AddedKeys, Excluding;
    var n, key := |inputs| - 1, titles(inputs[|inputs| - 1].title);
    if m == 0 {
      NoneAdded(titles, tasks, inputs, key);
      NoneAdded(titles, tasks, inputs[..n], key);
    } else {
      AddedOneMore(titles, tasks, inputs, m - 1);
      AddsOneMore(titles, tasks, inputs, m - 1);
      assert inputs[..n][m - 1] == inputs[m - 1];
      AddedPush(titles, tasks, inputs, m);
      AddedPush(titles, tasks, inputs[..n], m);
      ExcludingPush(AddedKeys(titles, tasks, inputs[..n], m - 1), titles(inputs[m - 1].title), key);
    }
  }

  lemma NoneAdded(titles: Titles, tasks: seq<Task>, inputs: seq<Input>, key: Key)
    ensures AddedKeys(titles, tasks, inputs, 0) == [] && Excluding([], key) == []
  {}

  lemma AddedPush(titles: Titles, tasks: seq<Task>, inputs: seq<Input>, m: nat)
    requires 0 < m <= |inputs|
    ensures var before := AddedKeys(titles, tasks, inputs, m - 1);
      AddedKeys(titles, tasks, inputs, m) == if AddsForGood(titles, tasks, inputs, m - 1) then before + [titles(inputs[m - 1].title)] else before
  {
    hide AddsForGood;
    var before := AddedKeys(titles, tasks, inputs, m - 1);
    assert before + [] == before;
  }

  lemma PresentOneMore(titles: Titles, tasks: seq<Task>, inputs: seq<Input>, key: Key)
    requires inputs != []
    ensures var n := |inputs| - 1;
      Present(titles, tasks, inputs, key) <==> if Names(titles, inputs[n], key) then !inputs[n].delete else Present(titles, tasks, inputs[..n], key)
  {}

  lemma PresentIsFound(titles: Titles, tasks: seq<Task>, inputs: seq<Input>, key: Key)
    requires DistinctKeys(tasks)
    ensures Present(titles, tasks, inputs, key) <==> TaskAfter(titles, Existing(tasks, key), inputs, key).Some?
  {
    if inputs == [] {
      FoundOrNot(tasks, key);
    } else {
      PresentIsFound(titles, tasks, inputs[..|inputs| - 1], key);
    }
  }

  lemma FoundOrNot(tasks: seq<Task>, key: Key)
    ensures HasKey(tasks, key) <==> Existing(tasks, key).Some?
  {
    if Existing(tasks, key).Some? { assert tasks[IndexOf(tasks, key).value].key == key; }
  }

  /** The keys are those that no input deleted, where they were, then those the inputs added, as they were added. */
  lemma {:induction false} InputsInOrder(titles: Titles, tasks: seq<Task>, inputs: seq<Input>)
    requires DistinctKeys(tasks)
    ensures KeysOf(ApplyInputs(titles, tasks, inputs).tasks) == KeptKeys(titles, tasks, inputs) + AddedKeys(titles, tasks, inputs, |inputs|)
  {
    hide ApplyInput, KeptKeys, KeysOf, Present, HasKey, Existing, TaskAfter, AddedKeys, AddsForGood, Excluding;
    if inputs == [] {
      NothingDeleted(titles, tasks);
    } else {
      var n := |inputs| - 1;
      var key, before := titles(inputs[n].title), ApplyInputs(titles, tasks, inputs[..n]);
      InputsInOrder(titles, tasks, inputs[..n]);
      KeptOneMore(titles, tasks, inputs);
      AddedOneMore(titles, tasks, inputs, n);
      InputsByKey(titles, tasks, inputs[..n], key);
      PresentIsFound(titles, tasks, inputs[..n], key);
      FoundOrNot(before.tasks, key);
      LastAdds(titles, tasks, inputs);
      InputKeys(titles, before, inputs[n]);
      var kept, added := KeptKeys(titles, tasks, inputs[..n]), AddedKeys(titles, tasks, inputs[..n], n);
      ExcludingJoin(kept, added, key);
      AddedPush(titles, tasks, inputs, |inputs|);
      assert kept + (added + [key]) == kept + added + [key];
    }
  }

  lemma LastAdds(titles: Titles, tasks: seq<Task>, inputs: seq<Input>)
    requires inputs != []
    ensures var n := |inputs| - 1;
      AddsForGood(titles, tasks, inputs, n) <==> !inputs[n].delete && !Present(titles, tasks, inputs[..n], titles(inputs[n].title))
  {
    hide Present;
  }

  lemma InputKeys(titles: Titles, p: Progress, input: Input)
    ensures var key := titles(input.title);
      KeysOf(ApplyInput(titles, p, input).tasks) ==
        if input.delete then Excluding(KeysOf(p.tasks), key) else if HasKey(p.tasks, key) then KeysOf(p.tasks) else KeysOf(p.tasks) + [key]
  {
    var key := titles(input.title);
    if input.delete { WithoutKeys(p.tasks, key); } else { PutKeys(p.tasks, Written(Existing(p.tasks, key), key, input)); }
  }

  lemma {:induction false} NothingDeleted(titles: Titles, tasks: seq<Task>)
    ensures KeptKeys(titles, tasks, []) + AddedKeys(titles, tasks, [], 0) == KeysOf(tasks)
  {
    if tasks != [] {
      NothingDeleted(titles, tasks[..|tasks| - 1]);
      KeysPush(tasks[..|tasks| - 1], tasks[|tasks| - 1]);
      assert tasks == tasks[..|tasks| - 1] + [tasks[|tasks| - 1]];
    }
  }

  // ----- the whole operation

  /** The task as it ends up: pending if another one was started last. */
  function Demoted(task: Task, started: Option<Key>): Task {
    if started.Some? && started.value != "" && task.key != started.value && task.status == InProgress then task.(status := Pending) else task
  }

  lemma SettledByKey(p: Progress, key: Key)
    requires DistinctKeys(p.tasks)
    ensures KeysOf(Settle(p)) == KeysOf(p.tasks)
    ensures Existing(Settle(p), key) ==
      var before := Existing(p.tasks, key); if before.Some? then Some(Demoted(before.value, p.active)) else None
  {
    hide IndexOf, DistinctKeys;
    var after := Settle(p);
    assert |after| == |p.tasks| && forall i | 0 <= i < |after| :: after[i] == Demoted(p.tasks[i], p.active);
    SameKeysSamePlace(p.tasks, after, key);
  }

  lemma {:induction false} SameKeysSamePlace(a: seq<Task>, b: seq<Task>, key: Key)
    requires |a| == |b| && forall i | 0 <= i < |a| :: a[i].key == b[i].key
    ensures KeysOf(a) == KeysOf(b) && IndexOf(a, key) == IndexOf(b, key)
  {
    if a != [] {
      assert forall i | 0 <= i < |a| - 1 :: a[1..][i] == a[i + 1] && b[1..][i] == b[i + 1];
      SameKeysSamePlace(a[1..], b[1..], key);
    }
  }

  /** An update on a list: which tasks there are, in which order, and what each one is. */
  lemma UpdateByKey(titles: Titles, tasks: seq<Task>, inputs: seq<Input>, key: Key)
    requires DistinctKeys(tasks)
    ensures var after := Apply(titles, tasks, Operation(false, inputs));
      && KeysOf(after) == KeptKeys(titles, tasks, inputs) + AddedKeys(titles, tasks, inputs, |inputs|)
      && (HasKey(after, key) <==> Present(titles, tasks, inputs, key))
      && Existing(after, key) == (var own := TaskAfter(titles, Existing(tasks, key), inputs, key);
                                  if own.Some? then Some(Demoted(own.value, LastStarted(titles, tasks, inputs))) else None)
  {
    var p, after := ApplyInputs(titles, tasks, inputs), Apply(titles, tasks, Operation(false, inputs));
    InputsKeepDistinct(titles, tasks, inputs);
    InputsByKey(titles, tasks, inputs, key);
    InputsStart(titles, tasks, inputs);
    InputsInOrder(titles, tasks, inputs);
    SettledByKey(p, key);
    FoundOrNot(after, key);
    PresentIsFound(titles, tasks, inputs, key);
  }

  /** A rewrite does not look at the list: it is an update of the empty one. */
  lemma RewriteForgets(titles: Titles, tasks: seq<Task>, inputs: seq<Input>)
    ensures Apply(titles, tasks, Operation(true, inputs)) == Apply(titles, [], Operation(false, inputs))
  {}

  /** After a rewrite there are exactly the keys whose last input is no deletion, in the order in which they were added. */
  lemma RewriteByKey(titles: Titles, tasks: seq<Task>, inputs: seq<Input>, key: Key)
    ensures var after, last := Apply(titles, tasks, Operation(true, inputs)), LastNaming(titles, inputs, key);
      && (HasKey(after, key) <==> last.Some? && !inputs[last.value].delete)
      && KeysOf(after) == AddedKeys(titles, [], inputs, |inputs|)
      && Existing(after, key) == (var own := TaskAfter(titles, None, inputs, key);
                                  if own.Some? then Some(Demoted(own.value, LastStarted(titles, [], inputs))) else None)
  {
    RewriteForgets(titles, tasks, inputs);
    UpdateByKey(titles, [], inputs, key);
    assert [] + AddedKeys(titles, [], inputs, |inputs|) == AddedKeys(titles, [], inputs, |inputs|);
    assert !HasKey([], key);
  }

  /** A key no input names keeps its task, a deleted one has none, and any other has the title of its last input and
      whatever that input gives, the rest being what it was just before, or the defaults. */
  lemma {:induction false} TaskAfterExactly(titles: Titles, prior: Option<Task>, inputs: seq<Input>, key: Key)
    ensures var last, after := LastNaming(titles, inputs, key), TaskAfter(titles, prior, inputs, key);
      if last == None then after == prior
      else if inputs[last.value].delete then after == None
      else
        var input, before := inputs[last.value], TaskAfter(titles, prior, inputs[..last.value], key);
        && after.Some? && after.value.key == key && after.value.title == input.title
        && (input.description.Some? ==> after.value.description == input.description)
        && (input.status.Some? ==> after.value.status == input.status.value)
        && (input.description == None ==> after.value.description == if before.Some? then before.value.description else None)
        && (input.status == None ==> after.value.status == if before.Some? then before.value.status else Pending)
  {
    if inputs != [] {
      var n := |inputs| - 1;
      TaskAfterExactly(titles, prior, inputs[..n], key);
      var last := LastNaming(titles, inputs, key);
      if last.Some? && last.value < n { assert inputs[..n][..last.value] == inputs[..last.value]; }
    }
  }
}
