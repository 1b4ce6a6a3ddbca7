/** Workers over a list of values, admitted a bounded number at a time; a worker may give its slot back
    before it is done (backend/capabilities/boundedConcurrency.ts, lines 15-103). */
module BoundedAdmission {
  import opened Options

  datatype Outcome = Fulfilled(value: string) | Rejected(reason: string)
  datatype Status = Running | Resolved | Aborted

  /** held: the workers that hold an admission slot; released: those that gave theirs back; active: those
      whose controller can still be aborted; signalled: those whose controller was. */
  datatype Batch = Batch(size: nat, concurrency: nat, nextIndex: nat, completed: nat, status: Status,
                         held: set<nat>, released: set<nat>, active: set<nat>, signalled: set<nat>, results: seq<Option<Outcome>>)

  function NoResults(size: nat): seq<Option<Outcome>> {
    seq(size, i => None)
  }

  function LaunchOne(b: Batch): Batch {
    b.(nextIndex := b.nextIndex + 1, active := b.active + {b.nextIndex}, held := b.held + {b.nextIndex})
  }

  function Launch(b: Batch): Batch
    decreases b.size - b.nextIndex
  {
    if b.status != Running || b.nextIndex >= b.size || |b.held| >= b.concurrency then b
    else Launch(LaunchOne(b))
  }

  function Begin(size: nat, concurrency: nat, abortedAlready: bool): Batch {
    var b := Batch(size, concurrency, 0, 0, Running, {}, {}, {}, {}, NoResults(size));
    if size == 0 then b.(status := Resolved) else if abortedAlready then Abort(b) else Launch(b)
  }

  function Release(b: Batch, index: nat): Batch {
    if b.status != Running || index in b.released then b
    else Launch(b.(released := b.released + {index}, held := b.held - {index}))
  }

  function Settle(b: Batch, index: nat, outcome: Outcome): Batch
    requires index < |b.results|
  {
    if b.status != Running then b
    else
      var freed := Release(b.(active := b.active - {index}), index);
      LaunchKeepsResults(b.(active := b.active - {index}, released := b.released + {index}, held := b.held - {index}));
      freed.(results := freed.results[index := Some(outcome)], completed := freed.completed + 1,
             status := if freed.completed + 1 == b.size then Resolved else Running)
  }

  lemma LaunchKeepsResults(b: Batch)
    ensures Launch(b).results == b.results && Launch(b).size == b.size && Launch(b).status == b.status && Launch(b).completed == b.completed
    decreases b.size - b.nextIndex
  {}

  function Abort(b: Batch): Batch {
    if b.status != Running then b
    else b.(status := Aborted, signalled := b.signalled + b.active, active := {}, held := {})
  }

  // ----- the workers around it

  /** begun: launched workers whose first microtask ran; invoked: those whose function was called then;
      told: the outcome of every worker whose promise has settled. */
  datatype System = System(batch: Batch, begun: set<nat>, invoked: set<nat>, told: map<nat, Outcome>)

  datatype Event =
    | FirstTurn(index: nat)
    | GiveBack(index: nat)
    | Done(index: nat, outcome: Outcome)
    | ParentAbort

  /** A promise runs its callbacks once, after its launch, and a worker can release only once it was called. */
  ghost predicate Enabled(s: System, event: Event) {
    match event
    case FirstTurn(i) => i < s.batch.nextIndex && i !in s.begun
    case GiveBack(i) => i in s.invoked
    case Done(i, _) => i in s.begun && i !in s.told
    case ParentAbort => true
  }

  function Next(s: System, event: Event): System
    requires event.Done? ==> event.index < |s.batch.results|
  {
    match event
    case FirstTurn(i) => s.(begun := s.begun + {i}, invoked := if s.batch.status == Running then s.invoked + {i} else s.invoked)
    case GiveBack(i) => s.(batch := Release(s.batch, i))
    case Done(i, outcome) => s.(batch := Settle(s.batch, i, outcome), told := s.told[i := outcome])
    case ParentAbort => s.(batch := Abort(s.batch))
  }

  /** The slots are held by exactly the launched workers that did not give theirs back. */
  ghost predicate HeldRight(b: Batch) {
    forall i: nat :: i in b.held <==> i < b.nextIndex && i !in b.released
  }

  /** The controllers that can still be aborted are those of the launched workers that have not settled. */
  ghost predicate ActiveRight(b: Batch, told: map<nat, Outcome>) {
    forall i: nat :: i in b.active <==> i < b.nextIndex && i !in told
  }

  /** No slot is free while a value waits. */
  ghost predicate SlotsFull(b: Batch) {
    |b.held| <= b.concurrency && (b.nextIndex < b.size ==> |b.held| == b.concurrency)
  }

  ghost predicate RunningInv(b: Batch, told: map<nat, Outcome>) {
    && HeldRight(b) && ActiveRight(b, told) && SlotsFull(b)
    && (forall i | i in told :: i in b.released) && b.signalled == {} && b.completed == |told| < b.size
  }

  /** The workers that were called, those whose turn came and those that settled were all launched. */
  ghost predicate WorkersInv(s: System) {
    && (forall i | i in s.told :: i in s.begun) && (forall i | i in s.invoked :: i in s.begun)
    && (forall i | i in s.begun :: i < s.batch.nextIndex)
    && (forall i | i in s.batch.released :: i in s.begun)
    && (s.batch.status == Running ==> s.invoked == s.begun)
  }

  /** Every result written is the outcome its own worker had; once resolved, all of them are there. */
  ghost predicate ResultsInv(b: Batch, told: map<nat, Outcome>) {
    && b.nextIndex <= b.size == |b.results|
    && (b.status == Running ==> forall i: nat | i < b.size :: b.results[i] == if i in told then Some(told[i]) else None)
    && (b.status == Resolved ==> forall i: nat | i < b.size :: i in told && b.results[i] == Some(told[i]))
  }

  /** After an abort no slot is held, and every launched worker that had not settled was signalled. */
  ghost predicate AbortedInv(b: Batch, told: map<nat, Outcome>) {
    b.held == {} && b.active == {} && forall i: nat | i < b.nextIndex :: i in b.signalled || i in told
  }

  ghost predicate Inv(s: System) {
    && 0 < s.batch.concurrency && WorkersInv(s) && ResultsInv(s.batch, s.told)
    && |s.batch.held| <= s.batch.concurrency
    && (s.batch.status == Running ==> RunningInv(s.batch, s.told))
    && (s.batch.status == Aborted ==> AbortedInv(s.batch, s.told))
  }

  // ----- launching

  lemma LaunchOneFacts(b: Batch, told: map<nat, Outcome>)
    requires HeldRight(b) && ActiveRight(b, told) && |b.held| < b.concurrency
    requires (forall i | i in b.released :: i < b.nextIndex) && forall i | i in told :: i < b.nextIndex
    ensures HeldRight(LaunchOne(b)) && ActiveRight(LaunchOne(b), told) && |LaunchOne(b).held| <= b.concurrency
  {}

  /** Launching admits the next values, in order, until the slots are full or nothing waits. */
  lemma {:induction false} LaunchFills(b: Batch, told: map<nat, Outcome>)
    requires b.status == Running && b.nextIndex <= b.size && |b.held| <= b.concurrency
    requires HeldRight(b) && ActiveRight(b, told) && (forall i | i in b.released :: i < b.nextIndex) && forall i | i in told :: i < b.nextIndex
    ensures var q := Launch(b);
      && q == b.(nextIndex := q.nextIndex, held := q.held, active := q.active)
      && b.nextIndex <= q.nextIndex <= b.size && HeldRight(q) && ActiveRight(q, told) && SlotsFull(q)
    decreases b.size - b.nextIndex
  {
    hide HeldRight, ActiveRight;
    if b.nextIndex < b.size && |b.held| < b.concurrency {
      LaunchOneFacts(b, told);
      LaunchFills(LaunchOne(b), told);
    }
  }

  // ----- every step

  /** Giving back a slot that is still held. */
  lemma ReleaseFills(b: Batch, told: map<nat, Outcome>, i: nat)
    requires b.status == Running && b.nextIndex <= b.size && i < b.nextIndex && i !in b.released
    requires HeldRight(b) && ActiveRight(b, told) && SlotsFull(b)
    requires (forall j | j in b.released :: j < b.nextIndex) && forall j | j in told :: j < b.nextIndex
    ensures var q := Release(b, i);
      && q == b.(nextIndex := q.nextIndex, held := q.held, active := q.active, released := b.released + {i})
      && b.nextIndex <= q.nextIndex <= b.size && HeldRight(q) && ActiveRight(q, told) && SlotsFull(q)
  {
    LaunchFills(b.(released := b.released + {i}, held := b.held - {i}), told);
  }

  lemma ReleaseKeepsInv(s: System, i: nat)
    requires Inv(s) && i in s.invoked
    ensures Inv(s.(batch := Release(s.batch, i)))
  {
    if s.batch.status == Running && i !in s.batch.released {
      ReleaseFills(s.batch, s.told, i);
      hide HeldRight, ActiveRight, SlotsFull;
    }
  }

  /** The batch inside a settling worker, once its slot is free and before its result is written. */
  lemma FreedBySettling(s: System, i: nat, told: map<nat, Outcome>)
    requires Inv(s) && s.batch.status == Running && i in s.begun && i !in s.told
    requires forall j :: j in told <==> j in s.told || j == i
    ensures var b := s.batch; var q := Release(b.(active := b.active - {i}), i);
      && q == b.(nextIndex := q.nextIndex, held := q.held, active := q.active, released := b.released + {i})
      && b.nextIndex <= q.nextIndex <= b.size && HeldRight(q) && ActiveRight(q, told) && SlotsFull(q)
  {
    var b := s.batch;
    var c := b.(active := b.active - {i});
    assert ActiveRight(c, told);
    if i in b.released {
      assert b.released + {i} == b.released;
    } else {
      ReleaseFills(c, told, i);
    }
  }

  function UpTo(n: nat): (r: set<nat>)
    ensures |r| == n && forall i: nat :: i in r <==> i < n
  {
    if n == 0 then {} else UpTo(n - 1) + {n - 1}
  }

  /** Counting told workers: below n of them some are missing, at n none is. */
  lemma Counting(told: map<nat, Outcome>, n: nat)
    requires forall i | i in told :: i < n
    ensures |told| <= n && (|told| == n ==> forall i: nat | i < n :: i in told)
  {
    assert told.Keys <= UpTo(n);
    var missing := UpTo(n) - told.Keys;
    assert UpTo(n) == told.Keys + missing;
    assert |told.Keys| + |missing| == n;
    if |told| == n { assert missing == {}; }
  }

  /** A worker that settles writes its own result and no other. */
  lemma SettleKeepsResults(b: Batch, q: Batch, told: map<nat, Outcome>, i: nat, outcome: Outcome)
    requires ResultsInv(b, told) && b.status == Running && i < b.size && i !in told
    requires q.size == b.size && q.nextIndex <= q.size && q.results == b.results[i := Some(outcome)] && q.status != Aborted
    requires q.status == Resolved ==> forall j: nat | j < b.size :: j in told || j == i
    ensures ResultsInv(q, told[i := outcome])
  {}

  lemma SamePlaces(b: Batch, q: Batch, told: map<nat, Outcome>)
    requires q == b.(results := q.results, completed := q.completed, status := q.status)
    requires HeldRight(b) && ActiveRight(b, told) && SlotsFull(b)
    ensures HeldRight(q) && ActiveRight(q, told) && SlotsFull(q) && |q.held| <= q.concurrency
  {}

  function Written(freed: Batch, i: nat, outcome: Outcome): Batch
    requires i < |freed.results|
  {
    freed.(results := freed.results[i := Some(outcome)], completed := freed.completed + 1,
           status := if freed.completed + 1 == freed.size then Resolved else Running)
  }

  lemma WrittenKeepsInv(s: System, i: nat, outcome: Outcome, freed: Batch)
    requires Inv(s) && s.batch.status == Running && i in s.begun && i !in s.told && i < |freed.results|
    requires freed == s.batch.(nextIndex := freed.nextIndex, held := freed.held, active := freed.active, released := s.batch.released + {i})
    requires s.batch.nextIndex <= freed.nextIndex <= s.batch.size
    requires HeldRight(freed) && ActiveRight(freed, s.told[i := outcome]) && SlotsFull(freed)
    ensures Inv(s.(batch := Written(freed, i, outcome), told := s.told[i := outcome]))
  {
    var told, q := s.told[i := outcome], Written(freed, i, outcome);
    assert |told| == |s.told| + 1 by { assert told.Keys == s.told.Keys + {i}; }
    Counting(told, s.batch.size);
    if q.status == Resolved {
      forall j: nat | j < s.batch.size ensures j in s.told || j == i { assert j in told; }
    }
    SettleKeepsResults(s.batch, q, s.told, i, outcome);
    SamePlaces(freed, q, told);
    hide HeldRight, ActiveRight, SlotsFull, ResultsInv;
  }

  lemma SettleWhileRunning(s: System, i: nat, outcome: Outcome)
    requires Inv(s) && s.batch.status == Running && i in s.begun && i !in s.told
    ensures Inv(Next(s, Done(i, outcome)))
  {
    NextIsWritten(s, i, outcome);
    FreedBySettling(s, i, s.told[i := outcome]);
    InRange(s, i);
    hide Inv, Next, HeldRight, ActiveRight, SlotsFull, Release, Written;
    var freed := Release(s.batch.(active := s.batch.active - {i}), i);
    WrittenKeepsInv(s, i, outcome, freed);
  }

  lemma InRange(s: System, i: nat)
    requires Inv(s) && i in s.begun
    ensures i < s.batch.nextIndex <= s.batch.size == |s.batch.results|
  {}

  lemma NextIsWritten(s: System, i: nat, outcome: Outcome)
    requires s.batch.status == Running && i < |s.batch.results|
    ensures var freed := Release(s.batch.(active := s.batch.active - {i}), i);
      i < |freed.results| && Next(s, Done(i, outcome)) == s.(batch := Written(freed, i, outcome), told := s.told[i := outcome])
  {
    var b := s.batch.(active := s.batch.active - {i});
    LaunchKeepsResults(b.(released := b.released + {i}, held := b.held - {i}));
  }

  lemma SettleKeepsInv(s: System, i: nat, outcome: Outcome)
    requires Inv(s) && i in s.begun && i !in s.told
    ensures Inv(Next(s, Done(i, outcome)))
  {
    if s.batch.status == Running { SettleWhileRunning(s, i, outcome); }
  }

  lemma FirstTurnKeepsInv(s: System, i: nat)
    requires Inv(s) && Enabled(s, FirstTurn(i))
    ensures Inv(Next(s, FirstTurn(i)))
  {}

  lemma AbortKeepsInv(s: System)
    requires Inv(s)
    ensures Inv(Next(s, ParentAbort))
  {}

  lemma EventKeepsInv(s: System, event: Event)
    requires Inv(s) && Enabled(s, event)
    ensures Inv(Next(s, event))
  {
    match event
    case FirstTurn(i) => FirstTurnKeepsInv(s, i);
    case GiveBack(i) => ReleaseKeepsInv(s, i);
    case Done(i, outcome) => SettleKeepsInv(s, i, outcome);
    case ParentAbort => AbortKeepsInv(s);
  }

  // ----- every run

  lemma BeginIsSound(size: nat, concurrency: nat, abortedAlready: bool)
    requires 0 < concurrency
    ensures Inv(System(Begin(size, concurrency, abortedAlready), {}, {}, map[]))
  {
    if 0 < size && !abortedAlready {
      var b := Batch(size, concurrency, 0, 0, Running, {}, {}, {}, {}, NoResults(size));
      LaunchFills(b, map[]);
      LaunchKeepsResults(b);
      Counting(map[], size);
    }
  }

  /** How a batch begins: empty, it is over at once; already aborted, it launches nothing; otherwise it launches as many
      as may be at once. */
  lemma BeginExactly(size: nat, concurrency: nat, abortedAlready: bool)
    requires 0 < concurrency
    ensures var b := Begin(size, concurrency, abortedAlready);
      && b.status == (if size == 0 then Resolved else if abortedAlready then Aborted else Running)
      && b.nextIndex == (if size == 0 || abortedAlready then 0 else if size < concurrency then size else concurrency)
  {
    if 0 < size && !abortedAlready {
      var b := Batch(size, concurrency, 0, 0, Running, {}, {}, {}, {}, NoResults(size));
      LaunchFills(b, map[]);
      LaunchKeepsResults(b);
      HeldAreLaunched(Launch(b));
    }
  }

  lemma HeldAreLaunched(b: Batch)
    requires HeldRight(b) && b.released == {}
    ensures |b.held| == b.nextIndex
  {
    assert b.held == UpTo(b.nextIndex);
  }

  /** An abort ends a running batch: exactly the launched workers that have not settled are signalled, no slot is held,
      and nothing is launched, called or written. A batch that is over stays as it is. */
  lemma AbortExactly(s: System)
    requires Inv(s)
    ensures var q := Next(s, ParentAbort);
      && q.begun == s.begun && q.invoked == s.invoked && q.told == s.told
      && if s.batch.status == Running then
           && q.batch == s.batch.(status := Aborted, signalled := q.batch.signalled, active := {}, held := {})
           && forall i: nat :: i in q.batch.signalled <==> i < s.batch.nextIndex && i !in s.told
         else q.batch == s.batch
  {}

  ghost predicate Possible(s: System, events: seq<Event>)
    requires Inv(s)
    decreases |events|
  {
    if events == [] then true
    else Enabled(s, events[0]) && (EventKeepsInv(s, events[0]); Possible(Next(s, events[0]), events[1..]))
  }

  ghost function Run(s: System, events: seq<Event>): System
    requires Inv(s) && Possible(s, events)
    decreases |events|
  {
    if events == [] then s else EventKeepsInv(s, events[0]); Run(Next(s, events[0]), events[1..])
  }

  /** In every run, with any order of turns, releases, settlements and an abort: the slots are never exceeded
      nor left free, every result is its own worker's, all are there once resolved, and nothing starts later. */
  lemma {:induction false} RunKeepsInv(s: System, events: seq<Event>)
    requires Inv(s) && Possible(s, events)
    ensures Inv(Run(s, events))
    ensures s.batch.status != Running ==> Run(s, events).invoked == s.invoked && Run(s, events).batch == s.batch
    decreases |events|
  {
    if events != [] {
      EventKeepsInv(s, events[0]);
      if s.batch.status != Running { FinishedStays(s, events[0]); }
      RunKeepsInv(Next(s, events[0]), events[1..]);
    }
  }

  lemma FinishedStays(s: System, event: Event)
    requires Inv(s) && Enabled(s, event) && s.batch.status != Running
    ensures var q := Next(s, event); q.invoked == s.invoked && q.batch == s.batch
  {}

  // ----- the batch as the source changes it

  class AdmissionBatch {
    const size: nat
    const concurrency: nat
    var nextIndex: nat
    var completed: nat
    var finished: bool
    var resolved: bool
    var heldAdmissionSlots: set<nat>
    var admissionReleased: set<nat>
    var activeControllers: set<nat>
    var signalled: set<nat>
    const results: array<Option<Outcome>>

    ghost predicate Valid()
      reads this
    {
      results.Length == size && (resolved ==> finished)
    }

    ghost function View(): Batch
      reads this, results
    {
      Batch(size, concurrency, nextIndex, completed, if !finished then Running else if resolved then Resolved else Aborted,
            heldAdmissionSlots, admissionReleased, activeControllers, signalled, results[..])
    }

    constructor (size: nat, concurrency: nat, abortedAlready: bool)
      requires 0 < concurrency
      ensures Valid() && fresh(results) && View() == Begin(size, concurrency, abortedAlready)
    {
      this.size, this.concurrency := size, concurrency;
      nextIndex, completed, finished, resolved := 0, 0, false, false;
      heldAdmissionSlots, admissionReleased, activeControllers, signalled := {}, {}, {}, {};
      results := new Option<Outcome>[size](i => None);
      new;
      assert results[..] == NoResults(size);
      if size == 0 {
        finished, resolved := true, true;
      } else if abortedAlready {
        FinishAborted();
      } else {
        LaunchAvailable();
      }
    }

    method LaunchAvailable()
      requires Valid()
      modifies this
      ensures Valid() && View() == Launch(old(View()))
    {
      while !finished && nextIndex < size && |heldAdmissionSlots| < concurrency
        invariant Valid() && Launch(View()) == Launch(old(View()))
        decreases size - nextIndex
      {
        activeControllers := activeControllers + {nextIndex};
        heldAdmissionSlots := heldAdmissionSlots + {nextIndex};
        nextIndex := nextIndex + 1;
      }
    }

    method ReleaseAdmission(index: nat)
      requires Valid()
      modifies this
      ensures Valid() && View() == Release(old(View()), index)
    {
      if finished || index in admissionReleased { return; }
      admissionReleased := admissionReleased + {index};
      heldAdmissionSlots := heldAdmissionSlots - {index};
      LaunchAvailable();
    }

    method SettleWorker(index: nat, outcome: Outcome)
      requires Valid() && index < size
      modifies this, results
      ensures Valid() && View() == Settle(old(View()), index, outcome)
    {
      if finished { return; }
      activeControllers := activeControllers - {index};
      LaunchKeepsResults(View().(released := admissionReleased + {index}, held := heldAdmissionSlots - {index}));
      ReleaseAdmission(index);
      results[index] := Some(outcome);
      completed := completed + 1;
      if completed == size { finished, resolved := true, true; }
    }

    method FinishAborted()
      requires Valid()
      modifies this
      ensures Valid() && View() == Abort(old(View()))
    {
      if finished { return; }
      finished := true;
      signalled := signalled + activeControllers;
      activeControllers := {};
      heldAdmissionSlots := {};
    }
  }
}
