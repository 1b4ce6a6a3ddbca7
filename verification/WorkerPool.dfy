/** A pool of worker threads that takes jobs from one queue
    (backend/ecs/SystemWorkerPool.ts, lines 29-171). */
module WorkerPool {
  import opened Options

  type SlotId = nat
  type JobId = nat

  datatype Job = Job(id: JobId, input: string)
  datatype Outcome = Resolved(output: string) | Rejected
  datatype Settlement = Settlement(id: JobId, outcome: Outcome)

  /** A live slot is a key of slots and holds its current job; a slot that is closed is gone from there.
      settlements lists every resolve and reject call, in order. */
  datatype Pool = Pool(maxSize: nat, slots: map<SlotId, Option<Job>>, idle: seq<SlotId>, queue: seq<Job>, disposed: bool,
                       nextId: JobId, nextSlot: SlotId, settlements: seq<Settlement>)

  /** What a worker posts back; Invalid stands for anything that is not a run response. */
  datatype Response = Invalid | Result(id: JobId, output: string)

  datatype Event =
    | Submit(input: string)
    | Message(slot: SlotId, response: Response)
    | WorkerError(slot: SlotId)
    | WorkerExit(slot: SlotId)
    | Dispose

  /** Whether posting a job to a worker works; it throws when the input cannot be cloned. */
  type Posting = Job -> bool

  function NewPool(maxSize: nat): Pool {
    Pool(maxSize, map[], [], [], false, 1, 0, [])
  }

  function Settle(p: Pool, id: JobId, outcome: Outcome): Pool {
    p.(settlements := p.settlements + [Settlement(id, outcome)])
  }

  datatype Taken = Taken(pool: Pool, slot: Option<SlotId>)

  function TakeIdleSlot(p: Pool): Taken
    decreases |p.idle|
  {
    if p.idle == [] then Taken(p, None)
    else
      var slot := p.idle[|p.idle| - 1];
      var popped := p.(idle := p.idle[..|p.idle| - 1]);
      if slot in p.slots && p.slots[slot] == None then Taken(popped, Some(slot)) else TakeIdleSlot(popped)
  }

  function CreateSlotIfAvailable(p: Pool): Taken {
    if |p.slots| >= p.maxSize then Taken(p, None)
    else Taken(p.(slots := p.slots[p.nextSlot := None], nextSlot := p.nextSlot + 1), Some(p.nextSlot))
  }

  function TakeSlot(p: Pool): (taken: Taken)
    ensures taken.pool.queue == p.queue
  {
    var idle := TakeIdleSlot(p);
    IdleKeepsQueue(p);
    if idle.slot.Some? then idle else CreateSlotIfAvailable(idle.pool)
  }

  lemma IdleKeepsQueue(p: Pool)
    ensures TakeIdleSlot(p).pool.queue == p.queue
    decreases |p.idle|
  {}

  function ReleaseSlot(p: Pool, slot: SlotId): Pool {
    if p.disposed || slot !in p.slots then p else p.(idle := p.idle + [slot])
  }

  /** The slot has the job, unless posting it throws: then the job is rejected and the slot released. */
  function Started(posting: Posting, p: Pool, slot: SlotId, job: Job): Pool {
    if posting(job) then p.(slots := p.slots[slot := Some(job)])
    else ReleaseSlot(Settle(p.(slots := p.slots[slot := None]), job.id, Rejected), slot)
  }

  function DrainOnce(posting: Posting, p: Pool): Pool
    requires p.queue != [] && TakeSlot(p).slot.Some?
  {
    var taken := TakeSlot(p);
    Started(posting, taken.pool.(queue := p.queue[1..]), taken.slot.value, p.queue[0])
  }

  function Drain(posting: Posting, p: Pool): Pool
    decreases |p.queue|
  {
    if p.disposed || p.queue == [] then p
    else if TakeSlot(p).slot == None then TakeSlot(p).pool
    else
      StartedKeepsQueue(posting, TakeSlot(p).pool.(queue := p.queue[1..]), TakeSlot(p).slot.value, p.queue[0]);
      Drain(posting, DrainOnce(posting, p))
  }

  lemma StartedKeepsQueue(posting: Posting, p: Pool, slot: SlotId, job: Job)
    ensures Started(posting, p, slot, job).queue == p.queue && Started(posting, p, slot, job).disposed == p.disposed
  {}

  function FailSlot(posting: Posting, p: Pool, slot: SlotId): Pool {
    if slot !in p.slots then p
    else
      var closed := p.(idle := RemoveFirst(p.idle, slot), slots := p.slots - {slot});
      Drain(posting, if p.slots[slot].Some? then Settle(closed, p.slots[slot].value.id, Rejected) else closed)
  }

  function RemoveFirst(slots: seq<SlotId>, slot: SlotId): seq<SlotId> {
    if slots == [] then [] else if slots[0] == slot then slots[1..] else [slots[0]] + RemoveFirst(slots[1..], slot)
  }

  function HandleMessage(posting: Posting, p: Pool, slot: SlotId, response: Response): Pool {
    if response == Invalid || slot !in p.slots || p.slots[slot] == None || p.slots[slot].value.id != response.id then FailSlot(posting, p, slot)
    else Drain(posting, ReleaseSlot(Settle(p.(slots := p.slots[slot := None]), response.id, Resolved(response.output)), slot))
  }

  function Run(posting: Posting, p: Pool, input: string): Pool {
    if p.disposed then p else Drain(posting, p.(queue := p.queue + [Job(p.nextId, input)], nextId := p.nextId + 1))
  }

  function RejectQueue(p: Pool): Pool
    decreases |p.queue|
  {
    if p.queue == [] then p else RejectQueue(Settle(p.(queue := p.queue[1..]), p.queue[0].id, Rejected))
  }

  /** Slots are visited in the order in which they were made. */
  function RejectCurrent(p: Pool, from: SlotId): Pool
    decreases p.nextSlot - from
  {
    if from >= p.nextSlot then p
    else if from in p.slots && p.slots[from].Some? then
      RejectCurrent(Settle(p.(slots := p.slots[from := None]), p.slots[from].value.id, Rejected), from + 1)
    else RejectCurrent(p, from + 1)
  }

  function DisposePool(p: Pool): Pool {
    if p.disposed then p
    else RejectCurrent(RejectQueue(p.(disposed := true)).(idle := []), 0).(slots := map[])
  }

  function Next(posting: Posting, p: Pool, event: Event): Pool {
    match event
    case Submit(input) => Run(posting, p, input)
    case Message(slot, response) => HandleMessage(posting, p, slot, response)
    case WorkerError(slot) => FailSlot(posting, p, slot)
    case WorkerExit(slot) => FailSlot(posting, p, slot)
    case Dispose => DisposePool(p)
  }

  function After(posting: Posting, p: Pool, events: seq<Event>): Pool {
    if events == [] then p else Next(posting, After(posting, p, events[..|events| - 1]), events[|events| - 1])
  }

  // ----- what every run keeps

  ghost predicate Queued(p: Pool, id: JobId) {
    exists i :: 0 <= i < |p.queue| && p.queue[i].id == id
  }

  ghost predicate Running(p: Pool, id: JobId) {
    exists s :: s in p.slots && p.slots[s].Some? && p.slots[s].value.id == id
  }

  ghost predicate Settled(p: Pool, id: JobId) {
    exists i :: 0 <= i < |p.settlements| && p.settlements[i].id == id
  }

  /** The live slots are at most maxSize, and each one either runs a job or is idle, once. */
  ghost predicate SlotsAreSound(p: Pool) {
    && |p.slots| <= p.maxSize
    && (forall s | s in p.slots :: s < p.nextSlot && (p.slots[s] == None ==> s in p.idle))
    && (forall i | 0 <= i < |p.idle| :: p.idle[i] in p.slots && p.slots[p.idle[i]] == None)
    && (forall i: nat, j: nat | i < j < |p.idle| :: p.idle[i] != p.idle[j])
  }

  /** Jobs are taken in the order of their numbers, and no slot shares a job with another. */
  ghost predicate JobsAreOrdered(p: Pool) {
    && (forall i: nat, j: nat | i < j < |p.queue| :: p.queue[i].id < p.queue[j].id)
    && (forall s, i | s in p.slots && p.slots[s].Some? && 0 <= i < |p.queue| :: p.slots[s].value.id < p.queue[i].id)
    && (forall s, t | s in p.slots && t in p.slots && s != t && p.slots[s].Some? && p.slots[t].Some? :: p.slots[s].value.id != p.slots[t].value.id)
  }

  /** Every submitted job is queued, running or settled, and never two of these; none is settled twice. */
  ghost predicate JobsAreConserved(p: Pool) {
    && (forall id: JobId :: 1 <= id < p.nextId <==> (Queued(p, id) || Running(p, id) || Settled(p, id)))
    && (forall id: JobId :: !(Settled(p, id) && (Queued(p, id) || Running(p, id))))
    && (forall i: nat, j: nat | i < j < |p.settlements| :: p.settlements[i].id != p.settlements[j].id)
  }

  ghost predicate Inv(p: Pool) {
    && 1 <= p.maxSize && 1 <= p.nextId && SlotsAreSound(p) && JobsAreOrdered(p) && JobsAreConserved(p)
    && (p.disposed ==> p.slots == map[] && p.idle == [] && p.queue == [])
  }

  /** A job waits only when as many slots as allowed are live and all of them are busy. */
  ghost predicate NoneWaitsInVain(p: Pool) {
    p.queue != [] ==> |p.slots| == p.maxSize && forall s | s in p.slots :: p.slots[s].Some?
  }

  // ----- taking a slot

  lemma TakesLastIdle(p: Pool)
    requires SlotsAreSound(p) && p.idle != []
    ensures TakeSlot(p) == Taken(p.(idle := p.idle[..|p.idle| - 1]), Some(p.idle[|p.idle| - 1]))
  {}

  lemma MakesSlot(p: Pool)
    requires SlotsAreSound(p) && p.idle == []
    ensures TakeSlot(p) == CreateSlotIfAvailable(p)
  {}

  /** The pool with a live slot set aside, neither idle nor busy, is sound for the job it is about to get. */
  ghost predicate SetAside(p: Pool, slot: SlotId) {
    && |p.slots| <= p.maxSize && slot in p.slots && p.slots[slot] == None && slot !in p.idle
    && (forall s | s in p.slots :: s < p.nextSlot && (p.slots[s] == None && s != slot ==> s in p.idle))
    && (forall i | 0 <= i < |p.idle| :: p.idle[i] in p.slots && p.slots[p.idle[i]] == None)
    && (forall i: nat, j: nat | i < j < |p.idle| :: p.idle[i] != p.idle[j])
  }

  /** Taking a slot moves no job. */
  ghost predicate SameJobs(p: Pool, q: Pool) {
    && q.queue == p.queue && q.settlements == p.settlements && q.nextId == p.nextId
    && q.disposed == p.disposed && q.maxSize == p.maxSize
    && (forall s :: s in p.slots && p.slots[s].Some? <==> s in q.slots && q.slots[s].Some?)
    && (forall s | s in p.slots && p.slots[s].Some? :: q.slots[s] == p.slots[s])
  }

  lemma TakeFacts(p: Pool)
    requires SlotsAreSound(p)
    ensures var taken := TakeSlot(p);
      && SameJobs(p, taken.pool)
      && (taken.slot.Some? ==> SetAside(taken.pool, taken.slot.value))
      && (taken.slot == None ==> taken.pool == p && |p.slots| >= p.maxSize && p.idle == [])
  {
    if p.idle != [] {
      TakesLastIdle(p);
    } else {
      MakesSlot(p);
      assert p.nextSlot !in p.slots;
    }
  }

  // ----- one job moves

  lemma HeadLeaves(p: Pool, id: JobId)
    requires p.queue != [] && JobsAreOrdered(p)
    ensures Queued(p.(queue := p.queue[1..]), id) <==> Queued(p, id) && id != p.queue[0].id
  {
    var q := p.(queue := p.queue[1..]);
    if Queued(q, id) {
      var i :| 0 <= i < |q.queue| && q.queue[i].id == id;
      assert p.queue[i + 1].id == id;
    }
    if Queued(p, id) && id != p.queue[0].id {
      var i :| 0 <= i < |p.queue| && p.queue[i].id == id;
      assert q.queue[i - 1].id == id;
    }
  }

  lemma SettlesOne(p: Pool, id: JobId, outcome: Outcome, x: JobId)
    ensures Settled(Settle(p, id, outcome), x) <==> Settled(p, x) || x == id
  {
    var q := Settle(p, id, outcome);
    assert q.settlements[|p.settlements|].id == id;
    if Settled(p, x) {
      var i :| 0 <= i < |p.settlements| && p.settlements[i].id == x;
      assert q.settlements[i].id == x;
    }
  }

  /** Where the jobs are after one of them moved on: the settlements grew by it, or not at all. */
  ghost predicate Moved(p: Pool, q: Pool, id: JobId, settled: bool) {
    && q.nextId == p.nextId
    && (if settled then exists outcome :: q.settlements == p.settlements + [Settlement(id, outcome)] else q.settlements == p.settlements)
    && (forall x: JobId :: Queued(q, x) || Running(q, x) <==> (Queued(p, x) || Running(p, x)) && !(settled && x == id))
  }

  lemma MoveConserves(p: Pool, q: Pool, id: JobId, settled: bool)
    requires JobsAreConserved(p) && (Queued(p, id) || Running(p, id)) && Moved(p, q, id, settled)
    ensures JobsAreConserved(q)
  {
    forall x: JobId ensures Settled(q, x) <==> Settled(p, x) || (settled && x == id) {
      if settled {
        var outcome :| q.settlements == p.settlements + [Settlement(id, outcome)];
        SettlesOne(p, id, outcome, x);
        assert q.settlements == Settle(p, id, outcome).settlements;
      }
    }
    forall i: nat, j: nat | i < j < |q.settlements| ensures q.settlements[i].id != q.settlements[j].id {
      if j == |p.settlements| { assert !Settled(p, id); }
    }
  }

  /** The head of the queue moves to a slot set aside for it. */
  lemma StartedRuns(p: Pool, slot: SlotId)
    requires p.queue != [] && JobsAreOrdered(p) && slot in p.slots && p.slots[slot] == None
    ensures Moved(p, p.(queue := p.queue[1..], slots := p.slots[slot := Some(p.queue[0])]), p.queue[0].id, false)
  {
    var q := p.(queue := p.queue[1..], slots := p.slots[slot := Some(p.queue[0])]);
    forall x: JobId ensures Queued(q, x) || Running(q, x) <==> Queued(p, x) || Running(p, x) {
      HeadLeaves(p, x);
      assert Queued(q, x) <==> Queued(p.(queue := p.queue[1..]), x);
      assert q.slots[slot].value == p.queue[0];
      if Running(p, x) {
        var s :| s in p.slots && p.slots[s].Some? && p.slots[s].value.id == x;
        assert s in q.slots && q.slots[s] == p.slots[s];
      }
      if Running(q, x) {
        var s :| s in q.slots && q.slots[s].Some? && q.slots[s].value.id == x;
        assert s != slot ==> p.slots[s] == q.slots[s];
      }
      assert p.queue[0].id == x ==> Queued(p, x);
    }
  }

  lemma StartedRejects(p: Pool, idle: seq<SlotId>)
    requires p.queue != [] && JobsAreOrdered(p) && JobsAreConserved(p)
    ensures Moved(p, Settle(p.(queue := p.queue[1..], idle := idle), p.queue[0].id, Rejected), p.queue[0].id, true)
  {
    var id := p.queue[0].id;
    var q := Settle(p.(queue := p.queue[1..], idle := idle), id, Rejected);
    assert q.settlements == p.settlements + [Settlement(id, Rejected)];
    assert Queued(p, id);
    forall x: JobId ensures Queued(q, x) || Running(q, x) <==> (Queued(p, x) || Running(p, x)) && x != id {
      HeadLeaves(p, x);
      assert Queued(q, x) <==> Queued(p.(queue := p.queue[1..]), x);
      assert Running(q, x) <==> Running(p, x);
      HeadIsNotRunning(p);
    }
  }

  lemma HeadIsNotRunning(p: Pool)
    requires p.queue != [] && JobsAreOrdered(p)
    ensures !Running(p, p.queue[0].id)
  {}

  lemma SameJobsStaySound(p: Pool, q: Pool)
    requires SameJobs(p, q)
    ensures JobsAreOrdered(p) ==> JobsAreOrdered(q)
    ensures JobsAreConserved(p) ==> JobsAreConserved(q)
  {
    forall x: JobId ensures (Queued(q, x) <==> Queued(p, x)) && (Settled(q, x) <==> Settled(p, x)) && (Running(q, x) <==> Running(p, x)) {
      if Running(p, x) {
        var s :| s in p.slots && p.slots[s].Some? && p.slots[s].value.id == x;
        assert q.slots[s] == p.slots[s];
      }
      if Running(q, x) {
        var s :| s in q.slots && q.slots[s].Some? && q.slots[s].value.id == x;
        assert q.slots[s] == p.slots[s];
      }
    }
  }

  /** The head of the queue on a slot set aside: it runs, or it is rejected and the slot is idle again. */
  lemma StartKeepsSlots(posting: Posting, p: Pool, slot: SlotId)
    requires SetAside(p, slot) && p.queue != [] && !p.disposed
    ensures SlotsAreSound(Started(posting, p.(queue := p.queue[1..]), slot, p.queue[0]))
  {}

  lemma StartKeepsOrder(posting: Posting, p: Pool, slot: SlotId)
    requires JobsAreOrdered(p) && p.queue != [] && slot in p.slots && p.slots[slot] == None
    ensures JobsAreOrdered(Started(posting, p.(queue := p.queue[1..]), slot, p.queue[0]))
  {}

  lemma StartConserves(posting: Posting, p: Pool, slot: SlotId)
    requires JobsAreOrdered(p) && JobsAreConserved(p) && p.queue != [] && slot in p.slots && p.slots[slot] == None && !p.disposed
    ensures JobsAreConserved(Started(posting, p.(queue := p.queue[1..]), slot, p.queue[0]))
  {
    var q := Started(posting, p.(queue := p.queue[1..]), slot, p.queue[0]);
    assert Queued(p, p.queue[0].id);
    if posting(p.queue[0]) {
      StartedRuns(p, slot);
      MoveConserves(p, q, p.queue[0].id, false);
    } else {
      assert p.slots[slot := None] == p.slots;
      StartedRejects(p, p.idle + [slot]);
      MoveConserves(p, q, p.queue[0].id, true);
    }
  }

  /** A run of the pool only ever adds settlements. */
  ghost predicate Grows(p: Pool, q: Pool) {
    p.settlements <= q.settlements && q.maxSize == p.maxSize
  }

  lemma DrainOnceKeepsInv(posting: Posting, p: Pool)
    requires Inv(p) && !p.disposed && p.queue != [] && TakeSlot(p).slot.Some?
    ensures var q := DrainOnce(posting, p); Inv(q) && Grows(p, q) && !q.disposed && q.queue == p.queue[1..]
  {
    hide SlotsAreSound, JobsAreOrdered, JobsAreConserved, TakeSlot;
    TakeFacts(p);
    var taken := TakeSlot(p);
    SameJobsStaySound(p, taken.pool);
    StartKeepsSlots(posting, taken.pool, taken.slot.value);
    StartKeepsOrder(posting, taken.pool, taken.slot.value);
    StartConserves(posting, taken.pool, taken.slot.value);
  }

  lemma BusyWhenFull(p: Pool)
    requires SlotsAreSound(p) && p.idle == []
    ensures forall s | s in p.slots :: p.slots[s].Some?
  {}

  /** Draining ends with nothing waiting in vain. */
  lemma {:induction false} DrainKeepsInv(posting: Posting, p: Pool)
    requires Inv(p)
    ensures var q := Drain(posting, p); Inv(q) && Grows(p, q) && NoneWaitsInVain(q) && q.disposed == p.disposed
    decreases |p.queue|
  {
    hide SlotsAreSound, JobsAreOrdered, JobsAreConserved, TakeSlot, DrainOnce;
    if !p.disposed && p.queue != [] {
      TakeFacts(p);
      if TakeSlot(p).slot.Some? {
        DrainOnceKeepsInv(posting, p);
        DrainKeepsInv(posting, DrainOnce(posting, p));
      } else {
        BusyWhenFull(p);
        AtMost(p);
      }
    }
  }

  lemma AtMost(p: Pool)
    requires SlotsAreSound(p)
    ensures |p.slots| <= p.maxSize
  {}

  // ----- a slot gives its job up

  lemma {:induction false} RemoveFirstFacts(slots: seq<SlotId>, slot: SlotId)
    requires forall i: nat, j: nat | i < j < |slots| :: slots[i] != slots[j]
    ensures var rest := RemoveFirst(slots, slot);
      && (forall s :: s in rest <==> s in slots && s != slot)
      && forall i: nat, j: nat | i < j < |rest| :: rest[i] != rest[j]
  {
    if slots != [] {
      assert slots == [slots[0]] + slots[1..];
      assert slots[0] !in slots[1..];
      if slots[0] != slot {
        RemoveFirstFacts(slots[1..], slot);
        var rest := RemoveFirst(slots[1..], slot);
        assert forall j: nat | j < |rest| :: rest[j] in rest;
      }
    }
  }

  /** The pool after the job of the slot was settled, the slot being either free or gone. */
  ghost predicate GaveUp(p: Pool, q: Pool, slot: SlotId, outcome: Outcome)
    requires slot in p.slots && p.slots[slot].Some?
  {
    && q.queue == p.queue && q.nextId == p.nextId && q.settlements == p.settlements + [Settlement(p.slots[slot].value.id, outcome)]
    && (forall s | s != slot :: (s in q.slots <==> s in p.slots) && (s in p.slots ==> q.slots[s] == p.slots[s]))
    && (slot in q.slots ==> q.slots[slot] == None)
  }

  lemma GiveUpKeepsJobs(p: Pool, q: Pool, slot: SlotId, outcome: Outcome)
    requires JobsAreOrdered(p) && JobsAreConserved(p) && slot in p.slots && p.slots[slot].Some? && GaveUp(p, q, slot, outcome)
    ensures JobsAreOrdered(q) && JobsAreConserved(q)
  {
    var id := p.slots[slot].value.id;
    assert Running(p, id);
    assert forall i | 0 <= i < |p.queue| :: p.slots[slot].value.id < p.queue[i].id;
    forall x: JobId ensures Queued(q, x) || Running(q, x) <==> (Queued(p, x) || Running(p, x)) && x != id {
      assert Queued(q, x) <==> Queued(p, x);
      if Running(q, x) {
        var s :| s in q.slots && q.slots[s].Some? && q.slots[s].value.id == x;
        assert p.slots[s] == q.slots[s];
      }
      if Running(p, x) && x != id {
        var s :| s in p.slots && p.slots[s].Some? && p.slots[s].value.id == x;
        assert q.slots[s] == p.slots[s];
      }
    }
    MoveConserves(p, q, id, true);
  }

  /** What failing a slot does before the queue is drained. */
  function Failed(p: Pool, slot: SlotId): Pool
    requires slot in p.slots
  {
    var closed := p.(idle := RemoveFirst(p.idle, slot), slots := p.slots - {slot});
    if p.slots[slot].Some? then Settle(closed, p.slots[slot].value.id, Rejected) else closed
  }

  lemma FailKeepsSlots(p: Pool, slot: SlotId)
    requires SlotsAreSound(p) && slot in p.slots
    ensures SlotsAreSound(Failed(p, slot))
  {
    RemoveFirstFacts(p.idle, slot);
    var q := Failed(p, slot);
    assert q.slots.Keys == p.slots.Keys - {slot};
    assert |q.slots.Keys| == |p.slots.Keys| - 1;
    forall i | 0 <= i < |q.idle| ensures q.idle[i] in q.slots && q.slots[q.idle[i]] == None {
      assert q.idle[i] in q.idle;
    }
  }

  lemma FailKeepsInv(posting: Posting, p: Pool, slot: SlotId)
    requires Inv(p) && NoneWaitsInVain(p)
    ensures var q := FailSlot(posting, p, slot); Inv(q) && Grows(p, q) && NoneWaitsInVain(q) && q.disposed == p.disposed
  {
    if slot in p.slots {
      FailKeepsSlots(p, slot);
      FailKeepsJobs(p, slot);
      hide SlotsAreSound, JobsAreOrdered, JobsAreConserved;
      DrainKeepsInv(posting, Failed(p, slot));
    }
  }

  lemma FailKeepsJobs(p: Pool, slot: SlotId)
    requires JobsAreOrdered(p) && JobsAreConserved(p) && slot in p.slots
    ensures JobsAreOrdered(Failed(p, slot)) && JobsAreConserved(Failed(p, slot))
  {
    if p.slots[slot].Some? {
      GiveUpKeepsJobs(p, Failed(p, slot), slot, Rejected);
    } else {
      SameJobsStaySound(p, Failed(p, slot));
    }
  }

  lemma FreeKeepsSlots(p: Pool, q: Pool, slot: SlotId)
    requires SlotsAreSound(p) && slot in p.slots && p.slots[slot].Some?
    requires q.slots == p.slots[slot := None] && q.idle == p.idle + [slot] && q.maxSize == p.maxSize && q.nextSlot == p.nextSlot
    ensures SlotsAreSound(q)
  {
    assert q.slots.Keys == p.slots.Keys;
    assert |q.slots| == |q.slots.Keys| == |p.slots|;
  }

  lemma MessageKeepsInv(posting: Posting, p: Pool, slot: SlotId, response: Response)
    requires Inv(p) && NoneWaitsInVain(p)
    ensures var q := HandleMessage(posting, p, slot, response); Inv(q) && Grows(p, q) && NoneWaitsInVain(q) && q.disposed == p.disposed
  {
    hide SlotsAreSound, JobsAreOrdered, JobsAreConserved, NoneWaitsInVain, Drain, FailSlot;
    if response == Invalid || slot !in p.slots || p.slots[slot] == None || p.slots[slot].value.id != response.id {
      FailKeepsInv(posting, p, slot);
    } else {
      var q := Settle(p.(slots := p.slots[slot := None], idle := p.idle + [slot]), response.id, Resolved(response.output));
      GiveUpKeepsJobs(p, q, slot, Resolved(response.output));
      FreeKeepsSlots(p, q, slot);
      DrainKeepsInv(posting, q);
    }
  }

  lemma SubmitKeepsJobs(p: Pool, input: string)
    requires JobsAreOrdered(p) && JobsAreConserved(p) && 1 <= p.nextId
    ensures var q := p.(queue := p.queue + [Job(p.nextId, input)], nextId := p.nextId + 1); JobsAreOrdered(q) && JobsAreConserved(q)
  {
    var q := p.(queue := p.queue + [Job(p.nextId, input)], nextId := p.nextId + 1);
    forall x: JobId ensures (Queued(q, x) <==> Queued(p, x) || x == p.nextId) && (Running(q, x) <==> Running(p, x)) && (Settled(q, x) <==> Settled(p, x)) {
      assert q.queue[|p.queue|].id == p.nextId;
      if Queued(p, x) {
        var i :| 0 <= i < |p.queue| && p.queue[i].id == x;
        assert q.queue[i].id == x;
      }
    }
    forall i | 0 <= i < |p.queue| ensures p.queue[i].id < p.nextId { assert Queued(p, p.queue[i].id); }
    forall s | s in p.slots && p.slots[s].Some? ensures p.slots[s].value.id < p.nextId { assert Running(p, p.slots[s].value.id); }
  }

  lemma SameSlotsStaySound(p: Pool, q: Pool)
    requires SlotsAreSound(p) && q.slots == p.slots && q.idle == p.idle && q.maxSize == p.maxSize && q.nextSlot == p.nextSlot
    ensures SlotsAreSound(q)
  {}

  lemma SubmitKeepsInv(posting: Posting, p: Pool, input: string)
    requires Inv(p) && NoneWaitsInVain(p)
    ensures var q := Run(posting, p, input); Inv(q) && Grows(p, q) && NoneWaitsInVain(q)
  {
    hide SlotsAreSound, JobsAreOrdered, JobsAreConserved, NoneWaitsInVain, Drain;
    if !p.disposed {
      SubmitKeepsJobs(p, input);
      SameSlotsStaySound(p, p.(queue := p.queue + [Job(p.nextId, input)], nextId := p.nextId + 1));
      DrainKeepsInv(posting, p.(queue := p.queue + [Job(p.nextId, input)], nextId := p.nextId + 1));
    }
  }

  // ----- disposing of the pool

  lemma {:induction false} QueueIsRejected(p: Pool)
    requires JobsAreOrdered(p) && JobsAreConserved(p)
    ensures var q := RejectQueue(p);
      JobsAreOrdered(q) && JobsAreConserved(q) && Grows(p, q) && q == p.(queue := [], settlements := q.settlements)
    decreases |p.queue|
  {
    if p.queue != [] {
      var next := Settle(p.(queue := p.queue[1..]), p.queue[0].id, Rejected);
      assert Queued(p, p.queue[0].id);
      StartedRejects(p, p.idle);
      MoveConserves(p, next, p.queue[0].id, true);
      QueueIsRejected(next);
    }
  }

  lemma {:induction false} CurrentIsRejected(p: Pool, from: SlotId)
    requires JobsAreOrdered(p) && JobsAreConserved(p)
    requires forall s | s in p.slots && s < from :: p.slots[s] == None
    requires forall s | s in p.slots :: s < p.nextSlot
    ensures var q := RejectCurrent(p, from);
      && JobsAreConserved(q) && Grows(p, q) && q == p.(slots := q.slots, settlements := q.settlements)
      && forall s | s in q.slots :: q.slots[s] == None
    decreases p.nextSlot - from
  {
    if from < p.nextSlot {
      if from in p.slots && p.slots[from].Some? {
        var next := Settle(p.(slots := p.slots[from := None]), p.slots[from].value.id, Rejected);
        GiveUpKeepsJobs(p, next, from, Rejected);
        hide JobsAreOrdered, JobsAreConserved;
        CurrentIsRejected(next, from + 1);
      } else {
        CurrentIsRejected(p, from + 1);
      }
    }
  }

  /** Disposing settles every job that was ever submitted. */
  lemma DisposeSettlesAll(p: Pool)
    requires Inv(p) && NoneWaitsInVain(p)
    ensures var q := DisposePool(p);
      && Inv(q) && Grows(p, q) && NoneWaitsInVain(q) && q.disposed
      && forall id: JobId | 1 <= id < q.nextId :: Settled(q, id)
  {
    if p.disposed {
      NothingLeft(p);
    } else {
      var emptied := RejectQueue(p.(disposed := true)).(idle := []);
      FlagsDoNotMatter(p, true, p.idle);
      QueueIsRejected(p.(disposed := true));
      FlagsDoNotMatter(RejectQueue(p.(disposed := true)), true, []);
      CurrentIsRejected(emptied, 0);
      var q := RejectCurrent(emptied, 0);
      FreeSlotsDoNotMatter(q);
      NothingLeft(DisposePool(p));
    }
  }

  lemma FlagsDoNotMatter(p: Pool, disposed: bool, idle: seq<SlotId>)
    requires JobsAreOrdered(p) && JobsAreConserved(p)
    ensures var q := p.(disposed := disposed, idle := idle); JobsAreOrdered(q) && JobsAreConserved(q)
  {
    var q := p.(disposed := disposed, idle := idle);
    forall x: JobId ensures (Queued(q, x) <==> Queued(p, x)) && (Running(q, x) <==> Running(p, x)) && (Settled(q, x) <==> Settled(p, x)) {}
  }

  lemma FreeSlotsDoNotMatter(p: Pool)
    requires JobsAreConserved(p) && p.queue == [] && forall s | s in p.slots :: p.slots[s] == None
    ensures JobsAreConserved(p.(slots := map[]))
  {
    var q := p.(slots := map[]);
    forall x: JobId ensures (Queued(q, x) <==> Queued(p, x)) && (Running(q, x) <==> Running(p, x)) && (Settled(q, x) <==> Settled(p, x)) {}
  }

  lemma NothingLeft(p: Pool)
    requires JobsAreConserved(p) && p.queue == [] && p.slots == map[]
    ensures forall id: JobId | 1 <= id < p.nextId :: Settled(p, id)
  {
    forall id: JobId ensures !Queued(p, id) && !Running(p, id) {}
  }

  // ----- every run

  lemma EventKeepsInv(posting: Posting, p: Pool, event: Event)
    requires Inv(p) && NoneWaitsInVain(p)
    ensures var q := Next(posting, p, event); Inv(q) && Grows(p, q) && NoneWaitsInVain(q)
  {
    match event
    case Submit(input) => SubmitKeepsInv(posting, p, input);
    case Message(slot, response) => MessageKeepsInv(posting, p, slot, response);
    case WorkerError(slot) => FailKeepsInv(posting, p, slot);
    case WorkerExit(slot) => FailKeepsInv(posting, p, slot);
    case Dispose => DisposeSettlesAll(p);
  }

  /** From an empty pool, in any run: no job is lost or settled twice, the slots stay within maxSize, and a
      job waits only when all of them are busy. */
  lemma {:induction false} RunKeepsInv(posting: Posting, maxSize: nat, events: seq<Event>)
    requires 1 <= maxSize
    ensures var q := After(posting, NewPool(maxSize), events); Inv(q) && NoneWaitsInVain(q) && q.maxSize == maxSize
  {
    if events == [] {
      var p := NewPool(maxSize);
      forall id: JobId ensures !Queued(p, id) && !Running(p, id) && !Settled(p, id) {}
    } else {
      hide Inv, NoneWaitsInVain, Next;
      RunKeepsInv(posting, maxSize, events[..|events| - 1]);
      EventKeepsInv(posting, After(posting, NewPool(maxSize), events[..|events| - 1]), events[|events| - 1]);
    }
  }

  // ----- the pool as the source changes it

  lemma {:induction false} DrainTwice(posting: Posting, p: Pool)
    ensures Drain(posting, Drain(posting, p)) == Drain(posting, p)
    decreases |p.queue|
  {
    if !p.disposed && p.queue != [] {
      if TakeSlot(p).slot.Some? {
        StartedKeepsQueue(posting, TakeSlot(p).pool.(queue := p.queue[1..]), TakeSlot(p).slot.value, p.queue[0]);
        DrainTwice(posting, DrainOnce(posting, p));
      } else {
        TakeTwice(p);
      }
    }
  }

  lemma TakeTwice(p: Pool)
    requires TakeSlot(p).slot == None
    ensures TakeSlot(TakeSlot(p).pool) == TakeSlot(p) && TakeSlot(p).pool.disposed == p.disposed
  {
    IdleRunsOut(p);
  }

  lemma {:induction false} IdleRunsOut(p: Pool)
    requires TakeIdleSlot(p).slot == None
    ensures TakeIdleSlot(p).pool == p.(idle := [])
    decreases |p.idle|
  {
    if p.idle != [] { IdleRunsOut(p.(idle := p.idle[..|p.idle| - 1])); }
  }

  class SystemWorkerPool {
    const maxSize: nat
    const posting: Posting
    var slots: map<SlotId, Option<Job>>
    var idle: seq<SlotId>
    var queue: seq<Job>
    var disposed: bool
    var nextId: JobId
    var nextSlot: SlotId
    var settlements: seq<Settlement>

    ghost function View(): Pool
      reads this
    {
      Pool(maxSize, slots, idle, queue, disposed, nextId, nextSlot, settlements)
    }

    constructor (size: nat, posting: Posting)
      ensures View() == NewPool(if size < 1 then 1 else size) && this.posting == posting
    {
      maxSize := if size < 1 then 1 else size;
      this.posting := posting;
      slots, idle, queue, disposed, nextId, nextSlot, settlements := map[], [], [], false, 1, 0, [];
    }

    /** Resolves or rejects the promise of a job. */
    method SettleJob(job: Job, outcome: Outcome)
      modifies this`settlements
      ensures settlements == old(settlements) + [Settlement(job.id, outcome)]
    {
      settlements := settlements + [Settlement(job.id, outcome)];
    }

    method TakeIdle() returns (slot: Option<SlotId>)
      modifies this`idle
      ensures Taken(View(), slot) == TakeIdleSlot(old(View()))
    {
      while idle != []
        invariant TakeIdleSlot(View()) == TakeIdleSlot(old(View()))
        decreases |idle|
      {
        var last := idle[|idle| - 1];
        idle := idle[..|idle| - 1];
        if last in slots && slots[last] == None { return Some(last); }
      }
      return None;
    }

    method CreateIfAvailable() returns (slot: Option<SlotId>)
      modifies this`slots, this`nextSlot
      ensures Taken(View(), slot) == CreateSlotIfAvailable(old(View()))
    {
      if |slots| >= maxSize { return None; }
      slots := slots[nextSlot := None];
      slot := Some(nextSlot);
      nextSlot := nextSlot + 1;
    }

    method DrainQueue()
      modifies this
      ensures View() == Drain(posting, old(View()))
      decreases |queue|, 1
    {
      if disposed { return; }
      while queue != []
        invariant |queue| <= old(|queue|) && !disposed
        invariant Drain(posting, View()) == Drain(posting, old(View()))
        decreases |queue|
      {
        ghost var before := View();
        IdleKeepsQueue(View());
        var slot := TakeIdle();
        if slot == None { slot := CreateIfAvailable(); }
        assert Taken(View(), slot) == TakeSlot(before);
        if slot == None { return; }
        TakenIsLive(before);
        var job := queue[0];
        queue := queue[1..];
        StartedKeepsQueue(posting, View(), slot.value, job);
        Start(slot.value, job);
        DrainTwice(posting, DrainOnce(posting, before));
      }
    }

    /** A throw while posting rejects the job, releases the slot and drains again. */
    method Start(slot: SlotId, job: Job)
      requires !disposed && slot in slots
      modifies this
      ensures View() == (if posting(job) then Started(posting, old(View()), slot, job) else Drain(posting, Started(posting, old(View()), slot, job)))
      ensures |queue| <= old(|queue|) && !disposed
      decreases |queue|, 2
    {
      slots := slots[slot := Some(job)];
      if !posting(job) {
        slots := slots[slot := None];
        assert slots == old(slots)[slot := None];
        SettleJob(job, Rejected);
        Release(slot);
        DrainShortens(posting, View());
        DrainQueue();
      }
    }

    method Release(slot: SlotId)
      modifies this`idle
      ensures View() == ReleaseSlot(old(View()), slot)
    {
      if disposed || slot !in slots { return; }
      idle := idle + [slot];
    }

    /** The promise of run is rejected at once when the pool is disposed of; no job comes of it. */
    method RunJob(input: string) returns (accepted: bool)
      modifies this
      ensures View() == Run(posting, old(View()), input) && accepted == !old(disposed)
    {
      if disposed { return false; }
      queue := queue + [Job(nextId, input)];
      nextId := nextId + 1;
      DrainQueue();
      return true;
    }

    method FailWorker(slot: SlotId)
      modifies this
      ensures View() == FailSlot(posting, old(View()), slot)
    {
      if slot !in slots { return; }
      idle := RemoveFirst(idle, slot);
      var job := slots[slot];
      slots := slots - {slot};
      if job.Some? { SettleJob(job.value, Rejected); }
      DrainQueue();
    }

    method ReceiveMessage(slot: SlotId, response: Response)
      modifies this
      ensures View() == HandleMessage(posting, old(View()), slot, response)
    {
      if response == Invalid {
        FailWorker(slot);
        return;
      }
      var job := if slot in slots then slots[slot] else None;
      if job == None || job.value.id != response.id {
        FailWorker(slot);
        return;
      }
      slots := slots[slot := None];
      SettleJob(job.value, Resolved(response.output));
      Release(slot);
      DrainQueue();
    }

    method DisposeAll()
      modifies this
      ensures View() == DisposePool(old(View()))
    {
      if disposed { return; }
      disposed := true;
      ghost var start := View();
      while queue != []
        invariant RejectQueue(View()) == RejectQueue(start)
        decreases |queue|
      {
        var job := queue[0];
        queue := queue[1..];
        SettleJob(job, Rejected);
      }
      idle := [];
      ghost var emptied := View();
      var slot := 0;
      while slot < nextSlot
        invariant RejectCurrent(View(), slot) == RejectCurrent(emptied, 0)
        decreases nextSlot - slot
      {
        if slot in slots && slots[slot].Some? {
          SettleJob(slots[slot].value, Rejected);
          slots := slots[slot := None];
        }
        slot := slot + 1;
      }
      slots := map[];
    }
  }

  lemma {:induction false} DrainShortens(posting: Posting, p: Pool)
    ensures |Drain(posting, p).queue| <= |p.queue| && Drain(posting, p).disposed == p.disposed
    decreases |p.queue|
  {
    if !p.disposed && p.queue != [] {
      TakeKeepsFlag(p);
      if TakeSlot(p).slot.Some? {
        StartedKeepsQueue(posting, TakeSlot(p).pool.(queue := p.queue[1..]), TakeSlot(p).slot.value, p.queue[0]);
        DrainShortens(posting, DrainOnce(posting, p));
      }
    }
  }

  lemma TakenIsLive(p: Pool)
    requires TakeSlot(p).slot.Some?
    ensures TakeSlot(p).slot.value in TakeSlot(p).pool.slots
  {
    TakenIdleIsLive(p);
  }

  lemma {:induction false} TakenIdleIsLive(p: Pool)
    ensures TakeIdleSlot(p).slot.Some? ==> TakeIdleSlot(p).slot.value in TakeIdleSlot(p).pool.slots
    decreases |p.idle|
  {
    if p.idle != [] { TakenIdleIsLive(p.(idle := p.idle[..|p.idle| - 1])); }
  }

  lemma TakeKeepsFlag(p: Pool)
    ensures TakeSlot(p).pool.disposed == p.disposed
  {
    IdleKeepsFlag(p);
  }

  lemma {:induction false} IdleKeepsFlag(p: Pool)
    ensures TakeIdleSlot(p).pool.disposed == p.disposed
    decreases |p.idle|
  {
    if p.idle != [] { IdleKeepsFlag(p.(idle := p.idle[..|p.idle| - 1])); }
  }
}
