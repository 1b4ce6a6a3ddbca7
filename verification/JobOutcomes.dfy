/** How every job of the worker pool ends, and why
    (backend/ecs/SystemWorkerPool.ts, lines 43-170). */
module JobOutcomes {
  import opened Options
  import opened WorkerPool

  // ----- what one drain starts

  /** The rejections of the jobs whose posting throws, in their order. */
  function Refused(posting: Posting, jobs: seq<Job>): seq<Settlement> {
    if jobs == [] then [] else (if posting(jobs[0]) then [] else [Settlement(jobs[0].id, Rejected)]) + Refused(posting, jobs[1..])
  }

  ghost predicate IsOn(p: Pool, slot: SlotId, job: Job) {
    slot in p.slots && p.slots[slot] == Some(job)
  }

  /** The first k waiting jobs were started: those that could be posted are on slots of their own, the others were
      rejected. No other job moved. */
  ghost predicate Starts(posting: Posting, p: Pool, q: Pool, k: nat) {
    && k <= |p.queue| && q.queue == p.queue[k..] && q.nextId == p.nextId && q.disposed == p.disposed
    && q.settlements == p.settlements + Refused(posting, p.queue[..k])
    && (forall s, job | IsOn(p, s, job) :: IsOn(q, s, job))
    && (forall s, job | IsOn(q, s, job) :: IsOn(p, s, job) || (job in p.queue[..k] && posting(job)))
    && (forall job | job in p.queue[..k] && posting(job) :: exists s :: IsOn(q, s, job))
  }

  lemma StartsNone(posting: Posting, p: Pool, q: Pool)
    requires q == p.(idle := q.idle)
    ensures Starts(posting, p, q, 0)
  {
    assert p.settlements + [] == p.settlements;
  }

  /** One job more at the front. */
  lemma StartsOneMore(posting: Posting, p: Pool, middle: Pool, q: Pool, k: nat)
    requires p.queue != [] && Starts(posting, middle, q, k) && middle.queue == p.queue[1..]
    requires middle.nextId == p.nextId && middle.disposed == p.disposed
    requires middle.settlements == p.settlements + if posting(p.queue[0]) then [] else [Settlement(p.queue[0].id, Rejected)]
    requires forall s, job | IsOn(p, s, job) :: IsOn(middle, s, job)
    requires forall s, job | IsOn(middle, s, job) :: IsOn(p, s, job) || (job == p.queue[0] && posting(job))
    requires posting(p.queue[0]) ==> exists s :: IsOn(middle, s, p.queue[0])
    ensures Starts(posting, p, q, k + 1)
  {
    hide IsOn;
    var first, rest := p.queue[0], p.queue[1..];
    assert p.queue == [first] + rest && p.queue[..k + 1] == [first] + rest[..k];
    assert p.queue[..k + 1][1..] == rest[..k];
    assert forall job :: job in p.queue[..k + 1] <==> job == first || job in rest[..k];
    var own := if posting(first) then [] else [Settlement(first.id, Rejected)];
    assert p.settlements + own + Refused(posting, rest[..k]) == p.settlements + (own + Refused(posting, rest[..k]));
    if posting(first) {
      var s :| IsOn(middle, s, first);
      assert IsOn(q, s, first);
    }
  }

  /** Starting the first waiting job on a slot set aside. */
  lemma FirstIsStarted(posting: Posting, p: Pool)
    requires SlotsAreSound(p) && p.queue != [] && TakeSlot(p).slot.Some?
    ensures var middle := DrainOnce(posting, p);
      && middle.queue == p.queue[1..] && middle.nextId == p.nextId && middle.disposed == p.disposed
      && middle.settlements == p.settlements + (if posting(p.queue[0]) then [] else [Settlement(p.queue[0].id, Rejected)])
      && (forall s, job | IsOn(p, s, job) :: IsOn(middle, s, job))
      && (forall s, job | IsOn(middle, s, job) :: IsOn(p, s, job) || (job == p.queue[0] && posting(job)))
      && (posting(p.queue[0]) ==> IsOn(middle, TakeSlot(p).slot.value, p.queue[0]))
  {
    TakeFacts(p);
    hide SlotsAreSound, TakeSlot;
    assert p.settlements + [] == p.settlements;
  }

  lemma {:induction false} DrainStarts(posting: Posting, p: Pool) returns (k: nat)
    requires Inv(p)
    ensures Starts(posting, p, Drain(posting, p), k)
    decreases |p.queue|
  {
    if p.disposed || p.queue == [] {
      k := 0;
      StartsNone(posting, p, p);
    } else if TakeSlot(p).slot.Some? {
      FirstIsStarted(posting, p);
      DrainOnceKeepsInv(posting, p);
      hide Inv, TakeSlot, DrainOnce, Starts, IsOn;
      k := DrainStarts(posting, DrainOnce(posting, p));
      StartsOneMore(posting, p, DrainOnce(posting, p), Drain(posting, p), k);
      k := k + 1;
    } else {
      TakeFacts(p);
      k := 0;
      StartsNone(posting, p, TakeSlot(p).pool);
    }
  }

  // ----- what one event settles

  /** The slot the event comes from. */
  function SlotOf(event: Event): Option<SlotId> {
    match event
    case Message(slot, _) => Some(slot)
    case WorkerError(slot) => Some(slot)
    case WorkerExit(slot) => Some(slot)
    case _ => None
  }

  /** The worker of the slot answered the job it runs. */
  ghost predicate Answers(p: Pool, event: Event, job: Job, output: string) {
    match event
    case Message(slot, response) => response == Result(job.id, output) && IsOn(p, slot, job)
    case _ => false
  }

  /** The slot is closed under its job: the worker broke down, or posted anything but the answer to that job. */
  ghost predicate LosesWorker(p: Pool, event: Event, job: Job) {
    match event
    case WorkerError(slot) => IsOn(p, slot, job)
    case WorkerExit(slot) => IsOn(p, slot, job)
    case Message(slot, response) => IsOn(p, slot, job) && (response == Invalid || response.id != job.id)
    case _ => false
  }

  /** The jobs that wait once the event has been taken in. */
  function Waiting(p: Pool, event: Event): seq<Job> {
    if event.Submit? && !p.disposed then p.queue + [Job(p.nextId, event.input)] else p.queue
  }

  /** What the event settles before anything is started. */
  ghost predicate SettlesFirst(p: Pool, event: Event, own: seq<Settlement>) {
    && (forall s: Settlement | s in own :: exists job: Job ::
          s.id == job.id && if s.outcome.Resolved? then Answers(p, event, job, s.outcome.output) else LosesWorker(p, event, job))
    && (forall job, output | Answers(p, event, job, output) :: own == [Settlement(job.id, Resolved(output))])
    && (forall job | LosesWorker(p, event, job) :: own == [Settlement(job.id, Rejected)])
  }

  /** The pool just before it drains. */
  ghost predicate TakenIn(p: Pool, event: Event, middle: Pool, own: seq<Settlement>) {
    && SettlesFirst(p, event, own) && middle.settlements == p.settlements + own
    && middle.queue == Waiting(p, event) && middle.disposed == p.disposed
    && middle.nextId == (if event.Submit? && !p.disposed then p.nextId + 1 else p.nextId)
    && (forall s, job | IsOn(middle, s, job) :: IsOn(p, s, job))
    && (forall s, job | IsOn(p, s, job) :: IsOn(middle, s, job) || LosesWorker(p, event, job) || exists output :: Answers(p, event, job, output))
  }

  lemma NothingSettled(p: Pool, event: Event)
    requires forall job, output :: !Answers(p, event, job, output)
    requires forall job :: !LosesWorker(p, event, job)
    ensures SettlesFirst(p, event, []) && p.settlements + [] == p.settlements
  {}

  /** A slot that is closed gives its job up, if it has one. */
  lemma FailTakesIn(p: Pool, event: Event, slot: SlotId) returns (middle: Pool, own: seq<Settlement>)
    requires Inv(p) && SlotOf(event) == Some(slot)
    requires forall job | IsOn(p, slot, job) :: LosesWorker(p, event, job)
    requires forall job, output :: !Answers(p, event, job, output)
    ensures Inv(middle) && TakenIn(p, event, middle, own)
    ensures middle == if slot in p.slots then Failed(p, slot) else p
  {
    middle := if slot in p.slots then Failed(p, slot) else p;
    if slot in p.slots {
      FailKeepsSlots(p, slot);
      FailKeepsJobs(p, slot);
    }
    hide SlotsAreSound, JobsAreOrdered, JobsAreConserved;
    if slot in p.slots && p.slots[slot].Some? {
      own := [Settlement(p.slots[slot].value.id, Rejected)];
      BusySlotFails(p, event, slot);
    } else {
      own := [];
      NothingSettled(p, event);
      hide IsOn, Answers, LosesWorker, SettlesFirst;
      if slot in p.slots { FreeSlotCloses(p, slot); }
    }
  }

  lemma FreeSlotCloses(p: Pool, slot: SlotId)
    requires slot in p.slots && p.slots[slot] == None
    ensures var q := Failed(p, slot);
      q == p.(slots := q.slots, idle := q.idle) && forall s, job :: IsOn(q, s, job) <==> IsOn(p, s, job)
  {}

  lemma BusySlotFails(p: Pool, event: Event, slot: SlotId)
    requires SlotOf(event) == Some(slot)
    requires slot in p.slots && p.slots[slot].Some? && LosesWorker(p, event, p.slots[slot].value)
    requires forall job, output :: !Answers(p, event, job, output)
    ensures TakenIn(p, event, Failed(p, slot), [Settlement(p.slots[slot].value.id, Rejected)])
  {
    var job, q := p.slots[slot].value, Failed(p, slot);
    LosesOne(p, event);
    hide Answers, LosesWorker;
    forall s, j | IsOn(p, s, j) ensures IsOn(q, s, j) || LosesWorker(p, event, j) {
      if s == slot { assert j == job; }
    }
  }

  /** An event has one slot, which runs one job. */
  lemma LosesOne(p: Pool, event: Event)
    ensures forall a, b | LosesWorker(p, event, a) && LosesWorker(p, event, b) :: a == b
    ensures forall a, b, x, y | Answers(p, event, a, x) && Answers(p, event, b, y) :: a == b && x == y
    ensures forall a, b, x :: !(LosesWorker(p, event, a) && Answers(p, event, b, x))
  {}

  /** A slot whose worker answered is free again. */
  function Freed(p: Pool, slot: SlotId, id: JobId, output: string): Pool {
    Settle(p.(slots := p.slots[slot := None], idle := p.idle + [slot]), id, Resolved(output))
  }

  lemma AnswerTakesIn(p: Pool, slot: SlotId, output: string) returns (own: seq<Settlement>)
    requires Inv(p) && slot in p.slots && p.slots[slot].Some?
    ensures var job := p.slots[slot].value;
      Inv(Freed(p, slot, job.id, output)) && TakenIn(p, Message(slot, Result(job.id, output)), Freed(p, slot, job.id, output), own)
  {
    var job := p.slots[slot].value;
    var q := Freed(p, slot, job.id, output);
    own := [Settlement(job.id, Resolved(output))];
    GiveUpKeepsJobs(p, q, slot, Resolved(output));
    FreeKeepsSlots(p, q, slot);
    hide SlotsAreSound, JobsAreOrdered, JobsAreConserved;
    AnsweredSlot(p, slot, output);
  }

  lemma AnsweredSlot(p: Pool, slot: SlotId, output: string)
    requires slot in p.slots && p.slots[slot].Some?
    ensures var job := p.slots[slot].value;
      TakenIn(p, Message(slot, Result(job.id, output)), Freed(p, slot, job.id, output), [Settlement(job.id, Resolved(output))])
  {
    var job := p.slots[slot].value;
    var event, q := Message(slot, Result(job.id, output)), Freed(p, slot, job.id, output);
    assert Answers(p, event, job, output);
    LosesOne(p, event);
    hide Answers, LosesWorker;
    forall s, j | IsOn(p, s, j) ensures IsOn(q, s, j) || Answers(p, event, j, output) {
      if s == slot { assert j == job; }
    }
  }

  lemma SubmitTakesIn(p: Pool, input: string)
    requires Inv(p) && !p.disposed
    ensures var q := p.(queue := p.queue + [Job(p.nextId, input)], nextId := p.nextId + 1);
      Inv(q) && TakenIn(p, Submit(input), q, [])
  {
    SubmitKeepsJobs(p, input);
    SameSlotsStaySound(p, p.(queue := p.queue + [Job(p.nextId, input)], nextId := p.nextId + 1));
    NothingSettled(p, Submit(input));
    hide SlotsAreSound, JobsAreOrdered, JobsAreConserved;
  }

  /** The event was taken in, then the pool drained. */
  ghost predicate Ends(posting: Posting, p: Pool, q: Pool, event: Event, middle: Pool, own: seq<Settlement>, k: nat) {
    TakenIn(p, event, middle, own) && Starts(posting, middle, q, k)
  }

  /** Every event but a disposal settles just the job of its own slot, and those that cannot be posted. */
  lemma EventEnds(posting: Posting, p: Pool, event: Event) returns (middle: Pool, own: seq<Settlement>, k: nat)
    requires Inv(p) && event != Dispose
    ensures Inv(middle) && Ends(posting, p, Next(posting, p, event), event, middle, own, k)
  {
    match event
    case Submit(input) =>
      if p.disposed {
        NothingSettled(p, event);
        middle, own, k := p, [], 0;
        StartsNone(posting, p, p);
      } else {
        SubmitTakesIn(p, input);
        middle, own := p.(queue := p.queue + [Job(p.nextId, input)], nextId := p.nextId + 1), [];
        hide Inv, TakenIn, Starts, Drain;
        k := DrainStarts(posting, middle);
      }
    case WorkerError(slot) => middle, own, k := FailEnds(posting, p, event, slot);
    case WorkerExit(slot) => middle, own, k := FailEnds(posting, p, event, slot);
    case Message(slot, response) =>
      if response == Invalid || slot !in p.slots || p.slots[slot] == None || p.slots[slot].value.id != response.id {
        middle, own, k := FailEnds(posting, p, event, slot);
      } else {
        own := AnswerTakesIn(p, slot, response.output);
        middle := Freed(p, slot, response.id, response.output);
        hide TakenIn, Starts, Drain, SlotsAreSound, JobsAreOrdered, JobsAreConserved;
        k := DrainStarts(posting, middle);
      }
  }

  lemma FailEnds(posting: Posting, p: Pool, event: Event, slot: SlotId) returns (middle: Pool, own: seq<Settlement>, k: nat)
    requires Inv(p) && SlotOf(event) == Some(slot)
    requires forall job | IsOn(p, slot, job) :: LosesWorker(p, event, job)
    requires forall job, output :: !Answers(p, event, job, output)
    ensures Inv(middle) && Ends(posting, p, FailSlot(posting, p, slot), event, middle, own, k)
  {
    middle, own := FailTakesIn(p, event, slot);
    hide Inv, TakenIn, Starts, Drain;
    if slot in p.slots {
      k := DrainStarts(posting, middle);
    } else {
      k := 0;
      StartsNone(posting, p, p);
    }
  }

  lemma {:induction false} RefusedExactly(posting: Posting, jobs: seq<Job>, x: Settlement)
    ensures x in Refused(posting, jobs) <==> x.outcome == Rejected && exists job :: job in jobs && !posting(job) && job.id == x.id
  {
    if jobs != [] {
      RefusedExactly(posting, jobs[1..], x);
      assert forall job :: job in jobs <==> job == jobs[0] || job in jobs[1..];
    }
  }

  /** The job waited, was started, and could not be posted. */
  ghost predicate NotPosted(posting: Posting, p: Pool, q: Pool, event: Event, job: Job) {
    event != Dispose && job in Waiting(p, event) && job !in q.queue && !posting(job)
  }

  /** The event is why the job ends in this way. */
  ghost predicate Causes(posting: Posting, p: Pool, q: Pool, event: Event, job: Job, outcome: Outcome) {
    if outcome.Resolved? then Answers(p, event, job, outcome.output)
    else LosesWorker(p, event, job) || NotPosted(posting, p, q, event, job) || GivenUp(p, event, job)
  }

  ghost predicate CausesAny(posting: Posting, p: Pool, q: Pool, event: Event, x: Settlement) {
    exists job: Job :: job.id == x.id && Causes(posting, p, q, event, job, x.outcome)
  }

  /** The job waits or runs when the pool is disposed of. */
  ghost predicate GivenUp(p: Pool, event: Event, job: Job) {
    event == Dispose && (job in p.queue || exists s :: IsOn(p, s, job))
  }

  lemma StartedAreGone(waiting: seq<Job>, k: nat, job: Job)
    requires k <= |waiting| && forall i: nat, j: nat | i < j < |waiting| :: waiting[i].id < waiting[j].id
    ensures job in waiting[..k] <==> job in waiting && job !in waiting[k..]
  {
    assert waiting == waiting[..k] + waiting[k..];
    forall a, b | a in waiting[..k] && b in waiting[k..] ensures a.id < b.id {
      var i :| 0 <= i < k && waiting[i] == a;
      var j :| 0 <= j < |waiting| - k && waiting[k..][j] == b;
      assert waiting[i].id < waiting[k + j].id;
    }
  }

  lemma EventSettles(posting: Posting, p: Pool, event: Event, x: Settlement)
    requires Inv(p) && NoneWaitsInVain(p) && event != Dispose
    ensures var q := Next(posting, p, event);
      x in q.settlements <==> x in p.settlements || CausesAny(posting, p, q, event, x)
  {
    var q := Next(posting, p, event);
    hide Next, SlotsAreSound, JobsAreConserved, IsOn, Answers, LosesWorker;
    var middle, own, k := EventEnds(posting, p, event);
    var waiting := Waiting(p, event);
    hide Waiting;
    RefusedExactly(posting, waiting[..k], x);
    forall job ensures job in waiting[..k] <==> job in waiting && job !in q.queue {
      StartedAreGone(waiting, k, job);
    }
    OwnExactly(p, event, own, x);
    hide TakenIn, SettlesFirst, Refused;
    assert x in q.settlements <==> x in p.settlements || x in own || x in Refused(posting, waiting[..k]) by {
      SplitInThree(p, event, middle, own, posting, q, k);
    }
  }

  lemma SplitInThree(p: Pool, event: Event, middle: Pool, own: seq<Settlement>, posting: Posting, q: Pool, k: nat)
    requires Ends(posting, p, q, event, middle, own, k)
    ensures k <= |Waiting(p, event)| && q.settlements == p.settlements + own + Refused(posting, Waiting(p, event)[..k])
  {}

  ghost predicate CausedBySlot(p: Pool, event: Event, job: Job, outcome: Outcome) {
    if outcome.Resolved? then Answers(p, event, job, outcome.output) else LosesWorker(p, event, job)
  }

  lemma OwnExactly(p: Pool, event: Event, own: seq<Settlement>, x: Settlement)
    requires SettlesFirst(p, event, own)
    ensures x in own <==> exists job: Job :: job.id == x.id && CausedBySlot(p, event, job, x.outcome)
  {
    hide Answers, LosesWorker;
  }

  // ----- disposal

  lemma {:induction false} QueueOnlyRejects(p: Pool, x: Settlement)
    requires x in RejectQueue(p).settlements
    ensures x in p.settlements || x.outcome == Rejected
    decreases |p.queue|
  {
    if p.queue != [] { QueueOnlyRejects(Settle(p.(queue := p.queue[1..]), p.queue[0].id, Rejected), x); }
  }

  lemma {:induction false} CurrentOnlyRejects(p: Pool, from: SlotId, x: Settlement)
    requires x in RejectCurrent(p, from).settlements
    ensures x in p.settlements || x.outcome == Rejected
    decreases p.nextSlot - from
  {
    if from < p.nextSlot {
      if from in p.slots && p.slots[from].Some? {
        CurrentOnlyRejects(Settle(p.(slots := p.slots[from := None]), p.slots[from].value.id, Rejected), from + 1, x);
      } else {
        CurrentOnlyRejects(p, from + 1, x);
      }
    }
  }

  lemma DisposeOnlyRejects(p: Pool, x: Settlement)
    requires x in DisposePool(p).settlements
    ensures x in p.settlements || x.outcome == Rejected
  {
    if !p.disposed {
      var queued := RejectQueue(p.(disposed := true));
      CurrentOnlyRejects(queued.(idle := []), 0, x);
      if x in queued.settlements { QueueOnlyRejects(p.(disposed := true), x); }
    }
  }

  lemma {:induction false} QueueKeepsIds(p: Pool)
    ensures RejectQueue(p).nextId == p.nextId
    decreases |p.queue|
  {
    if p.queue != [] { QueueKeepsIds(Settle(p.(queue := p.queue[1..]), p.queue[0].id, Rejected)); }
  }

  lemma {:induction false} CurrentKeepsIds(p: Pool, from: SlotId)
    ensures RejectCurrent(p, from).nextId == p.nextId
    decreases p.nextSlot - from
  {
    if from < p.nextSlot {
      if from in p.slots && p.slots[from].Some? {
        CurrentKeepsIds(Settle(p.(slots := p.slots[from := None]), p.slots[from].value.id, Rejected), from + 1);
      } else {
        CurrentKeepsIds(p, from + 1);
      }
    }
  }

  lemma DisposeKeepsIds(p: Pool)
    ensures DisposePool(p).nextId == p.nextId
  {
    if !p.disposed {
      QueueKeepsIds(p.(disposed := true));
      CurrentKeepsIds(RejectQueue(p.(disposed := true)).(idle := []), 0);
    }
  }

  lemma LiveExactly(p: Pool, id: JobId)
    ensures Queued(p, id) || Running(p, id) <==> exists job: Job :: job.id == id && GivenUp(p, Dispose, job)
  {
    if Queued(p, id) {
      var i :| 0 <= i < |p.queue| && p.queue[i].id == id;
      assert GivenUp(p, Dispose, p.queue[i]);
    }
    if Running(p, id) {
      var s :| s in p.slots && p.slots[s].Some? && p.slots[s].value.id == id;
      assert IsOn(p, s, p.slots[s].value);
      assert GivenUp(p, Dispose, p.slots[s].value);
    }
  }

  lemma DisposeSettles(posting: Posting, p: Pool, x: Settlement)
    requires Inv(p) && NoneWaitsInVain(p)
    ensures var q := DisposePool(p); x in q.settlements <==> x in p.settlements || CausesAny(posting, p, q, Dispose, x)
  {
    var q := DisposePool(p);
    DisposeSettlesAll(p);
    DisposeKeepsIds(p);
    LiveExactly(p, x.id);
    NoOtherCause(posting, p, q, x);
    SettlementsStay(p, q, x);
    hide DisposePool, SlotsAreSound, JobsAreOrdered, NoneWaitsInVain, GivenUp, CausesAny, Grows;
    if x in q.settlements && x !in p.settlements {
      DisposeOnlyRejects(p, x);
      NewIsUnsettled(p, q, x);
    }
    if x.outcome == Rejected && (Queued(p, x.id) || Running(p, x.id)) {
      LiveIsRejected(p, x);
    }
  }

  lemma LiveIsRejected(p: Pool, x: Settlement)
    requires Inv(p) && NoneWaitsInVain(p) && x.outcome == Rejected && (Queued(p, x.id) || Running(p, x.id))
    ensures x in DisposePool(p).settlements
  {
    var q := DisposePool(p);
    DisposeSettlesAll(p);
    DisposeKeepsIds(p);
    hide DisposePool, SlotsAreSound, JobsAreOrdered, NoneWaitsInVain, Grows;
    assert !Settled(p, x.id) && 1 <= x.id < q.nextId;
    assert Settled(q, x.id);
    hide Queued, Running;
    var i :| 0 <= i < |q.settlements| && q.settlements[i].id == x.id;
    assert q.settlements[i] !in p.settlements;
    DisposeOnlyRejects(p, q.settlements[i]);
  }

  lemma SettlementsStay(p: Pool, q: Pool, x: Settlement)
    requires Grows(p, q)
    ensures x in p.settlements ==> x in q.settlements
  {}

  lemma NoOtherCause(posting: Posting, p: Pool, q: Pool, x: Settlement)
    ensures CausesAny(posting, p, q, Dispose, x) <==> x.outcome == Rejected && exists job: Job :: job.id == x.id && GivenUp(p, Dispose, job)
  {}

  lemma SettledOnce(p: Pool, q: Pool, x: Settlement)
    requires JobsAreConserved(q) && Grows(p, q) && Settled(p, x.id) && x in q.settlements
    ensures x in p.settlements
  {
    var i :| 0 <= i < |p.settlements| && p.settlements[i].id == x.id;
    var n :| 0 <= n < |q.settlements| && q.settlements[n] == x;
    assert q.settlements[i] == p.settlements[i];
    assert i == n;
  }

  /** A settlement that is new is of a job that was still waiting or running. */
  lemma NewIsUnsettled(p: Pool, q: Pool, x: Settlement)
    requires JobsAreConserved(p) && JobsAreConserved(q) && Grows(p, q) && q.nextId == p.nextId
    requires x in q.settlements && x !in p.settlements
    ensures Queued(p, x.id) || Running(p, x.id)
  {
    var n :| 0 <= n < |q.settlements| && q.settlements[n] == x;
    assert Settled(q, x.id);
    if Settled(p, x.id) { SettledOnce(p, q, x); }
  }

  // ----- every run

  /** For every event, what is settled and how. */
  lemma StepSettles(posting: Posting, p: Pool, event: Event, x: Settlement)
    requires Inv(p) && NoneWaitsInVain(p)
    ensures var q := Next(posting, p, event); x in q.settlements <==> x in p.settlements || CausesAny(posting, p, q, event, x)
  {
    hide CausesAny, Inv, NoneWaitsInVain;
    if event == Dispose { DisposeSettles(posting, p, x); } else { EventSettles(posting, p, event, x); }
  }

  /** The inputs that were accepted: those submitted before the pool was disposed of. */
  function Accepted(events: seq<Event>): seq<string> {
    if events == [] then []
    else
      var n := |events| - 1;
      if events[n].Submit? && Dispose !in events[..n] then Accepted(events[..n]) + [events[n].input] else Accepted(events[..n])
  }

  /** Every job in the pool carries the input of its number. */
  ghost predicate Carries(p: Pool, inputs: seq<string>) {
    && p.nextId == |inputs| + 1
    && (forall job: Job | job in p.queue :: IsNth(job, inputs))
    && (forall s, job: Job | IsOn(p, s, job) :: IsNth(job, inputs))
  }

  predicate IsNth(job: Job, inputs: seq<string>) {
    1 <= job.id <= |inputs| && job.input == inputs[job.id - 1]
  }

  lemma EventCarries(posting: Posting, p: Pool, event: Event, inputs: seq<string>)
    requires Inv(p) && NoneWaitsInVain(p) && Carries(p, inputs)
    ensures Carries(Next(posting, p, event), if event.Submit? && !p.disposed then inputs + [event.input] else inputs)
    ensures Next(posting, p, event).disposed <==> p.disposed || event == Dispose
  {
    if event == Dispose {
      DisposeSettlesAll(p);
      DisposeKeepsIds(p);
      hide SlotsAreSound, JobsAreOrdered, JobsAreConserved, NoneWaitsInVain, DisposePool;
    } else {
      var after := if event.Submit? && !p.disposed then inputs + [event.input] else inputs;
      var middle, own, k := EventEnds(posting, p, event);
      hide Next, SlotsAreSound, JobsAreOrdered, JobsAreConserved, IsOn, SettlesFirst, Refused;
      WaitingCarries(p, event, inputs);
      StartedCarries(posting, p, Next(posting, p, event), event, middle, own, k, inputs, after);
    }
  }

  lemma WaitingCarries(p: Pool, event: Event, inputs: seq<string>)
    requires Carries(p, inputs)
    ensures var after := if event.Submit? && !p.disposed then inputs + [event.input] else inputs;
      (forall job: Job | job in Waiting(p, event) :: IsNth(job, after)) && forall job: Job | IsNth(job, inputs) :: IsNth(job, after)
  {
    hide IsOn;
  }

  lemma StartedCarries(posting: Posting, p: Pool, q: Pool, event: Event, middle: Pool, own: seq<Settlement>, k: nat,
                       inputs: seq<string>, after: seq<string>)
    requires Carries(p, inputs) && Ends(posting, p, q, event, middle, own, k) && middle.nextId == |after| + 1
    requires (forall job: Job | job in Waiting(p, event) :: IsNth(job, after)) && forall job: Job | IsNth(job, inputs) :: IsNth(job, after)
    ensures Carries(q, after) && q.disposed == p.disposed
  {
    hide IsOn, IsNth, SettlesFirst, Refused, Waiting;
    forall s, job: Job | IsOn(q, s, job) ensures IsNth(job, after) {
      if IsOn(middle, s, job) { assert IsOn(p, s, job); } else { assert job in Waiting(p, event); }
    }
  }

  lemma {:induction false} RunCarries(posting: Posting, maxSize: nat, events: seq<Event>)
    requires 1 <= maxSize
    ensures var p := After(posting, NewPool(maxSize), events);
      Carries(p, Accepted(events)) && (p.disposed <==> Dispose in events)
  {
    hide Next, Inv, NoneWaitsInVain, Carries;
    if events == [] {
      NothingCarried(maxSize);
    } else {
      var n := |events| - 1;
      var before := After(posting, NewPool(maxSize), events[..n]);
      assert After(posting, NewPool(maxSize), events) == Next(posting, before, events[n]);
      hide After;
      RunCarries(posting, maxSize, events[..n]);
      RunKeepsInv(posting, maxSize, events[..n]);
      EventCarries(posting, before, events[n], Accepted(events[..n]));
      LastEvent(events);
    }
  }

  lemma NothingCarried(maxSize: nat)
    ensures Carries(NewPool(maxSize), Accepted([]))
  {}

  lemma LastEvent(events: seq<Event>)
    requires events != []
    ensures var n := |events| - 1;
      && Accepted(events) == (if events[n].Submit? && Dispose !in events[..n] then Accepted(events[..n]) + [events[n].input] else Accepted(events[..n]))
      && (Dispose in events <==> Dispose in events[..n] || events[n] == Dispose)
  {
    LastAmong(events);
  }

  lemma LastAmong(events: seq<Event>)
    requires events != []
    ensures Dispose in events <==> Dispose in events[..|events| - 1] || events[|events| - 1] == Dispose
  {
    hide Accepted;
    assert events == events[..|events| - 1] + [events[|events| - 1]];
  }

  /** At event k of the run the job of this number, with the input that was submitted as that number, came to its end. */
  ghost predicate EndsAt(posting: Posting, maxSize: nat, events: seq<Event>, k: nat, x: Settlement) {
    k < |events| &&
    var p, q := After(posting, NewPool(maxSize), events[..k]), After(posting, NewPool(maxSize), events[..k + 1]);
    exists job: Job :: job.id == x.id && IsNth(job, Accepted(events[..k + 1])) && Causes(posting, p, q, events[k], job, x.outcome)
  }

  lemma EndsInFront(posting: Posting, maxSize: nat, events: seq<Event>, n: nat, k: nat, x: Settlement)
    requires k < n <= |events|
    ensures EndsAt(posting, maxSize, events[..n], k, x) <==> EndsAt(posting, maxSize, events, k, x)
  {
    assert events[..n][..k] == events[..k] && events[..n][..k + 1] == events[..k + 1];
  }

  /** Whatever causes a job's end names a job of the pool, or the one just submitted. */
  lemma CausedIsNth(posting: Posting, maxSize: nat, events: seq<Event>, x: Settlement)
    requires 1 <= maxSize && events != []
    ensures var n := |events| - 1; var p, q := After(posting, NewPool(maxSize), events[..n]), After(posting, NewPool(maxSize), events);
      CausesAny(posting, p, q, events[n], x) <==> EndsAt(posting, maxSize, events, n, x)
  {
    var n := |events| - 1;
    var p, q := After(posting, NewPool(maxSize), events[..n]), After(posting, NewPool(maxSize), events);
    RunCarries(posting, maxSize, events[..n]);
    assert events[..n + 1] == events;
    hide After;
    forall job: Job | Causes(posting, p, q, events[n], job, x.outcome) ensures IsNth(job, Accepted(events)) {
      if job !in Waiting(p, events[n]) { assert exists s :: IsOn(p, s, job); }
      if !IsNth(job, Accepted(events[..n])) { assert job == Job(p.nextId, events[n].input); }
    }
  }

  /** In every run: a job is resolved with an output exactly when its own live slot posted that result for it, and
      rejected exactly when its worker broke down or it could not be posted or the pool was disposed of under it; and
      job n is the n-th accepted input. */
  lemma {:induction false} JobsEndForCause(posting: Posting, maxSize: nat, events: seq<Event>, x: Settlement)
    requires 1 <= maxSize
    ensures x in After(posting, NewPool(maxSize), events).settlements <==> exists k: nat :: EndsAt(posting, maxSize, events, k, x)
  {
    if events != [] {
      hide Next, Inv, NoneWaitsInVain, CausesAny, EndsAt;
      var n := |events| - 1;
      JobsEndForCause(posting, maxSize, events[..n], x);
      RunKeepsInv(posting, maxSize, events[..n]);
      StepSettles(posting, After(posting, NewPool(maxSize), events[..n]), events[n], x);
      CausedIsNth(posting, maxSize, events, x);
      EndsSooner(posting, maxSize, events, x);
    }
  }

  lemma EndsSooner(posting: Posting, maxSize: nat, events: seq<Event>, x: Settlement)
    requires events != []
    ensures var n := |events| - 1;
      (exists k: nat :: EndsAt(posting, maxSize, events, k, x))
      <==> (exists k: nat :: EndsAt(posting, maxSize, events[..n], k, x)) || EndsAt(posting, maxSize, events, n, x)
  {
    var n := |events| - 1;
    OnlyInside(posting, maxSize, events, x);
    OnlyInside(posting, maxSize, events[..n], x);
    hide EndsAt;
    forall k: nat | k < n ensures EndsAt(posting, maxSize, events[..n], k, x) <==> EndsAt(posting, maxSize, events, k, x) {
      EndsInFront(posting, maxSize, events, n, k, x);
    }
  }

  lemma OnlyInside(posting: Posting, maxSize: nat, events: seq<Event>, x: Settlement)
    ensures forall k: nat | EndsAt(posting, maxSize, events, k, x) :: k < |events|
  {}
}
