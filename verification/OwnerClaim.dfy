/** The workspace owner claim: processes publish, observe, isolate and release one claim directory by
    renames, in any interleaving and with exits at any point
    (vscode/WorkspaceRuntimeOwnerClaim.ts, lines 50-147). */
module OwnerClaim {
  import opened Options

  /** One token per call of acquire; a claimant is named by its token. */
  type Token = nat

  datatype Phase =
    | Start                  // about to publish
    | Lost                   // publication hit an existing claim
    | Saw(owner: Token)      // has read this owner's metadata
    | SawAlive(owner: Token) // and found the owner running
    | SawDead(owner: Token)  // and found the owner gone
    | Owns
    | Releasing              // has read its own token back
    | Released
    | Refused

  /** The shared directory and what every claimant is doing. `fenced` holds the tokens D for which a
      dead-D directory exists; nothing ever removes one. `gone` holds claimants whose process ended. */
  datatype State = State(claim: Option<Token>, fenced: set<Token>, gone: set<Token>, phases: map<Token, Phase>)

  datatype Event =
    | Publish(who: Token)
    | Read(who: Token, sameWorkspace: bool)
    | Check(who: Token)
    | Reread(who: Token)
    | Isolate(who: Token)
    | BeginRelease(who: Token)
    | FinishRelease(who: Token)
    | Exit(claimants: set<Token>)

  const INITIAL := State(None, {}, {}, map[])

  function PhaseOf(s: State, t: Token): Phase {
    if t in s.phases then s.phases[t] else Start
  }

  function Goto(s: State, t: Token, phase: Phase): State {
    s.(phases := s.phases[t := phase])
  }

  /** What an event does; an event that is not its claimant's next action changes nothing. */
  function Step(s: State, e: Event): State {
    match e
    case Exit(claimants) => s.(gone := s.gone + claimants)
    case _ => if e.who in s.gone then s else Act(s, e)
  }

  function Act(s: State, e: Event): State
    requires !e.Exit?
  {
    var t := e.who;
    match (e, PhaseOf(s, t)) {
      case (Publish(_), Start) =>
        if s.claim == None then Goto(s, t, Owns).(claim := Some(t)) else Goto(s, t, Lost)
      case (Read(_, sameWorkspace), Lost) =>
        if s.claim == None then Goto(s, t, Start)
        else if !sameWorkspace then Goto(s, t, Refused)
        else Goto(s, t, Saw(s.claim.value))
      case (Check(_), Saw(d)) =>
        if d in s.gone then Goto(s, t, SawDead(d)) else Goto(s, t, SawAlive(d))
      case (Reread(_), SawAlive(d)) =>
        if s.claim == Some(d) then Goto(s, t, Refused) else Goto(s, t, Start)
      case (Isolate(_), SawDead(d)) =>
        // The rename fails when the claim is missing or dead-d exists; it moves whatever is there.
        if s.claim == None || d in s.fenced then Goto(s, t, Start)
        else Goto(s, t, Start).(claim := None, fenced := s.fenced + {d})
      case (BeginRelease(_), Owns) =>
        if s.claim == Some(t) then Goto(s, t, Releasing) else s
      case (FinishRelease(_), Releasing) =>
        if s.claim == None then s else Goto(s, t, Released).(claim := None)
      case _ => s
    }
  }

  function Run(s: State, events: seq<Event>): State
    decreases events
  {
    if events == [] then s else Run(Step(s, events[0]), events[1..])
  }

  predicate LiveOwner(s: State, t: Token) {
    t !in s.gone && (PhaseOf(s, t).Owns? || PhaseOf(s, t).Releasing?)
  }

  ghost predicate AtMostOneOwner(s: State) {
    forall t: Token, u: Token | LiveOwner(s, t) && LiveOwner(s, u) :: t == u
  }

  /** The event concludes that an owner is dead which in fact released its claim before it ended: the
      metadata was read before the release, the liveness check comes after the exit. */
  predicate Hazard(s: State, e: Event) {
    && e.Check? && e.who !in s.gone && PhaseOf(s, e.who).Saw?
    && var d := PhaseOf(s, e.who).owner; d in s.gone && PhaseOf(s, d).Released?
  }

  predicate HazardFree(s: State, events: seq<Event>)
    decreases events
  {
    events == [] || (!Hazard(s, events[0]) && HazardFree(Step(s, events[0]), events[1..]))
  }

  // ----- safety of runs without the hazard

  ghost predicate Inv(s: State) {
    && (forall t: Token | LiveOwner(s, t) :: s.claim == Some(t))
    && (forall t: Token | PhaseOf(s, t).SawDead? ::
          var d := PhaseOf(s, t).owner; d in s.gone && (s.claim == Some(d) || d in s.fenced))
    && (s.claim.Some? ==> PhaseOf(s, s.claim.value).Owns? || PhaseOf(s, s.claim.value).Releasing?)
    && (forall d: Token | d in s.fenced :: d in s.gone && s.claim != Some(d) && (PhaseOf(s, d).Owns? || PhaseOf(s, d).Releasing?))
    && (forall d: Token | (PhaseOf(s, d).Owns? || PhaseOf(s, d).Releasing?) && d in s.gone :: s.claim == Some(d) || d in s.fenced)
    && (forall t: Token | PhaseOf(s, t).Saw? :: var d := PhaseOf(s, t).owner;
          PhaseOf(s, d).Owns? || PhaseOf(s, d).Releasing? || PhaseOf(s, d).Released?)
  }

  lemma StepKeepsInv(s: State, e: Event)
    requires Inv(s) && !Hazard(s, e)
    ensures Inv(Step(s, e))
  {
    var s' := Step(s, e);
    if e.Exit? {
      assert forall t: Token :: PhaseOf(s', t) == PhaseOf(s, t);
    } else {
      assert forall t: Token | t != e.who :: PhaseOf(s', t) == PhaseOf(s, t);
      assert e.FinishRelease? && s' != s ==> LiveOwner(s, e.who);
    }
  }

  lemma {:induction false} RunKeepsInv(s: State, events: seq<Event>)
    requires Inv(s) && HazardFree(s, events)
    ensures Inv(Run(s, events))
    decreases events
  {
    if events != [] {
      StepKeepsInv(s, events[0]);
      RunKeepsInv(Step(s, events[0]), events[1..]);
    }
  }

  /** No interleaving without the hazard ever has two live owners, and the claim directory names the live one. */
  lemma MutualExclusion(events: seq<Event>)
    requires HazardFree(INITIAL, events)
    ensures AtMostOneOwner(Run(INITIAL, events))
    ensures forall t: Token | LiveOwner(Run(INITIAL, events), t) :: Run(INITIAL, events).claim == Some(t)
  {
    RunKeepsInv(INITIAL, events);
  }

  /** Reading the owner and checking it as one atomic action is never hazardous. */
  lemma AtomicObservationIsSafe(s: State, t: Token, sameWorkspace: bool)
    requires Inv(s)
    ensures PhaseOf(s, t).Lost? ==> !Hazard(Step(s, Read(t, sameWorkspace)), Check(t))
  {
    var s' := Step(s, Read(t, sameWorkspace));
    if s.claim.Some? && s.claim.value != t {
      assert PhaseOf(s', s.claim.value) == PhaseOf(s, s.claim.value);
    }
  }

  /** Every check comes right after a read of the same claimant, and every read but the last event is checked at once. */
  predicate AtomicObservations(events: seq<Event>)
    decreases |events|
  {
    if events == [] then true
    else if events[0].Read? then |events| == 1 || (events[1] == Check(events[0].who) && AtomicObservations(events[2..]))
    else !events[0].Check? && AtomicObservations(events[1..])
  }

  ghost predicate NothingUnchecked(s: State) {
    forall t: Token :: !PhaseOf(s, t).Saw?
  }

  lemma OtherStepsReadNothing(s: State, e: Event)
    requires NothingUnchecked(s) && !e.Read?
    ensures NothingUnchecked(Step(s, e)) && !Hazard(s, e)
  {
    forall t: Token ensures !PhaseOf(Step(s, e), t).Saw? {
      assert !PhaseOf(s, t).Saw?;
    }
  }

  lemma ObservationIsChecked(s: State, t: Token, sameWorkspace: bool)
    requires Inv(s) && NothingUnchecked(s)
    ensures var read := Step(s, Read(t, sameWorkspace));
      Inv(read) && !Hazard(read, Check(t)) && Inv(Step(read, Check(t))) && NothingUnchecked(Step(read, Check(t)))
  {
    var read := Step(s, Read(t, sameWorkspace));
    StepKeepsInv(s, Read(t, sameWorkspace));
    AtomicObservationIsSafe(s, t, sameWorkspace);
    assert forall u: Token | u != t :: PhaseOf(Step(read, Check(t)), u) == PhaseOf(read, u) == PhaseOf(s, u);
    assert !Hazard(read, Check(t)) by {
      if PhaseOf(s, t).Lost? {
      } else {
        assert read == s;
        assert !PhaseOf(s, t).Saw?;
      }
    }
    hide Inv;
    StepKeepsInv(read, Check(t));
  }

  lemma {:induction false} AtomicRunIsHazardFree(s: State, events: seq<Event>)
    requires Inv(s) && NothingUnchecked(s) && AtomicObservations(events)
    ensures HazardFree(s, events)
    decreases |events|
  {
    hide Inv, Step, Hazard, NothingUnchecked;
    if events == [] {
    } else if events[0].Read? {
      var read := Step(s, events[0]);
      ReadIsNoHazard(s, events[0]);
      if |events| > 1 {
        ObservationIsChecked(s, events[0].who, events[0].sameWorkspace);
        AtomicRunIsHazardFree(Step(read, events[1]), events[2..]);
        assert events[1..][1..] == events[2..];
      }
    } else {
      OtherStepsReadNothing(s, events[0]);
      StepKeepsInv(s, events[0]);
      AtomicRunIsHazardFree(Step(s, events[0]), events[1..]);
    }
  }

  lemma ReadIsNoHazard(s: State, e: Event)
    requires e.Read?
    ensures !Hazard(s, e)
  {}

  /** With reading the owner and checking it as one atomic action, no interleaving ever has two live owners. */
  lemma AtomicExclusion(events: seq<Event>)
    requires AtomicObservations(events)
    ensures AtMostOneOwner(Run(INITIAL, events))
    ensures forall t: Token | LiveOwner(Run(INITIAL, events), t) :: Run(INITIAL, events).claim == Some(t)
  {
    AtomicRunIsHazardFree(INITIAL, events);
    MutualExclusion(events);
  }

  /** A dead owner's claim is never stuck: the first isolation of it succeeds. */
  lemma DeadClaimCanBeIsolated(s: State, t: Token)
    requires Inv(s) && t !in s.gone && PhaseOf(s, t).SawDead? && s.claim == Some(PhaseOf(s, t).owner)
    ensures Step(s, Isolate(t)).claim == None && PhaseOf(s, t).owner in Step(s, Isolate(t)).fenced
  {
  }

  /** A contender that read a live owner, and finds its claim still in place, is refused, and nothing else changes. */
  lemma LiveOwnerRefuses(s: State, t: Token)
    requires t !in s.gone && PhaseOf(s, t).SawAlive? && s.claim == Some(PhaseOf(s, t).owner)
    ensures var q := Step(s, Reread(t));
      PhaseOf(q, t).Refused? && q == Goto(s, t, Refused) && forall u: Token :: LiveOwner(q, u) <==> LiveOwner(s, u)
  {}

  /** From losing the race on: while the owner lives and holds the claim, a contender of the same workspace is refused
      after reading, checking and reading again; one of another workspace at once. Refused contenders stay so. */
  lemma SecondStarterIsRefused(s: State, t: Token, d: Token)
    requires t !in s.gone && PhaseOf(s, t).Lost? && s.claim == Some(d) && d !in s.gone
    ensures var q := Run(s, [Read(t, true), Check(t), Reread(t)]);
      PhaseOf(q, t).Refused? && q.claim == s.claim && q.fenced == s.fenced && q.gone == s.gone && forall u: Token | u != t :: PhaseOf(q, u) == PhaseOf(s, u)
    ensures PhaseOf(Step(s, Read(t, false)), t).Refused?
  {
    var saw := Step(s, Read(t, true));
    var alive := Step(saw, Check(t));
    var events := [Read(t, true), Check(t), Reread(t)];
    assert events[1..] == [Check(t), Reread(t)] && [Check(t), Reread(t)][1..] == [Reread(t)] && [Reread(t)][1..] == [];
    assert Run(s, events) == Run(saw, [Check(t), Reread(t)]);
    assert Run(saw, [Check(t), Reread(t)]) == Run(alive, [Reread(t)]);
    assert Run(alive, [Reread(t)]) == Run(Step(alive, Reread(t)), []);
    assert PhaseOf(saw, t) == Saw(d) && PhaseOf(alive, t) == SawAlive(d);
    LiveOwnerRefuses(alive, t);
  }

  lemma {:induction false} RefusedStays(s: State, t: Token, events: seq<Event>)
    requires PhaseOf(s, t).Refused?
    ensures PhaseOf(Run(s, events), t).Refused?
    decreases |events|
  {
    if events != [] {
      assert PhaseOf(Step(s, events[0]), t).Refused?;
      RefusedStays(Step(s, events[0]), t, events[1..]);
    }
  }

  // ----- and the hazard always breaks it

  lemma FreshToken(used: set<Token>) returns (t: Token)
    ensures t !in used
  {
    var rest := used;
    t := 0;
    while rest != {}
      invariant forall u | u in used && u !in rest :: u < t
      decreases rest
    {
      var u :| u in rest;
      rest := rest - {u};
      t := if u < t then t else u + 1;
    }
  }

  lemma {:induction false} RunConcat(s: State, x: seq<Event>, y: seq<Event>)
    ensures Run(s, x + y) == Run(Run(s, x), y)
    decreases x
  {
    if x == [] {
      assert x + y == y;
    } else {
      assert (x + y)[1..] == x[1..] + y;
      RunConcat(Step(s, x[0]), x[1..], y);
    }
  }

  /** Once the hazard has struck, some continuation has two live owners: the contender moves another
      claimant's live claim away and publishes its own. */
  lemma HazardBreaksExclusion(s: State, e: Event)
    requires Inv(s) && Hazard(s, e)
    ensures exists events :: !AtMostOneOwner(Run(Step(s, e), events))
  {
    var t, d := e.who, PhaseOf(s, e.who).owner;
    var s1 := Step(s, e);
    assert PhaseOf(s1, t) == SawDead(d);
    var u := FreshToken(s.phases.Keys + s.gone + {t, d});
    var s2, live := s1, u;
    var prelude: seq<Event> := [];
    if s1.claim.Some? && s1.claim.value !in s1.gone {
      live := s1.claim.value;
      assert PhaseOf(s1, live) == PhaseOf(s, live);
    } else {
      prelude := ClaimForNewcomer(s1, u);
      s2 := Run(s1, prelude);
    }
    assert LiveOwner(s2, live) && s2.claim == Some(live) && live != t;
    assert PhaseOf(s2, t) == SawDead(d) && d !in s2.fenced && t !in s2.gone;
    var s3 := RunOne(s2, Isolate(t), [Publish(t)]);
    var s4 := RunOne(s3, Publish(t), []);
    assert LiveOwner(s4, t) && LiveOwner(s4, live);
    RunConcat(s1, prelude, [Isolate(t), Publish(t)]);
    assert !AtMostOneOwner(Run(s1, prelude + [Isolate(t), Publish(t)]));
  }

  /** A newcomer gets the claim when no live claimant holds it. */
  lemma ClaimForNewcomer(s: State, u: Token) returns (events: seq<Event>)
    requires u !in s.phases && u !in s.gone
    requires s.claim.Some? ==> s.claim.value in s.gone && s.claim.value !in s.fenced
    ensures var r := Run(s, events);
            && LiveOwner(r, u) && r.claim == Some(u) && r.gone == s.gone
            && r.fenced == s.fenced + (if s.claim.Some? then {s.claim.value} else {})
            && forall t: Token | t != u :: PhaseOf(r, t) == PhaseOf(s, t)
  {
    if s.claim == None {
      events := [Publish(u)];
      var s1 := RunOne(s, Publish(u), []);
    } else {
      events := [Publish(u), Read(u, true), Check(u), Isolate(u), Publish(u)];
      var s1 := RunOne(s, Publish(u), [Read(u, true), Check(u), Isolate(u), Publish(u)]);
      var s2 := RunOne(s1, Read(u, true), [Check(u), Isolate(u), Publish(u)]);
      var s3 := RunOne(s2, Check(u), [Isolate(u), Publish(u)]);
      var s4 := RunOne(s3, Isolate(u), [Publish(u)]);
      var s5 := RunOne(s4, Publish(u), []);
    }
  }

  /** Publish, a contender reads, the owner releases cleanly and ends, a second claimant publishes, and
      only then does the contender check: the hazard is reachable. */
  lemma HazardIsReachable() returns (events: seq<Event>)
    ensures HazardFree(INITIAL, events) && Inv(Run(INITIAL, events)) && Hazard(Run(INITIAL, events), Check(1))
  {
    hide Run, HazardFree, Inv;
    var cleanExit := [FinishRelease(0)] + ([Exit({0})] + ([Publish(2)] + []));
    events := [Publish(0)] + ([Publish(1)] + ([Read(1, true)] + ([BeginRelease(0)] + cleanExit)));
    var s1 := RunOne(INITIAL, Publish(0), [Publish(1)] + ([Read(1, true)] + ([BeginRelease(0)] + cleanExit)));
    var s2 := RunOne(s1, Publish(1), [Read(1, true)] + ([BeginRelease(0)] + cleanExit));
    var s3 := RunOne(s2, Read(1, true), [BeginRelease(0)] + cleanExit);
    var s4 := RunOne(s3, BeginRelease(0), cleanExit);
    assert s4 == State(Some(0), {}, {}, map[0 := Releasing, 1 := Saw(0)]);
    CleanExitOpensHazard(s4);
    InitialInv();
    RunKeepsInv(INITIAL, events);
  }

  lemma InitialInv()
    ensures Inv(INITIAL)
  {
  }

  lemma CleanExitOpensHazard(s4: State)
    requires s4 == State(Some(0), {}, {}, map[0 := Releasing, 1 := Saw(0)])
    ensures var cleanExit := [FinishRelease(0)] + ([Exit({0})] + ([Publish(2)] + []));
            HazardFree(s4, cleanExit) && Hazard(Run(s4, cleanExit), Check(1))
  {
    hide Run, HazardFree;
    var s5 := RunOne(s4, FinishRelease(0), [Exit({0})] + ([Publish(2)] + []));
    var s6 := RunOne(s5, Exit({0}), [Publish(2)] + []);
    var s7 := RunOne(s6, Publish(2), []);
    NothingLeft(s7);
  }

  lemma NothingLeft(s: State)
    ensures Run(s, []) == s && HazardFree(s, [])
  {
  }

  lemma RunOne(s: State, e: Event, rest: seq<Event>) returns (next: State)
    ensures next == Step(s, e)
    ensures Run(s, [e] + rest) == Run(next, rest)
    ensures HazardFree(s, [e] + rest) <==> !Hazard(s, e) && HazardFree(next, rest)
  {
    hide Step, Hazard;
    next := Step(s, e);
    assert ([e] + rest)[1..] == rest;
  }
}
