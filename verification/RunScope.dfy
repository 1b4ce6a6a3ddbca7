/** Which conversations a run belongs to: seeds are pushed along source links, in both directions,
    until nothing changes (shared/clientStateConversationScope.ts, lines 95-122 and 264-283). */
module RunScope {

  type Id = string

  /** An empty sourceRunId stands for an absent one, as in the source's truth tests. */
  datatype SourceLink = SourceLink(runId: Id, sourceRunId: Id)

  type SetMap = map<Id, set<Id>>

  predicate Holds(m: SetMap, run: Id, conversation: Id) {
    run in m && conversation in m[run]
  }

  /** Adds every value under the key. The key is created with its first value only. */
  function AddSetToSetMap(m: SetMap, key: Id, values: set<Id>): SetMap {
    if values == {} then m else m[key := (if key in m then m[key] else {}) + values]
  }

  // ----- what the loop should compute

  /** A link joins its two runs, whichever way it is read. */
  ghost predicate Joined(links: seq<SourceLink>, r: Id, s: Id) {
    exists i | 0 <= i < |links| ::
      links[i].sourceRunId != "" && (links[i] == SourceLink(r, s) || links[i] == SourceLink(s, r))
  }

  ghost predicate IsPath(links: seq<SourceLink>, path: seq<Id>, r: Id, s: Id) {
    && path != [] && path[0] == r && path[|path| - 1] == s
    && forall i | 0 < i < |path| :: Joined(links, path[i - 1], path[i])
  }

  ghost predicate Connected(links: seq<SourceLink>, r: Id, s: Id) {
    exists path :: IsPath(links, path, r, s)
  }

  /** Some run connected to r was seeded with c. */
  ghost predicate Derivable(links: seq<SourceLink>, seeds: SetMap, r: Id, c: Id) {
    exists s :: Connected(links, r, s) && Holds(seeds, s, c)
  }

  ghost predicate Includes(m: SetMap, less: SetMap) {
    forall r, c | Holds(less, r, c) :: Holds(m, r, c)
  }

  /** Everything the first run holds the second one holds too. */
  ghost predicate Passed(m: SetMap, from: Id, to: Id) {
    forall c | Holds(m, from, c) :: Holds(m, to, c)
  }

  ghost predicate Settled(link: SourceLink, m: SetMap) {
    link.sourceRunId != "" ==> Passed(m, link.sourceRunId, link.runId) && Passed(m, link.runId, link.sourceRunId)
  }

  ghost predicate Closed(links: seq<SourceLink>, m: SetMap) {
    forall i | 0 <= i < |links| :: Settled(links[i], m)
  }

  // ----- paths

  lemma StepConnected(links: seq<SourceLink>, r: Id, via: Id, s: Id)
    requires Joined(links, r, via) && Connected(links, via, s)
    ensures Connected(links, r, s)
  {
    var path :| IsPath(links, path, via, s);
    assert IsPath(links, [r] + path, r, s);
  }

  lemma StepDerivable(links: seq<SourceLink>, seeds: SetMap, r: Id, via: Id, c: Id)
    requires Joined(links, r, via) && Derivable(links, seeds, via, c)
    ensures Derivable(links, seeds, r, c)
  {
    var s :| Connected(links, via, s) && Holds(seeds, s, c);
    StepConnected(links, r, via, s);
  }

  lemma SeedDerivable(links: seq<SourceLink>, seeds: SetMap, r: Id, c: Id)
    requires Holds(seeds, r, c)
    ensures Derivable(links, seeds, r, c)
  {
    assert IsPath(links, [r], r, r);
  }

  /** A closed map that includes the seeds holds everything along a path. */
  lemma {:induction false} ClosedAlongPath(links: seq<SourceLink>, m: SetMap, path: seq<Id>, r: Id, s: Id, c: Id)
    requires Closed(links, m) && IsPath(links, path, r, s) && Holds(m, s, c)
    ensures Holds(m, r, c)
    decreases |path|
  {
    if |path| > 1 {
      forall i | 0 < i < |path| - 1 ensures Joined(links, path[1..][i - 1], path[1..][i]) {
        assert Joined(links, path[(i + 1) - 1], path[i + 1]);
      }
      ClosedAlongPath(links, m, path[1..], path[1], s, c);
      assert Joined(links, path[0], path[1]);
    }
  }

  /** The union over the connected component is the least closed map that includes the seeds. */
  lemma DerivableIsLeast(links: seq<SourceLink>, seeds: SetMap, m: SetMap)
    requires Closed(links, m) && Includes(m, seeds)
    ensures forall r, c | Derivable(links, seeds, r, c) :: Holds(m, r, c)
  {
    forall r, c | Derivable(links, seeds, r, c) ensures Holds(m, r, c) {
      var s :| Connected(links, r, s) && Holds(seeds, s, c);
      var path :| IsPath(links, path, r, s);
      ClosedAlongPath(links, m, path, r, s, c);
    }
  }

  // ----- termination

  ghost function Pairs(m: SetMap): set<(Id, Id)> {
    set r, c | r in m && c in m[r] :: (r, c)
  }

  /** Every pair the loop can ever add: a run named anywhere with a seeded conversation. */
  ghost function Universe(links: seq<SourceLink>, seeds: SetMap): set<(Id, Id)> {
    var runs := seeds.Keys + (set i | 0 <= i < |links| :: links[i].runId) + (set i | 0 <= i < |links| :: links[i].sourceRunId);
    set r, s, c | r in runs && s in seeds && c in seeds[s] :: (r, c)
  }

  ghost predicate Sound(links: seq<SourceLink>, seeds: SetMap, m: SetMap) {
    && Includes(m, seeds) && seeds.Keys <= m.Keys
    && Pairs(m) <= Universe(links, seeds)
    && (forall r, c | Holds(m, r, c) :: Derivable(links, seeds, r, c))
    && (forall r | r in m && m[r] == {} :: r in seeds)
  }

  /** Pushing along one direction of a link is sound, and what was missing shrinks if anything changed. */
  lemma PushAlong(links: seq<SourceLink>, seeds: SetMap, m: SetMap, i: nat, to: Id, from: Id)
    requires i < |links| && links[i].sourceRunId != ""
    requires links[i] == SourceLink(to, from) || links[i] == SourceLink(from, to)
    requires Sound(links, seeds, m) && from in m
    ensures var m' := AddSetToSetMap(m, to, m[from]); Sound(links, seeds, m') && Pairs(m) <= Pairs(m') && (m' != m ==> Pairs(m) != Pairs(m'))
  {
    var m' := AddSetToSetMap(m, to, m[from]);
    PushedIsDerivable(links, seeds, m, i, to, from);
    PushedStaysInside(links, seeds, m, i, to, from);
    PushedGrows(m, to, from);
    hide Universe, Derivable, Joined;
  }

  lemma PushedIsDerivable(links: seq<SourceLink>, seeds: SetMap, m: SetMap, i: nat, to: Id, from: Id)
    requires i < |links| && links[i].sourceRunId != ""
    requires links[i] == SourceLink(to, from) || links[i] == SourceLink(from, to)
    requires Sound(links, seeds, m) && from in m
    ensures forall r, c | Holds(AddSetToSetMap(m, to, m[from]), r, c) :: Derivable(links, seeds, r, c)
  {
    hide Universe, Pairs, Derivable;
    var m' := AddSetToSetMap(m, to, m[from]);
    forall r, c | Holds(m', r, c) ensures Derivable(links, seeds, r, c) {
      if !Holds(m, r, c) {
        assert Holds(m, from, c);
        assert Joined(links, to, from);
        StepDerivable(links, seeds, to, from, c);
      }
    }
  }

  lemma PushedStaysInside(links: seq<SourceLink>, seeds: SetMap, m: SetMap, i: nat, to: Id, from: Id)
    requires i < |links| && (links[i] == SourceLink(to, from) || links[i] == SourceLink(from, to))
    requires Pairs(m) <= Universe(links, seeds) && from in m
    ensures Pairs(AddSetToSetMap(m, to, m[from])) <= Universe(links, seeds)
  {
    forall p | p in Pairs(AddSetToSetMap(m, to, m[from])) ensures p in Universe(links, seeds) {
      if p !in Pairs(m) {
        assert (from, p.1) in Pairs(m);
        assert p.0 == to;
      }
    }
  }

  lemma PairsHold(m: SetMap, r: Id, c: Id)
    ensures (r, c) in Pairs(m) <==> Holds(m, r, c)
  {}

  lemma PushedGrows(m: SetMap, to: Id, from: Id)
    requires from in m
    ensures var m' := AddSetToSetMap(m, to, m[from]);
      Pairs(m) <= Pairs(m') && (m' != m ==> Pairs(m) != Pairs(m')) && m.Keys <= m'.Keys && Includes(m', m)
      && forall r | r in m' && m'[r] == {} :: r in m && m[r] == {}
  {
    var m' := AddSetToSetMap(m, to, m[from]);
    forall p | p in Pairs(m) ensures p in Pairs(m') {
      assert Holds(m', p.0, p.1);
    }
    if to in m && m[from] <= m[to] {
      assert m[to] + m[from] == m[to];
      assert m' == m;
    } else if m[from] != {} {
      var c :| c in m[from] && !Holds(m, to, c);
      PairsHold(m, to, c);
      PairsHold(m', to, c);
    }
  }

  lemma SeedsAreSound(links: seq<SourceLink>, seeds: SetMap)
    ensures Sound(links, seeds, seeds)
  {
    forall r, c | Holds(seeds, r, c) ensures Derivable(links, seeds, r, c) {
      SeedDerivable(links, seeds, r, c);
    }
  }

  /** A sound map that is closed holds exactly what is derivable, and is the least closed map with the seeds. */
  lemma SoundAndClosed(links: seq<SourceLink>, seeds: SetMap, m: SetMap)
    requires Sound(links, seeds, m) && Closed(links, m)
    ensures forall r, c :: Holds(m, r, c) <==> Derivable(links, seeds, r, c)
    ensures forall r :: r in m <==> r in seeds || exists c :: Derivable(links, seeds, r, c)
    ensures Includes(m, seeds)
    ensures forall other | Closed(links, other) && Includes(other, seeds) :: Includes(other, m)
  {
    DerivableIsLeast(links, seeds, m);
    hide Derivable, Closed;
    forall other | Closed(links, other) && Includes(other, seeds) ensures Includes(other, m) {
      DerivableIsLeast(links, seeds, other);
    }
    forall r ensures r in m <==> r in seeds || exists c :: Derivable(links, seeds, r, c) {
      if r in m && r !in seeds {
        var c :| c in m[r];
        assert Holds(m, r, c);
      }
      if c :| Derivable(links, seeds, r, c) {
        assert Holds(m, r, c);
      }
    }
  }

  /** Once nothing changes over a whole turn, every link is settled. */
  lemma AllSettled(links: seq<SourceLink>, m: SetMap)
    requires forall k | 0 <= k < |links| :: Settled(links[k], m)
    ensures Closed(links, m)
  {}

  /** A link whose two pushes changed nothing is settled. */
  lemma NothingToPush(link: SourceLink, m: SetMap)
    requires link.sourceRunId != "" && link.sourceRunId in m ==> AddSetToSetMap(m, link.runId, m[link.sourceRunId]) == m
    requires link.sourceRunId != "" && link.runId in m ==> AddSetToSetMap(m, link.sourceRunId, m[link.runId]) == m
    ensures Settled(link, m)
  {}

  // ----- the loop

  method Propagate(seeds: SetMap, links: seq<SourceLink>) returns (result: SetMap)
    ensures forall r, c :: Holds(result, r, c) <==> Derivable(links, seeds, r, c)
    ensures forall r :: r in result <==> r in seeds || exists c :: Derivable(links, seeds, r, c)
    ensures Closed(links, result) && Includes(result, seeds)
    ensures forall m | Closed(links, m) && Includes(m, seeds) :: Includes(m, result)
  {
    result := seeds;
    SeedsAreSound(links, seeds);
    hide Derivable, Holds, Includes, Passed, Settled, Closed, AddSetToSetMap;
    var propagated := true;
    while propagated
      invariant Sound(links, seeds, result)
      invariant !propagated ==> Closed(links, result)
      decreases Universe(links, seeds) - Pairs(result), propagated
    {
      propagated := false;
      ghost var before := result;
      for i := 0 to |links|
        invariant Sound(links, seeds, result) && Pairs(before) <= Pairs(result)
        invariant propagated ==> Pairs(before) != Pairs(result)
        invariant !propagated ==> result == before && forall k | 0 <= k < i :: Settled(links[k], result)
      {
        var link := links[i];
        ghost var start := result;
        if link.sourceRunId != "" && link.sourceRunId in result {
          PushAlong(links, seeds, result, i, link.runId, link.sourceRunId);
          var grown := AddSetToSetMap(result, link.runId, result[link.sourceRunId]);
          propagated := propagated || grown != result;
          result := grown;
        }
        if link.runId in result && link.sourceRunId != "" {
          PushAlong(links, seeds, result, i, link.sourceRunId, link.runId);
          var grown := AddSetToSetMap(result, link.sourceRunId, result[link.runId]);
          propagated := propagated || grown != result;
          result := grown;
        }
        if !propagated { NothingToPush(link, start); }
      }
      if !propagated { AllSettled(links, result); }
    }
    SoundAndClosed(links, seeds, result);
  }
}
