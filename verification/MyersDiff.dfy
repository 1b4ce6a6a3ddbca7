/** Myers' O(ND) search with a saved trace and the walk back over that trace
    (backend/capabilities/fileDiff.ts, lines 159-251). */
module MyersDiff {
  import opened Options
  import opened EditScripts
  import opened EditGrid

  /** Furthest old index reached so far, per diagonal (old index minus new index). */
  type Frontier = map<int, int>

  // ----- what a round of the search establishes

  predicate OnRound(d: int, k: int) {
    -d <= k <= d && (k + d) % 2 == 0
  }

  /** x is the furthest old index on diagonal k that d moves can reach. */
  predicate Furthest(a: seq<Line>, b: seq<Line>, d: int, k: int, x: int) {
    0 <= x && k <= x && Cost(a, b, x, x - k) <= d < Cost(a, b, x + 1, x + 1 - k)
  }

  /** What the frontier holds when round d starts; round 0 finds only the seed on diagonal 1. */
  ghost predicate ReadyFor(a: seq<Line>, b: seq<Line>, f: Frontier, d: int) {
    if d == 0 then 1 in f && f[1] == 0
    else forall k | OnRound(d - 1, k) :: k in f && Furthest(a, b, d - 1, k, f[k])
  }

  /** The trace holds the frontier each of its rounds started from. */
  ghost predicate Recorded(a: seq<Line>, b: seq<Line>, trace: seq<Frontier>) {
    forall d | 0 <= d < |trace| :: ReadyFor(a, b, trace[d], d)
  }

  lemma RecordRound(a: seq<Line>, b: seq<Line>, trace: seq<Frontier>, f: Frontier)
    requires Recorded(a, b, trace) && ReadyFor(a, b, f, |trace|)
    ensures Recorded(a, b, trace + [f])
  {
    hide ReadyFor;
  }

  /** The diagonals stored when round d starts. */
  function StoredDiagonals(d: nat): set<int> {
    if d == 0 then {1} else StoredDiagonals(d - 1) + {d - 1, 1 - d}
  }

  lemma {:induction false} StoredDiagonalsShape(d: nat)
    ensures forall k :: k in StoredDiagonals(d) <==> k == 1 || (k < d && -k < d)
    ensures |StoredDiagonals(d)| == if d == 0 then 1 else if d == 1 then 2 else 2 * d - 1
  {
    if d > 0 {
      StoredDiagonalsShape(d - 1);
      if d > 1 {
        assert StoredDiagonals(d) == StoredDiagonals(d - 1) + {d - 1} + {1 - d};
      } else {
        assert StoredDiagonals(1) == {1} + {0};
      }
    }
  }

  /** Trace cells counted once round d has been recorded. */
  function TraceCells(d: nat): nat {
    if d == 0 then 1 else d * d + 2
  }

  /** The caps do not stop a search for a script with d edits. */
  predicate SearchFits(d: int, maxDistance: nat, maxCells: nat) {
    0 <= d <= maxDistance && TraceCells(d) <= maxCells
  }

  predicate UseDownMove(f: Frontier, d: int, k: int)
    requires 0 <= d && OnRound(d, k)
    requires k != -d ==> k - 1 in f
    requires k != d ==> k + 1 in f
  {
    k == -d || (k != d && f[k - 1] < f[k + 1])
  }

  /** Where round d enters diagonal k: one move on from the better neighbour. */
  function EntryPoint(f: Frontier, d: int, k: int): int
    requires 0 <= d && OnRound(d, k)
    requires k != -d ==> k - 1 in f
    requires k != d || d == 0 ==> k + 1 in f
  {
    if UseDownMove(f, d, k) then f[k + 1] else f[k - 1] + 1
  }

  /** The neighbours a round reads are stored, and the entry point is affordable. */
  lemma EntryIsReachable(a: seq<Line>, b: seq<Line>, f: Frontier, d: int, k: int)
    requires 0 <= d && ReadyFor(a, b, f, d) && OnRound(d, k)
    ensures k != -d ==> k - 1 in f
    ensures k != d || d == 0 ==> k + 1 in f
    ensures var x := EntryPoint(f, d, k); 0 <= x && k <= x && Cost(a, b, x, x - k) <= d
  {
    if d > 0 {
      hide Cost;
      NeighboursAreStored(a, b, f, d, k);
      hide OnRound, ReadyFor;
      var x0 := EntryPoint(f, d, k);
      if UseDownMove(f, d, k) {
        CostOfOneMove(a, b, x0, x0 - (k + 1));
      } else {
        CostOfOneMove(a, b, x0 - 1, x0 - k);
      }
    }
  }

  lemma NeighboursAreStored(a: seq<Line>, b: seq<Line>, f: Frontier, d: int, k: int)
    requires 0 < d && ReadyFor(a, b, f, d) && OnRound(d, k)
    ensures k != -d ==> k - 1 in f && Furthest(a, b, d - 1, k - 1, f[k - 1])
    ensures k != d ==> k + 1 in f && Furthest(a, b, d - 1, k + 1, f[k + 1])
    ensures -d <= k <= d
  {
    hide Furthest;
    if k != -d { assert OnRound(d - 1, k - 1); }
    if k != d { assert OnRound(d - 1, k + 1); }
  }

  /** From the entry point on, every affordable step along the diagonal keeps a line. */
  lemma StepKeepsALine(a: seq<Line>, b: seq<Line>, f: Frontier, d: int, k: int, x: int)
    requires 0 <= d && ReadyFor(a, b, f, d) && OnRound(d, k)
    requires k != -d ==> k - 1 in f
    requires k != d || d == 0 ==> k + 1 in f
    requires 0 <= EntryPoint(f, d, k) <= x && k <= x
    requires Cost(a, b, x + 1, x + 1 - k) <= d
    ensures Match(a, b, x, x - k)
  {
    if !Match(a, b, x, x - k) {
      // The step was paid for on a neighbouring diagonal, further along than round d - 1 got.
      if Cost(a, b, x, x + 1 - k) <= d - 1 {
        CostOfDiagonal(a, b, x, x + 1 - k);
        assert OnRound(d - 1, k - 1);
        BeyondFurthest(a, b, d - 1, k - 1, f[k - 1], x);
      } else {
        CostOfDiagonal(a, b, x + 1, x - k);
        assert OnRound(d - 1, k + 1);
        BeyondFurthest(a, b, d - 1, k + 1, f[k + 1], x + 1);
      }
      assert false;
    }
  }

  /** A point the budget reaches is not beyond the furthest one. */
  lemma BeyondFurthest(a: seq<Line>, b: seq<Line>, d: int, k: int, far: int, x: int)
    requires Furthest(a, b, d, k, far)
    requires 0 <= x && k <= x && Cost(a, b, x, x - k) <= d
    ensures x <= far
  {
    if x > far {
      CostAlongDiagonal(a, b, far + 1, far + 1 - k, x - far - 1);
    }
  }

  /** A slide that runs until the lines differ ends at the round's furthest point. */
  lemma SlideEndIsFurthest(a: seq<Line>, b: seq<Line>, f: Frontier, d: int, k: int, x: int)
    requires 0 <= d && ReadyFor(a, b, f, d) && OnRound(d, k)
    requires k != -d ==> k - 1 in f
    requires k != d || d == 0 ==> k + 1 in f
    requires 0 <= EntryPoint(f, d, k) <= x && k <= x
    requires Cost(a, b, x, x - k) <= d && !Match(a, b, x, x - k)
    ensures Furthest(a, b, d, k, x)
  {
    if Cost(a, b, x + 1, x + 1 - k) <= d {
      StepKeepsALine(a, b, f, d, k, x);
    }
  }

  /** Stopping conditions: the first point past both borders is the corner itself, and the corner's
      round stops there. */
  lemma StopIsCorner(a: seq<Line>, b: seq<Line>, d: int, x: int, y: int)
    requires 0 <= d <= Distance(a, b)
    requires |a| <= x && |b| <= y && Furthest(a, b, d, x - y, x)
    ensures x == |a| && y == |b| && d == Distance(a, b)
  {
    CostPastCorner(a, b, x, y);
    CornerCost(a, b);
  }

  lemma CornerCost(a: seq<Line>, b: seq<Line>)
    ensures Cost(a, b, |a|, |b|) == Distance(a, b)
  {
    CostIsDistance(a, b, |a|, |b|);
    assert a[..|a|] == a && b[..|b|] == b;
  }

  lemma CornerOnRound(a: seq<Line>, b: seq<Line>)
    ensures OnRound(Distance(a, b), |a| - |b|)
  {
    hide Cost, Distance;
    CornerCost(a, b);
    CostOfDiagonal(a, b, |a|, |b|);
  }

  lemma CornerRoundStops(a: seq<Line>, b: seq<Line>, x: int)
    requires Furthest(a, b, Distance(a, b), |a| - |b|, x)
    ensures |a| <= x && |b| <= x - (|a| - |b|)
  {
    hide Cost;
    CornerCost(a, b);
    BeyondFurthest(a, b, Distance(a, b), |a| - |b|, x, |a|);
  }

  lemma CellsOfRound(d: nat)
    ensures TraceCells(d) == |StoredDiagonals(d)| + if d == 0 then 0 else TraceCells(d - 1)
  {
    StoredDiagonalsShape(d);
    if d > 1 { assert d * d == (d - 1) * (d - 1) + 2 * d - 1; }
  }

  lemma CellsGrow(d: nat, e: nat)
    requires d <= e
    ensures TraceCells(d) <= TraceCells(e)
  {
    assert d * d <= d * e <= e * e;
  }

  /** State of round d when the diagonals below `diagonal` are done and none of them stopped. */
  ghost predicate RoundSoFar(a: seq<Line>, b: seq<Line>, before: Frontier, now: Frontier, d: int, diagonal: int) {
    && (forall k | k in now :: k in before || (OnRound(d, k) && k < diagonal))
    && (forall k | k in before && !(OnRound(d, k) && k < diagonal) :: k in now && now[k] == before[k])
    && (forall k | OnRound(d, k) && k < diagonal ::
          k in now && Furthest(a, b, d, k, now[k]) && (now[k] < |a| || now[k] - k < |b|))
  }

  lemma RoundStarts(a: seq<Line>, b: seq<Line>, f: Frontier, d: int)
    ensures RoundSoFar(a, b, f, f, d, -d)
  {
  }

  /** The diagonals of the running round have the other parity, so what it reads is still in place. */
  lemma RoundReads(a: seq<Line>, b: seq<Line>, before: Frontier, now: Frontier, d: int, diagonal: int)
    requires ReadyFor(a, b, before, d) && RoundSoFar(a, b, before, now, d, diagonal)
    requires 0 <= d && OnRound(d, diagonal)
    ensures ReadyFor(a, b, now, d)
  {
    hide Furthest;
    if d > 0 {
      forall k | OnRound(d - 1, k) ensures k in now && Furthest(a, b, d - 1, k, now[k]) {
        assert !OnRound(d, k);
      }
    }
  }

  lemma RoundAdvances(a: seq<Line>, b: seq<Line>, before: Frontier, now: Frontier, d: int, diagonal: int, x: int)
    requires RoundSoFar(a, b, before, now, d, diagonal) && OnRound(d, diagonal)
    requires Furthest(a, b, d, diagonal, x) && (x < |a| || x - diagonal < |b|)
    ensures RoundSoFar(a, b, before, now[diagonal := x], d, diagonal + 2)
  {
    hide Furthest;
  }

  /** A finished round leaves the next one ready, and as it did not stop the distance is still ahead. */
  lemma RoundEnds(a: seq<Line>, b: seq<Line>, before: Frontier, after: Frontier, d: nat, diagonal: int)
    requires d <= Distance(a, b) && d < diagonal
    requires before.Keys == StoredDiagonals(d) && RoundSoFar(a, b, before, after, d, diagonal)
    ensures d < Distance(a, b)
    ensures after.Keys == StoredDiagonals(d + 1)
    ensures ReadyFor(a, b, after, d + 1)
  {
    hide Cost, Lcs;
    if d == Distance(a, b) {
      CornerOnRound(a, b);
      CornerRoundStops(a, b, after[|a| - |b|]);
    }
    StoredAfterRound(a, b, before, after, d, diagonal);
  }

  lemma StoredAfterRound(a: seq<Line>, b: seq<Line>, before: Frontier, after: Frontier, d: nat, diagonal: int)
    requires d < diagonal
    requires before.Keys == StoredDiagonals(d) && RoundSoFar(a, b, before, after, d, diagonal)
    ensures after.Keys == StoredDiagonals(d + 1)
  {
    hide Furthest, StoredDiagonals;
    StoredDiagonalsShape(d);
    StoredDiagonalsShape(d + 1);
    forall k ensures k in after <==> k in StoredDiagonals(d + 1) {
      if k in StoredDiagonals(d + 1) && !OnRound(d, k) {
        assert k in before;
      }
    }
  }

  // ----- the walk back over the trace

  function Reverse(ops: seq<Op>): seq<Op> {
    if ops == [] then [] else Reverse(ops[1..]) + [ops[0]]
  }

  lemma {:induction false} ReversePush(ops: seq<Op>, op: Op)
    ensures Reverse(ops + [op]) == [op] + Reverse(ops)
  {
    if ops == [] {
      assert ops + [op] == [op];
    } else {
      assert (ops + [op])[1..] == ops[1..] + [op];
      ReversePush(ops[1..], op);
    }
  }

  /** Reversed, the operations collected so far turn the rest of `a` after x into the rest of `b`
      after y with the given number of edits. */
  predicate Finishes(reversed: seq<Op>, a: seq<Line>, b: seq<Line>, x: int, y: int, edits: int) {
    && 0 <= x <= |a| && 0 <= y <= |b|
    && IsScript(Reverse(reversed), a[x..], b[y..])
    && Edits(Reverse(reversed)) == edits
  }

  lemma NothingCollected(a: seq<Line>, b: seq<Line>)
    ensures Finishes([], a, b, |a|, |b|, 0)
  {
  }

  lemma FinishesAtOrigin(reversed: seq<Op>, a: seq<Line>, b: seq<Line>, edits: int)
    requires Finishes(reversed, a, b, 0, 0, edits)
    ensures IsScript(Reverse(reversed), a, b) && Edits(Reverse(reversed)) == edits
  {
    assert a[0..] == a && b[0..] == b;
  }

  lemma PushOp(reversed: seq<Op>, op: Op, a: seq<Line>, b: seq<Line>, x: int, y: int, edits: int)
    requires Finishes(reversed, a, b, x, y, edits)
    requires !op.kind.Add? ==> x > 0 && op.content == a[x - 1]
    requires !op.kind.Del? ==> y > 0 && op.content == b[y - 1]
    ensures Finishes(reversed + [op], a, b, if op.kind.Add? then x else x - 1, if op.kind.Del? then y else y - 1,
                     if op.kind.Ctx? then edits else edits + 1)
  {
    hide Reverse;
    ReversePush(reversed, op);
    assert ([op] + Reverse(reversed))[1..] == Reverse(reversed);
    if x > 0 { assert a[x - 1..] == [a[x - 1]] + a[x..]; }
    if y > 0 { assert b[y - 1..] == [b[y - 1]] + b[y..]; }
  }

  /** Two equal prefixes: each step of a free diagonal keeps a line. */
  lemma FreeDiagonal(a: seq<Line>, b: seq<Line>, x: nat)
    requires x > 0 && Cost(a, b, x, x) == 0
    ensures Match(a, b, x - 1, x - 1) && Cost(a, b, x - 1, x - 1) == 0
  {
  }

  /** Every diagonal the walk reads is stored (the map accesses below need no default), it never
      leaves the grid, and it spends exactly one edit per round. */
  method BacktrackMyersDiff(trace: seq<Frontier>, oldLines: seq<Line>, newLines: seq<Line>, editDistance: nat)
    returns (ops: seq<Op>)
    requires |trace| == editDistance + 1 && Recorded(oldLines, newLines, trace)
    requires OnRound(editDistance, |oldLines| - |newLines|)
    requires Furthest(oldLines, newLines, editDistance, |oldLines| - |newLines|, |oldLines|)
    ensures IsScript(ops, oldLines, newLines)
    ensures Edits(ops) == editDistance
  {
    hide Cost, Finishes, IsScript, Edits, Reverse;
    var oldIndex, newIndex := |oldLines|, |newLines|;
    var reversed: seq<Op> := [];
    NothingCollected(oldLines, newLines);
    var distance := editDistance;
    while distance > 0
      invariant 0 <= distance <= editDistance
      invariant 0 <= oldIndex <= |oldLines| && 0 <= newIndex <= |newLines|
      invariant OnRound(distance, oldIndex - newIndex)
      invariant Furthest(oldLines, newLines, distance, oldIndex - newIndex, oldIndex)
      invariant Finishes(reversed, oldLines, newLines, oldIndex, newIndex, editDistance - distance)
    {
      var furthest := trace[distance];
      var diagonal := oldIndex - newIndex;
      assert ReadyFor(oldLines, newLines, furthest, distance);
      EntryIsReachable(oldLines, newLines, furthest, distance, diagonal);
      var useDownMove := UseDownMove(furthest, distance, diagonal);
      var previousDiagonal := if useDownMove then diagonal + 1 else diagonal - 1;
      var previousOld := furthest[previousDiagonal];
      var previousNew := previousOld - previousDiagonal;
      assert OnRound(distance - 1, previousDiagonal);
      ghost var entry := EntryPoint(furthest, distance, diagonal);
      BeyondFurthest(oldLines, newLines, distance, diagonal, oldIndex, entry);
      while oldIndex > previousOld && newIndex > previousNew
        invariant entry <= oldIndex <= |oldLines| && 0 <= newIndex <= |newLines|
        invariant oldIndex - newIndex == diagonal
        invariant Cost(oldLines, newLines, oldIndex, newIndex) <= distance
        invariant Finishes(reversed, oldLines, newLines, oldIndex, newIndex, editDistance - distance)
      {
        StepKeepsALine(oldLines, newLines, furthest, distance, diagonal, oldIndex - 1);
        CostAlongDiagonal(oldLines, newLines, oldIndex - 1, newIndex - 1, 1);
        var op := Op(Ctx, oldLines[oldIndex - 1]);
        PushOp(reversed, op, oldLines, newLines, oldIndex, newIndex, editDistance - distance);
        reversed := reversed + [op];
        oldIndex := oldIndex - 1;
        newIndex := newIndex - 1;
      }
      if useDownMove {
        if newIndex > 0 {
          var op := Op(Add, newLines[newIndex - 1]);
          PushOp(reversed, op, oldLines, newLines, oldIndex, newIndex, editDistance - distance);
          reversed := reversed + [op];
          newIndex := newIndex - 1;
        }
      } else if oldIndex > 0 {
        var op := Op(Del, oldLines[oldIndex - 1]);
        PushOp(reversed, op, oldLines, newLines, oldIndex, newIndex, editDistance - distance);
        reversed := reversed + [op];
        oldIndex := oldIndex - 1;
      }
      distance := distance - 1;
    }
    while oldIndex > 0 && newIndex > 0
      invariant 0 <= oldIndex == newIndex <= |oldLines| && newIndex <= |newLines|
      invariant Cost(oldLines, newLines, oldIndex, newIndex) == 0
      invariant Finishes(reversed, oldLines, newLines, oldIndex, newIndex, editDistance)
    {
      FreeDiagonal(oldLines, newLines, oldIndex);
      var op := Op(Ctx, oldLines[oldIndex - 1]);
      PushOp(reversed, op, oldLines, newLines, oldIndex, newIndex, editDistance - distance);
      reversed := reversed + [op];
      oldIndex := oldIndex - 1;
      newIndex := newIndex - 1;
    }
    // Neither of the source's two closing loops has anything left to do: the walk is at (0, 0).
    FinishesAtOrigin(reversed, oldLines, newLines, editDistance);
    ops := Reverse(reversed);
  }

  // ----- the search

  lemma SearchStarts(a: seq<Line>, b: seq<Line>)
    ensures 0 <= Distance(a, b) && ReadyFor(a, b, map[1 := 0], 0)
    ensures map[1 := 0].Keys == StoredDiagonals(0) && Recorded(a, b, [])
  {
    hide Distance, Cost;
    CornerCost(a, b);
  }

  /** One diagonal of one round: enter it from the better neighbour, then slide while lines agree. */
  method FollowDiagonal(oldLines: seq<Line>, newLines: seq<Line>, furthest: Frontier, distance: int, diagonal: int)
    returns (oldIndex: int)
    requires 0 <= distance && ReadyFor(oldLines, newLines, furthest, distance) && OnRound(distance, diagonal)
    ensures Furthest(oldLines, newLines, distance, diagonal, oldIndex)
  {
    hide Cost;
    EntryIsReachable(oldLines, newLines, furthest, distance, diagonal);
    var useDownMove := UseDownMove(furthest, distance, diagonal);
    var previousDiagonal := if useDownMove then diagonal + 1 else diagonal - 1;
    oldIndex := if useDownMove then furthest[previousDiagonal] else furthest[previousDiagonal] + 1;
    var newIndex := oldIndex - diagonal;
    ghost var entry := oldIndex;
    while oldIndex < |oldLines| && newIndex < |newLines| && newIndex >= 0 && oldLines[oldIndex] == newLines[newIndex]
      invariant entry <= oldIndex && 0 <= newIndex == oldIndex - diagonal
      invariant Cost(oldLines, newLines, oldIndex, newIndex) <= distance
    {
      KeepIsFree(oldLines, newLines, oldIndex, newIndex);
      oldIndex := oldIndex + 1;
      newIndex := newIndex + 1;
    }
    SlideEndIsFurthest(oldLines, newLines, furthest, distance, diagonal, oldIndex);
  }

  lemma KeepIsFree(a: seq<Line>, b: seq<Line>, x: nat, y: nat)
    requires Match(a, b, x, y)
    ensures Cost(a, b, x + 1, y + 1) == Cost(a, b, x, y)
  {
  }

  /** The search finds a script exactly when the edit distance fits both caps; what it returns is
      shortest. */
  lemma TooManyCells(d: nat, goal: int, maxDistance: nat, maxCells: nat)
    requires d <= goal && TraceCells(d) > maxCells
    ensures !SearchFits(goal, maxDistance, maxCells)
  {
    CellsGrow(d, goal);
  }

  lemma TooFar(goal: int, maxDistance: nat, maxCells: nat)
    requires maxDistance < goal
    ensures !SearchFits(goal, maxDistance, maxCells)
  {}

  lemma CornerFits(d: nat, maxDistance: nat, maxCells: nat)
    requires d <= maxDistance && TraceCells(d) <= maxCells
    ensures SearchFits(d, maxDistance, maxCells)
  {}

  /** All diagonals of one round; it stops where the round arrives at the corner. */
  method SearchRound(oldLines: seq<Line>, newLines: seq<Line>, before: Frontier, distance: int) returns (furthest: Frontier, stopped: bool)
    requires 0 <= distance <= Distance(oldLines, newLines)
    requires before.Keys == StoredDiagonals(distance) && ReadyFor(oldLines, newLines, before, distance)
    ensures stopped <==> distance == Distance(oldLines, newLines)
    ensures stopped ==> OnRound(distance, |oldLines| - |newLines|)
                        && Furthest(oldLines, newLines, distance, |oldLines| - |newLines|, |oldLines|)
    ensures !stopped ==> furthest.Keys == StoredDiagonals(distance + 1) && ReadyFor(oldLines, newLines, furthest, distance + 1)
  {
    hide Cost, Lcs, Distance, Furthest, ReadyFor, RoundSoFar, StoredDiagonals;
    furthest := before;
    RoundStarts(oldLines, newLines, furthest, distance);
    var diagonal := -distance;
    while diagonal <= distance
      invariant -distance <= diagonal && (diagonal + distance) % 2 == 0
      invariant RoundSoFar(oldLines, newLines, before, furthest, distance, diagonal)
    {
      RoundReads(oldLines, newLines, before, furthest, distance, diagonal);
      var oldIndex := FollowDiagonal(oldLines, newLines, furthest, distance, diagonal);
      var newIndex := oldIndex - diagonal;
      if oldIndex >= |oldLines| && newIndex >= |newLines| {
        StopIsCorner(oldLines, newLines, distance, oldIndex, newIndex);
        return furthest, true;
      }
      RoundAdvances(oldLines, newLines, before, furthest, distance, diagonal, oldIndex);
      furthest := furthest[diagonal := oldIndex];
      diagonal := diagonal + 2;
    }
    RoundEnds(oldLines, newLines, before, furthest, distance, diagonal);
    stopped := false;
  }

  method DiffSegmentByMyers(oldLines: seq<Line>, newLines: seq<Line>, maxEditDistance: nat, maxTraceCells: nat)
    returns (r: Option<seq<Op>>)
    ensures r.Some? <==> SearchFits(Distance(oldLines, newLines), Min(|oldLines| + |newLines|, maxEditDistance), maxTraceCells)
    ensures r.Some? ==> IsScript(r.value, oldLines, newLines) && Edits(r.value) == Distance(oldLines, newLines)
  {
    hide Cost, Lcs, Distance, Furthest, ReadyFor, Recorded, RoundSoFar, StoredDiagonals, IsScript, Edits, TraceCells, SearchFits;
    var maxDistance := Min(|oldLines| + |newLines|, maxEditDistance);
    var traceCells := 0;
    var furthest: Frontier := map[1 := 0];
    var trace: seq<Frontier> := [];
    ghost var goal := Distance(oldLines, newLines);
    SearchStarts(oldLines, newLines);
    var distance := 0;
    while distance <= maxDistance
      invariant 0 <= distance <= maxDistance + 1
      invariant distance <= goal
      invariant |trace| == distance && Recorded(oldLines, newLines, trace)
      invariant traceCells == if distance == 0 then 0 else TraceCells(distance - 1)
      invariant traceCells <= maxTraceCells
      invariant furthest.Keys == StoredDiagonals(distance)
      invariant ReadyFor(oldLines, newLines, furthest, distance)
    {
      RecordRound(oldLines, newLines, trace, furthest);
      trace := trace + [furthest];
      traceCells := traceCells + |furthest|;
      CellsOfRound(distance);
      if traceCells > maxTraceCells {
        TooManyCells(distance, goal, maxDistance, maxTraceCells);
        return None;
      }
      var stopped;
      furthest, stopped := SearchRound(oldLines, newLines, furthest, distance);
      if stopped {
        CornerFits(distance, maxDistance, maxTraceCells);
        var ops := BacktrackMyersDiff(trace, oldLines, newLines, distance);
        return Some(ops);
      }
      distance := distance + 1;
    }
    TooFar(goal, maxDistance, maxTraceCells);
    return None;
  }
}
