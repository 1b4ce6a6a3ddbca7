/** The grid Myers' search walks on. Moving right deletes a line of `a`, moving down adds a line of
    `b`, and a diagonal step keeps a line both texts share. The search may step off the grid's right
    and bottom borders, so points beyond them have a cost too. */
module EditGrid {
  import opened EditScripts

  predicate Match(a: seq<Line>, b: seq<Line>, x: int, y: int) {
    0 <= x < |a| && 0 <= y < |b| && a[x] == b[y]
  }

  /** Fewest right and down moves that lead from (0, 0) to (x, y). */
  function Cost(a: seq<Line>, b: seq<Line>, x: nat, y: nat): nat
    decreases x + y
  {
    if x == 0 then y
    else if y == 0 then x
    else if Match(a, b, x - 1, y - 1) then Cost(a, b, x - 1, y - 1)
    else 1 + Min(Cost(a, b, x - 1, y), Cost(a, b, x, y - 1))
  }

  /** On the grid the cost is the edit distance of the two prefixes. */
  lemma {:induction false} CostIsDistance(a: seq<Line>, b: seq<Line>, x: nat, y: nat)
    requires x <= |a| && y <= |b|
    ensures Cost(a, b, x, y) == Distance(a[..x], b[..y])
    decreases x + y
  {
    if x > 0 && y > 0 {
      assert a[..x] == a[..x - 1] + [a[x - 1]] && b[..y] == b[..y - 1] + [b[y - 1]];
      LcsLast(a[..x - 1], a[x - 1], b[..y - 1], b[y - 1]);
      CostIsDistance(a, b, x - 1, y - 1);
      CostIsDistance(a, b, x - 1, y);
      CostIsDistance(a, b, x, y - 1);
    }
  }

  /** One move right or down changes the cost by at most one. */
  lemma {:induction false} CostOfOneMove(a: seq<Line>, b: seq<Line>, x: nat, y: nat)
    ensures -1 <= Cost(a, b, x + 1, y) - Cost(a, b, x, y) <= 1
    ensures -1 <= Cost(a, b, x, y + 1) - Cost(a, b, x, y) <= 1
    decreases x + y
  {
    if x > 0 { CostOfOneMove(a, b, x - 1, y); }
    if y > 0 { CostOfOneMove(a, b, x, y - 1); }
  }

  /** Costs never drop along a diagonal. */
  lemma {:induction false} CostAlongDiagonal(a: seq<Line>, b: seq<Line>, x: nat, y: nat, n: nat)
    ensures Cost(a, b, x, y) <= Cost(a, b, x + n, y + n)
  {
    if n > 0 {
      CostAlongDiagonal(a, b, x, y, n - 1);
      CostOfOneMove(a, b, x + n - 1, y + n - 1);
    }
  }

  /** Every move changes the diagonal by one, so the cost bounds it and has its parity. */
  lemma {:induction false} CostOfDiagonal(a: seq<Line>, b: seq<Line>, x: nat, y: nat)
    ensures x - y <= Cost(a, b, x, y) && y - x <= Cost(a, b, x, y)
    ensures (Cost(a, b, x, y) + x - y) % 2 == 0
    decreases x + y
  {
    if x > 0 && y > 0 {
      CostOfDiagonal(a, b, x - 1, y - 1);
      CostOfDiagonal(a, b, x - 1, y);
      CostOfDiagonal(a, b, x, y - 1);
    }
  }

  /** Beyond a border no line can be kept, so a move towards it always adds to the cost. */
  lemma {:induction false} CostBesideGrid(a: seq<Line>, b: seq<Line>, x: nat, y: nat)
    ensures x > |a| ==> Cost(a, b, x, y) == Cost(a, b, x - 1, y) + 1
    ensures y > |b| ==> Cost(a, b, x, y) == Cost(a, b, x, y - 1) + 1
    decreases x + y
  {
    if x > 0 && y > 0 {
      CostOfOneMove(a, b, x - 1, y - 1);
      if x > |a| { CostBesideGrid(a, b, x, y - 1); }
      if y > |b| { CostBesideGrid(a, b, x - 1, y); }
    }
  }

  /** A point past the far corner costs what the corner costs plus the way back to it. */
  lemma {:induction false} CostPastCorner(a: seq<Line>, b: seq<Line>, x: nat, y: nat)
    requires |a| <= x && |b| <= y
    ensures Cost(a, b, x, y) == Cost(a, b, |a|, |b|) + (x - |a|) + (y - |b|)
    decreases x + y
  {
    CostBesideGrid(a, b, x, y);
    if x > |a| {
      CostPastCorner(a, b, x - 1, y);
    } else if y > |b| {
      CostPastCorner(a, b, x, y - 1);
    }
  }
}
