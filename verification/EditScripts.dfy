/** Edit scripts between two texts seen as sequences of lines, and what it means for a script to be
    shortest. This is the yardstick for the three diff algorithms in `LineDiff`. */
module EditScripts {

  type Line = string

  datatype OpKind = Ctx | Add | Del

  datatype Op = Op(kind: OpKind, content: Line)

  /** The lines a script keeps or deletes, in order: the text it starts from. */
  function OldSide(ops: seq<Op>): seq<Line> {
    if ops == [] then []
    else (if ops[0].kind.Add? then [] else [ops[0].content]) + OldSide(ops[1..])
  }

  /** The lines a script keeps or adds, in order: the text it arrives at. */
  function NewSide(ops: seq<Op>): seq<Line> {
    if ops == [] then []
    else (if ops[0].kind.Del? then [] else [ops[0].content]) + NewSide(ops[1..])
  }

  function Kept(ops: seq<Op>): nat {
    if ops == [] then 0 else (if ops[0].kind.Ctx? then 1 else 0) + Kept(ops[1..])
  }

  function Edits(ops: seq<Op>): nat {
    if ops == [] then 0 else (if ops[0].kind.Ctx? then 0 else 1) + Edits(ops[1..])
  }

  predicate IsScript(ops: seq<Op>, a: seq<Line>, b: seq<Line>) {
    OldSide(ops) == a && NewSide(ops) == b
  }

  /** No script between the same two texts makes fewer edits. */
  ghost predicate IsShortest(ops: seq<Op>, a: seq<Line>, b: seq<Line>) {
    IsScript(ops, a, b) && forall other | IsScript(other, a, b) :: Edits(ops) <= Edits(other)
  }

  function Max(x: int, y: int): int {
    if x >= y then x else y
  }

  function Min(x: int, y: int): int {
    if x <= y then x else y
  }

  /** Length of a longest common subsequence. */
  function Lcs(a: seq<Line>, b: seq<Line>): nat
    decreases |a| + |b|
  {
    if a == [] || b == [] then 0
    else if a[0] == b[0] then 1 + Lcs(a[1..], b[1..])
    else Max(Lcs(a[1..], b), Lcs(a, b[1..]))
  }

  function Distance(a: seq<Line>, b: seq<Line>): int {
    |a| + |b| - 2 * Lcs(a, b)
  }

  // ----- scripts

  lemma {:induction false} ConcatOldSide(x: seq<Op>, y: seq<Op>)
    ensures OldSide(x + y) == OldSide(x) + OldSide(y)
  {
    if x == [] {
      assert x + y == y;
    } else {
      assert (x + y)[1..] == x[1..] + y;
      ConcatOldSide(x[1..], y);
    }
  }

  lemma {:induction false} ConcatNewSide(x: seq<Op>, y: seq<Op>)
    ensures NewSide(x + y) == NewSide(x) + NewSide(y)
  {
    if x == [] {
      assert x + y == y;
    } else {
      assert (x + y)[1..] == x[1..] + y;
      ConcatNewSide(x[1..], y);
    }
  }

  lemma {:induction false} ConcatCounts(x: seq<Op>, y: seq<Op>)
    ensures Kept(x + y) == Kept(x) + Kept(y)
    ensures Edits(x + y) == Edits(x) + Edits(y)
  {
    if x == [] {
      assert x + y == y;
    } else {
      assert (x + y)[1..] == x[1..] + y;
      ConcatCounts(x[1..], y);
    }
  }

  lemma ConcatSides(x: seq<Op>, y: seq<Op>)
    ensures OldSide(x + y) == OldSide(x) + OldSide(y)
    ensures NewSide(x + y) == NewSide(x) + NewSide(y)
    ensures Kept(x + y) == Kept(x) + Kept(y)
    ensures Edits(x + y) == Edits(x) + Edits(y)
  {
    ConcatOldSide(x, y);
    ConcatNewSide(x, y);
    ConcatCounts(x, y);
  }

  /** Every kept line is on both sides and every edit on exactly one. */
  lemma {:induction false} EditsFromKept(ops: seq<Op>)
    ensures Edits(ops) == |OldSide(ops)| + |NewSide(ops)| - 2 * Kept(ops)
  {
    if ops != [] {
      EditsFromKept(ops[1..]);
    }
  }

  // ----- longest common subsequence

  /** Dropping the first line of one text costs at most one common line and never gains one. */
  lemma {:induction false} LcsDropOne(a: seq<Line>, b: seq<Line>)
    ensures a != [] ==> Lcs(a[1..], b) <= Lcs(a, b) <= Lcs(a[1..], b) + 1
    ensures b != [] ==> Lcs(a, b[1..]) <= Lcs(a, b) <= Lcs(a, b[1..]) + 1
    decreases |a| + |b|
  {
    if a != [] && b != [] {
      LcsDropOne(a[1..], b);
      LcsDropOne(a, b[1..]);
    }
  }

  /** A script keeps no more lines than the texts have in common. */
  lemma {:induction false} KeptAtMostLcs(ops: seq<Op>)
    ensures Kept(ops) <= Lcs(OldSide(ops), NewSide(ops))
  {
    if ops != [] {
      KeptAtMostLcs(ops[1..]);
      var a, b := OldSide(ops), NewSide(ops);
      LcsDropOne(a, b);
      match ops[0].kind {
        case Ctx => assert a[1..] == OldSide(ops[1..]) && b[1..] == NewSide(ops[1..]);
        case Del => assert a[1..] == OldSide(ops[1..]) && b == NewSide(ops[1..]);
        case Add => assert a == OldSide(ops[1..]) && b[1..] == NewSide(ops[1..]);
      }
    }
  }

  /** Some script keeps a longest common subsequence. */
  function LcsScript(a: seq<Line>, b: seq<Line>): (ops: seq<Op>)
    ensures IsScript(ops, a, b) && Kept(ops) == Lcs(a, b)
    decreases |a| + |b|
  {
    if a == [] && b == [] then []
    else if a != [] && b != [] && a[0] == b[0] then [Op(Ctx, a[0])] + LcsScript(a[1..], b[1..])
    else if b == [] || (a != [] && Lcs(a[1..], b) >= Lcs(a, b[1..])) then [Op(Del, a[0])] + LcsScript(a[1..], b)
    else [Op(Add, b[0])] + LcsScript(a, b[1..])
  }

  /** `Distance` is a lower bound for every script, and the shortest scripts are those that meet it. */
  lemma ShortestMeetsDistance(ops: seq<Op>, a: seq<Line>, b: seq<Line>)
    requires IsScript(ops, a, b)
    ensures Distance(a, b) <= Edits(ops)
    ensures Edits(ops) == |a| + |b| - 2 * Kept(ops)
    ensures IsShortest(ops, a, b) <==> Edits(ops) == Distance(a, b)
  {
    hide Lcs, LcsScript;
    forall other | IsScript(other, a, b) ensures Distance(a, b) <= Edits(other) {
      EditsFromKept(other);
      KeptAtMostLcs(other);
    }
    EditsFromKept(ops);
    EditsFromKept(LcsScript(a, b));
  }

  /** Texts without a common line have nothing to keep. */
  lemma {:induction false} LcsZero(a: seq<Line>, b: seq<Line>)
    ensures Lcs(a, b) == 0 <==> forall line | line in a :: line !in b
    decreases |a| + |b|
  {
    if a != [] && b != [] {
      if a[0] == b[0] {
        assert a[0] in a && a[0] in b;
      } else {
        LcsZero(a[1..], b);
        LcsZero(a, b[1..]);
        assert forall line :: line in a <==> line == a[0] || line in a[1..];
        assert forall line :: line in b <==> line == b[0] || line in b[1..];
        assert a[0] in b <==> a[0] in b[1..];
      }
    }
  }

  lemma {:induction false} LcsCommonPrefix(p: seq<Line>, a: seq<Line>, b: seq<Line>)
    ensures Lcs(p + a, p + b) == |p| + Lcs(a, b)
  {
    if p == [] {
      assert p + a == a && p + b == b;
    } else {
      assert (p + a)[1..] == p[1..] + a && (p + b)[1..] == p[1..] + b;
      LcsCommonPrefix(p[1..], a, b);
    }
  }

  /** The recursion of `Lcs` read from the other end. */
  lemma {:induction false} LcsLast(a: seq<Line>, c: Line, b: seq<Line>, d: Line)
    ensures Lcs(a + [c], b + [d])
         == if c == d then Lcs(a, b) + 1 else Max(Lcs(a, b + [d]), Lcs(a + [c], b))
    decreases |a| + |b|
  {
    var ac, bd := a + [c], b + [d];
    if a != [] { assert ac[1..] == a[1..] + [c]; }
    if b != [] { assert bd[1..] == b[1..] + [d]; }
    if a == [] && b == [] {
      assert ac[1..] == [] && bd[1..] == [];
    } else if a == [] {
      assert ac[1..] == [];
      LcsLast(a, c, b[1..], d);
    } else if b == [] {
      assert bd[1..] == [];
      LcsLast(a[1..], c, b, d);
    } else if a[0] == b[0] {
      LcsLast(a[1..], c, b[1..], d);
    } else {
      LcsLast(a[1..], c, b, d);
      LcsLast(a, c, b[1..], d);
    }
  }

  lemma {:induction false} LcsCommonSuffix(a: seq<Line>, b: seq<Line>, s: seq<Line>)
    ensures Lcs(a + s, b + s) == Lcs(a, b) + |s|
    decreases |s|
  {
    if s == [] {
      assert a + s == a && b + s == b;
    } else {
      var n := |s| - 1;
      assert a + s == (a + s[..n]) + [s[n]] && b + s == (b + s[..n]) + [s[n]];
      LcsLast(a + s[..n], s[n], b + s[..n], s[n]);
      LcsCommonSuffix(a, b, s[..n]);
    }
  }
}
