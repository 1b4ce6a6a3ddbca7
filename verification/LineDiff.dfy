/** Line diffs: trimming, the quadratic table, Myers' search and the whole-segment fallback
    (backend/capabilities/fileDiff.ts, lines 92-157 and 253-258). */
module LineDiff {
  import opened Options
  import opened EditScripts
  import opened MyersDiff

  /** The caps of the source, as parameters. */
  datatype Limits = Limits(lcsCells: nat, editDistance: nat, traceCells: nat)

  const DEFAULT_LIMITS := Limits(1_000_000, 4_000, 2_000_000)

  // ----- what the segment diff falls back on

  /** Neither the table nor the search is allowed to handle this segment. */
  predicate GivesUp(a: seq<Line>, b: seq<Line>, limits: Limits) {
    && |a| * |b| > limits.lcsCells
    && !SearchFits(Distance(a, b), Min(|a| + |b|, limits.editDistance), limits.traceCells)
  }

  /** With the source's caps a large segment is given up on from 1415 edits on: the trace runs out of
      cells long before the cap on the edit distance is reached. */
  lemma DefaultLimitsGiveUp(a: seq<Line>, b: seq<Line>)
    ensures GivesUp(a, b, DEFAULT_LIMITS) <==> |a| * |b| > 1_000_000 && Distance(a, b) > 1_414
  {
    hide Lcs, LcsScript;
    FullReplacementReplays(a, b);
    ShortestMeetsDistance(FullReplacement(a, b), a, b);
    EditsFromKept(LcsScript(a, b));
    DefaultSearchFits(Distance(a, b));
  }

  lemma DefaultSearchFits(d: nat)
    ensures SearchFits(d, DEFAULT_LIMITS.editDistance, DEFAULT_LIMITS.traceCells) <==> d <= 1_414
  {
    assert TraceCells(1_414) == 1_999_398 && TraceCells(1_415) == 2_002_227;
    hide TraceCells;
    if d <= 1_414 { CellsGrow(d, 1_414); } else { CellsGrow(1_415, d); }
  }

  /** Number of lines both texts start with, counting on from n. */
  function CommonPrefix(a: seq<Line>, b: seq<Line>, n: nat := 0): (r: nat)
    requires n <= |a| && n <= |b|
    ensures n <= r <= |a| && r <= |b|
    decreases |a| - n
  {
    if n < |a| && n < |b| && a[n] == b[n] then CommonPrefix(a, b, n + 1) else n
  }

  /** Number of lines both texts end with after their first p lines, counting on from n. */
  function CommonSuffix(a: seq<Line>, b: seq<Line>, p: nat, n: nat := 0): (r: nat)
    requires p + n <= |a| && p + n <= |b|
    ensures n <= r && p + r <= |a| && p + r <= |b|
    decreases |a| - n
  {
    if p + n < |a| && p + n < |b| && a[|a| - n - 1] == b[|b| - n - 1] then CommonSuffix(a, b, p, n + 1) else n
  }

  /** What is left of both texts once the common prefix and then the common suffix are cut off. */
  function Trimmed(a: seq<Line>, b: seq<Line>): (seq<Line>, seq<Line>) {
    var p := CommonPrefix(a, b);
    var n := CommonSuffix(a, b, p);
    (a[p..|a| - n], b[p..|b| - n])
  }

  lemma {:induction false} PrefixAgrees(a: seq<Line>, b: seq<Line>, n: nat)
    requires n <= |a| && n <= |b| && a[..n] == b[..n]
    ensures var r := CommonPrefix(a, b, n); a[..r] == b[..r]
    decreases |a| - n
  {
    if n < |a| && n < |b| && a[n] == b[n] {
      assert a[..n + 1] == a[..n] + [a[n]] && b[..n + 1] == b[..n] + [b[n]];
      PrefixAgrees(a, b, n + 1);
    }
  }

  lemma {:induction false} SuffixAgrees(a: seq<Line>, b: seq<Line>, p: nat, n: nat)
    requires p + n <= |a| && p + n <= |b| && a[|a| - n..] == b[|b| - n..]
    ensures var r := CommonSuffix(a, b, p, n); a[|a| - r..] == b[|b| - r..]
    decreases |a| - n
  {
    if p + n < |a| && p + n < |b| && a[|a| - n - 1] == b[|b| - n - 1] {
      assert a[|a| - n - 1..] == [a[|a| - n - 1]] + a[|a| - n..];
      assert b[|b| - n - 1..] == [b[|b| - n - 1]] + b[|b| - n..];
      SuffixAgrees(a, b, p, n + 1);
    }
  }

  /** The texts are what was trimmed off around the two middles. */
  lemma TrimmedParts(a: seq<Line>, b: seq<Line>)
    ensures var p := CommonPrefix(a, b); var n := CommonSuffix(a, b, p); var (x, y) := Trimmed(a, b);
            a == a[..p] + x + a[|a| - n..] && b == a[..p] + y + a[|a| - n..]
  {
    hide CommonPrefix, CommonSuffix;
    var p := CommonPrefix(a, b);
    var n := CommonSuffix(a, b, p);
    PrefixAgrees(a, b, 0);
    SuffixAgrees(a, b, p, 0);
    SplitInThree(a, p, |a| - n);
    SplitInThree(b, p, |b| - n);
  }

  lemma SplitInThree(a: seq<Line>, m: nat, n: nat)
    requires m <= n <= |a|
    ensures a == a[..m] + a[m..n] + a[n..]
  {
  }

  /** Cutting off what both texts share at either end keeps the edit distance. */
  lemma TrimmingKeepsDistance(p: seq<Line>, a: seq<Line>, b: seq<Line>, s: seq<Line>)
    ensures Distance(p + a + s, p + b + s) == Distance(a, b)
  {
    hide Lcs;
    assert p + a + s == p + (a + s) && p + b + s == p + (b + s);
    LcsCommonPrefix(p, a + s, b + s);
    LcsCommonSuffix(a, b, s);
  }

  // ----- whole lists of one kind

  function Marked(kind: OpKind, lines: seq<Line>): seq<Op> {
    if lines == [] then [] else [Op(kind, lines[0])] + Marked(kind, lines[1..])
  }

  lemma {:induction false} MarkedSides(kind: OpKind, lines: seq<Line>)
    ensures OldSide(Marked(kind, lines)) == if kind.Add? then [] else lines
    ensures NewSide(Marked(kind, lines)) == if kind.Del? then [] else lines
    ensures Edits(Marked(kind, lines)) == if kind.Ctx? then 0 else |lines|
  {
    if lines != [] {
      assert Marked(kind, lines)[1..] == Marked(kind, lines[1..]);
      MarkedSides(kind, lines[1..]);
    }
  }

  function FullReplacement(oldLines: seq<Line>, newLines: seq<Line>): seq<Op> {
    Marked(Del, oldLines) + Marked(Add, newLines)
  }

  lemma FullReplacementReplays(oldLines: seq<Line>, newLines: seq<Line>)
    ensures IsScript(FullReplacement(oldLines, newLines), oldLines, newLines)
    ensures Edits(FullReplacement(oldLines, newLines)) == |oldLines| + |newLines|
  {
    MarkedSides(Del, oldLines);
    MarkedSides(Add, newLines);
    ConcatSides(Marked(Del, oldLines), Marked(Add, newLines));
  }

  // ----- the quadratic table

  function LcsFrom(a: seq<Line>, b: seq<Line>, i: nat, j: nat): nat
    requires i <= |a| && j <= |b|
  {
    Lcs(a[i..], b[j..])
  }

  lemma LcsFromStep(a: seq<Line>, b: seq<Line>, i: nat, j: nat)
    requires i <= |a| && j <= |b|
    ensures i == |a| || j == |b| ==> LcsFrom(a, b, i, j) == 0
    ensures i < |a| && j < |b| ==>
              LcsFrom(a, b, i, j) == if a[i] == b[j] then LcsFrom(a, b, i + 1, j + 1) + 1
                                     else Max(LcsFrom(a, b, i + 1, j), LcsFrom(a, b, i, j + 1))
  {
    if i < |a| && j < |b| {
      assert a[i..][1..] == a[i + 1..] && b[j..][1..] == b[j + 1..];
    }
  }

  /** Table entry (i, j) is the number of lines the two rests have in common. */
  method FillTable(oldLines: seq<Line>, newLines: seq<Line>) returns (dp: array2<nat>)
    ensures fresh(dp) && dp.Length0 == |oldLines| + 1 && dp.Length1 == |newLines| + 1
    ensures forall i, j | 0 <= i <= |oldLines| && 0 <= j <= |newLines| :: dp[i, j] == LcsFrom(oldLines, newLines, i, j)
  {
    var rows, cols := |oldLines| + 1, |newLines| + 1;
    dp := new nat[rows, cols]((i, j) => 0);
    forall i, j | 0 <= i < rows && 0 <= j < cols && (i == rows - 1 || j == cols - 1)
      ensures dp[i, j] == LcsFrom(oldLines, newLines, i, j)
    {
      LcsFromStep(oldLines, newLines, i, j);
    }
    hide LcsFrom;
    var oldIndex := |oldLines|;
    while oldIndex > 0
      invariant 0 <= oldIndex <= |oldLines|
      invariant forall i, j | 0 <= i < rows && 0 <= j < cols && (i >= oldIndex || j == cols - 1) ::
                  dp[i, j] == LcsFrom(oldLines, newLines, i, j)
    {
      oldIndex := oldIndex - 1;
      var newIndex := |newLines|;
      while newIndex > 0
        invariant 0 <= newIndex <= |newLines|
        invariant forall i, j | 0 <= i < rows && 0 <= j < cols && (i > oldIndex || (i == oldIndex && j >= newIndex) || j == cols - 1) ::
                    dp[i, j] == LcsFrom(oldLines, newLines, i, j)
      {
        newIndex := newIndex - 1;
        LcsFromStep(oldLines, newLines, oldIndex, newIndex);
        dp[oldIndex, newIndex] :=
          if oldLines[oldIndex] == newLines[newIndex] then dp[oldIndex + 1, newIndex + 1] + 1
          else Max(dp[oldIndex + 1, newIndex], dp[oldIndex, newIndex + 1]);
      }
    }
  }

  /** The operations collected so far replay both texts up to x and y. */
  predicate Replays(ops: seq<Op>, a: seq<Line>, b: seq<Line>, x: int, y: int) {
    0 <= x <= |a| && 0 <= y <= |b| && IsScript(ops, a[..x], b[..y])
  }

  lemma PushReplays(ops: seq<Op>, op: Op, a: seq<Line>, b: seq<Line>, x: int, y: int)
    requires Replays(ops, a, b, x, y)
    requires !op.kind.Add? ==> x < |a| && op.content == a[x]
    requires !op.kind.Del? ==> y < |b| && op.content == b[y]
    ensures Replays(ops + [op], a, b, if op.kind.Add? then x else x + 1, if op.kind.Del? then y else y + 1)
    ensures Kept(ops + [op]) == Kept(ops) + if op.kind.Ctx? then 1 else 0
    ensures Edits(ops + [op]) == Edits(ops) + if op.kind.Ctx? then 0 else 1
  {
    ConcatSides(ops, [op]);
    if x < |a| { assert a[..x + 1] == a[..x] + [a[x]]; }
    if y < |b| { assert b[..y + 1] == b[..y] + [b[y]]; }
  }

  lemma ReplaysAll(ops: seq<Op>, a: seq<Line>, b: seq<Line>)
    requires Replays(ops, a, b, |a|, |b|)
    ensures IsScript(ops, a, b)
  {
    assert a[..|a|] == a && b[..|b|] == b;
  }

  // ----- the order within a changed block

  /** Within a block of changes the deletions come before the additions. */
  predicate DeletionsFirst(ops: seq<Op>) {
    forall i | 0 < i < |ops| :: !(ops[i - 1].kind.Add? && ops[i].kind.Del?)
  }

  predicate EndsInAdd(ops: seq<Op>) {
    ops != [] && ops[|ops| - 1].kind.Add?
  }

  lemma FirstPush(ops: seq<Op>, op: Op)
    requires DeletionsFirst(ops) && !(EndsInAdd(ops) && op.kind.Del?)
    ensures DeletionsFirst(ops + [op]) && (EndsInAdd(ops + [op]) <==> op.kind.Add?)
  {}

  lemma FirstJoin(a: seq<Op>, b: seq<Op>)
    requires DeletionsFirst(a) && DeletionsFirst(b) && !(EndsInAdd(a) && b != [] && b[0].kind.Del?)
    ensures DeletionsFirst(a + b)
  {}

  lemma {:induction false} MarkedIsOneKind(kind: OpKind, lines: seq<Line>)
    ensures forall op | op in Marked(kind, lines) :: op.kind == kind
    ensures DeletionsFirst(Marked(kind, lines))
  {
    if lines != [] { MarkedIsOneKind(kind, lines[1..]); }
  }

  lemma FullReplacementDeletesFirst(oldLines: seq<Line>, newLines: seq<Line>)
    ensures DeletionsFirst(FullReplacement(oldLines, newLines))
  {
    hide Marked;
    MarkedIsOneKind(Del, oldLines);
    MarkedIsOneKind(Add, newLines);
    var dels := Marked(Del, oldLines);
    if dels != [] { assert dels[|dels| - 1] in dels; }
    FirstJoin(dels, Marked(Add, newLines));
  }

  /** Deleting here would lose a line that can still be kept. */
  predicate Stuck(a: seq<Line>, b: seq<Line>, i: nat, j: nat)
    requires i <= |a| && j <= |b|
  {
    i < |a| && LcsFrom(a, b, i + 1, j) < LcsFrom(a, b, i, j)
  }

  /** After an addition the walk is stuck: it goes on adding until it keeps a line. */
  lemma AddingSticks(a: seq<Line>, b: seq<Line>, i: nat, j: nat)
    requires i < |a| && j < |b| && LcsFrom(a, b, i + 1, j) < LcsFrom(a, b, i, j + 1)
    ensures Stuck(a, b, i, j + 1)
  {
    assert b[j..][1..] == b[j + 1..];
    LcsDropOne(a[i + 1..], b[j..]);
    hide Lcs;
  }

  lemma StuckAdds(a: seq<Line>, b: seq<Line>, i: nat, j: nat)
    requires i <= |a| && j <= |b| && Stuck(a, b, i, j)
    ensures i < |a| && j < |b| && (a[i] != b[j] ==> LcsFrom(a, b, i + 1, j) < LcsFrom(a, b, i, j + 1))
  {
    LcsFromStep(a, b, i, j);
    hide LcsFrom;
  }

  /** Following the table keeps as many lines as the texts have in common. */
  method DiffSegmentByTable(oldLines: seq<Line>, newLines: seq<Line>) returns (ops: seq<Op>)
    ensures IsScript(ops, oldLines, newLines)
    ensures Kept(ops) == Lcs(oldLines, newLines)
    ensures DeletionsFirst(ops)
  {
    ops := [];
    assert Replays(ops, oldLines, newLines, 0, 0);
    assert oldLines[0..] == oldLines && newLines[0..] == newLines;
    ghost var goal := LcsFrom(oldLines, newLines, 0, 0);
    assert goal == Lcs(oldLines, newLines);
    assert Kept(ops) == 0;
    hide Lcs, LcsFrom, Replays, Kept, IsScript, DeletionsFirst, EndsInAdd;
    NoOps();
    var dp := FillTable(oldLines, newLines);
    var oldIndex, newIndex := 0, 0;
    while oldIndex < |oldLines| && newIndex < |newLines|
      invariant 0 <= oldIndex <= |oldLines| && 0 <= newIndex <= |newLines|
      invariant Replays(ops, oldLines, newLines, oldIndex, newIndex)
      invariant Kept(ops) + LcsFrom(oldLines, newLines, oldIndex, newIndex) == goal
      invariant DeletionsFirst(ops) && (EndsInAdd(ops) ==> Stuck(oldLines, newLines, oldIndex, newIndex))
      modifies {}
    {
      LcsFromStep(oldLines, newLines, oldIndex, newIndex);
      if EndsInAdd(ops) { StuckAdds(oldLines, newLines, oldIndex, newIndex); }
      if oldLines[oldIndex] == newLines[newIndex] {
        PushReplays(ops, Op(Ctx, oldLines[oldIndex]), oldLines, newLines, oldIndex, newIndex);
        FirstPush(ops, Op(Ctx, oldLines[oldIndex]));
        ops := ops + [Op(Ctx, oldLines[oldIndex])];
        oldIndex := oldIndex + 1;
        newIndex := newIndex + 1;
      } else if dp[oldIndex + 1, newIndex] >= dp[oldIndex, newIndex + 1] {
        PushReplays(ops, Op(Del, oldLines[oldIndex]), oldLines, newLines, oldIndex, newIndex);
        FirstPush(ops, Op(Del, oldLines[oldIndex]));
        ops := ops + [Op(Del, oldLines[oldIndex])];
        oldIndex := oldIndex + 1;
      } else {
        PushReplays(ops, Op(Add, newLines[newIndex]), oldLines, newLines, oldIndex, newIndex);
        FirstPush(ops, Op(Add, newLines[newIndex]));
        AddingSticks(oldLines, newLines, oldIndex, newIndex);
        ops := ops + [Op(Add, newLines[newIndex])];
        newIndex := newIndex + 1;
      }
    }
    LcsFromStep(oldLines, newLines, oldIndex, newIndex);
    if EndsInAdd(ops) { StuckAdds(oldLines, newLines, oldIndex, newIndex); }
    while oldIndex < |oldLines|
      invariant 0 <= oldIndex <= |oldLines| && 0 <= newIndex <= |newLines|
      invariant oldIndex == |oldLines| || newIndex == |newLines|
      invariant Replays(ops, oldLines, newLines, oldIndex, newIndex) && Kept(ops) == goal
      invariant DeletionsFirst(ops) && !EndsInAdd(ops)
    {
      PushReplays(ops, Op(Del, oldLines[oldIndex]), oldLines, newLines, oldIndex, newIndex);
      FirstPush(ops, Op(Del, oldLines[oldIndex]));
      ops := ops + [Op(Del, oldLines[oldIndex])];
      oldIndex := oldIndex + 1;
    }
    while newIndex < |newLines|
      invariant oldIndex == |oldLines| && 0 <= newIndex <= |newLines|
      invariant Replays(ops, oldLines, newLines, oldIndex, newIndex) && Kept(ops) == goal
      invariant DeletionsFirst(ops)
    {
      PushReplays(ops, Op(Add, newLines[newIndex]), oldLines, newLines, oldIndex, newIndex);
      FirstPush(ops, Op(Add, newLines[newIndex]));
      ops := ops + [Op(Add, newLines[newIndex])];
      newIndex := newIndex + 1;
    }
    ReplaysAll(ops, oldLines, newLines);
  }

  lemma NoOps()
    ensures DeletionsFirst([]) && !EndsInAdd([])
  {}

  // ----- the segment and the whole text

  method DiffSegment(oldLines: seq<Line>, newLines: seq<Line>, limits: Limits) returns (ops: seq<Op>)
    ensures IsScript(ops, oldLines, newLines)
    ensures Edits(ops) == if GivesUp(oldLines, newLines, limits) then |oldLines| + |newLines| else Distance(oldLines, newLines)
    ensures |oldLines| * |newLines| <= limits.lcsCells || GivesUp(oldLines, newLines, limits) ==> DeletionsFirst(ops)
  {
    assert |oldLines| == 0 || |newLines| == 0 ==> Lcs(oldLines, newLines) == 0;
    hide Lcs;
    if |oldLines| == 0 {
      MarkedSides(Add, newLines);
      MarkedIsOneKind(Add, newLines);
      ops := Marked(Add, newLines);
      assert |oldLines| * |newLines| == 0;
    } else if |newLines| == 0 {
      MarkedSides(Del, oldLines);
      MarkedIsOneKind(Del, oldLines);
      ops := Marked(Del, oldLines);
      assert |oldLines| * |newLines| == 0;
    } else if |oldLines| * |newLines| > limits.lcsCells {
      var found := DiffSegmentByMyers(oldLines, newLines, limits.editDistance, limits.traceCells);
      if found.Some? {
        ops := found.value;
      } else {
        FullReplacementReplays(oldLines, newLines);
        FullReplacementDeletesFirst(oldLines, newLines);
        ops := FullReplacement(oldLines, newLines);
      }
    } else {
      ops := DiffSegmentByTable(oldLines, newLines);
      ShortestMeetsDistance(ops, oldLines, newLines);
    }
  }

  method TrimEnds(beforeLines: seq<Line>, afterLines: seq<Line>) returns (prefix: nat, oldEnd: nat, newEnd: nat)
    ensures prefix == CommonPrefix(beforeLines, afterLines)
    ensures oldEnd == |beforeLines| - CommonSuffix(beforeLines, afterLines, prefix)
    ensures newEnd == |afterLines| - CommonSuffix(beforeLines, afterLines, prefix)
  {
    prefix := 0;
    while prefix < |beforeLines| && prefix < |afterLines| && beforeLines[prefix] == afterLines[prefix]
      invariant 0 <= prefix <= |beforeLines| && prefix <= |afterLines|
      invariant CommonPrefix(beforeLines, afterLines, prefix) == CommonPrefix(beforeLines, afterLines)
    {
      prefix := prefix + 1;
    }
    oldEnd, newEnd := |beforeLines|, |afterLines|;
    while oldEnd > prefix && newEnd > prefix && beforeLines[oldEnd - 1] == afterLines[newEnd - 1]
      invariant prefix <= oldEnd <= |beforeLines| && prefix <= newEnd <= |afterLines|
      invariant |beforeLines| - oldEnd == |afterLines| - newEnd
      invariant CommonSuffix(beforeLines, afterLines, prefix, |beforeLines| - oldEnd) == CommonSuffix(beforeLines, afterLines, prefix)
    {
      oldEnd, newEnd := oldEnd - 1, newEnd - 1;
    }
  }

  method PushContext(ops: seq<Op>, lines: seq<Line>) returns (more: seq<Op>)
    ensures more == ops + Marked(Ctx, lines)
  {
    more := ops;
    for index := 0 to |lines|
      invariant more + Marked(Ctx, lines[index..]) == ops + Marked(Ctx, lines)
    {
      more := more + [Op(Ctx, lines[index])];
      assert lines[index..][1..] == lines[index + 1..];
    }
    assert lines[|lines|..] == [];
  }

  lemma ContextAround(p: seq<Line>, middle: seq<Op>, a: seq<Line>, b: seq<Line>, s: seq<Line>)
    requires IsScript(middle, a, b)
    ensures IsScript(Marked(Ctx, p) + middle + Marked(Ctx, s), p + a + s, p + b + s)
    ensures Edits(Marked(Ctx, p) + middle + Marked(Ctx, s)) == Edits(middle)
  {
    MarkedSides(Ctx, p);
    MarkedSides(Ctx, s);
    ConcatSides(Marked(Ctx, p), middle);
    ConcatSides(Marked(Ctx, p) + middle, Marked(Ctx, s));
  }

  lemma NothingToTrim(a: seq<Line>, b: seq<Line>)
    requires a != [] && b != [] && a[0] != b[0] && a[|a| - 1] != b[|b| - 1]
    ensures Trimmed(a, b) == (a, b)
  {
    assert a[0..|a|] == a && b[0..|b|] == b;
  }

  lemma OneLineShared(a: seq<Line>, b: seq<Line>)
    requires b != [] && b[0] in a && forall line | line in a :: line !in b[1..]
    ensures Lcs(a, b) == 1
  {
    LcsZero(a, b[1..]);
    LcsZero(a, b);
    LcsDropOne(a, b);
  }

  lemma ContextKeepsOrder(p: seq<Line>, middle: seq<Op>, s: seq<Line>)
    requires DeletionsFirst(middle)
    ensures DeletionsFirst(Marked(Ctx, p) + middle + Marked(Ctx, s))
  {
    hide Marked;
    var before, after := Marked(Ctx, p), Marked(Ctx, s);
    MarkedIsOneKind(Ctx, p);
    MarkedIsOneKind(Ctx, s);
    if before != [] { assert before[|before| - 1] in before; }
    if after != [] { assert after[0] in after; }
    FirstJoin(before, middle);
    FirstJoin(before + middle, after);
  }

  /** Two texts of more than a thousand lines that share one line in different places: with the default limits
      the search gives up, and the line they share is not kept. */
  lemma GivingUpHappens(n: nat)
    requires n >= 1_000
    ensures var a, b := Repeated("a", n) + ["k"], ["k"] + Repeated("b", n);
      && Trimmed(a, b) == (a, b) && GivesUp(a, b, DEFAULT_LIMITS) && "k" in a && "k" in b
      && Edits(FullReplacement(a, b)) > Distance(a, b)
  {
    hide Lcs, GivesUp, FullReplacement, Trimmed, LcsScript;
    var a, b := Repeated("a", n) + ["k"], ["k"] + Repeated("b", n);
    assert a[n] == "k" && b[0] == "k" && a[0] == "a" && b[n] == "b";
    NothingToTrim(a, b);
    assert b[1..] == Repeated("b", n);
    OneLineShared(a, b);
    DefaultLimitsGiveUp(a, b);
    MoreThanAMillion(n);
    FullReplacementReplays(a, b);
  }

  function Repeated(line: Line, n: nat): (lines: seq<Line>)
    ensures |lines| == n && forall x | x in lines :: x == line
  {
    seq(n, _ => line)
  }

  lemma MoreThanAMillion(n: nat)
    requires n >= 1_000
    ensures (n + 1) * (n + 1) > 1_000_000
  {
    assert (n + 1) * (n + 1) >= 1_001 * (n + 1);
  }

  /** The diff replays both texts. It is a shortest one unless the trimmed middle is given up on, and
      even then exactly when the two middles have no line in common. */
  method BuildRawDiffOps(beforeLines: seq<Line>, afterLines: seq<Line>, limits: Limits) returns (ops: seq<Op>)
    ensures IsScript(ops, beforeLines, afterLines)
    ensures var (a, b) := Trimmed(beforeLines, afterLines);
            IsShortest(ops, beforeLines, afterLines) <==> !GivesUp(a, b, limits) || forall line | line in a :: line !in b
    ensures var (a, b) := Trimmed(beforeLines, afterLines);
            |a| * |b| <= limits.lcsCells || GivesUp(a, b, limits) ==> DeletionsFirst(ops)
  {
    hide Lcs, Marked, GivesUp, IsScript, IsShortest, CommonPrefix, CommonSuffix, DeletionsFirst;
    TrimmedParts(beforeLines, afterLines);
    var prefix, oldEnd, newEnd := TrimEnds(beforeLines, afterLines);
    ops := PushContext([], beforeLines[..prefix]);
    var a, b := beforeLines[prefix..oldEnd], afterLines[prefix..newEnd];
    var middle := DiffSegment(a, b, limits);
    ops := ops + middle;
    ops := PushContext(ops, beforeLines[oldEnd..]);

    ghost var p, s := beforeLines[..prefix], beforeLines[oldEnd..];
    assert Trimmed(beforeLines, afterLines) == (a, b);
    assert ops == Marked(Ctx, p) + middle + Marked(Ctx, s);
    ContextAround(p, middle, a, b, s);
    if DeletionsFirst(middle) { ContextKeepsOrder(p, middle, s); }
    TrimmingKeepsDistance(p, a, b, s);
    ShortestMeetsDistance(ops, beforeLines, afterLines);
    LcsZero(a, b);
  }
}
