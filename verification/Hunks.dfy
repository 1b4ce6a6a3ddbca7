/** Numbered operations, hunk ranges and unified-diff hunks (backend/capabilities/fileDiff.ts, lines
    68-79 and 260-313), and the patch tool's reading of a hunk header. */
module Hunks {
  import opened Options
  import opened EditScripts
  import opened MyersDiff
  import opened LineDiff

  datatype NumberedOp = NumberedOp(op: Op, oldPos: nat, newPos: nat, oldNum: Option<nat>, newNum: Option<nat>)

  datatype Range = Range(start: nat, end: nat)

  datatype Hunk = Hunk(oldStart: nat, oldCount: nat, newStart: nat, newCount: nat, ops: seq<Op>)

  // ----- numbering

  function Numbered(ops: seq<Op>, oldLine: nat, newLine: nat): (r: seq<NumberedOp>)
    ensures |r| == |ops|
  {
    if ops == [] then []
    else
      var op := ops[0];
      var oldNum := if op.kind.Add? then None else Some(oldLine);
      var newNum := if op.kind.Del? then None else Some(newLine);
      [NumberedOp(op, oldLine, newLine, oldNum, newNum)]
      + Numbered(ops[1..], if op.kind.Add? then oldLine else oldLine + 1, if op.kind.Del? then newLine else newLine + 1)
  }

  lemma NumberedNone()
    ensures forall oldLine: nat, newLine: nat :: Numbered([], oldLine, newLine) == []
  {}

  lemma NumberedStep(ops: seq<Op>, index: nat, oldLine: nat, newLine: nat, before: seq<NumberedOp>)
    requires index < |ops|
    ensures var op := ops[index];
      var numbered := NumberedOp(op, oldLine, newLine, if op.kind.Add? then None else Some(oldLine), if op.kind.Del? then None else Some(newLine));
      before + Numbered(ops[index..], oldLine, newLine) == before + [numbered]
        + Numbered(ops[index + 1..], if op.kind.Add? then oldLine else oldLine + 1, if op.kind.Del? then newLine else newLine + 1)
  {
    assert ops[index..][1..] == ops[index + 1..];
  }

  method NumberDiffOps(rawOps: seq<Op>) returns (numbered: seq<NumberedOp>)
    ensures numbered == Numbered(rawOps, 1, 1)
  {
    var oldLine, newLine := 1, 1;
    numbered := [];
    NumberedNone();
    hide Numbered;
    for index := 0 to |rawOps|
      invariant oldLine >= 1 && newLine >= 1
      invariant numbered + Numbered(rawOps[index..], oldLine, newLine) == Numbered(rawOps, 1, 1)
    {
      var op := rawOps[index];
      NumberedStep(rawOps, index, oldLine, newLine, numbered);
      match op.kind {
        case Ctx =>
          numbered := numbered + [NumberedOp(op, oldLine, newLine, Some(oldLine), Some(newLine))];
          oldLine, newLine := oldLine + 1, newLine + 1;
        case Del =>
          numbered := numbered + [NumberedOp(op, oldLine, newLine, Some(oldLine), None)];
          oldLine := oldLine + 1;
        case Add =>
          numbered := numbered + [NumberedOp(op, oldLine, newLine, None, Some(newLine))];
          newLine := newLine + 1;
      }
    }
    assert rawOps[|rawOps|..] == [];
  }

  // ----- ranges

  predicate Changes(ops: seq<Op>, i: int) {
    0 <= i < |ops| && !ops[i].kind.Ctx?
  }

  predicate Within(ranges: seq<Range>, j: int) {
    exists r | 0 <= r < |ranges| :: ranges[r].start <= j < ranges[r].end
  }

  /** Ranges stay inside the list, follow each other and never touch. */
  predicate Separated(ranges: seq<Range>, length: nat) {
    && (forall r | 0 <= r < |ranges| :: ranges[r].start < ranges[r].end <= length)
    && (forall r | 0 < r < |ranges| :: ranges[r - 1].end < ranges[r].start)
  }

  /** Operation j is a change before index n or at most `contextLines` operations away from one. */
  predicate NearChange(ops: seq<Op>, contextLines: nat, n: nat, j: int) {
    exists i | 0 <= i < n :: Changes(ops, i) && i - contextLines <= j <= i + contextLines
  }

  /** Pushing [start, end), or stretching the last range to it, covers just those operations more. */
  lemma CoverMore(ranges: seq<Range>, more: seq<Range>, start: nat, end: nat)
    requires start < end
    requires more == ranges + [Range(start, end)]
          || (ranges != [] && ranges[|ranges| - 1].start <= start <= ranges[|ranges| - 1].end <= end
              && more == ranges[|ranges| - 1 := Range(ranges[|ranges| - 1].start, end)])
    ensures forall j :: Within(more, j) <==> Within(ranges, j) || start <= j < end
  {
    forall j ensures Within(more, j) <==> Within(ranges, j) || start <= j < end {
      assert more[|more| - 1].end == end;
      if Within(ranges, j) {
        var r :| 0 <= r < |ranges| && ranges[r].start <= j < ranges[r].end;
        assert more[r].start <= j < more[r].end;
      }
    }
  }

  lemma NearOneMore(ops: seq<Op>, contextLines: nat, n: nat, j: int)
    ensures NearChange(ops, contextLines, n + 1, j)
       <==> NearChange(ops, contextLines, n, j) || (Changes(ops, n) && n - contextLines <= j <= n + contextLines)
  {
    if NearChange(ops, contextLines, n, j) {
      var i :| 0 <= i < n && Changes(ops, i) && i - contextLines <= j <= i + contextLines;
      assert Changes(ops, i);
    }
  }

  /** The ranges hold exactly the operations near one of the first n changes. */
  predicate Covers(ops: seq<Op>, contextLines: nat, n: nat, ranges: seq<Range>) {
    forall j | 0 <= j < |ops| :: Within(ranges, j) <==> NearChange(ops, contextLines, n, j)
  }

  lemma CoverNothingMore(ops: seq<Op>, contextLines: nat, n: nat, ranges: seq<Range>)
    requires Covers(ops, contextLines, n, ranges) && !Changes(ops, n)
    ensures Covers(ops, contextLines, n + 1, ranges)
  {
    hide Within, NearChange;
    forall j | 0 <= j < |ops| ensures Within(ranges, j) <==> NearChange(ops, contextLines, n + 1, j) {
      NearOneMore(ops, contextLines, n, j);
    }
  }

  lemma CoverChange(ops: seq<Op>, contextLines: nat, n: nat, ranges: seq<Range>, more: seq<Range>, start: nat, end: nat)
    requires Covers(ops, contextLines, n, ranges) && n < |ops| && Changes(ops, n)
    requires start == Max(0, n - contextLines) && end == Min(|ops|, n + contextLines + 1)
    requires forall j :: Within(more, j) <==> Within(ranges, j) || start <= j < end
    ensures Covers(ops, contextLines, n + 1, more)
  {
    hide Within, NearChange;
    forall j | 0 <= j < |ops| ensures Within(more, j) <==> NearChange(ops, contextLines, n + 1, j) {
      NearOneMore(ops, contextLines, n, j);
    }
  }

  /** The ranges hold exactly the operations close enough to a change. */
  method HunkRanges(ops: seq<Op>, contextLines: nat) returns (ranges: seq<Range>)
    ensures Separated(ranges, |ops|)
    ensures forall j | 0 <= j < |ops| :: Within(ranges, j) <==> NearChange(ops, contextLines, |ops|, j)
  {
    ranges := [];
    ghost var last := -1;
    NothingCovered(ops, contextLines);
    hide Within, NearChange, Covers;
    for index := 0 to |ops|
      invariant Separated(ranges, |ops|) && Covers(ops, contextLines, index, ranges)
      invariant -1 <= last < index
      invariant ranges != [] ==> ranges[|ranges| - 1].start <= Max(0, last - contextLines)
                                 && ranges[|ranges| - 1].end == Min(|ops|, last + contextLines + 1)
    {
      if ops[index].kind.Ctx? {
        CoverNothingMore(ops, contextLines, index, ranges);
        continue;
      }
      var start := Max(0, index - contextLines);
      var end := Min(|ops|, index + contextLines + 1);
      ghost var before := ranges;
      var n := |ranges|;
      if n > 0 && start <= ranges[n - 1].end {
        ranges := ranges[n - 1 := Range(ranges[n - 1].start, Max(ranges[n - 1].end, end))];
      } else {
        ranges := ranges + [Range(start, end)];
      }
      CoverMore(before, ranges, start, end);
      CoverChange(ops, contextLines, index, before, ranges, start, end);
      last := index;
    }
    CoversAll(ops, contextLines, ranges);
  }

  lemma CoversAll(ops: seq<Op>, contextLines: nat, ranges: seq<Range>)
    requires Covers(ops, contextLines, |ops|, ranges)
    ensures forall j | 0 <= j < |ops| :: Within(ranges, j) <==> NearChange(ops, contextLines, |ops|, j)
  {}

  lemma NothingCovered(ops: seq<Op>, contextLines: nat)
    ensures Covers(ops, contextLines, 0, [])
  {
  }

  // ----- hunks

  function FirstOldNum(ops: seq<NumberedOp>): Option<nat> {
    if ops == [] then None else if ops[0].oldNum.Some? then ops[0].oldNum else FirstOldNum(ops[1..])
  }

  function FirstNewNum(ops: seq<NumberedOp>): Option<nat> {
    if ops == [] then None else if ops[0].newNum.Some? then ops[0].newNum else FirstNewNum(ops[1..])
  }

  function GetOr(value: Option<nat>, default: nat): nat {
    match value
    case Some(v) => v
    case None => default
  }

  function Plain(ops: seq<NumberedOp>): (r: seq<Op>)
    ensures |r| == |ops|
  {
    seq(|ops|, i requires 0 <= i < |ops| => ops[i].op)
  }

  /** The hunk of a range: header numbers and body. Its text form is left abstract. */
  function FormatHunk(ops: seq<NumberedOp>): Hunk
    requires ops != []
  {
    var body := Plain(ops);
    var oldCount, newCount := |OldSide(body)|, |NewSide(body)|;
    Hunk(if oldCount > 0 then GetOr(FirstOldNum(ops), 0) else Max(0, ops[0].oldPos - 1), oldCount,
         if newCount > 0 then GetOr(FirstNewNum(ops), 0) else Max(0, ops[0].newPos - 1), newCount,
         body)
  }

  function FormatHunks(ops: seq<NumberedOp>, ranges: seq<Range>): seq<Hunk>
    requires Separated(ranges, |ops|)
  {
    if ranges == [] then []
    else [FormatHunk(ops[ranges[0].start..ranges[0].end])] + FormatHunks(ops, ranges[1..])
  }

  // ----- what a patch tool makes of hunks

  /** Lines before the hunk, from its header: an empty range names the line it follows. */
  function LinesBefore(start: nat, count: nat): int {
    if count == 0 then start else start - 1
  }

  /** Applies hunks in order at the places their headers name. `at` lines of the old text are used up
      and `written` lines of the new text are out; a hunk that does not fit fails. */
  function ApplyHunks(lines: seq<Line>, hunks: seq<Hunk>, at: nat, written: nat): Option<seq<Line>>
    requires at <= |lines|
    decreases hunks
  {
    if hunks == [] then Some(lines[at..])
    else
      var h := hunks[0];
      var place := LinesBefore(h.oldStart, h.oldCount);
      var end := place + h.oldCount;
      if at <= place && end <= |lines| && lines[place..end] == OldSide(h.ops)
         && LinesBefore(h.newStart, h.newCount) == written + place - at && h.newCount == |NewSide(h.ops)|
      then
        match ApplyHunks(lines, hunks[1..], end, written + place - at + h.newCount)
        case Some(rest) => Some(lines[at..place] + NewSide(h.ops) + rest)
        case None => None
      else None
  }

  // ----- header numbers

  /** Numbering a part of the list is numbering it from where its lines stand. */
  lemma {:induction false} NumberedDrop(ops: seq<Op>, oldLine: nat, newLine: nat, s: nat)
    requires s <= |ops|
    ensures Numbered(ops, oldLine, newLine)[s..]
         == Numbered(ops[s..], oldLine + |OldSide(ops[..s])|, newLine + |NewSide(ops[..s])|)
  {
    if s > 0 {
      var tail := ops[1..];
      assert ops[..s] == [ops[0]] + tail[..s - 1];
      ConcatSides([ops[0]], tail[..s - 1]);
      assert tail[s - 1..] == ops[s..];
      NumberedDrop(tail, if ops[0].kind.Add? then oldLine else oldLine + 1, if ops[0].kind.Del? then newLine else newLine + 1, s - 1);
    } else {
      assert ops[..0] == [] && ops[0..] == ops;
    }
  }

  lemma {:induction false} NumberedTake(ops: seq<Op>, oldLine: nat, newLine: nat, e: nat)
    requires e <= |ops|
    ensures Numbered(ops, oldLine, newLine)[..e] == Numbered(ops[..e], oldLine, newLine)
  {
    if e > 0 {
      assert ops[..e][1..] == ops[1..][..e - 1];
      NumberedTake(ops[1..], if ops[0].kind.Add? then oldLine else oldLine + 1, if ops[0].kind.Del? then newLine else newLine + 1, e - 1);
    }
  }

  lemma {:induction false} FirstNumbers(body: seq<Op>, oldLine: nat, newLine: nat)
    ensures Plain(Numbered(body, oldLine, newLine)) == body
    ensures FirstOldNum(Numbered(body, oldLine, newLine)) == if OldSide(body) == [] then None else Some(oldLine)
    ensures FirstNewNum(Numbered(body, oldLine, newLine)) == if NewSide(body) == [] then None else Some(newLine)
  {
    if body != [] {
      var o, n := if body[0].kind.Add? then oldLine else oldLine + 1, if body[0].kind.Del? then newLine else newLine + 1;
      var numbered := Numbered(body, oldLine, newLine);
      assert numbered[1..] == Numbered(body[1..], o, n);
      FirstNumbers(body[1..], o, n);
      assert Plain(numbered) == [body[0]] + Plain(numbered[1..]);
    }
  }

  /** A header names the place its hunk was cut from, on both sides, also when a side is empty. */
  lemma HeaderNamesPlace(body: seq<Op>, oldLine: nat, newLine: nat)
    requires body != [] && oldLine > 0 && newLine > 0
    ensures var h := FormatHunk(Numbered(body, oldLine, newLine));
            && h.ops == body && h.oldCount == |OldSide(body)| && h.newCount == |NewSide(body)|
            && LinesBefore(h.oldStart, h.oldCount) == oldLine - 1 && LinesBefore(h.newStart, h.newCount) == newLine - 1
  {
    FirstNumbers(body, oldLine, newLine);
  }

  lemma SliceHeader(ops: seq<Op>, s: nat, e: nat)
    requires s < e <= |ops|
    ensures var h := FormatHunk(Numbered(ops, 1, 1)[s..e]);
            && h.ops == ops[s..e] && h.oldCount == |OldSide(ops[s..e])| && h.newCount == |NewSide(ops[s..e])|
            && LinesBefore(h.oldStart, h.oldCount) == |OldSide(ops[..s])|
            && LinesBefore(h.newStart, h.newCount) == |NewSide(ops[..s])|
  {
    hide Numbered, FormatHunk, OldSide, NewSide, LinesBefore;
    var numbered := Numbered(ops, 1, 1);
    NumberedTake(ops, 1, 1, e);
    assert numbered[s..e] == numbered[..e][s..];
    NumberedDrop(ops[..e], 1, 1, s);
    assert ops[..e][..s] == ops[..s] && ops[..e][s..] == ops[s..e];
    HeaderNamesPlace(ops[s..e], 1 + |OldSide(ops[..s])|, 1 + |NewSide(ops[..s])|);
  }

  // ----- soundness

  lemma {:induction false} UnchangedSides(ops: seq<Op>)
    requires forall i | 0 <= i < |ops| :: !Changes(ops, i)
    ensures OldSide(ops) == NewSide(ops)
  {
    if ops != [] {
      assert !Changes(ops, 0);
      forall i | 0 <= i < |ops| - 1 ensures !Changes(ops[1..], i) {
        assert !Changes(ops, i + 1);
      }
      UnchangedSides(ops[1..]);
    }
  }

  lemma Split(ops: seq<Op>, m: nat, n: nat)
    requires m <= n <= |ops|
    ensures ops[..n] == ops[..m] + ops[m..n]
    ensures ops[m..] == ops[m..n] + ops[n..]
    ensures ops == ops[..n] + ops[n..]
  {
  }

  lemma SplitSides(ops: seq<Op>, m: nat, n: nat)
    requires m <= n <= |ops|
    ensures OldSide(ops[..n]) == OldSide(ops[..m]) + OldSide(ops[m..n])
    ensures NewSide(ops[..n]) == NewSide(ops[..m]) + NewSide(ops[m..n])
    ensures NewSide(ops[m..]) == NewSide(ops[m..n]) + NewSide(ops[n..])
    ensures OldSide(ops) == OldSide(ops[..n]) + OldSide(ops[n..])
  {
    hide OldSide, NewSide;
    Split(ops, m, n);
    ConcatSides(ops[..m], ops[m..n]);
    ConcatSides(ops[m..n], ops[n..]);
    ConcatSides(ops[..n], ops[n..]);
  }

  lemma UnchangedGap(ops: seq<Op>, ranges: seq<Range>, k: nat, s: nat)
    requires k <= s <= |ops| && (ranges == [] || s <= ranges[0].start)
    requires Separated(ranges, |ops|)
    requires forall j | k <= j < |ops| && Changes(ops, j) :: Within(ranges, j)
    ensures OldSide(ops[k..s]) == NewSide(ops[k..s])
  {
    forall i | 0 <= i < s - k ensures !Changes(ops[k..s], i) {
      if Changes(ops, k + i) {
        var r :| 0 <= r < |ranges| && ranges[r].start <= k + i < ranges[r].end;
        StartsGrow(ranges, |ops|, r);
      }
    }
    UnchangedSides(ops[k..s]);
  }

  lemma {:induction false} StartsGrow(ranges: seq<Range>, length: nat, r: nat)
    requires Separated(ranges, length) && r < |ranges|
    ensures ranges[0].start <= ranges[r].start
  {
    if r > 0 { StartsGrow(ranges, length, r - 1); }
  }

  lemma {:induction false} PatchFrom(ops: seq<Op>, ranges: seq<Range>, k: nat)
    requires k <= |ops| && Separated(ranges, |ops|) && (ranges != [] ==> k <= ranges[0].start)
    requires forall j | k <= j < |ops| && Changes(ops, j) :: Within(ranges, j)
    ensures |OldSide(ops[..k])| <= |OldSide(ops)|
    ensures ApplyHunks(OldSide(ops), FormatHunks(Numbered(ops, 1, 1), ranges), |OldSide(ops[..k])|, |NewSide(ops[..k])|)
         == Some(NewSide(ops[k..]))
    decreases |ranges|
  {
    hide OldSide, NewSide, Numbered, FormatHunk, LinesBefore, ApplyHunks, Changes;
    var lines := OldSide(ops);
    if ranges == [] {
      SplitSides(ops, 0, k);
      UnchangedGap(ops, ranges, k, |ops|);
      assert ops[k..|ops|] == ops[k..];
      assert lines[|OldSide(ops[..k])|..] == OldSide(ops[k..]);
      NoMoreHunks(lines, |OldSide(ops[..k])|, |NewSide(ops[..k])|);
    } else {
      var s, e := ranges[0].start, ranges[0].end;
      var hunks := FormatHunks(Numbered(ops, 1, 1), ranges);
      SliceHeader(ops, s, e);
      SplitSides(ops, k, s);
      SplitSides(ops, s, e);
      UnchangedGap(ops, ranges, k, s);
      WithinRest(ops, ranges);
      PatchFrom(ops, ranges[1..], e);
      assert hunks[1..] == FormatHunks(Numbered(ops, 1, 1), ranges[1..]);
      var at, place, end := |OldSide(ops[..k])|, |OldSide(ops[..s])|, |OldSide(ops[..e])|;
      SideSlice(ops, k, s);
      SideSlice(ops, s, e);
      SplitSides(ops, k, e);
      hide FormatHunks, Within, Separated;
      HunkApplies(lines, hunks, at, |NewSide(ops[..k])|, place, end, NewSide(ops[e..]));
      assert NewSide(ops[k..]) == NewSide(ops[k..s]) + NewSide(ops[s..e]) + NewSide(ops[e..]);
    }
  }

  lemma NoMoreHunks(lines: seq<Line>, at: nat, written: nat)
    requires at <= |lines|
    ensures ApplyHunks(lines, [], at, written) == Some(lines[at..])
  {}

  /** A change beyond the first range is within a later one. */
  lemma WithinRest(ops: seq<Op>, ranges: seq<Range>)
    requires ranges != []
    ensures forall j | ranges[0].end <= j && Within(ranges, j) :: Within(ranges[1..], j)
  {
    forall j | ranges[0].end <= j && Within(ranges, j) ensures Within(ranges[1..], j) {
      var r :| 0 <= r < |ranges| && ranges[r].start <= j < ranges[r].end;
      assert ranges[1..][r - 1] == ranges[r];
    }
  }

  /** The old lines of a slice of the operations, in the old text. */
  lemma SideSlice(ops: seq<Op>, m: nat, n: nat)
    requires m <= n <= |ops|
    ensures |OldSide(ops[..m])| <= |OldSide(ops[..n])| <= |OldSide(ops)|
    ensures OldSide(ops)[|OldSide(ops[..m])|..|OldSide(ops[..n])|] == OldSide(ops[m..n])
    ensures |NewSide(ops[..n])| == |NewSide(ops[..m])| + |NewSide(ops[m..n])|
  {
    SplitSides(ops, m, n);
    hide OldSide, NewSide;
    assert OldSide(ops)[..|OldSide(ops[..n])|] == OldSide(ops[..n]);
  }

  /** The first hunk fits between `place` and `end`, and the later ones write the rest. */
  lemma HunkApplies(lines: seq<Line>, hunks: seq<Hunk>, at: nat, written: nat, place: nat, end: nat, rest: seq<Line>)
    requires hunks != [] && at <= place <= end <= |lines|
    requires var h := hunks[0];
      && LinesBefore(h.oldStart, h.oldCount) == place && h.oldCount == end - place && lines[place..end] == OldSide(h.ops)
      && LinesBefore(h.newStart, h.newCount) == written + place - at && h.newCount == |NewSide(h.ops)|
      && ApplyHunks(lines, hunks[1..], end, written + place - at + h.newCount) == Some(rest)
    ensures ApplyHunks(lines, hunks, at, written) == Some(lines[at..place] + NewSide(hunks[0].ops) + rest)
  {
    hide OldSide, NewSide, LinesBefore;
  }

  // ----- the whole diff

  /** Diffing two texts and patching the old one with the hunks gives the new one; there is a hunk
      exactly when the texts differ. */
  method BuildHunks(before: seq<Line>, after: seq<Line>, contextLines: nat, limits: Limits)
    returns (hunks: seq<Hunk>, ghost script: seq<Op>, ghost ranges: seq<Range>)
    ensures ApplyHunks(before, hunks, 0, 0) == Some(after)
    ensures hunks == [] <==> before == after
    ensures IsScript(script, before, after)
    ensures var (a, b) := Trimmed(before, after);
            IsShortest(script, before, after) <==> !GivesUp(a, b, limits) || forall line | line in a :: line !in b
    ensures Separated(ranges, |script|) && hunks == FormatHunks(Numbered(script, 1, 1), ranges)
    ensures forall j | 0 <= j < |script| :: Within(ranges, j) <==> NearChange(script, contextLines, |script|, j)
  {
    var raw := BuildRawDiffOps(before, after, limits);
    var ops := NumberDiffOps(raw);
    var found := HunkRanges(raw, contextLines);
    hunks := FormatHunks(ops, found);
    script, ranges := raw, found;
    ChangesAreNear(raw, contextLines);
    PatchFrom(raw, ranges, 0);
    if before == after {
      NoHunkForEqualTexts(raw, before, contextLines, limits);
      assert ranges != [] ==> Within(ranges, ranges[0].start);
    }
  }

  lemma ChangesAreNear(ops: seq<Op>, contextLines: nat)
    ensures forall j | Changes(ops, j) :: NearChange(ops, contextLines, |ops|, j)
  {
  }

  lemma NoHunkForEqualTexts(ops: seq<Op>, text: seq<Line>, contextLines: nat, limits: Limits)
    requires IsScript(ops, text, text)
    requires var (a, b) := Trimmed(text, text);
             IsShortest(ops, text, text) <==> !GivesUp(a, b, limits) || forall line | line in a :: line !in b
    ensures forall j :: !NearChange(ops, contextLines, |ops|, j)
  {
    var (a, b) := Trimmed(text, text);
    EqualTextsTrim(text, 0);
    assert a == [] && |a| * |b| == 0;
    ShortestMeetsDistance(ops, text, text);
    LcsCommonPrefix(text, [], []);
    assert text + [] == text;
    NoEdits(ops);
  }

  lemma {:induction false} EqualTextsTrim(text: seq<Line>, n: nat)
    requires n <= |text|
    ensures CommonPrefix(text, text, n) == |text|
    decreases |text| - n
  {
    if n < |text| { EqualTextsTrim(text, n + 1); }
  }

  lemma {:induction false} NoEdits(ops: seq<Op>)
    requires Edits(ops) == 0
    ensures forall i :: !Changes(ops, i)
  {
    if ops != [] {
      NoEdits(ops[1..]);
      forall i ensures !Changes(ops, i) {
        assert !Changes(ops[1..], i - 1);
      }
    }
  }
}
