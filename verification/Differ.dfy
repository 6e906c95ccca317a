/** Computing a diff of two lists of lines and the views of the result. */
module Differ {
  import opened Ints
  import opened Position
  import opened Tokens
  import opened Lines
  import opened EditScript
  import opened DiffResult
  import opened Alignment
  import Hirschberg
  import Lcs
  import Seqs

  function ToLines(ops: seq<LineOp>): seq<Line> {
    seq(|ops|, i requires 0 <= i < |ops| => ops[i].line.(flag := FlagOf(ops[i].kind)))
  }

  function HeaderOf(h: Hunk): Annotation {
    Annotation(HunkHeader(h.from + 1, h.fromCount, h.to + 1, h.toCount), true, 0)
  }

  function Annotate(line: Line, a: Annotation): Line {
    line.(annotations := line.annotations + [a])
  }

  class Result {
    const ops: seq<LineOp>
    const beforeSums: PrefixSums
    const afterSums: PrefixSums
    var alignedRows: seq<Row>
    var aligned: bool

    ghost predicate Valid()
      reads this
    {
      SumsOf(beforeSums, afterSums, ops) && (aligned ==> alignedRows == Rows(ops))
    }

    constructor (ops: seq<LineOp>, beforeSums: PrefixSums, afterSums: PrefixSums)
      requires SumsOf(beforeSums, afterSums, ops)
      ensures Valid() && this.ops == ops
    {
      this.ops, this.beforeSums, this.afterSums := ops, beforeSums, afterSums;
      alignedRows, aligned := [], false;
    }

    method Unified() returns (lines: seq<Line>)
      ensures lines == ToLines(ops) && |lines| == |ops|
      ensures forall i :: 0 <= i < |ops| ==> lines[i] == FlaggedLine(ops[i])
    {
      lines := [];
      for i := 0 to |ops|
        invariant lines == ToLines(ops)[..i]
      {
        lines := lines + [ops[i].line.(flag := FlagOf(ops[i].kind))];
      }
    }

    /** The hunks of the diff, the first line of each carrying its header; nothing at all
        when nothing changed. Negative contexts count as 0. */
    method Hunks(context: int) returns (lines: seq<Line>, spans: seq<Span>, ghost hunks: seq<Hunk>)
      requires Valid()
      ensures PrintsHunks(lines, ops, spans, hunks)
      ensures var before, after := Contents(Side(ops, OpInsert)), Contents(Side(ops, OpDelete));
              Applicable(hunks, 0, |before|, |after|) && ApplyHunks(hunks, 0, before, after) == after
      ensures spans == HunkSpans(ops, Max(0, context))
      ensures spans == [] ==> lines == []
      ensures spans != [] ==>
                WithinOrder(spans, |ops|) && Headed(lines, ToLines(ops), spans, |spans|, beforeSums, afterSums)
    {
      var c := Max(0, context);
      HunksPatch(ops, c, HunkSpans(ops, c), beforeSums, afterSums);
      hunks := HunksOf(HunkSpans(ops, c), beforeSums, afterSums, 0, |ops|);
      if |ops| == 0 {
        return [], [], hunks;
      }
      spans := SelectHunkSpans(ops, c);
      if |spans| == 0 {
        return [], spans, hunks;
      }
      HunkSpansBounds(ops, c);
      var unified := Unified();
      lines := AddHeaders(unified, spans, beforeSums, afterSums);
      HeadersPrint(lines, ops, spans, beforeSums, afterSums);
    }

    method Stats() returns (added: nat, removed: nat)
      ensures added == Count(ops, 0, |ops|, OpInsert) && removed == Count(ops, 0, |ops|, OpDelete)
    {
      added, removed := 0, 0;
      for i := 0 to |ops|
        invariant added + Count(ops, i, |ops|, OpInsert) == Count(ops, 0, |ops|, OpInsert)
        invariant removed + Count(ops, i, |ops|, OpDelete) == Count(ops, 0, |ops|, OpDelete)
      {
        match ops[i].kind {
          case OpInsert => added := added + 1;
          case OpDelete => removed := removed + 1;
          case OpEqual =>
        }
      }
    }

    /** Computed on the first call and the same ever after. */
    method GetAlignedRows() returns (rows: seq<Row>)
      requires Valid()
      modifies this`alignedRows, this`aligned
      ensures Valid() && rows == Rows(ops)
    {
      if !aligned {
        alignedRows := ComputeRows(ops);
        aligned := true;
      }
      rows := alignedRows;
    }

    method Before() returns (lines: seq<Line>)
      requires Valid()
      modifies this`alignedRows, this`aligned
      ensures Valid() && lines == LeftLines(Rows(ops))
      ensures |lines| == |Slots(ops, 0)|
      ensures forall i :: 0 <= i < |lines| ==>
                var slot := Slots(ops, 0)[i];
                lines[i] == if slot.before.Some? then slot.before.value else EmptyLine
    {
      var rows := GetAlignedRows();
      lines := [];
      for i := 0 to |rows|
        invariant lines == LeftLines(rows)[..i]
      {
        lines := lines + [rows[i].before];
      }
    }

    method After() returns (lines: seq<Line>)
      requires Valid()
      modifies this`alignedRows, this`aligned
      ensures Valid() && lines == RightLines(Rows(ops))
      ensures |lines| == |Slots(ops, 0)|
      ensures forall i :: 0 <= i < |lines| ==>
                var slot := Slots(ops, 0)[i];
                lines[i] == if slot.after.Some? then slot.after.value else EmptyLine
    {
      var rows := GetAlignedRows();
      lines := [];
      for i := 0 to |rows|
        invariant lines == RightLines(rows)[..i]
      {
        lines := lines + [rows[i].after];
      }
    }
  }

  ghost predicate WithinOrder(spans: seq<Span>, n: nat) {
    && (forall k :: 0 <= k < |spans| ==> 0 <= spans[k].start < spans[k].end <= n)
    && (forall j, k :: 0 <= j < k < |spans| ==> spans[j].start < spans[k].start)
  }

  /** The first n spans have put their header on their first line; no other line changed. */
  ghost predicate Headed(lines: seq<Line>, base: seq<Line>, spans: seq<Span>, n: nat, beforeSums: PrefixSums,
                         afterSums: PrefixSums)
    requires n <= |spans| && WithinOrder(spans, |base|) && |beforeSums.sums| == |afterSums.sums| == |base| + 1
  {
    && |lines| == |base|
    && (forall i :: 0 <= i < |lines| && (forall k :: 0 <= k < n ==> spans[k].start != i) ==> lines[i] == base[i])
    && (forall k :: 0 <= k < n ==>
          lines[spans[k].start] == Annotate(base[spans[k].start], HeaderOf(HunkOf(spans[k], beforeSums, afterSums))))
  }

  method AddHeaders(base: seq<Line>, spans: seq<Span>, beforeSums: PrefixSums, afterSums: PrefixSums)
    returns (lines: seq<Line>)
    requires WithinOrder(spans, |base|) && |beforeSums.sums| == |afterSums.sums| == |base| + 1
    ensures Headed(lines, base, spans, |spans|, beforeSums, afterSums)
  {
    lines := base;
    for n := 0 to |spans|
      invariant Headed(lines, base, spans, n, beforeSums, afterSums)
    {
      var start := spans[n].start;
      var header := HeaderOf(HunkOf(spans[n], beforeSums, afterSums));
      lines := lines[start := Annotate(lines[start], header)];
    }
  }

  lemma {:induction false} HunkSpansBounds(ops: seq<LineOp>, context: nat)
    ensures WithinOrder(HunkSpans(ops, context), |ops|)
  {
    HunkSpansAreMaximalRuns(ops, context);
    var spans := HunkSpans(ops, context);
    forall k | 0 <= k < |spans| ensures 0 <= spans[k].start < spans[k].end <= |ops| {
      assert spans[k].Contains(spans[k].start) && spans[k].Contains(spans[k].end - 1);
      assert Covered(spans, spans[k].start) && Covered(spans, spans[k].end - 1);
    }
  }

  /** The flagged lines of the operations. The first line of each hunk has, after its own
      annotations, a header with the hunk's numbers, the lines counted from 1. */
  ghost predicate PrintsHunks(lines: seq<Line>, ops: seq<LineOp>, spans: seq<Span>, hunks: seq<Hunk>) {
    && |hunks| == |spans|
    && (if spans == [] then lines == []
        else
          && |lines| == |ops|
          && (forall i :: 0 <= i < |ops| && !StartsSpan(spans, i) ==> lines[i] == FlaggedLine(ops[i]))
          && (forall k :: 0 <= k < |spans| ==>
                && 0 <= spans[k].start < |ops|
                && PrintsHunk(lines[spans[k].start], ops[spans[k].start], hunks[k])))
  }

  ghost predicate StartsSpan(spans: seq<Span>, i: int) {
    exists k :: 0 <= k < |spans| && spans[k].start == i
  }

  ghost predicate PrintsHunk(line: Line, op: LineOp, h: Hunk) {
    var header := HunkHeader(h.from + 1, h.fromCount, h.to + 1, h.toCount);
    line == FlaggedLine(op).(annotations := op.line.annotations + [Annotation(header, true, 0)])
  }

  lemma {:induction false} HunksOfAt(spans: seq<Span>, beforeSums: PrefixSums, afterSums: PrefixSums, p: int, n: nat,
                                     k: nat)
    requires InOrder(spans, p, n) && |beforeSums.sums| == |afterSums.sums| == n + 1 && k < |spans|
    ensures |HunksOf(spans, beforeSums, afterSums, p, n)| == |spans|
    ensures 0 <= spans[k].start <= spans[k].end <= n
    ensures HunksOf(spans, beforeSums, afterSums, p, n)[k] == HunkOf(spans[k], beforeSums, afterSums)
    decreases |spans|
  {
    if |spans| > 1 {
      HunksOfAt(spans[1..], beforeSums, afterSums, spans[0].end, n, if k > 0 then k - 1 else 0);
    }
  }

  lemma {:induction false} HeaderPrints(op: LineOp, h: Hunk, line: Line)
    requires line == Annotate(op.line.(flag := FlagOf(op.kind)), HeaderOf(h))
    ensures PrintsHunk(line, op, h)
  {
  }

  /** The headers print the hunks that patch. */
  lemma {:induction false} HeadersPrint(lines: seq<Line>, ops: seq<LineOp>, spans: seq<Span>, beforeSums: PrefixSums,
                                        afterSums: PrefixSums)
    requires SumsOf(beforeSums, afterSums, ops) && InOrder(spans, 0, |ops|) && spans != []
    requires WithinOrder(spans, |ops|) && Headed(lines, ToLines(ops), spans, |spans|, beforeSums, afterSums)
    ensures PrintsHunks(lines, ops, spans, HunksOf(spans, beforeSums, afterSums, 0, |ops|))
  {
    var hunks := HunksOf(spans, beforeSums, afterSums, 0, |ops|);
    HunksOfAt(spans, beforeSums, afterSums, 0, |ops|, 0);
    forall k | 0 <= k < |spans| ensures PrintsHunk(lines[spans[k].start], ops[spans[k].start], hunks[k]) {
      HunksOfAt(spans, beforeSums, afterSums, 0, |ops|, k);
      HeaderPrints(ops[spans[k].start], hunks[k], lines[spans[k].start]);
    }
  }

  /** Keeps one engine, with its buffers, for all its diffs. */
  class Differ {
    const engine: Hirschberg.Engine

    constructor ()
      ensures engine.Valid() && fresh(engine) && fresh(engine.Buffers())
    {
      engine := new Hirschberg.Engine();
    }

    method Diff(before: seq<Line>, after: seq<Line>) returns (result: Result)
      requires engine.Valid()
      modifies engine, engine.Buffers()
      ensures engine.Valid() && fresh(engine.Buffers() - old(engine.Buffers()))
      ensures result.Valid() && fresh(result) && result.ops == DiffOps(before, after)
    {
      var ops := ComputeOps(before, after);
      var beforeDeltas := DeltasOf(ops, OpInsert);
      var afterDeltas := DeltasOf(ops, OpDelete);
      var beforeSums := NewPrefixSums(beforeDeltas);
      var afterSums := NewPrefixSums(afterDeltas);
      result := new Result(ops, beforeSums, afterSums);
    }

    method ComputeOps(before: seq<Line>, after: seq<Line>) returns (ops: seq<LineOp>)
      requires engine.Valid()
      modifies engine, engine.Buffers()
      ensures engine.Valid() && fresh(engine.Buffers() - old(engine.Buffers()))
      ensures ops == DiffOps(before, after)
    {
      var beforeContent := ContentOfAll(before);
      var afterContent := ContentOfAll(after);
      var diffOps := RunEngine(beforeContent, afterContent);
      DiffInRange(before, after);
      ops := ConvertOps(diffOps, before, after);
    }

    method RunEngine(before: seq<string>, after: seq<string>) returns (ops: seq<Op>)
      requires engine.Valid()
      modifies engine, engine.Buffers()
      ensures engine.Valid() && fresh(engine.Buffers() - old(engine.Buffers()))
      ensures ops == EditScript.Diff(before, after)
    {
      engine.Init(|before|, |after|);
      ops := engine.Diff(before, after);
    }
  }

  method ConvertOps(diffOps: seq<Op>, before: seq<Line>, after: seq<Line>) returns (ops: seq<LineOp>)
    requires InRange(diffOps, before, after)
    ensures ops == LineOps(diffOps, before, after)
  {
    ops := [];
    for i := 0 to |diffOps|
      invariant ops == LineOps(diffOps, before, after)[..i]
    {
      var op := diffOps[i];
      match op.kind {
        case OpEqual => ops := ops + [LineOp(OpEqual, after[op.index])];
        case OpDelete => ops := ops + [LineOp(OpDelete, before[op.index])];
        case OpInsert => ops := ops + [LineOp(OpInsert, after[op.index])];
      }
    }
  }

  /** What each operation adds to the line count of one side. */
  method DeltasOf(ops: seq<LineOp>, skip: OpKind) returns (deltas: seq<int>)
    ensures deltas == Deltas(ops, skip)
  {
    deltas := [];
    for i := 0 to |ops|
      invariant deltas == Deltas(ops, skip)[..i]
    {
      deltas := deltas + [if ops[i].kind == skip then 0 else 1];
    }
  }

  ghost predicate InRange(ops: seq<Op>, before: seq<Line>, after: seq<Line>) {
    forall i :: 0 <= i < |ops| ==> ops[i].index < if ops[i].kind == OpDelete then |before| else |after|
  }

  lemma {:induction false} DiffInRange(before: seq<Line>, after: seq<Line>)
    ensures InRange(EditScript.Diff(Contents(before), Contents(after)), before, after)
  {
    var script := EditScript.Diff(Contents(before), Contents(after));
    DiffCanonical(Contents(before), Contents(after));
    forall i | 0 <= i < |script| ensures script[i].index < if script[i].kind == OpDelete then |before| else |after| {
      ScriptIndicesInRange(script, Contents(before), Contents(after), 0, 0, i);
    }
  }

  method ContentOfAll(lines: seq<Line>) returns (contents: seq<string>)
    ensures contents == Contents(lines)
  {
    contents := [];
    for i := 0 to |lines|
      invariant contents == Contents(lines)[..i]
    {
      var content := BuildContent(lines[i]);
      contents := contents + [content];
    }
  }

  // ----- what a diff of two line lists shows -----

  /** Whichever valid script is used, the hunks of two lists of lines, for any context, patch
      the first into the second. */
  lemma {:induction false} DiffHunksPatch(script: seq<Op>, before: seq<Line>, after: seq<Line>, ops: seq<LineOp>,
                                          context: nat, spans: seq<Span>, beforeSums: PrefixSums, afterSums: PrefixSums)
    requires Transforms(script, Contents(before), Contents(after), 0, 0) && ops == LineOps(script, before, after)
    requires spans == HunkSpans(ops, context) && SumsOf(beforeSums, afterSums, ops)
    ensures && InOrder(spans, 0, |ops|)
            && var hunks := HunksOf(spans, beforeSums, afterSums, 0, |ops|);
            && Applicable(hunks, 0, |before|, |after|)
            && ApplyHunks(hunks, 0, Contents(before), Contents(after)) == Contents(after)
  {
    DiffSides(script, before, after);
    assert |Contents(before)| == |before| && |Contents(after)| == |after|;
    HunksPatch(ops, context, spans, beforeSums, afterSums);
  }

  /** Every line shows on its side, in order, and nothing else does but placeholders; with an
      optimal script in normal form there are exactly as many rows as the blocks of changes need. */
  lemma {:induction false} DiffSideBySide(script: seq<Op>, before: seq<Line>, after: seq<Line>, ops: seq<LineOp>)
    requires Canonical(script, Contents(before), Contents(after), 0, 0) && ops == LineOps(script, before, after)
    ensures var slots := Slots(ops, 0);
            && Rows(ops) == Draw(slots)
            && Contents(Somes(Befores(slots))) == Contents(before)
            && Contents(Somes(Afters(slots))) == Contents(after)
            && |UnchangedSlots(slots)| == Lcs.Length(Contents(before), Contents(after))
            && |slots| == BlockRows(ops, 0)
  {
    assert ops[0..] == ops;
    RowsShowBothSides(ops, 0);
    UnchangedRowsAreEqual(ops, 0);
    FlaggedSideContents(ops, OpInsert);
    FlaggedSideContents(ops, OpDelete);
    DiffSides(script, before, after);
    EqualSlotsCount(script, before, after);
    assert Kinds(ops) == KindsOf(script);
    RowCount(ops, 0);
  }

  /** Both columns of a diff: all lines of both lists, in order, those before by their content
      and deleted ones themselves, those after themselves, and an unchanged line next to itself. */
  method SideBySide(d: Differ, before: seq<Line>, after: seq<Line>)
    returns (left: seq<Line>, right: seq<Line>, ghost l: seq<nat>, ghost r: seq<nat>)
    requires d.engine.Valid()
    modifies d.engine, d.engine.Buffers()
    ensures d.engine.Valid() && |left| == |right|
    ensures Holds(left, before, l, FlagDeleted) && Holds(right, after, r, FlagInserted)
    ensures forall k :: 0 <= k < |l| && left[l[k]].flag == FlagDeleted ==> left[l[k]] == before[k].(flag := FlagDeleted)
    ensures forall k :: 0 <= k < |r| ==> right[r[k]] == after[k].(flag := right[r[k]].flag)
    ensures forall k :: 0 <= k < |l| && left[l[k]].flag == FlagDefault ==>
              Seqs.Listed(r, l[k]) && right[l[k]] == left[l[k]]
    ensures forall k :: 0 <= k < |r| && right[r[k]].flag == FlagDefault ==>
              Seqs.Listed(l, r[k]) && left[r[k]] == right[r[k]]
  {
    var result := d.Diff(before, after);
    left := result.Before();
    right := result.After();
    l, r := ColumnsHold(before, after, result.ops, left, right);
  }

  lemma {:induction false} ColumnsHold(before: seq<Line>, after: seq<Line>, ops: seq<LineOp>, left: seq<Line>,
                                       right: seq<Line>)
    returns (l: seq<nat>, r: seq<nat>)
    requires ops == DiffOps(before, after) && |left| == |right| == |Slots(ops, 0)|
    requires forall i :: 0 <= i < |left| ==> left[i] == OrEmpty(Slots(ops, 0)[i].before)
    requires forall i :: 0 <= i < |right| ==> right[i] == OrEmpty(Slots(ops, 0)[i].after)
    ensures Holds(left, before, l, FlagDeleted) && Holds(right, after, r, FlagInserted)
    ensures forall k :: 0 <= k < |l| && left[l[k]].flag == FlagDeleted ==> left[l[k]] == before[k].(flag := FlagDeleted)
    ensures forall k :: 0 <= k < |r| ==> right[r[k]] == after[k].(flag := right[r[k]].flag)
    ensures forall k :: 0 <= k < |l| && left[l[k]].flag == FlagDefault ==>
              Seqs.Listed(r, l[k]) && right[l[k]] == left[l[k]]
    ensures forall k :: 0 <= k < |r| && right[r[k]].flag == FlagDefault ==>
              Seqs.Listed(l, r[k]) && left[r[k]] == right[r[k]]
  {
    var slots := Slots(ops, 0);
    var script := DiffOpsCanonical(before, after, ops);
    var b, a := ScriptShowsLines(script, before, after);
    RowsShowBothSides(ops, 0);
    assert ops[0..] == ops;
    l := LeftHolds(left, Befores(slots), before, after, ops, b, a);
    r := RightHolds(right, Afters(slots), before, after, ops, b, a);
    EveryRow(ops, 0);
    UnchangedFacing(left, right, slots, l, r);
  }

  lemma {:induction false} LeftHolds(left: seq<Line>, slots: seq<Option<Line>>, before: seq<Line>, after: seq<Line>,
                                     ops: seq<LineOp>, b: seq<nat>, a: seq<nat>) returns (l: seq<nat>)
    requires ShowsLines(ops, before, after, b, a) && Somes(slots) == FlaggedSide(ops, OpInsert)
    requires |left| == |slots| && forall i :: 0 <= i < |slots| ==> left[i] == OrEmpty(slots[i])
    ensures Seqs.Selects(Present(slots), l) && Holds(left, before, l, FlagDeleted)
    ensures forall k :: 0 <= k < |l| && left[l[k]].flag == FlagDeleted ==> left[l[k]] == before[k].(flag := FlagDeleted)
  {
    var idx;
    l, idx := ColumnShowsSide(left, slots, ops, OpInsert);
    Seqs.SelectsUnique(OnSide(ops, OpInsert), b, idx);
    assert forall k :: 0 <= k < |idx| ==> OnSide(ops, OpInsert)(idx[k]);
  }

  lemma {:induction false} RightHolds(right: seq<Line>, slots: seq<Option<Line>>, before: seq<Line>, after: seq<Line>,
                                      ops: seq<LineOp>, b: seq<nat>, a: seq<nat>) returns (r: seq<nat>)
    requires ShowsLines(ops, before, after, b, a) && Somes(slots) == FlaggedSide(ops, OpDelete)
    requires |right| == |slots| && forall i :: 0 <= i < |slots| ==> right[i] == OrEmpty(slots[i])
    ensures Seqs.Selects(Present(slots), r) && Holds(right, after, r, FlagInserted)
    ensures forall k :: 0 <= k < |r| ==> right[r[k]] == after[k].(flag := right[r[k]].flag)
  {
    var idx;
    r, idx := ColumnShowsSide(right, slots, ops, OpDelete);
    Seqs.SelectsUnique(OnSide(ops, OpDelete), a, idx);
    assert forall k :: 0 <= k < |idx| ==> OnSide(ops, OpDelete)(idx[k]);
  }

  lemma {:induction false} UnchangedFacing(left: seq<Line>, right: seq<Line>, slots: seq<Slot>, l: seq<nat>,
                                           r: seq<nat>)
    requires |left| == |right| == |slots| && forall i :: 0 <= i < |slots| ==> PlainOrChanged(slots[i])
    requires forall i :: 0 <= i < |slots| ==> left[i] == OrEmpty(slots[i].before) && right[i] == OrEmpty(slots[i].after)
    requires Seqs.Selects(Present(Befores(slots)), l) && Seqs.Selects(Present(Afters(slots)), r)
    ensures forall k :: 0 <= k < |l| ==>
              l[k] < |left| && (left[l[k]].flag == FlagDefault ==> Seqs.Listed(r, l[k]) && right[l[k]] == left[l[k]])
    ensures forall k :: 0 <= k < |r| ==>
              r[k] < |right| && (right[r[k]].flag == FlagDefault ==> Seqs.Listed(l, r[k]) && left[r[k]] == right[r[k]])
  {
    forall k | 0 <= k < |l|
      ensures l[k] < |left| && (left[l[k]].flag == FlagDefault ==> Seqs.Listed(r, l[k]) && right[l[k]] == left[l[k]])
    {
      assert Present(Befores(slots))(l[k]) && PlainOrChanged(slots[l[k]]);
      assert left[l[k]].flag == FlagDefault ==> Present(Afters(slots))(l[k]);
    }
    forall k | 0 <= k < |r|
      ensures r[k] < |right| && (right[r[k]].flag == FlagDefault ==> Seqs.Listed(l, r[k]) && left[r[k]] == right[r[k]])
    {
      assert Present(Afters(slots))(r[k]) && PlainOrChanged(slots[r[k]]);
      assert right[r[k]].flag == FlagDefault ==> Present(Befores(slots))(r[k]);
    }
  }

  lemma {:induction false} EqualSlotsCount(script: seq<Op>, before: seq<Line>, after: seq<Line>)
    ensures |EqualSlots(LineOps(script, before, after))| == Equals(script)
  {
    if script != [] {
      EqualSlotsCount(script[1..], before, after);
      assert LineOps(script, before, after)[1..] == LineOps(script[1..], before, after);
    }
  }

  lemma {:induction false} CountSide(ops: seq<LineOp>, kind: OpKind)
    ensures |Side(ops, kind)| + Count(ops, 0, |ops|, kind) == |ops|
  {
    if ops != [] {
      var n := |ops| - 1;
      CountSide(ops[..n], kind);
      CountPrefix(ops, 0, kind);
    }
  }

  lemma {:induction false} CountPrefix(ops: seq<LineOp>, start: nat, kind: OpKind)
    requires start < |ops|
    ensures Count(ops, start, |ops|, kind) ==
            Count(ops[..|ops| - 1], start, |ops| - 1, kind) + if ops[|ops| - 1].kind == kind then 1 else 0
    decreases |ops| - start
  {
    if start < |ops| - 1 {
      CountPrefix(ops, start + 1, kind);
    } else {
      assert Count(ops, start + 1, |ops|, kind) == 0;
    }
  }

  /** With an optimal script the numbers of added and removed lines are as small as they can be. */
  lemma {:induction false} DiffStats(script: seq<Op>, before: seq<Line>, after: seq<Line>, ops: seq<LineOp>)
    requires Optimal(script, Contents(before), Contents(after), 0, 0) && ops == LineOps(script, before, after)
    ensures var kept := Lcs.Length(Contents(before), Contents(after));
            && Count(ops, 0, |ops|, OpInsert) == |after| - kept
            && Count(ops, 0, |ops|, OpDelete) == |before| - kept
  {
    CountSide(ops, OpInsert);
    CountSide(ops, OpDelete);
    DiffSides(script, before, after);
    assert |Contents(before)| == |before| && |Contents(after)| == |after|;
    assert |Side(ops, OpInsert)| == |Contents(Side(ops, OpInsert))|;
    KeepsAtMostLcs(script, Contents(before), Contents(after), 0, 0);
  }

  /** The script that a differ uses is optimal and in normal form, so all this holds of its result. */
  lemma {:induction false} DiffOpsCanonical(before: seq<Line>, after: seq<Line>, ops: seq<LineOp>)
    returns (script: seq<Op>)
    requires ops == DiffOps(before, after)
    ensures Canonical(script, Contents(before), Contents(after), 0, 0) && ops == LineOps(script, before, after)
  {
    script := EditScript.Diff(Contents(before), Contents(after));
    DiffCanonical(Contents(before), Contents(after));
  }
}
