/** Aligning the two sides of a diff row by row. */
module Alignment {
  import opened Ints
  import opened Tokens
  import opened Lines
  import opened EditScript
  import opened DiffResult
  import Seqs

  /** An empty line on either side is a placeholder. */
  datatype Row = Row(before: Line, after: Line)

  /** What a row stands for: on either side a line of the diff, or none. A line without
      tokens looks like a placeholder but is not one. */
  datatype Slot = Slot(before: Option<Line>, after: Option<Line>) {
    function Drawn(): Row {
      Row(OrEmpty(before), OrEmpty(after))
    }
  }

  function OrEmpty(line: Option<Line>): Line {
    match line
    case Some(l) => l
    case None => EmptyLine
  }

  function Draw(slots: seq<Slot>): seq<Row> {
    seq(|slots|, i requires 0 <= i < |slots| => slots[i].Drawn())
  }

  function EqualSlot(op: LineOp): Slot {
    Slot(Some(op.line.(flag := FlagDefault)), Some(op.line.(flag := FlagDefault)))
  }

  /** How many operations of one kind follow each other from start on. */
  function RunLength(ops: seq<LineOp>, start: nat, kind: OpKind): (n: nat)
    requires start <= |ops|
    ensures start + n <= |ops|
    decreases |ops| - start
  {
    if start < |ops| && ops[start].kind == kind then RunLength(ops, start + 1, kind) + 1 else 0
  }

  lemma {:induction false} RunHasKind(ops: seq<LineOp>, start: nat, kind: OpKind)
    requires start <= |ops|
    ensures var end := start + RunLength(ops, start, kind);
            && (forall k :: start <= k < end ==> ops[k].kind == kind)
            && (end < |ops| ==> ops[end].kind != kind)
    decreases |ops| - start
  {
    if start < |ops| && ops[start].kind == kind {
      RunHasKind(ops, start + 1, kind);
    }
  }

  method CollectConsecutive(ops: seq<LineOp>, start: nat, kind: OpKind) returns (result: seq<LineOp>)
    requires start <= |ops|
    ensures result == ops[start..start + RunLength(ops, start, kind)]
  {
    result := [];
    var i := start;
    while i < |ops| && ops[i].kind == kind
      invariant start <= i <= |ops| && result == ops[start..i]
      invariant RunLength(ops, start, kind) == i - start + RunLength(ops, i, kind)
    {
      result := result + [ops[i]];
      i := i + 1;
    }
  }

  function PairSlot(deletes: seq<LineOp>, inserts: seq<LineOp>, j: nat): Slot {
    Slot(if j < |deletes| then Some(deletes[j].line.(flag := FlagDeleted)) else None,
         if j < |inserts| then Some(inserts[j].line.(flag := FlagInserted)) else None)
  }

  function PairSlots(deletes: seq<LineOp>, inserts: seq<LineOp>): seq<Slot> {
    seq(Max(|deletes|, |inserts|), j requires 0 <= j => PairSlot(deletes, inserts, j))
  }

  /** How many operations the next rows show, and those rows: one for an unchanged or a
      lone inserted line; deletions are paired with the insertions right after them. */
  function NextGroup(ops: seq<LineOp>, start: nat): (r: (nat, seq<Slot>))
    requires start < |ops|
    ensures 0 < r.0 && start + r.0 <= |ops|
  {
    match ops[start].kind
    case OpEqual => (1, [EqualSlot(ops[start])])
    case OpDelete =>
      var d := RunLength(ops, start, OpDelete);
      var i := RunLength(ops, start + d, OpInsert);
      (d + i, PairSlots(ops[start..start + d], ops[start + d..start + d + i]))
    case OpInsert => (1, PairSlots([], [ops[start]]))
  }

  function Slots(ops: seq<LineOp>, start: nat): seq<Slot>
    requires start <= |ops|
    decreases |ops| - start
  {
    if start == |ops| then [] else NextGroup(ops, start).1 + Slots(ops, start + NextGroup(ops, start).0)
  }

  function Rows(ops: seq<LineOp>): seq<Row> {
    Draw(Slots(ops, 0))
  }

  method ComputeRows(ops: seq<LineOp>) returns (rows: seq<Row>)
    ensures rows == Rows(ops)
  {
    rows := [];
    var i := 0;
    ghost var done := [];
    assert done + Slots(ops, 0) == Slots(ops, 0);
    while i < |ops|
      invariant 0 <= i <= |ops| && rows == Draw(done) && Slots(ops, 0) == done + Slots(ops, i)
    {
      var n, group := NextRows(ops, i);
      ghost var slots := NextGroup(ops, i).1;
      Seqs.ConcatAssociative(done, slots, Slots(ops, i + n));
      DrawAppend(done, slots);
      rows := rows + group;
      done := done + slots;
      i := i + n;
    }
    assert done + [] == done;
  }

  lemma {:induction false} DrawAppend(a: seq<Slot>, b: seq<Slot>)
    ensures Draw(a + b) == Draw(a) + Draw(b)
  {
  }

  method NextRows(ops: seq<LineOp>, i: nat) returns (n: nat, group: seq<Row>)
    requires i < |ops|
    ensures n == NextGroup(ops, i).0 && group == Draw(NextGroup(ops, i).1)
  {
    var op := ops[i];
    match op.kind {
      case OpEqual =>
        var ln := op.line.(flag := FlagDefault);
        return 1, [Row(ln, ln)];
      case OpDelete =>
        var deletes := CollectConsecutive(ops, i, OpDelete);
        var k := i + |deletes|;
        var inserts: seq<LineOp> := [];
        if k < |ops| && ops[k].kind == OpInsert {
          inserts := CollectConsecutive(ops, k, OpInsert);
        }
        group := Pair(deletes, inserts);
        n := |deletes| + |inserts|;
      case OpInsert =>
        var ln := op.line.(flag := FlagInserted);
        assert PairSlots([], [op]) == [Slot(None, Some(ln))];
        return 1, [Row(EmptyLine, ln)];
    }
  }

  method Pair(deletes: seq<LineOp>, inserts: seq<LineOp>) returns (rows: seq<Row>)
    ensures rows == Draw(PairSlots(deletes, inserts))
  {
    rows := [];
    var maxPairs := Max(|deletes|, |inserts|);
    for j := 0 to maxPairs
      invariant rows == Draw(PairSlots(deletes, inserts)[..j])
    {
      var beforeLine, afterLine := EmptyLine, EmptyLine;
      if j < |deletes| {
        beforeLine := deletes[j].line.(flag := FlagDeleted);
      }
      if j < |inserts| {
        afterLine := inserts[j].line.(flag := FlagInserted);
      }
      rows := rows + [Row(beforeLine, afterLine)];
    }
    assert PairSlots(deletes, inserts)[..maxPairs] == PairSlots(deletes, inserts);
  }

  function LeftLines(rows: seq<Row>): seq<Line> {
    seq(|rows|, i requires 0 <= i < |rows| => rows[i].before)
  }

  function RightLines(rows: seq<Row>): seq<Line> {
    seq(|rows|, i requires 0 <= i < |rows| => rows[i].after)
  }

  // ----- dropping the placeholders gives back the two sides -----

  function Befores(slots: seq<Slot>): seq<Option<Line>> {
    seq(|slots|, i requires 0 <= i < |slots| => slots[i].before)
  }

  function Afters(slots: seq<Slot>): seq<Option<Line>> {
    seq(|slots|, i requires 0 <= i < |slots| => slots[i].after)
  }

  /** The lines that are there. */
  function Somes(lines: seq<Option<Line>>): seq<Line> {
    if lines == [] then [] else (if lines[0].Some? then [lines[0].value] else []) + Somes(lines[1..])
  }

  lemma {:induction false} SomesAppend(a: seq<Option<Line>>, b: seq<Option<Line>>)
    ensures Somes(a + b) == Somes(a) + Somes(b)
  {
    if a == [] {
      assert a + b == b;
    } else {
      SomesAppend(a[1..], b);
      assert (a + b)[1..] == a[1..] + b;
      Seqs.ConcatAssociative(if a[0].Some? then [a[0].value] else [], Somes(a[1..]), Somes(b));
    }
  }

  /** One side of the diff, every line flagged by its operation. */
  function FlaggedSide(ops: seq<LineOp>, skip: OpKind): seq<Line> {
    if ops == [] then []
    else (if ops[0].kind == skip then [] else [ops[0].line.(flag := FlagOf(ops[0].kind))]) + FlaggedSide(ops[1..], skip)
  }

  lemma {:induction false} FlaggedSideAppend(a: seq<LineOp>, b: seq<LineOp>, skip: OpKind)
    ensures FlaggedSide(a + b, skip) == FlaggedSide(a, skip) + FlaggedSide(b, skip)
  {
    if a == [] {
      assert a + b == b;
    } else {
      FlaggedSideAppend(a[1..], b, skip);
      assert (a + b)[1..] == a[1..] + b;
      Seqs.ConcatAssociative(if a[0].kind == skip then [] else [a[0].line.(flag := FlagOf(a[0].kind))],
                             FlaggedSide(a[1..], skip), FlaggedSide(b, skip));
    }
  }

  function FlagAll(ops: seq<LineOp>, flag: Flag): seq<Line> {
    seq(|ops|, i requires 0 <= i < |ops| => ops[i].line.(flag := flag))
  }

  lemma {:induction false} FlaggedSideOfRun(ops: seq<LineOp>, kind: OpKind, skip: OpKind)
    requires forall i :: 0 <= i < |ops| ==> ops[i].kind == kind
    ensures FlaggedSide(ops, skip) == if kind == skip then [] else FlagAll(ops, FlagOf(kind))
  {
    if ops != [] {
      FlaggedSideOfRun(ops[1..], kind, skip);
    }
  }

  lemma {:induction false} PaddedSomes(ops: seq<LineOp>, flag: Flag, lines: seq<Option<Line>>)
    requires |lines| >= |ops|
    requires forall j :: 0 <= j < |lines| ==> lines[j] == if j < |ops| then Some(ops[j].line.(flag := flag)) else None
    ensures Somes(lines) == FlagAll(ops, flag)
  {
    if ops != [] {
      PaddedSomes(ops[1..], flag, lines[1..]);
      assert FlagAll(ops, flag) == [ops[0].line.(flag := flag)] + FlagAll(ops[1..], flag);
    } else if lines != [] {
      PaddedSomes(ops, flag, lines[1..]);
    }
  }

  /** Rows that show exactly the given operations. */
  ghost predicate Shows(slots: seq<Slot>, ops: seq<LineOp>) {
    && Somes(Befores(slots)) == FlaggedSide(ops, OpInsert)
    && Somes(Afters(slots)) == FlaggedSide(ops, OpDelete)
  }

  lemma {:induction false} ShowsAppend(a: seq<Slot>, b: seq<Slot>, ops1: seq<LineOp>, ops2: seq<LineOp>)
    requires Shows(a, ops1) && Shows(b, ops2)
    ensures Shows(a + b, ops1 + ops2)
  {
    assert Befores(a + b) == Befores(a) + Befores(b);
    assert Afters(a + b) == Afters(a) + Afters(b);
    SomesAppend(Befores(a), Befores(b));
    SomesAppend(Afters(a), Afters(b));
    FlaggedSideAppend(ops1, ops2, OpInsert);
    FlaggedSideAppend(ops1, ops2, OpDelete);
  }

  lemma {:induction false} PairSlotsShow(deletes: seq<LineOp>, inserts: seq<LineOp>)
    requires forall i :: 0 <= i < |deletes| ==> deletes[i].kind == OpDelete
    requires forall i :: 0 <= i < |inserts| ==> inserts[i].kind == OpInsert
    ensures Shows(PairSlots(deletes, inserts), deletes + inserts)
  {
    var slots := PairSlots(deletes, inserts);
    PaddedSomes(deletes, FlagDeleted, Befores(slots));
    PaddedSomes(inserts, FlagInserted, Afters(slots));
    FlaggedSideAppend(deletes, inserts, OpInsert);
    FlaggedSideAppend(deletes, inserts, OpDelete);
    FlaggedSideOfRun(deletes, OpDelete, OpInsert);
    FlaggedSideOfRun(deletes, OpDelete, OpDelete);
    FlaggedSideOfRun(inserts, OpInsert, OpInsert);
    FlaggedSideOfRun(inserts, OpInsert, OpDelete);
  }

  lemma {:induction false} EqualSlotShows(op: LineOp)
    requires op.kind == OpEqual
    ensures Shows([EqualSlot(op)], [op])
  {
    PaddedSomes([op], FlagDefault, Befores([EqualSlot(op)]));
    PaddedSomes([op], FlagDefault, Afters([EqualSlot(op)]));
    FlaggedSideOfRun([op], OpEqual, OpInsert);
    FlaggedSideOfRun([op], OpEqual, OpDelete);
  }

  lemma {:induction false} BlockShows(ops: seq<LineOp>, start: nat, d: nat, i: nat)
    requires start < |ops| && d == RunLength(ops, start, OpDelete) && i == RunLength(ops, start + d, OpInsert)
    ensures Shows(PairSlots(ops[start..start + d], ops[start + d..start + d + i]), ops[start..start + d + i])
  {
    RunHasKind(ops, start, OpDelete);
    RunHasKind(ops, start + d, OpInsert);
    assert ops[start..start + d] + ops[start + d..start + d + i] == ops[start..start + d + i];
    PairSlotsShow(ops[start..start + d], ops[start + d..start + d + i]);
  }

  lemma {:induction false} NextGroupShows(ops: seq<LineOp>, start: nat)
    requires start < |ops|
    ensures Shows(NextGroup(ops, start).1, ops[start..start + NextGroup(ops, start).0])
  {
    match ops[start].kind
    case OpEqual =>
      assert ops[start..start + 1] == [ops[start]];
      EqualSlotShows(ops[start]);
    case OpDelete =>
      var d := RunLength(ops, start, OpDelete);
      BlockShows(ops, start, d, RunLength(ops, start + d, OpInsert));
    case OpInsert =>
      assert [] + [ops[start]] == ops[start..start + 1];
      PairSlotsShow([], [ops[start]]);
  }

  /** Without its placeholders each column is one side of the diff, in order. */
  lemma {:induction false} RowsShowBothSides(ops: seq<LineOp>, start: nat)
    requires start <= |ops|
    ensures Shows(Slots(ops, start), ops[start..])
    decreases |ops| - start
  {
    if start < |ops| {
      var next := start + NextGroup(ops, start).0;
      assert ops[start..next] + ops[next..] == ops[start..];
      NextGroupShows(ops, start);
      RowsShowBothSides(ops, next);
      ShowsAppend(NextGroup(ops, start).1, Slots(ops, next), ops[start..next], ops[next..]);
    }
  }

  lemma {:induction false} FlaggedSideContents(ops: seq<LineOp>, skip: OpKind)
    ensures Contents(FlaggedSide(ops, skip)) == Contents(Side(ops, skip))
  {
    if ops != [] {
      var first, rest := ops[0], ops[1..];
      FlaggedSideContents(rest, skip);
      assert ops == [first] + rest;
      SideCons(first, rest, skip);
      if first.kind == skip {
        assert FlaggedSide(ops, skip) == FlaggedSide(rest, skip) && Side(ops, skip) == Side(rest, skip);
      } else {
        ContentsCons(first.line, Side(rest, skip));
        ContentsCons(first.line.(flag := FlagOf(first.kind)), FlaggedSide(rest, skip));
      }
    }
  }

  // ----- the columns as lists of lines -----

  ghost function Present(lines: seq<Option<Line>>): nat -> bool {
    (i: nat) => i < |lines| && lines[i].Some?
  }

  /** The i-th line is the k-th that is there. */
  ghost predicate IsSomeAt(lines: seq<Option<Line>>, i: nat, somes: seq<Line>, k: nat) {
    i < |lines| && k < |somes| && lines[i] == Some(somes[k])
  }

  lemma {:induction false} SomesSelects(lines: seq<Option<Line>>) returns (idx: seq<nat>)
    ensures Seqs.Selects(Present(lines), idx) && |idx| == |Somes(lines)|
    ensures forall k :: 0 <= k < |idx| ==> IsSomeAt(lines, idx[k], Somes(lines), k)
  {
    idx := [];
    if lines != [] {
      var n := |lines| - 1;
      var init := SomesSelects(lines[..n]);
      idx := if lines[n].Some? then init + [n] else init;
      PresentNext(lines, init, idx);
      SomesLast(lines);
      PicksNext(lines, init, Somes(lines[..n]), idx, Somes(lines));
    }
  }

  lemma {:induction false} PresentNext(lines: seq<Option<Line>>, idx: seq<nat>, next: seq<nat>)
    requires lines != [] && Seqs.Selects(Present(lines[..|lines| - 1]), idx)
    requires next == if lines[|lines| - 1].Some? then idx + [|lines| - 1] else idx
    ensures Seqs.Selects(Present(lines), next)
  {
    Seqs.SelectsNext(Present(lines[..|lines| - 1]), |lines| - 1, idx, Present(lines), next);
  }

  lemma {:induction false} PicksNext(lines: seq<Option<Line>>, idx: seq<nat>, somes: seq<Line>, nextIdx: seq<nat>,
                                     nextSomes: seq<Line>)
    requires lines != [] && |idx| == |somes|
    requires forall k :: 0 <= k < |idx| ==> IsSomeAt(lines[..|lines| - 1], idx[k], somes, k)
    requires var n := |lines| - 1;
             if lines[n].Some? then nextIdx == idx + [n] && nextSomes == somes + [lines[n].value]
             else nextIdx == idx && nextSomes == somes
    ensures forall k :: 0 <= k < |nextIdx| ==> IsSomeAt(lines, nextIdx[k], nextSomes, k)
  {
    forall k | 0 <= k < |nextIdx| ensures IsSomeAt(lines, nextIdx[k], nextSomes, k) {
      assert k < |idx| ==> IsSomeAt(lines[..|lines| - 1], idx[k], somes, k);
    }
  }

  lemma {:induction false} SomesLast(lines: seq<Option<Line>>)
    requires lines != []
    ensures var n := |lines| - 1;
            Somes(lines) == Somes(lines[..n]) + if lines[n].Some? then [lines[n].value] else []
  {
    var n := |lines| - 1;
    SomesAppend(lines[..n], [lines[n]]);
    assert lines == lines[..n] + [lines[n]] && [lines[n]][1..] == [];
  }

  function Flagged(ops: seq<LineOp>, skip: OpKind): seq<Option<Line>> {
    seq(|ops|, i requires 0 <= i < |ops| =>
      if ops[i].kind == skip then None else Some(ops[i].line.(flag := FlagOf(ops[i].kind))))
  }

  lemma {:induction false} FlaggedSideIsSomes(ops: seq<LineOp>, skip: OpKind)
    ensures FlaggedSide(ops, skip) == Somes(Flagged(ops, skip))
  {
    if ops != [] {
      FlaggedSideIsSomes(ops[1..], skip);
      assert Flagged(ops, skip)[1..] == Flagged(ops[1..], skip);
    }
  }

  /** A side's lines, with the flags of their operations. */
  lemma {:induction false} FlaggedSideSelects(ops: seq<LineOp>, skip: OpKind) returns (idx: seq<nat>)
    ensures Seqs.Selects(OnSide(ops, skip), idx) && |idx| == |FlaggedSide(ops, skip)|
    ensures forall k :: 0 <= k < |idx| ==> idx[k] < |ops| && FlaggedSide(ops, skip)[k] == FlaggedLine(ops[idx[k]])
  {
    var lines := Flagged(ops, skip);
    FlaggedSideIsSomes(ops, skip);
    idx := SomesSelects(lines);
    Seqs.SelectsSame(Present(lines), OnSide(ops, skip), idx);
    assert forall k :: 0 <= k < |idx| ==> IsSomeAt(lines, idx[k], Somes(lines), k);
  }

  /** An operation's line, flagged as what happened to it. */
  ghost function FlaggedLine(op: LineOp): (line: Line)
    ensures op.kind == OpEqual ==> line == op.line.(flag := FlagDefault)
    ensures op.kind == OpDelete ==> line == op.line.(flag := FlagDeleted)
    ensures op.kind == OpInsert ==> line == op.line.(flag := FlagInserted)
  {
    op.line.(flag := FlagOf(op.kind))
  }

  /** A column holds these lines at these places, flagged as changed or not at all, and
      placeholders everywhere else. */
  ghost predicate Holds(column: seq<Line>, lines: seq<Line>, at: seq<nat>, changed: Flag) {
    && Seqs.Ascends(at) && |at| == |lines|
    && (forall k :: 0 <= k < |at| ==>
          && at[k] < |column| && column[at[k]].Content() == lines[k].Content()
          && (column[at[k]].flag == FlagDefault || column[at[k]].flag == changed))
    && (forall i: nat :: i < |column| && !Seqs.Listed(at, i) ==> column[i] == EmptyLine)
  }

  /** The places where a column has a line of this side, and which operation it shows. */
  lemma {:induction false} ColumnShowsSide(column: seq<Line>, slots: seq<Option<Line>>, ops: seq<LineOp>, skip: OpKind)
    returns (at: seq<nat>, idx: seq<nat>)
    requires |column| == |slots| && Somes(slots) == FlaggedSide(ops, skip)
    requires forall i :: 0 <= i < |slots| ==> column[i] == OrEmpty(slots[i])
    ensures Seqs.Selects(Present(slots), at) && Seqs.Selects(OnSide(ops, skip), idx) && |at| == |idx|
    ensures forall k :: 0 <= k < |at| ==>
              at[k] < |column| && idx[k] < |ops| && column[at[k]] == FlaggedLine(ops[idx[k]])
    ensures forall i: nat :: i < |column| && !Seqs.Listed(at, i) ==> column[i] == EmptyLine
  {
    at := SomesSelects(slots);
    idx := FlaggedSideSelects(ops, skip);
    forall k | 0 <= k < |at|
      ensures at[k] < |column| && idx[k] < |ops| && column[at[k]] == FlaggedLine(ops[idx[k]])
    {
      assert IsSomeAt(slots, at[k], Somes(slots), k);
    }
    forall i: nat | i < |column| && !Seqs.Listed(at, i) ensures column[i] == EmptyLine {
      assert !Present(slots)(i);
    }
  }

  /** A row shows one unchanged line on both sides, or on either side a change or nothing. */
  ghost predicate PlainOrChanged(slot: Slot) {
    || (slot.before.Some? && slot.before == slot.after && slot.before.value.flag == FlagDefault)
    || (&& (slot.before.Some? || slot.after.Some?)
        && (slot.before.Some? ==> slot.before.value.flag == FlagDeleted)
        && (slot.after.Some? ==> slot.after.value.flag == FlagInserted))
  }

  lemma {:induction false} EveryRow(ops: seq<LineOp>, start: nat)
    requires start <= |ops|
    ensures forall i :: 0 <= i < |Slots(ops, start)| ==> PlainOrChanged(Slots(ops, start)[i])
    decreases |ops| - start
  {
    if start < |ops| {
      EveryRow(ops, start + NextGroup(ops, start).0);
      EveryRowOfGroup(ops, start);
    }
  }

  lemma {:induction false} EveryRowOfGroup(ops: seq<LineOp>, start: nat)
    requires start < |ops|
    ensures forall i :: 0 <= i < |NextGroup(ops, start).1| ==> PlainOrChanged(NextGroup(ops, start).1[i])
  {
  }

  // ----- which row an operation is in -----

  /** Unchanged lines have a row of their own, and so have insertions that follow no deletion. */
  lemma {:induction false} LoneRow(ops: seq<LineOp>, start: nat)
    requires start < |ops| && ops[start].kind != OpDelete
    ensures var line := ops[start].line;
            Slots(ops, start) ==
            [if ops[start].kind == OpEqual
             then Slot(Some(line.(flag := FlagDefault)), Some(line.(flag := FlagDefault)))
             else Slot(None, Some(line.(flag := FlagInserted)))] + Slots(ops, start + 1)
  {
    if ops[start].kind == OpInsert {
      assert PairSlots([], [ops[start]]) == [Slot(None, Some(ops[start].line.(flag := FlagInserted)))];
    }
  }

  /** Deletions up to mid and then insertions up to end, as far as they go. */
  ghost predicate IsChange(ops: seq<LineOp>, start: nat, mid: nat, end: nat) {
    && start < mid <= end <= |ops|
    && (forall i :: start <= i < mid ==> ops[i].kind == OpDelete)
    && (forall i :: mid <= i < end ==> ops[i].kind == OpInsert)
    && (end < |ops| ==> ops[end].kind != OpInsert && (mid == end ==> ops[end].kind != OpDelete))
  }

  lemma {:induction false} RunLengthIs(ops: seq<LineOp>, start: nat, end: nat, kind: OpKind)
    requires start <= end <= |ops| && forall i :: start <= i < end ==> ops[i].kind == kind
    requires end < |ops| ==> ops[end].kind != kind
    ensures RunLength(ops, start, kind) == end - start
    decreases end - start
  {
    if start < end {
      RunLengthIs(ops, start + 1, end, kind);
    }
  }

  lemma {:induction false} NextRowsAre(ops: seq<LineOp>, start: nat, mid: nat, end: nat)
    requires start < mid <= end <= |ops| && ops[start].kind == OpDelete
    requires RunLength(ops, start, OpDelete) == mid - start && RunLength(ops, mid, OpInsert) == end - mid
    ensures Slots(ops, start) == PairSlots(ops[start..mid], ops[mid..end]) + Slots(ops, end)
  {
    var group := NextGroup(ops, start);
    assert group.0 == end - start;
    assert group.1 == PairSlots(ops[start..mid], ops[mid..end]);
  }

  lemma {:induction false} PairedAt(ops: seq<LineOp>, start: nat, mid: nat, end: nat)
    requires start <= mid <= end <= |ops|
    ensures var rows := PairSlots(ops[start..mid], ops[mid..end]);
            && |rows| == Max(mid - start, end - mid)
            && forall j :: 0 <= j < |rows| ==>
                 && (if start + j < mid then rows[j].before == Some(ops[start + j].line.(flag := FlagDeleted))
                     else rows[j].before == None)
                 && (if mid + j < end then rows[j].after == Some(ops[mid + j].line.(flag := FlagInserted))
                     else rows[j].after == None)
  {
    var deletes, inserts := ops[start..mid], ops[mid..end];
    assert forall j :: 0 <= j < |deletes| ==> deletes[j] == ops[start + j];
    assert forall j :: 0 <= j < |inserts| ==> inserts[j] == ops[mid + j];
  }

  /** In a change the j-th deletion and the j-th insertion share the j-th row. */
  lemma {:induction false} ChangeRows(ops: seq<LineOp>, start: nat, mid: nat, end: nat) returns (rows: seq<Slot>)
    requires IsChange(ops, start, mid, end)
    ensures Slots(ops, start) == rows + Slots(ops, end) && |rows| == Max(mid - start, end - mid)
    ensures forall j :: 0 <= j < |rows| ==>
              && (if start + j < mid then rows[j].before == Some(ops[start + j].line.(flag := FlagDeleted))
                  else rows[j].before == None)
              && (if mid + j < end then rows[j].after == Some(ops[mid + j].line.(flag := FlagInserted))
                  else rows[j].after == None)
  {
    RunLengthIs(ops, start, mid, OpDelete);
    RunLengthIs(ops, mid, end, OpInsert);
    rows := PairSlots(ops[start..mid], ops[mid..end]);
    NextRowsAre(ops, start, mid, end);
    PairedAt(ops, start, mid, end);
  }

  // ----- which rows are unchanged -----

  /** A line on both sides, flagged on neither. */
  predicate Unchanged(slot: Slot) {
    && slot.before.Some? && slot.after.Some?
    && slot.before.value.flag == FlagDefault && slot.after.value.flag == FlagDefault
  }

  function UnchangedSlots(slots: seq<Slot>): seq<Slot> {
    Seqs.Filter(Unchanged, slots)
  }

  function EqualSlots(ops: seq<LineOp>): seq<Slot> {
    if ops == [] then [] else (if ops[0].kind == OpEqual then [EqualSlot(ops[0])] else []) + EqualSlots(ops[1..])
  }

  lemma {:induction false} NoneEqual(ops: seq<LineOp>, start: nat, end: nat)
    requires start <= end <= |ops| && forall i :: start <= i < end ==> ops[i].kind != OpEqual
    ensures EqualSlots(ops[start..]) == EqualSlots(ops[end..])
    decreases end - start
  {
    if start < end {
      NoneEqual(ops, start + 1, end);
      assert ops[start..][1..] == ops[start + 1..];
    }
  }

  lemma {:induction false} PairsChanged(deletes: seq<LineOp>, inserts: seq<LineOp>)
    ensures UnchangedSlots(PairSlots(deletes, inserts)) == []
  {
    Seqs.FilterNone(Unchanged, PairSlots(deletes, inserts));
  }

  lemma {:induction false} NextGroupUnchanged(ops: seq<LineOp>, start: nat)
    requires start < |ops|
    ensures UnchangedSlots(NextGroup(ops, start).1) + EqualSlots(ops[start + NextGroup(ops, start).0..]) ==
            EqualSlots(ops[start..])
  {
    var n, group := NextGroup(ops, start).0, NextGroup(ops, start).1;
    match ops[start].kind
    case OpEqual =>
      Seqs.FilterAll(Unchanged, group);
      assert ops[start..][1..] == ops[start + 1..];
    case OpDelete =>
      var d := RunLength(ops, start, OpDelete);
      PairsChanged(ops[start..start + d], ops[start + d..start + n]);
      BlockHasNoEqual(ops, start);
    case OpInsert =>
      PairsChanged([], [ops[start]]);
      NoneEqual(ops, start, start + 1);
  }

  lemma {:induction false} BlockHasNoEqual(ops: seq<LineOp>, start: nat)
    requires start < |ops|
    ensures var mid := start + RunLength(ops, start, OpDelete);
            EqualSlots(ops[start..]) == EqualSlots(ops[mid + RunLength(ops, mid, OpInsert)..])
  {
    var mid := start + RunLength(ops, start, OpDelete);
    RunHasKind(ops, start, OpDelete);
    RunHasKind(ops, mid, OpInsert);
    NoneEqual(ops, start, mid);
    NoneEqual(ops, mid, mid + RunLength(ops, mid, OpInsert));
  }

  lemma {:induction false} UnchangedAppend(a: seq<Slot>, b: seq<Slot>)
    ensures UnchangedSlots(a + b) == UnchangedSlots(a) + UnchangedSlots(b)
  {
    Seqs.FilterAppend(Unchanged, a, b);
  }

  /** The rows that have an unflagged line on both sides are those of the unchanged
      lines, in order. */
  lemma {:induction false} UnchangedRowsAreEqual(ops: seq<LineOp>, start: nat)
    requires start <= |ops|
    ensures UnchangedSlots(Slots(ops, start)) == EqualSlots(ops[start..])
    decreases |ops| - start
  {
    if start < |ops| {
      var next, group := start + NextGroup(ops, start).0, NextGroup(ops, start).1;
      var rest := Slots(ops, next);
      assert Slots(ops, start) == group + rest;
      UnchangedRowsAreEqual(ops, next);
      UnchangedAppend(group, rest);
      NextGroupUnchanged(ops, start);
    }
  }

  // ----- how many rows there are -----

  /** Where the run of changes from start on ends. */
  function ChangesEnd(ops: seq<LineOp>, start: nat): (end: nat)
    requires start <= |ops|
    ensures start <= end <= |ops| && (start < |ops| && ops[start].kind != OpEqual ==> start < end)
    decreases |ops| - start
  {
    if start < |ops| && ops[start].kind != OpEqual then ChangesEnd(ops, start + 1) else start
  }

  function Count(ops: seq<LineOp>, start: nat, end: nat, kind: OpKind): nat
    requires start <= end <= |ops|
    decreases end - start
  {
    if start == end then 0 else (if ops[start].kind == kind then 1 else 0) + Count(ops, start + 1, end, kind)
  }

  /** One row per unchanged line, and per block of changes as many as the larger of its
      numbers of deletions and insertions. */
  function BlockRows(ops: seq<LineOp>, start: nat): nat
    requires start <= |ops|
    decreases |ops| - start
  {
    if start == |ops| then 0
    else if ops[start].kind == OpEqual then 1 + BlockRows(ops, start + 1)
    else
      var end := ChangesEnd(ops, start);
      Max(Count(ops, start, end, OpDelete), Count(ops, start, end, OpInsert)) + BlockRows(ops, end)
  }

  lemma {:induction false} CountRun(ops: seq<LineOp>, start: nat, mid: nat, end: nat, kind: OpKind, other: OpKind)
    requires start <= mid <= end <= |ops| && forall i :: start <= i < mid ==> ops[i].kind == kind
    ensures Count(ops, start, end, other) == (if other == kind then mid - start else 0) + Count(ops, mid, end, other)
    decreases mid - start
  {
    if start < mid {
      CountRun(ops, start + 1, mid, end, kind, other);
    }
  }

  lemma {:induction false} ChangesEndIs(ops: seq<LineOp>, start: nat, end: nat)
    requires start <= end <= |ops| && (forall i :: start <= i < end ==> ops[i].kind != OpEqual)
    requires end < |ops| ==> ops[end].kind == OpEqual
    ensures ChangesEnd(ops, start) == end
    decreases end - start
  {
    if start < end {
      ChangesEndIs(ops, start + 1, end);
    }
  }

  /** Deletions up to mid, then insertions up to end, then an unchanged line or the end. */
  ghost predicate IsBlock(ops: seq<LineOp>, start: nat, mid: nat, end: nat) {
    && start <= mid <= end <= |ops| && start < end
    && (forall k :: start <= k < mid ==> ops[k].kind == OpDelete)
    && (forall k :: mid <= k < end ==> ops[k].kind == OpInsert)
    && (end < |ops| ==> ops[end].kind == OpEqual)
  }

  lemma {:induction false} NormalFormBlock(ops: seq<LineOp>, start: nat, mid: nat, end: nat)
    requires start < |ops| && ops[start].kind != OpEqual && DeletesFirst(Kinds(ops))
    requires mid == start + RunLength(ops, start, OpDelete) && end == mid + RunLength(ops, mid, OpInsert)
    ensures IsBlock(ops, start, mid, end)
  {
    RunHasKind(ops, start, OpDelete);
    RunHasKind(ops, mid, OpInsert);
    if end < |ops| && mid < end {
      assert Kinds(ops)[end - 1] == OpInsert && Kinds(ops)[end - 1 + 1] == ops[end].kind;
    }
  }

  lemma {:induction false} BlockCount(ops: seq<LineOp>, start: nat, mid: nat, end: nat)
    requires IsBlock(ops, start, mid, end)
    ensures ChangesEnd(ops, start) == end
    ensures Count(ops, start, end, OpDelete) == mid - start && Count(ops, start, end, OpInsert) == end - mid
  {
    ChangesEndIs(ops, start, end);
    CountRun(ops, start, mid, end, OpDelete, OpDelete);
    CountRun(ops, start, mid, end, OpDelete, OpInsert);
    CountRun(ops, mid, end, end, OpInsert, OpDelete);
    CountRun(ops, mid, end, end, OpInsert, OpInsert);
  }

  /** Insertions that follow no deletion get a row each. */
  lemma {:induction false} LoneInserts(ops: seq<LineOp>, start: nat, end: nat)
    requires start <= end <= |ops| && forall i :: start <= i < end ==> ops[i].kind == OpInsert
    ensures |Slots(ops, start)| == end - start + |Slots(ops, end)|
    decreases end - start
  {
    if start < end {
      LoneInserts(ops, start + 1, end);
    }
  }

  /** The number of rows of a diff in normal form. */
  lemma {:induction false} RowCount(ops: seq<LineOp>, start: nat)
    requires start <= |ops| && DeletesFirst(Kinds(ops))
    ensures |Slots(ops, start)| == BlockRows(ops, start)
    decreases |ops| - start
  {
    if start < |ops| {
      if ops[start].kind == OpEqual {
        RowCount(ops, start + 1);
      } else {
        var mid := start + RunLength(ops, start, OpDelete);
        var end := mid + RunLength(ops, mid, OpInsert);
        NormalFormBlock(ops, start, mid, end);
        BlockCount(ops, start, mid, end);
        RowCount(ops, end);
        if mid == start {
          LoneInserts(ops, start, end);
        }
      }
    }
  }
}
