/** What is made of a diff: hunks, side-by-side rows, statistics. */
module DiffResult {
  import opened Position
  import opened Lines
  import opened EditScript
  import Seqs

  datatype LineOp = LineOp(kind: OpKind, line: Line)

  function Kinds(ops: seq<LineOp>): seq<OpKind> {
    seq(|ops|, i requires 0 <= i < |ops| => ops[i].kind)
  }

  function FlagOf(kind: OpKind): Flag {
    match kind
    case OpDelete => FlagDeleted
    case OpInsert => FlagInserted
    case OpEqual => FlagDefault
  }

  function Contents(lines: seq<Line>): seq<string> {
    seq(|lines|, i requires 0 <= i < |lines| => lines[i].Content())
  }

  // ----- from operations on indices to operations on lines -----

  function LineOpOf(op: Op, before: seq<Line>, after: seq<Line>): LineOp {
    var lines := if op.kind == OpDelete then before else after;
    LineOp(op.kind, if op.index < |lines| then lines[op.index] else EmptyLine)
  }

  function LineOps(ops: seq<Op>, before: seq<Line>, after: seq<Line>): seq<LineOp> {
    seq(|ops|, i requires 0 <= i < |ops| => LineOpOf(ops[i], before, after))
  }

  ghost function DiffOps(before: seq<Line>, after: seq<Line>): seq<LineOp> {
    LineOps(EditScript.Diff(Contents(before), Contents(after)), before, after)
  }

  /** The lines of one side of a diff: skip insertions for `before`, deletions for `after`. */
  function Side(ops: seq<LineOp>, skip: OpKind): seq<Line> {
    if ops == [] then []
    else Side(ops[..|ops| - 1], skip) + (if ops[|ops| - 1].kind == skip then [] else [ops[|ops| - 1].line])
  }

  lemma {:induction false} SideAppend(a: seq<LineOp>, b: seq<LineOp>, skip: OpKind)
    ensures Side(a + b, skip) == Side(a, skip) + Side(b, skip)
  {
    if b == [] {
      assert a + b == a;
    } else {
      var b', last := b[..|b| - 1], b[|b| - 1];
      SideAppend(a, b', skip);
      assert (a + b)[..|a + b| - 1] == a + b';
      Seqs.ConcatAssociative(Side(a, skip), Side(b', skip), if last.kind == skip then [] else [last.line]);
    }
  }

  lemma {:induction false} SideOne(op: LineOp, skip: OpKind)
    ensures Side([op], skip) == if op.kind == skip then [] else [op.line]
  {
    assert [op][..0] == [];
  }

  lemma {:induction false} ScriptIndicesInRange<T>(ops: seq<Op>, before: seq<T>, after: seq<T>, b: nat, a: nat, i: nat)
    requires Transforms(ops, before, after, b, a) && i < |ops|
    ensures if ops[i].kind == OpDelete then b <= ops[i].index < b + |before| else a <= ops[i].index < a + |after|
  {
    if i > 0 {
      match ops[0].kind
      case OpDelete => ScriptIndicesInRange(ops[1..], before[1..], after, b + 1, a, i - 1);
      case OpInsert => ScriptIndicesInRange(ops[1..], before, after[1..], b, a + 1, i - 1);
      case OpEqual => ScriptIndicesInRange(ops[1..], before[1..], after[1..], b + 1, a + 1, i - 1);
    }
  }

  lemma {:induction false} SideCons(first: LineOp, rest: seq<LineOp>, skip: OpKind)
    ensures Side([first] + rest, skip) == (if first.kind == skip then [] else [first.line]) + Side(rest, skip)
  {
    SideAppend([first], rest, skip);
    SideOne(first, skip);
  }

  /** Read side by side, the operations are what is left of the two inputs: of `after`
      itself, and of `before` up to lines of equal content. */
  ghost predicate SidesAre(ops: seq<LineOp>, before: seq<Line>, after: seq<Line>) {
    Side(ops, OpDelete) == after && Contents(Side(ops, OpInsert)) == Contents(before)
  }

  lemma {:induction false} ContentsCons(line: Line, lines: seq<Line>)
    ensures Contents([line] + lines) == [line.Content()] + Contents(lines)
  {
    var all := [line] + lines;
    assert forall i :: 0 < i < |all| ==> all[i] == lines[i - 1];
  }

  lemma {:induction false} SidesGrow(first: LineOp, rest: seq<LineOp>, before: seq<Line>, after: seq<Line>)
    requires first.kind != OpInsert ==> before != [] && first.line.Content() == before[0].Content()
    requires first.kind != OpDelete ==> after != [] && first.line == after[0]
    requires SidesAre(rest,
                      if first.kind == OpInsert then before else before[1..],
                      if first.kind == OpDelete then after else after[1..])
    ensures SidesAre([first] + rest, before, after)
  {
    if first.kind != OpDelete {
      assert after == [after[0]] + after[1..];
    }
    SideCons(first, rest, OpDelete);
    SideCons(first, rest, OpInsert);
    if first.kind != OpInsert {
      assert before == [before[0]] + before[1..];
      ContentsCons(before[0], before[1..]);
      ContentsCons(first.line, Side(rest, OpInsert));
    } else {
      assert [] + Side(rest, OpInsert) == Side(rest, OpInsert);
    }
  }

  lemma {:induction false} ScriptSides(ops: seq<Op>, before: seq<Line>, after: seq<Line>, b: nat, a: nat)
    requires b <= |before| && a <= |after|
    requires Transforms(ops, Contents(before[b..]), Contents(after[a..]), b, a)
    ensures SidesAre(LineOps(ops, before, after), before[b..], after[a..])
  {
    if ops != [] {
      var restBefore, restAfter := before[b..], after[a..];
      var first, rest := LineOpOf(ops[0], before, after), LineOps(ops[1..], before, after);
      var b' := if ops[0].kind == OpInsert then b else b + 1;
      var a' := if ops[0].kind == OpDelete then a else a + 1;
      assert ops[0].kind != OpInsert ==>
             before[b + 1..] == restBefore[1..] && Contents(restBefore)[1..] == Contents(restBefore[1..]);
      assert ops[0].kind != OpDelete ==>
             after[a + 1..] == restAfter[1..] && Contents(restAfter)[1..] == Contents(restAfter[1..]);
      ScriptSides(ops[1..], before, after, b', a');
      SidesGrow(first, rest, restBefore, restAfter);
      assert LineOps(ops, before, after) == [first] + rest;
    }
  }

  /** The two sides of a valid script are the two lists: the lines after as they are, the
      lines before by their content, since unchanged lines are taken from after. */
  lemma {:induction false} DiffSides(script: seq<Op>, before: seq<Line>, after: seq<Line>)
    requires Transforms(script, Contents(before), Contents(after), 0, 0)
    ensures SidesAre(LineOps(script, before, after), before, after)
  {
    assert before[0..] == before && after[0..] == after;
    ScriptSides(script, before, after, 0, 0);
  }

  // ----- which operation shows which line -----

  ghost function OnSide(ops: seq<LineOp>, skip: OpKind): nat -> bool {
    (i: nat) => i < |ops| && ops[i].kind != skip
  }

  /** The lines of a side are those of its operations, in order. */
  lemma {:induction false} SideSelects(ops: seq<LineOp>, skip: OpKind) returns (idx: seq<nat>)
    ensures Seqs.Selects(OnSide(ops, skip), idx) && |idx| == |Side(ops, skip)|
    ensures forall k :: 0 <= k < |idx| ==> ShowsSideLine(ops, skip, idx[k], k)
  {
    idx := [];
    if ops != [] {
      var n := |ops| - 1;
      var init := SideSelects(ops[..n], skip);
      idx := if OnSide(ops, skip)(n) then init + [n] else init;
      Seqs.SelectsNext(OnSide(ops[..n], skip), n, init, OnSide(ops, skip), idx);
      forall k | 0 <= k < |idx| ensures ShowsSideLine(ops, skip, idx[k], k) {
        if k < |init| {
          ShowsSideLineStays(ops, skip, idx[k], k);
        }
      }
    }
  }

  /** The i-th operation shows the k-th line of the side. */
  ghost predicate ShowsSideLine(ops: seq<LineOp>, skip: OpKind, i: nat, k: nat) {
    && i < |ops| && |Side(ops[..i], skip)| == k < |Side(ops, skip)|
    && Side(ops, skip)[k] == ops[i].line
  }

  lemma {:induction false} ShowsSideLineStays(ops: seq<LineOp>, skip: OpKind, i: nat, k: nat)
    requires ops != [] && ShowsSideLine(ops[..|ops| - 1], skip, i, k)
    ensures ShowsSideLine(ops, skip, i, k)
  {
    assert ops[..|ops| - 1][..i] == ops[..i];
  }

  /** An operation's index is how many lines of its side come before it. */
  lemma {:induction false} IndexCounts(script: seq<Op>, before: seq<Line>, after: seq<Line>, b: nat, a: nat, i: nat)
    requires b <= |before| && a <= |after| && i < |script|
    requires Transforms(script, Contents(before[b..]), Contents(after[a..]), b, a)
    ensures var ops := LineOps(script, before, after);
            script[i].index == if script[i].kind == OpDelete then b + |Side(ops[..i], OpInsert)|
                               else a + |Side(ops[..i], OpDelete)|
  {
    var ops := LineOps(script, before, after);
    if i > 0 {
      var b' := if script[0].kind == OpInsert then b else b + 1;
      var a' := if script[0].kind == OpDelete then a else a + 1;
      assert script[0].kind != OpInsert ==> Contents(before[b..])[1..] == Contents(before[b + 1..]);
      assert script[0].kind != OpDelete ==> Contents(after[a..])[1..] == Contents(after[a + 1..]);
      IndexCounts(script[1..], before, after, b', a', i - 1);
      assert ops[..i] == [ops[0]] + LineOps(script[1..], before, after)[..i - 1];
      SideCons(ops[0], LineOps(script[1..], before, after)[..i - 1], OpInsert);
      SideCons(ops[0], LineOps(script[1..], before, after)[..i - 1], OpDelete);
    } else {
      assert ops[..0] == [];
    }
  }

  /** The k-th operation that is no insertion shows the k-th line before, or a line after with
      its content if it is unchanged; the k-th that is no deletion shows the k-th line after. */
  ghost predicate ShowsLines(ops: seq<LineOp>, before: seq<Line>, after: seq<Line>, b: seq<nat>, a: seq<nat>) {
    && Seqs.Selects(OnSide(ops, OpInsert), b) && |b| == |before|
    && Seqs.Selects(OnSide(ops, OpDelete), a) && |a| == |after|
    && (forall k :: 0 <= k < |b| ==>
          && b[k] < |ops| && ops[b[k]].line.Content() == before[k].Content()
          && (ops[b[k]].kind == OpDelete ==> ops[b[k]].line == before[k]))
    && (forall k :: 0 <= k < |a| ==> a[k] < |ops| && ops[a[k]].line == after[k])
  }

  /** So every operation of a valid script shows a line of its own side, the next in order. */
  lemma {:induction false} ScriptShowsLines(script: seq<Op>, before: seq<Line>, after: seq<Line>)
    returns (b: seq<nat>, a: seq<nat>)
    requires Transforms(script, Contents(before), Contents(after), 0, 0)
    ensures ShowsLines(LineOps(script, before, after), before, after, b, a)
  {
    var ops := LineOps(script, before, after);
    DiffSides(script, before, after);
    b := SideSelects(ops, OpInsert);
    a := SideSelects(ops, OpDelete);
    assert |Contents(Side(ops, OpInsert))| == |Side(ops, OpInsert)| && |Contents(before)| == |before|;
    forall k | 0 <= k < |b|
      ensures b[k] < |ops| && ops[b[k]].line.Content() == before[k].Content()
      ensures ops[b[k]].kind == OpDelete ==> ops[b[k]].line == before[k]
    {
      assert ShowsSideLine(ops, OpInsert, b[k], k);
      assert Contents(Side(ops, OpInsert))[k] == Contents(before)[k];
      assert before[0..] == before && after[0..] == after;
      IndexCounts(script, before, after, 0, 0, b[k]);
    }
    assert forall k :: 0 <= k < |a| ==> ShowsSideLine(ops, OpDelete, a[k], k);
  }

  // ----- prefix sums over the operations -----

  function Deltas(ops: seq<LineOp>, skip: OpKind): seq<int> {
    seq(|ops|, i requires 0 <= i < |ops| => if ops[i].kind == skip then 0 else 1)
  }

  lemma {:induction false} DeltasCountSide(ops: seq<LineOp>, skip: OpKind)
    ensures Sum(Deltas(ops, skip)) == |Side(ops, skip)|
  {
    if ops != [] {
      DeltasCountSide(ops[..|ops| - 1], skip);
      assert Deltas(ops, skip)[..|ops| - 1] == Deltas(ops[..|ops| - 1], skip);
    }
  }

  /** A table lookup is a position in one side, and a span's sum a slice of it. */
  lemma {:induction false} SumsLocate(p: PrefixSums, ops: seq<LineOp>, skip: OpKind, s: Span)
    requires p.Of(Deltas(ops, skip)) && 0 <= s.start <= s.end <= |ops|
    ensures 0 <= p.At(s.start) && p.At(s.start) + p.Range(s) == p.At(s.end) <= |Side(ops, skip)|
    ensures 0 <= p.Range(s)
    ensures Side(ops, skip)[p.At(s.start)..p.At(s.end)] == Side(ops[s.start..s.end], skip)
  {
    var x, y, z := ops[..s.start], ops[s.start..s.end], ops[s.end..];
    SumIsSide(ops, skip, s.start);
    SumIsSide(ops, skip, s.end);
    assert x + y == ops[..s.end] && x + y + z == ops;
    SideAppend(x, y, skip);
    SideAppend(x + y, z, skip);
    Seqs.SliceMiddle(Side(x, skip), Side(y, skip), Side(z, skip));
  }

  lemma {:induction false} SumIsSide(ops: seq<LineOp>, skip: OpKind, k: nat)
    requires k <= |ops|
    ensures Sum(Deltas(ops, skip)[..k]) == |Side(ops[..k], skip)|
  {
    DeltasCountSide(ops[..k], skip);
    assert Deltas(ops, skip)[..k] == Deltas(ops[..k], skip);
  }

  // ----- hunks -----

  /** Indices of the operations that change something. */
  function ChangeIndices(ops: seq<LineOp>): (r: seq<int>)
    ensures forall k :: 0 <= k < |r| ==> 0 <= r[k] < |ops| && ops[r[k]].kind != OpEqual
    ensures Sorted(r)
    ensures forall i :: 0 <= i < |ops| && ops[i].kind != OpEqual ==> i in r
  {
    if ops == [] then []
    else ChangeIndices(ops[..|ops| - 1]) + (if ops[|ops| - 1].kind == OpEqual then [] else [|ops| - 1])
  }

  function HunkSpans(ops: seq<LineOp>, context: nat): seq<Span> {
    Clamped(Expanded(Grouped(ChangeIndices(ops), context), context), 0, |ops|)
  }

  method SelectHunkSpans(ops: seq<LineOp>, context: nat) returns (spans: seq<Span>)
    ensures spans == HunkSpans(ops, context)
  {
    var changeIndices: seq<int> := [];
    for i := 0 to |ops|
      invariant changeIndices == ChangeIndices(ops[..i])
    {
      assert ops[..i + 1][..i] == ops[..i];
      if ops[i].kind != OpEqual {
        changeIndices := changeIndices + [i];
      }
    }
    assert ops[..|ops|] == ops;
    if |changeIndices| == 0 {
      return [];
    }
    var grouped := GroupIndices(changeIndices, context);
    var expanded := Expand(grouped, context);
    spans := Clamp(expanded, 0, |ops|);
  }

  ghost predicate NearChange(ops: seq<LineOp>, context: nat, v: int) {
    exists i :: 0 <= i < |ops| && ops[i].kind != OpEqual && i - context <= v <= i + context
  }

  /** Hunks are the maximal runs of operations within `context` of a change. */
  lemma {:induction false} HunkSpansAreMaximalRuns(ops: seq<LineOp>, context: nat)
    ensures Separated(HunkSpans(ops, context))
    ensures forall v :: Covered(HunkSpans(ops, context), v) <==> 0 <= v < |ops| && NearChange(ops, context, v)
  {
    var indices := ChangeIndices(ops);
    HunkSpansExact(indices, context, |ops|);
    forall v ensures Near(v, indices, context) <==> NearChange(ops, context, v) {
      if Near(v, indices, context) {
        var k :| 0 <= k < |indices| && indices[k] - context <= v <= indices[k] + context;
        assert ops[indices[k]].kind != OpEqual;
      }
      if NearChange(ops, context, v) {
        var i :| 0 <= i < |ops| && ops[i].kind != OpEqual && i - context <= v <= i + context;
        assert i in indices;
      }
    }
  }

  /** The numbers of a hunk: where it starts and how many lines it takes, on both sides. */
  datatype Hunk = Hunk(from: int, fromCount: int, to: int, toCount: int)

  function HunkOf(span: Span, beforeSums: PrefixSums, afterSums: PrefixSums): Hunk
    requires 0 <= span.start <= span.end < |beforeSums.sums| && |beforeSums.sums| == |afterSums.sums|
  {
    Hunk(beforeSums.At(span.start), beforeSums.Range(span), afterSums.At(span.start), afterSums.Range(span))
  }

  /** Hunks can be applied from position pos of a before side of length n. */
  ghost predicate Applicable(hunks: seq<Hunk>, pos: int, n: nat, m: nat) {
    if hunks == [] then 0 <= pos <= n
    else
      var h := hunks[0];
      && 0 <= pos <= h.from && 0 <= h.fromCount && h.from + h.fromCount <= n
      && 0 <= h.to && 0 <= h.toCount && h.to + h.toCount <= m
      && Applicable(hunks[1..], h.from + h.fromCount, n, m)
  }

  /** Replaces, from position pos on, every hunk's slice of `before` by its slice of `after`. */
  ghost function ApplyHunks(hunks: seq<Hunk>, pos: int, before: seq<string>, after: seq<string>): seq<string>
    requires Applicable(hunks, pos, |before|, |after|)
  {
    if hunks == [] then before[pos..]
    else
      var h := hunks[0];
      before[pos..h.from] + after[h.to..h.to + h.toCount] + ApplyHunks(hunks[1..], h.from + h.fromCount, before, after)
  }

  ghost predicate SumsOf(beforeSums: PrefixSums, afterSums: PrefixSums, ops: seq<LineOp>) {
    beforeSums.Of(Deltas(ops, OpInsert)) && afterSums.Of(Deltas(ops, OpDelete))
  }

  /** Spans in order within [p, n). */
  ghost predicate InOrder(spans: seq<Span>, p: int, n: nat) {
    if spans == [] then 0 <= p <= n
    else 0 <= p <= spans[0].start < spans[0].end <= n && InOrder(spans[1..], spans[0].end, n)
  }

  ghost function HunksOf(spans: seq<Span>, beforeSums: PrefixSums, afterSums: PrefixSums, p: int, n: nat): seq<Hunk>
    requires InOrder(spans, p, n) && |beforeSums.sums| == |afterSums.sums| == n + 1
  {
    if spans == [] then []
    else [HunkOf(spans[0], beforeSums, afterSums)] + HunksOf(spans[1..], beforeSums, afterSums, spans[0].end, n)
  }

  lemma {:induction false} AllEqualSides(ops: seq<LineOp>)
    requires forall i :: 0 <= i < |ops| ==> ops[i].kind == OpEqual
    ensures Side(ops, OpInsert) == Side(ops, OpDelete)
  {
    if ops != [] {
      AllEqualSides(ops[..|ops| - 1]);
    }
  }

  lemma {:induction false} ContentsSlice(lines: seq<Line>, i: nat, j: nat)
    requires i <= j <= |lines|
    ensures Contents(lines)[i..j] == Contents(lines[i..j])
  {
  }

  /** Between hunks both sides read the same. */
  lemma {:induction false} GapAgrees(ops: seq<LineOp>, beforeSums: PrefixSums, afterSums: PrefixSums, gap: Span)
    requires SumsOf(beforeSums, afterSums, ops) && 0 <= gap.start <= gap.end <= |ops|
    requires forall i :: gap.start <= i < gap.end ==> ops[i].kind == OpEqual
    ensures 0 <= beforeSums.At(gap.start) <= beforeSums.At(gap.end) <= |Side(ops, OpInsert)|
    ensures 0 <= afterSums.At(gap.start) <= afterSums.At(gap.end) <= |Side(ops, OpDelete)|
    ensures Contents(Side(ops, OpInsert))[beforeSums.At(gap.start)..beforeSums.At(gap.end)] ==
            Contents(Side(ops, OpDelete))[afterSums.At(gap.start)..afterSums.At(gap.end)]
  {
    SumsLocate(beforeSums, ops, OpInsert, gap);
    SumsLocate(afterSums, ops, OpDelete, gap);
    AllEqualSides(ops[gap.start..gap.end]);
    ContentsSlice(Side(ops, OpInsert), beforeSums.At(gap.start), beforeSums.At(gap.end));
    ContentsSlice(Side(ops, OpDelete), afterSums.At(gap.start), afterSums.At(gap.end));
  }

  /** From operation p on, applying the hunks to `before` gives `after`. */
  ghost predicate PatchesFrom(hunks: seq<Hunk>, b: int, a: int, before: seq<string>, after: seq<string>) {
    && 0 <= a <= |after| && Applicable(hunks, b, |before|, |after|)
    && ApplyHunks(hunks, b, before, after) == after[a..]
  }

  lemma {:induction false} PatchStep(h: Hunk, hunks: seq<Hunk>, b: int, a: int, bEnd: int, aEnd: int,
                                     before: seq<string>, after: seq<string>)
    requires 0 <= b <= h.from && 0 <= h.fromCount && h.from + h.fromCount == bEnd <= |before|
    requires 0 <= a <= h.to && 0 <= h.toCount && h.to + h.toCount == aEnd <= |after|
    requires before[b..h.from] == after[a..h.to]
    requires PatchesFrom(hunks, bEnd, aEnd, before, after)
    ensures PatchesFrom([h] + hunks, b, a, before, after)
  {
    assert after[a..h.to] + after[h.to..aEnd] + after[aEnd..] == after[a..];
    assert ([h] + hunks)[1..] == hunks;
  }

  /** A hunk takes over where the unchanged operations from p on end. */
  lemma {:induction false} HunkFits(ops: seq<LineOp>, beforeSums: PrefixSums, afterSums: PrefixSums, p: int, s: Span)
    requires SumsOf(beforeSums, afterSums, ops) && 0 <= p <= s.start <= s.end <= |ops|
    requires forall i :: p <= i < s.start ==> ops[i].kind == OpEqual
    ensures var h, b, a := HunkOf(s, beforeSums, afterSums), beforeSums.At(p), afterSums.At(p);
            && 0 <= b <= h.from && 0 <= h.fromCount
            && h.from + h.fromCount == beforeSums.At(s.end) <= |Side(ops, OpInsert)|
            && 0 <= a <= h.to && 0 <= h.toCount && h.to + h.toCount == afterSums.At(s.end) <= |Side(ops, OpDelete)|
            && Contents(Side(ops, OpInsert))[b..h.from] == Contents(Side(ops, OpDelete))[a..h.to]
  {
    GapAgrees(ops, beforeSums, afterSums, Span(p, s.start));
    SumsLocate(beforeSums, ops, OpInsert, s);
    SumsLocate(afterSums, ops, OpDelete, s);
  }

  /** Every change from p on is covered. */
  ghost predicate ChangesCovered(ops: seq<LineOp>, spans: seq<Span>, p: int)
    requires 0 <= p
  {
    forall i :: p <= i < |ops| && ops[i].kind != OpEqual ==> Covered(spans, i)
  }

  lemma {:induction false} NoHunksLeft(ops: seq<LineOp>, p: int, beforeSums: PrefixSums, afterSums: PrefixSums)
    requires SumsOf(beforeSums, afterSums, ops) && 0 <= p <= |ops| && ChangesCovered(ops, [], p)
    ensures PatchesFrom([], beforeSums.At(p), afterSums.At(p),
                        Contents(Side(ops, OpInsert)), Contents(Side(ops, OpDelete)))
  {
    forall i | p <= i < |ops| ensures ops[i].kind == OpEqual {
      assert !Covered([], i);
    }
    GapAgrees(ops, beforeSums, afterSums, Span(p, |ops|));
    SumsEnd(beforeSums, ops, OpInsert);
    SumsEnd(afterSums, ops, OpDelete);
    RestAgrees(beforeSums.At(p), afterSums.At(p), Contents(Side(ops, OpInsert)), Contents(Side(ops, OpDelete)));
  }

  lemma {:induction false} RestAgrees(b: int, a: int, before: seq<string>, after: seq<string>)
    requires 0 <= b <= |before| && 0 <= a <= |after| && before[b..|before|] == after[a..|after|]
    ensures PatchesFrom([], b, a, before, after)
  {
    assert before[b..|before|] == before[b..] && after[a..|after|] == after[a..];
  }

  lemma {:induction false} HunkPatches(ops: seq<LineOp>, s: Span, p: int, beforeSums: PrefixSums,
                                       afterSums: PrefixSums, hunks: seq<Hunk>)
    requires SumsOf(beforeSums, afterSums, ops) && 0 <= p <= s.start <= s.end <= |ops|
    requires forall i :: p <= i < s.start ==> ops[i].kind == OpEqual
    requires PatchesFrom(hunks, beforeSums.At(s.end), afterSums.At(s.end),
                         Contents(Side(ops, OpInsert)), Contents(Side(ops, OpDelete)))
    ensures PatchesFrom([HunkOf(s, beforeSums, afterSums)] + hunks, beforeSums.At(p), afterSums.At(p),
                        Contents(Side(ops, OpInsert)), Contents(Side(ops, OpDelete)))
  {
    var before, after := Contents(Side(ops, OpInsert)), Contents(Side(ops, OpDelete));
    var h, b, a := HunkOf(s, beforeSums, afterSums), beforeSums.At(p), afterSums.At(p);
    HunkFits(ops, beforeSums, afterSums, p, s);
    assert |before| == |Side(ops, OpInsert)| && |after| == |Side(ops, OpDelete)|;
    PatchStep(h, hunks, b, a, beforeSums.At(s.end), afterSums.At(s.end), before, after);
  }

  lemma {:induction false} HunksPatchFrom(ops: seq<LineOp>, spans: seq<Span>, p: int, beforeSums: PrefixSums,
                                          afterSums: PrefixSums)
    requires SumsOf(beforeSums, afterSums, ops) && InOrder(spans, p, |ops|) && ChangesCovered(ops, spans, p)
    ensures PatchesFrom(HunksOf(spans, beforeSums, afterSums, p, |ops|), beforeSums.At(p), afterSums.At(p),
                        Contents(Side(ops, OpInsert)), Contents(Side(ops, OpDelete)))
    decreases |spans|
  {
    if spans == [] {
      NoHunksLeft(ops, p, beforeSums, afterSums);
    } else {
      TailCovered(ops, spans, p);
      HunksPatchFrom(ops, spans[1..], spans[0].end, beforeSums, afterSums);
      UncoveredBefore(ops, spans, p);
      HunkPatches(ops, spans[0], p, beforeSums, afterSums,
                  HunksOf(spans[1..], beforeSums, afterSums, spans[0].end, |ops|));
    }
  }

  lemma {:induction false} SumsEnd(p: PrefixSums, ops: seq<LineOp>, skip: OpKind)
    requires p.Of(Deltas(ops, skip))
    ensures p.At(|ops|) == |Side(ops, skip)|
  {
    SumIsSide(ops, skip, |ops|);
    assert ops[..|ops|] == ops;
  }

  lemma {:induction false} InOrderStarts(spans: seq<Span>, p: int, n: nat)
    requires InOrder(spans, p, n)
    ensures forall k :: 0 <= k < |spans| ==> p <= spans[k].start < spans[k].end <= n
  {
    if spans != [] {
      InOrderStarts(spans[1..], spans[0].end, n);
    }
  }

  lemma {:induction false} UncoveredBefore(ops: seq<LineOp>, spans: seq<Span>, p: int)
    requires InOrder(spans, p, |ops|) && spans != [] && ChangesCovered(ops, spans, p)
    ensures forall i :: p <= i < spans[0].start ==> ops[i].kind == OpEqual
  {
    InOrderStarts(spans[1..], spans[0].end, |ops|);
    forall i | p <= i < spans[0].start ensures ops[i].kind == OpEqual {
      forall k | 0 <= k < |spans| ensures !spans[k].Contains(i) {
        assert k > 0 ==> spans[k] == spans[1..][k - 1];
      }
      assert !Covered(spans, i);
    }
  }

  lemma {:induction false} TailCovered(ops: seq<LineOp>, spans: seq<Span>, p: int)
    requires InOrder(spans, p, |ops|) && spans != [] && ChangesCovered(ops, spans, p)
    ensures ChangesCovered(ops, spans[1..], spans[0].end)
  {
    forall i | spans[0].end <= i < |ops| && ops[i].kind != OpEqual ensures Covered(spans[1..], i) {
      assert Covered(spans, i);
      var k :| 0 <= k < |spans| && spans[k].Contains(i);
      assert spans[1..][k - 1].Contains(i);
    }
  }

  lemma {:induction false} SeparatedInOrder(spans: seq<Span>, p: int, n: nat)
    requires Separated(spans) && 0 <= p <= n
    requires forall v :: Covered(spans, v) ==> p <= v < n
    ensures InOrder(spans, p, n)
    decreases |spans|
  {
    if spans != [] {
      var s := spans[0];
      assert s.Contains(s.start) && s.Contains(s.end - 1);
      assert Covered(spans, s.start) && Covered(spans, s.end - 1);
      forall v | Covered(spans[1..], v) ensures s.end <= v < n {
        TailCovers(spans, v);
      }
      SeparatedInOrder(spans[1..], s.end, n);
    }
  }

  /** For every context, replacing each hunk's lines of `before` by its lines of `after`
      yields `after`, and everything outside the hunks is unchanged. */
  lemma {:induction false} HunksPatch(ops: seq<LineOp>, context: nat, spans: seq<Span>, beforeSums: PrefixSums,
                                      afterSums: PrefixSums)
    requires SumsOf(beforeSums, afterSums, ops) && spans == HunkSpans(ops, context)
    ensures InOrder(spans, 0, |ops|)
    ensures var before, after := Contents(Side(ops, OpInsert)), Contents(Side(ops, OpDelete));
            var hunks := HunksOf(spans, beforeSums, afterSums, 0, |ops|);
            Applicable(hunks, 0, |before|, |after|) && ApplyHunks(hunks, 0, before, after) == after
    ensures forall i :: 0 <= i < |ops| && !Covered(spans, i) ==> ops[i].kind == OpEqual
  {
    HunkSpansAreMaximalRuns(ops, context);
    forall i | 0 <= i < |ops| && ops[i].kind != OpEqual ensures Covered(spans, i) {
      assert NearChange(ops, context, i);
    }
    SeparatedInOrder(spans, 0, |ops|);
    HunksPatchFrom(ops, spans, 0, beforeSums, afterSums);
    assert Deltas(ops, OpInsert)[..0] == [] && Deltas(ops, OpDelete)[..0] == [];
    var after := Contents(Side(ops, OpDelete));
    assert after[0..] == after;
  }
}
