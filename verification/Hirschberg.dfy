/** The diff engine itself: divide and conquer over two swapped rows, with result
    buffers that every level of the recursion reuses. */
module Hirschberg {
  import opened Ints
  import Lcs
  import Seqs
  import opened EditScript

  class Engine {
    var row0: array<nat>
    var row1: array<nat>
    var fwdResult: array<nat>
    var bwdResult: array<nat>
    var ops: seq<Op>
    var opsCap: nat  // room for this many operations before the list must grow

    ghost predicate Valid()
      reads this
    {
      && |ops| <= opsCap
      && row0.Length == row1.Length == fwdResult.Length == bwdResult.Length
      && row0 != row1 && row0 != fwdResult && row0 != bwdResult
      && row1 != fwdResult && row1 != bwdResult && fwdResult != bwdResult
    }

    /** The buffers; a pass may swap the two rows but never changes this set. */
    ghost function Buffers(): set<object>
      reads this
    {
      {row0, row1, fwdResult, bwdResult}
    }

    constructor ()
      ensures Valid() && fresh(Buffers()) && ops == []
    {
      row0, row1 := new nat[0], new nat[0];
      fwdResult, bwdResult := new nat[0], new nat[0];
      ops, opsCap := [], 0;
    }

    method Allocate(capacity: nat)
      requires |ops| <= opsCap
      modifies this`row0, this`row1, this`fwdResult, this`bwdResult
      ensures Valid() && fresh(Buffers()) && row0.Length == capacity
    {
      row0, row1 := new nat[capacity], new nat[capacity];
      fwdResult, bwdResult := new nat[capacity], new nat[capacity];
    }

    /** Preallocation only: what a later Diff returns does not depend on it. */
    method Init(beforeLen: nat, afterLen: nat)
      requires Valid()
      modifies this
      ensures Valid() && fresh(Buffers() - old(Buffers()))
      ensures row0.Length == Max(old(row0.Length), Min(beforeLen, afterLen) + 1)
      ensures opsCap == Max(old(opsCap), beforeLen + afterLen) && (opsCap == old(opsCap) ==> ops == old(ops))
    {
      var capacity := Min(beforeLen, afterLen) + 1;
      if capacity > row0.Length {
        Allocate(capacity);
      }
      if beforeLen + afterLen > opsCap {
        ops, opsCap := [], beforeLen + afterLen;
      }
    }

    /** Whatever calls came before, the result is the script of these two inputs. */
    method Diff(before: seq<string>, after: seq<string>) returns (result: seq<Op>)
      requires Valid()
      modifies this, Buffers()
      ensures Valid() && fresh(Buffers() - old(Buffers()))
      ensures result == ops == EditScript.Diff(before, after)
    {
      ops := [];
      var needed := |after| + 1;
      if row0.Length < needed {
        Allocate(needed);
      }
      Recurse(before, after, 0, |before|, 0, |after|);
      result := ops;
    }

    /** Appending to a full list moves it to one with some larger capacity. */
    method Append(op: Op)
      requires |ops| <= opsCap
      modifies this`ops, this`opsCap
      ensures |ops| <= opsCap && ops == old(ops) + [op]
    {
      if |ops| == opsCap {
        var larger: nat :| larger > |ops|;
        opsCap := larger;
      }
      ops := ops + [op];
    }

    method AppendRun(kind: OpKind, start: nat, end: nat)
      requires start <= end && |ops| <= opsCap
      modifies this`ops, this`opsCap
      ensures |ops| <= opsCap
      ensures ops == old(ops) + Run(kind, start, end - start)
    {
      for j := start to end
        invariant |ops| <= opsCap && ops == old(ops) + Run(kind, start, j - start)
      {
        Append(Op(kind, j));
        assert Run(kind, start, j - start) + [Op(kind, j)] == Run(kind, start, j + 1 - start);
      }
    }

    method Recurse(before: seq<string>, after: seq<string>, bStart: nat, bEnd: nat, aStart: nat, aEnd: nat)
      requires Valid() && bStart <= bEnd <= |before| && aStart <= aEnd <= |after| && |after| < row0.Length
      modifies this, Buffers()
      ensures Valid() && Buffers() == old(Buffers()) && row0.Length == old(row0.Length)
      ensures ops == old(ops) + Script(before, after, bStart, bEnd, aStart, aEnd)
      decreases bEnd - bStart
    {
      var m, n := bEnd - bStart, aEnd - aStart;
      if m == 0 {
        AppendRun(OpInsert, aStart, aEnd);
      } else if n == 0 {
        AppendRun(OpDelete, bStart, bEnd);
      } else if m == 1 {
        SingleBeforeLine(before, after, bStart, aStart, aEnd);
      } else {
        RecurseHalves(before, after, bStart, bEnd, aStart, aEnd);
      }
    }

    method RecurseHalves(before: seq<string>, after: seq<string>, bStart: nat, bEnd: nat, aStart: nat, aEnd: nat)
      requires Valid() && bStart + 1 < bEnd <= |before| && aStart < aEnd <= |after| && |after| < row0.Length
      modifies this, Buffers()
      ensures Valid() && Buffers() == old(Buffers()) && row0.Length == old(row0.Length)
      ensures ops == old(ops) + Script(before, after, bStart, bEnd, aStart, aEnd)
      decreases bEnd - bStart, 0
    {
      var bMid := bStart + (bEnd - bStart) / 2;
      var aMid := Split(before, after, bStart, bMid, bEnd, aStart, aEnd);
      Recurse(before, after, bStart, bMid, aStart, aMid);
      Recurse(before, after, bMid, bEnd, aMid, aEnd);
      JoinScripts(old(ops), before, after, bStart, bEnd, aStart, aMid, aEnd);
    }

    /** Both passes and the search for the first best split point. */
    method Split(before: seq<string>, after: seq<string>, bStart: nat, bMid: nat, bEnd: nat, aStart: nat, aEnd: nat)
      returns (aMid: nat)
      requires Valid() && bStart <= bMid <= bEnd <= |before| && aStart <= aEnd <= |after| && |after| < row0.Length
      modifies this`row0, this`row1, Buffers()
      ensures Valid() && Buffers() == old(Buffers()) && row0.Length == old(row0.Length)
      ensures aMid == aStart + Cut(before[bStart..bMid], before[bMid..bEnd], after[aStart..aEnd])
    {
      var n := aEnd - aStart;
      ghost var left, right, part := before[bStart..bMid], before[bMid..bEnd], after[aStart..aEnd];
      var forward := Forward(before, after, bStart, bMid, aStart, aEnd);
      var backward := Backward(before, after, bMid, bEnd, aStart, aEnd);
      forall j | 0 <= j <= n
        ensures Scores(left, right, part)[j] == forward[j] + backward[n - j]
      {
        assert part[..j] == after[aStart..aStart + j] && part[j..] == after[aEnd - (n - j)..aEnd];
      }
      var j := FirstBest(forward, backward, n, Scores(left, right, part));
      CutIsUnique(left, right, part, j);
      aMid := aStart + j;
    }

    method SingleBeforeLine(before: seq<string>, after: seq<string>, bStart: nat, aStart: nat, aEnd: nat)
      requires bStart < |before| && aStart <= aEnd <= |after| && |ops| <= opsCap
      modifies this`ops, this`opsCap
      ensures |ops| <= opsCap
      ensures ops == old(ops) + SingleScript(before[bStart], after[aStart..aEnd], bStart, aStart)
    {
      ghost var part := after[aStart..aEnd];
      var matchIdx := FirstMatch(before[bStart], after, aStart, aEnd);
      if matchIdx < 0 {
        Append(Op(OpDelete, bStart));
        AppendRun(OpInsert, aStart, aEnd);
        Seqs.ConcatAssociative(old(ops), [Op(OpDelete, bStart)], Run(OpInsert, aStart, |part|));
      } else {
        AppendRun(OpInsert, aStart, matchIdx);
        Append(Op(OpEqual, matchIdx));
        AppendRun(OpInsert, matchIdx + 1, aEnd);
        ghost var inserted, kept := Run(OpInsert, aStart, matchIdx - aStart), [Op(OpEqual, matchIdx)];
        Seqs.ConcatAssociative(old(ops), inserted, kept);
        Seqs.ConcatAssociative(old(ops), inserted + kept, Run(OpInsert, matchIdx + 1, aEnd - matchIdx - 1));
      }
    }

    method ClearRows(n: nat)
      requires Valid() && n < row0.Length
      modifies row0, row1
      ensures forall j :: 0 <= j <= n ==> row0[j] == row1[j] == 0
    {
      for j := 0 to n + 1
        invariant forall i :: 0 <= i < j ==> row0[i] == row1[i] == 0
      {
        row0[j] := 0;
        row1[j] := 0;
      }
    }

    /** One row of the forward table, from the row before it. */
    method FillForward(before: seq<string>, after: seq<string>, bStart: nat, i: nat, aStart: nat, aEnd: nat)
      requires Valid() && bStart <= i < |before| && aStart <= aEnd <= |after| && |after| < row0.Length
      requires forall k :: 0 <= k <= aEnd - aStart ==>
                 row0[k] == Lcs.Length(before[bStart..i], after[aStart..aStart + k])
      modifies row1
      ensures forall k :: 0 <= k <= aEnd - aStart ==>
                row1[k] == Lcs.Length(before[bStart..i + 1], after[aStart..aStart + k])
    {
      row1[0] := 0;
      for j := 0 to aEnd - aStart
        invariant forall k :: 0 <= k <= j ==> row1[k] == Lcs.Length(before[bStart..i + 1], after[aStart..aStart + k])
      {
        ForwardStep(before, after, bStart, i, aStart, aStart + j);
        if before[i] == after[aStart + j] {
          row1[j + 1] := row0[j] + 1;
        } else {
          row1[j + 1] := Max(row1[j], row0[j + 1]);
        }
      }
    }

    /** One row of the backward table, from the row before it. */
    method FillBackward(before: seq<string>, after: seq<string>, i: nat, bEnd: nat, aStart: nat, aEnd: nat)
      requires Valid() && i < bEnd <= |before| && aStart <= aEnd <= |after| && |after| < row0.Length
      requires forall k :: 0 <= k <= aEnd - aStart ==> row0[k] == Lcs.Length(before[i + 1..bEnd], after[aEnd - k..aEnd])
      modifies row1
      ensures forall k :: 0 <= k <= aEnd - aStart ==>
                row1[k] == Lcs.Length(before[i..bEnd], after[aEnd - k..aEnd])
    {
      row1[0] := 0;
      for j := 0 to aEnd - aStart
        invariant forall k :: 0 <= k <= j ==> row1[k] == Lcs.Length(before[i..bEnd], after[aEnd - k..aEnd])
      {
        BackwardStep(before, after, i, bEnd, aEnd - 1 - j, aEnd);
        if before[i] == after[aEnd - 1 - j] {
          row1[j + 1] := row0[j] + 1;
        } else {
          row1[j + 1] := Max(row1[j], row0[j + 1]);
        }
      }
    }

    /** Leaves in the forward buffer, for every j, how much of after[aStart..aStart+j]
        can be kept from before[bStart..bMid]. */
    method Forward(before: seq<string>, after: seq<string>, bStart: nat, bMid: nat, aStart: nat, aEnd: nat)
      returns (result: array<nat>)
      requires Valid() && bStart <= bMid <= |before| && aStart <= aEnd <= |after| && |after| < row0.Length
      modifies this`row0, this`row1, row0, row1, fwdResult
      ensures Valid() && {row0, row1} == old({row0, row1}) && row0.Length == old(row0.Length)
      ensures result == fwdResult
      ensures forall j :: 0 <= j <= aEnd - aStart ==>
                result[j] == Lcs.Length(before[bStart..bMid], after[aStart..aStart + j])
    {
      var n := aEnd - aStart;
      ClearRows(n);
      for i := bStart to bMid
        invariant Valid() && {row0, row1} == old({row0, row1}) && row0.Length == old(row0.Length)
        invariant i == bStart ==> forall j :: 0 <= j <= n ==> row0[j] == 0
        invariant forall j :: 0 <= j <= n ==> row1[j] == Lcs.Length(before[bStart..i], after[aStart..aStart + j])
      {
        row0, row1 := row1, row0;
        FillForward(before, after, bStart, i, aStart, aEnd);
      }
      var src := if bStart == bMid then row0 else row1;
      CopyInto(fwdResult, src, n + 1);
      result := fwdResult;
    }

    /** Leaves in the backward buffer, for every k, how much of after[aEnd-k..aEnd]
        can be kept from before[bMid..bEnd]. */
    method Backward(before: seq<string>, after: seq<string>, bMid: nat, bEnd: nat, aStart: nat, aEnd: nat)
      returns (result: array<nat>)
      requires Valid() && bMid <= bEnd <= |before| && aStart <= aEnd <= |after| && |after| < row0.Length
      modifies this`row0, this`row1, row0, row1, bwdResult
      ensures Valid() && {row0, row1} == old({row0, row1}) && row0.Length == old(row0.Length)
      ensures result == bwdResult
      ensures forall k :: 0 <= k <= aEnd - aStart ==>
                result[k] == Lcs.Length(before[bMid..bEnd], after[aEnd - k..aEnd])
    {
      var n := aEnd - aStart;
      ClearRows(n);
      var i := bEnd - 1;
      while i >= bMid
        invariant bMid - 1 <= i < bEnd
        invariant Valid() && {row0, row1} == old({row0, row1}) && row0.Length == old(row0.Length)
        invariant i == bEnd - 1 ==> forall k :: 0 <= k <= n ==> row0[k] == 0
        invariant forall k :: 0 <= k <= n ==> row1[k] == Lcs.Length(before[i + 1..bEnd], after[aEnd - k..aEnd])
      {
        row0, row1 := row1, row0;
        FillBackward(before, after, i, bEnd, aStart, aEnd);
        i := i - 1;
      }
      var src := if bMid == bEnd then row0 else row1;
      CopyInto(bwdResult, src, n + 1);
      result := bwdResult;
    }
  }

  lemma {:induction false} JoinScripts<T>(ops: seq<Op>, before: seq<T>, after: seq<T>, bStart: nat, bEnd: nat,
                                          aStart: nat, aMid: nat, aEnd: nat)
    requires bStart + 1 < bEnd <= |before| && aStart < aEnd <= |after|
    requires var bMid := bStart + (bEnd - bStart) / 2;
             aMid == aStart + Cut(before[bStart..bMid], before[bMid..bEnd], after[aStart..aEnd])
    ensures var bMid := bStart + (bEnd - bStart) / 2;
            (ops + Script(before, after, bStart, bMid, aStart, aMid)) + Script(before, after, bMid, bEnd, aMid, aEnd) ==
            ops + Script(before, after, bStart, bEnd, aStart, aEnd)
  {
    var bMid := bStart + (bEnd - bStart) / 2;
    var first := Script(before, after, bStart, bMid, aStart, aMid);
    var second := Script(before, after, bMid, bEnd, aMid, aEnd);
    ScriptDivides(before, after, bStart, bMid, bEnd, aStart, aMid, aEnd);
    Seqs.ConcatAssociative(ops, first, second);
  }

  method FirstMatch(x: string, after: seq<string>, aStart: nat, aEnd: nat) returns (matchIdx: int)
    requires aStart <= aEnd <= |after|
    ensures var j := FirstIndex(x, after[aStart..aEnd]);
            matchIdx == if j == aEnd - aStart then -1 else aStart + j
  {
    ghost var part := after[aStart..aEnd];
    FirstIndexIsFirst(x, part);
    matchIdx := -1;
    for j := aStart to aEnd
      invariant matchIdx == -1
      invariant forall i :: 0 <= i < j - aStart ==> part[i] != x
    {
      if x == after[j] {
        matchIdx := j;
        assert part[j - aStart] == x;
        break;
      }
    }
  }

  method FirstBest(forward: array<nat>, backward: array<nat>, n: nat, ghost scores: seq<nat>) returns (mid: nat)
    requires n < forward.Length && n < backward.Length && |scores| == n + 1
    requires forall j :: 0 <= j <= n ==> scores[j] == forward[j] + backward[n - j]
    ensures FirstMaximiser(scores, mid)
  {
    mid := 0;
    var best: int := -1;
    for j := 0 to n + 1
      invariant if j == 0 then best == -1 && mid == 0 else mid < j && best == scores[mid]
      invariant forall k :: 0 <= k < j ==> scores[k] <= best
      invariant forall k :: 0 <= k < mid ==> scores[k] < best
    {
      var score := forward[j] + backward[n - j];
      if score > best {
        best := score;
        mid := j;
      }
    }
  }

  method CopyInto(dst: array<nat>, src: array<nat>, n: nat)
    requires dst != src && n <= dst.Length && n <= src.Length
    modifies dst
    ensures forall j :: 0 <= j < n ==> dst[j] == src[j]
  {
    forall j | 0 <= j < n {
      dst[j] := src[j];
    }
  }

  /** One cell of the forward table. */
  lemma {:induction false} ForwardStep<T>(before: seq<T>, after: seq<T>, bStart: nat, i: nat, aStart: nat, j: nat)
    requires bStart <= i < |before| && aStart <= j < |after|
    ensures Lcs.Length(before[bStart..i + 1], after[aStart..j + 1]) ==
            if before[i] == after[j] then Lcs.Length(before[bStart..i], after[aStart..j]) + 1
            else Max(Lcs.Length(before[bStart..i + 1], after[aStart..j]),
                     Lcs.Length(before[bStart..i], after[aStart..j + 1]))
  {
    var x, y := before[bStart..i + 1], after[aStart..j + 1];
    assert x[..|x| - 1] == before[bStart..i] && y[..|y| - 1] == after[aStart..j];
  }

  /** One cell of the backward table. */
  lemma {:induction false} BackwardStep<T>(before: seq<T>, after: seq<T>, i: nat, bEnd: nat, j: nat, aEnd: nat)
    requires i < bEnd <= |before| && j < aEnd <= |after|
    ensures Lcs.Length(before[i..bEnd], after[j..aEnd]) ==
            if before[i] == after[j] then Lcs.Length(before[i + 1..bEnd], after[j + 1..aEnd]) + 1
            else Max(Lcs.Length(before[i..bEnd], after[j + 1..aEnd]), Lcs.Length(before[i + 1..bEnd], after[j..aEnd]))
  {
    Lcs.PeelFirst(before[i], before[i + 1..bEnd], after[j], after[j + 1..aEnd]);
    assert [before[i]] + before[i + 1..bEnd] == before[i..bEnd];
    assert [after[j]] + after[j + 1..aEnd] == after[j..aEnd];
  }
}
