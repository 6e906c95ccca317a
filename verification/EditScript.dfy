/** Edit scripts, what it means for one to be correct, and the script that the
    divide-and-conquer algorithm computes. */
module EditScript {
  import Lcs

  datatype OpKind = OpEqual | OpDelete | OpInsert

  /** The index refers to `before` for OpDelete and to `after` otherwise. */
  datatype Op = Op(kind: OpKind, index: nat)

  // ----- correctness of an arbitrary script -----

  /** Walking the script with one cursor in each sequence consumes exactly `before`
      (whose first element has index b) and exactly `after` (first index a): every
      index is its cursor, and kept elements agree. */
  ghost predicate Transforms<T>(ops: seq<Op>, before: seq<T>, after: seq<T>, b: nat, a: nat) {
    if ops == [] then before == [] && after == []
    else match ops[0].kind
      case OpDelete =>
        before != [] && ops[0].index == b && Transforms(ops[1..], before[1..], after, b + 1, a)
      case OpInsert =>
        after != [] && ops[0].index == a && Transforms(ops[1..], before, after[1..], b, a + 1)
      case OpEqual =>
        before != [] && after != [] && before[0] == after[0] && ops[0].index == a
        && Transforms(ops[1..], before[1..], after[1..], b + 1, a + 1)
  }

  function Equals(ops: seq<Op>): nat {
    if ops == [] then 0 else (if ops[0].kind == OpEqual then 1 else 0) + Equals(ops[1..])
  }

  /** Deletions come before insertions: no insertion is directly followed by a deletion. */
  ghost predicate DeletesFirst(kinds: seq<OpKind>) {
    forall i :: 0 <= i < |kinds| - 1 && kinds[i] == OpInsert ==> kinds[i + 1] != OpDelete
  }

  function KindsOf(ops: seq<Op>): seq<OpKind> {
    seq(|ops|, i requires 0 <= i < |ops| => ops[i].kind)
  }

  /** Applies a script as a patch: kept elements are copied from what is left of
      `before`, inserted ones are looked up in `after`. None when the script runs
      off either sequence. */
  datatype Patched<T> = Patched(output: seq<T>) | Rejected {
    ghost function After(line: T): Patched<T> {
      if Rejected? then this else Patched([line] + output)
    }
  }

  ghost function Patch<T>(ops: seq<Op>, before: seq<T>, after: seq<T>): Patched<T> {
    if ops == [] then if before == [] then Patched([]) else Rejected
    else match ops[0].kind
      case OpDelete =>
        if before == [] then Rejected else Patch(ops[1..], before[1..], after)
      case OpInsert =>
        if ops[0].index >= |after| then Rejected
        else Patch(ops[1..], before, after).After(after[ops[0].index])
      case OpEqual =>
        if before == [] then Rejected
        else Patch(ops[1..], before[1..], after).After(before[0])
  }

  lemma {:induction false} TransformsPatches<T>(ops: seq<Op>, before: seq<T>, after: seq<T>, b: nat, a: nat)
    requires a <= |after| && Transforms(ops, before, after[a..], b, a)
    ensures Patch(ops, before, after) == Patched(after[a..])
  {
    if ops != [] {
      match ops[0].kind
      case OpDelete => TransformsPatches(ops[1..], before[1..], after, b + 1, a);
      case OpInsert =>
        assert after[a..][1..] == after[a + 1..];
        TransformsPatches(ops[1..], before, after, b, a + 1);
      case OpEqual =>
        assert after[a..][1..] == after[a + 1..];
        TransformsPatches(ops[1..], before[1..], after, b + 1, a + 1);
    }
  }

  lemma {:induction false} TransformsConcat<T>(ops1: seq<Op>, before1: seq<T>, after1: seq<T>, b: nat, a: nat,
                                               ops2: seq<Op>, before2: seq<T>, after2: seq<T>)
    requires Transforms(ops1, before1, after1, b, a)
    requires Transforms(ops2, before2, after2, b + |before1|, a + |after1|)
    ensures Transforms(ops1 + ops2, before1 + before2, after1 + after2, b, a)
  {
    if ops1 == [] {
      assert ops1 + ops2 == ops2 && before1 + before2 == before2 && after1 + after2 == after2;
    } else {
      assert (ops1 + ops2)[1..] == ops1[1..] + ops2;
      match ops1[0].kind
      case OpDelete =>
        assert (before1 + before2)[1..] == before1[1..] + before2;
        TransformsConcat(ops1[1..], before1[1..], after1, b + 1, a, ops2, before2, after2);
      case OpInsert =>
        assert (after1 + after2)[1..] == after1[1..] + after2;
        TransformsConcat(ops1[1..], before1, after1[1..], b, a + 1, ops2, before2, after2);
      case OpEqual =>
        assert (before1 + before2)[1..] == before1[1..] + before2;
        assert (after1 + after2)[1..] == after1[1..] + after2;
        TransformsConcat(ops1[1..], before1[1..], after1[1..], b + 1, a + 1, ops2, before2, after2);
    }
  }

  lemma {:induction false} EqualsConcat(ops1: seq<Op>, ops2: seq<Op>)
    ensures Equals(ops1 + ops2) == Equals(ops1) + Equals(ops2)
  {
    if ops1 == [] {
      assert ops1 + ops2 == ops2;
    } else {
      assert (ops1 + ops2)[1..] == ops1[1..] + ops2;
      EqualsConcat(ops1[1..], ops2);
    }
  }

  /** No correct script keeps more than a longest common subsequence, and its length
      is determined by how much it keeps. */
  lemma {:induction false} KeepsAtMostLcs<T>(ops: seq<Op>, before: seq<T>, after: seq<T>, b: nat, a: nat)
    requires Transforms(ops, before, after, b, a)
    ensures Equals(ops) <= Lcs.Length(before, after)
    ensures |ops| + Equals(ops) == |before| + |after|
  {
    if ops != [] {
      assert before != [] ==> before == [before[0]] + before[1..];
      assert after != [] ==> after == [after[0]] + after[1..];
      match ops[0].kind
      case OpDelete =>
        KeepsAtMostLcs(ops[1..], before[1..], after, b + 1, a);
        DropFirstBefore(before, after);
      case OpInsert =>
        KeepsAtMostLcs(ops[1..], before, after[1..], b, a + 1);
        Lcs.DropFirst(before, after);
      case OpEqual =>
        KeepsAtMostLcs(ops[1..], before[1..], after[1..], b + 1, a + 1);
        Lcs.PeelFirst(before[0], before[1..], after[0], after[1..]);
    }
  }

  lemma {:induction false} DropFirstBefore<T>(before: seq<T>, after: seq<T>)
    requires before != []
    ensures Lcs.Length(before[1..], after) <= Lcs.Length(before, after)
  {
    assert before == [before[0]] + before[1..];
    Lcs.SplitLower([before[0]], before[1..], after, 0);
    assert after[0..] == after;
  }

  // ----- the computed script -----

  /** n operations of one kind with consecutive indices. */
  ghost function Run(kind: OpKind, start: nat, n: nat): seq<Op> {
    seq(n, i requires 0 <= i < n => Op(kind, start + i))
  }

  /** The first index holding x, or |after|. */
  ghost function FirstIndex<T>(x: T, after: seq<T>): (j: nat)
    ensures j <= |after|
  {
    if after == [] then 0 else if after[0] == x then 0 else FirstIndex(x, after[1..]) + 1
  }

  lemma {:induction false} FirstIndexIsFirst<T>(x: T, after: seq<T>)
    ensures var j := FirstIndex(x, after);
            (forall i :: 0 <= i < j ==> after[i] != x) && (j < |after| ==> after[j] == x)
  {
    if after != [] && after[0] != x {
      FirstIndexIsFirst(x, after[1..]);
    }
  }

  ghost function SingleScript<T>(x: T, after: seq<T>, b: nat, a: nat): seq<Op> {
    var j := FirstIndex(x, after);
    if j == |after| then [Op(OpDelete, b)] + Run(OpInsert, a, |after|)
    else Run(OpInsert, a, j) + [Op(OpEqual, a + j)] + Run(OpInsert, a + j + 1, |after| - j - 1)
  }

  ghost function Score<T>(left: seq<T>, right: seq<T>, after: seq<T>, j: nat): nat
    requires j <= |after|
  {
    Lcs.Length(left, after[..j]) + Lcs.Length(right, after[j..])
  }

  ghost function Scores<T>(left: seq<T>, right: seq<T>, after: seq<T>): (scores: seq<nat>)
    ensures |scores| == |after| + 1
  {
    seq(|after| + 1, j requires 0 <= j <= |after| => Score(left, right, after, j))
  }

  /** j is the first index at which the score is largest. */
  ghost predicate FirstMaximiser(scores: seq<nat>, j: nat) {
    && j < |scores|
    && (forall k :: 0 <= k < |scores| ==> scores[k] <= scores[j])
    && (forall k :: 0 <= k < j ==> scores[k] < scores[j])
  }

  lemma {:induction false} FirstMaximiserExists(scores: seq<nat>)
    requires scores != []
    ensures exists j: nat :: FirstMaximiser(scores, j)
  {
    var n := |scores| - 1;
    if n == 0 {
      assert FirstMaximiser(scores, 0);
    } else {
      FirstMaximiserExists(scores[..n]);
      var j: nat :| FirstMaximiser(scores[..n], j);
      assert FirstMaximiser(scores, if scores[n] > scores[j] then n else j);
    }
  }

  /** Where the divide step splits `after`. */
  ghost function Cut<T>(left: seq<T>, right: seq<T>, after: seq<T>): (j: nat)
    ensures j <= |after|
  {
    var scores := Scores(left, right, after);
    FirstMaximiserExists(scores);
    var j: nat :| FirstMaximiser(scores, j);
    j
  }

  lemma {:induction false} CutIsFirstMaximiser<T>(left: seq<T>, right: seq<T>, after: seq<T>)
    ensures FirstMaximiser(Scores(left, right, after), Cut(left, right, after))
  {
    FirstMaximiserExists(Scores(left, right, after));
  }

  lemma {:induction false} CutIsUnique<T>(left: seq<T>, right: seq<T>, after: seq<T>, j: nat)
    requires FirstMaximiser(Scores(left, right, after), j)
    ensures j == Cut(left, right, after)
  {
    CutIsFirstMaximiser(left, right, after);
    var scores, k := Scores(left, right, after), Cut(left, right, after);
    assert scores[k] == scores[j];
  }

  /** The script computed for before[bStart..bEnd] and after[aStart..aEnd]. */
  ghost function Script<T>(before: seq<T>, after: seq<T>, bStart: nat, bEnd: nat, aStart: nat, aEnd: nat): seq<Op>
    requires bStart <= bEnd <= |before| && aStart <= aEnd <= |after|
    decreases bEnd - bStart
  {
    if bStart == bEnd then Run(OpInsert, aStart, aEnd - aStart)
    else if aStart == aEnd then Run(OpDelete, bStart, bEnd - bStart)
    else if bEnd - bStart == 1 then SingleScript(before[bStart], after[aStart..aEnd], bStart, aStart)
    else
      var bMid := bStart + (bEnd - bStart) / 2;
      var aMid := aStart + Cut(before[bStart..bMid], before[bMid..bEnd], after[aStart..aEnd]);
      Script(before, after, bStart, bMid, aStart, aMid) + Script(before, after, bMid, bEnd, aMid, aEnd)
  }

  lemma {:induction false} ScriptDivides<T>(before: seq<T>, after: seq<T>, bStart: nat, bMid: nat, bEnd: nat,
                                            aStart: nat, aMid: nat, aEnd: nat)
    requires bStart + 1 < bEnd <= |before| && aStart < aEnd <= |after| && bMid == bStart + (bEnd - bStart) / 2
    requires aMid == aStart + Cut(before[bStart..bMid], before[bMid..bEnd], after[aStart..aEnd])
    ensures Script(before, after, bStart, bEnd, aStart, aEnd) ==
            Script(before, after, bStart, bMid, aStart, aMid) + Script(before, after, bMid, bEnd, aMid, aEnd)
  {
    assert bStart != bEnd && aStart != aEnd && bEnd - bStart != 1;
  }

  ghost function Diff<T>(before: seq<T>, after: seq<T>): seq<Op> {
    Script(before, after, 0, |before|, 0, |after|)
  }

  // ----- validity -----

  lemma {:induction false} RunTransforms<T>(kind: OpKind, before: seq<T>, after: seq<T>, b: nat, a: nat)
    requires (kind == OpInsert && before == []) || (kind == OpDelete && after == [])
    ensures var start := if kind == OpInsert then a else b;
            var ops := Run(kind, start, |before| + |after|);
            Transforms(ops, before, after, b, a) && Equals(ops) == 0
    decreases |before| + |after|
  {
    var start := if kind == OpInsert then a else b;
    var ops := Run(kind, start, |before| + |after|);
    if before != [] {
      assert ops[1..] == Run(kind, b + 1, |before| - 1);
      RunTransforms(kind, before[1..], after, b + 1, a);
    } else if after != [] {
      assert ops[1..] == Run(kind, a + 1, |after| - 1);
      RunTransforms(kind, before, after[1..], b, a + 1);
    }
  }

  lemma {:induction false} OneOpTransforms<T>(op: Op, before: seq<T>, after: seq<T>, b: nat, a: nat)
    requires |before| == 1
    requires (op == Op(OpDelete, b) && after == [])
          || (op == Op(OpEqual, a) && |after| == 1 && before[0] == after[0])
    ensures Transforms([op], before, after, b, a)
    ensures Equals([op]) == if op.kind == OpEqual then 1 else 0
  {
    var rest := [op][1..];
    assert rest == [];
    assert Transforms(rest, before[1..], if op.kind == OpEqual then after[1..] else after,
                      b + 1, if op.kind == OpEqual then a + 1 else a);
  }

  lemma {:induction false} SingleMissCorrect<T>(x: T, after: seq<T>, b: nat, a: nat)
    ensures var ops := [Op(OpDelete, b)] + Run(OpInsert, a, |after|);
            Transforms(ops, [x], after, b, a) && Equals(ops) == 0
  {
    var d, r := [Op(OpDelete, b)], Run(OpInsert, a, |after|);
    OneOpTransforms(d[0], [x], [], b, a);
    RunTransforms(OpInsert, [], after, b + 1, a);
    TransformsConcat(d, [x], [], b, a, r, [], after);
    EqualsConcat(d, r);
    assert [x] + [] == [x] && [] + after == after;
  }

  lemma {:induction false} SingleHitCorrect<T>(x: T, after: seq<T>, j: nat, b: nat, a: nat)
    requires j < |after| && after[j] == x
    ensures var ops := Run(OpInsert, a, j) + [Op(OpEqual, a + j)] + Run(OpInsert, a + j + 1, |after| - j - 1);
            Transforms(ops, [x], after, b, a) && Equals(ops) == 1
  {
    var i1, e, i2 := Run(OpInsert, a, j), [Op(OpEqual, a + j)], Run(OpInsert, a + j + 1, |after| - j - 1);
    RunTransforms(OpInsert, [], after[..j], b, a);
    OneOpTransforms(e[0], [x], [after[j]], b, a + j);
    RunTransforms(OpInsert, [], after[j + 1..], b + 1, a + j + 1);
    TransformsConcat(i1, [], after[..j], b, a, e, [x], [after[j]]);
    TransformsConcat(i1 + e, [] + [x], after[..j] + [after[j]], b, a, i2, [], after[j + 1..]);
    EqualsConcat(i1, e);
    EqualsConcat(i1 + e, i2);
    assert [] + [x] + [] == [x] && after[..j] + [after[j]] + after[j + 1..] == after;
  }

  lemma {:induction false} SingleCorrect<T>(x: T, after: seq<T>, b: nat, a: nat)
    ensures Transforms(SingleScript(x, after, b, a), [x], after, b, a)
    ensures Equals(SingleScript(x, after, b, a)) == Lcs.Length([x], after)
  {
    var j := FirstIndex(x, after);
    FirstIndexIsFirst(x, after);
    Lcs.Single(x, after);
    assert x in after <==> j < |after|;
    if j == |after| {
      SingleMissCorrect(x, after, b, a);
    } else {
      SingleHitCorrect(x, after, j, b, a);
    }
  }

  /** Splitting `after` at the first maximiser loses nothing. */
  lemma {:induction false} CutIsOptimal<T>(left: seq<T>, right: seq<T>, after: seq<T>)
    ensures Score(left, right, after, Cut(left, right, after)) == Lcs.Length(left + right, after)
  {
    var j := Cut(left, right, after);
    Lcs.SplitLower(left, right, after, j);
    CutIsFirstMaximiser(left, right, after);
    var k := Lcs.SplitAttained(left, right, after);
    assert Scores(left, right, after)[k] <= Scores(left, right, after)[j];
  }

  /** Correct, and keeping exactly a longest common subsequence. */
  ghost predicate Optimal<T>(ops: seq<Op>, before: seq<T>, after: seq<T>, b: nat, a: nat) {
    Transforms(ops, before, after, b, a) && Equals(ops) == Lcs.Length(before, after)
  }

  // ----- normal form -----

  /** A correct script that ends in an insertion is a correct script for one element
      less of `after`, keeping just as much. */
  lemma {:induction false} DropFinalInsert<T>(ops: seq<Op>, before: seq<T>, after: seq<T>, b: nat, a: nat)
    requires ops != [] && ops[|ops| - 1].kind == OpInsert && Transforms(ops, before, after, b, a)
    ensures after != [] && Transforms(ops[..|ops| - 1], before, after[..|after| - 1], b, a)
    ensures Equals(ops[..|ops| - 1]) == Equals(ops)
  {
    var init := ops[..|ops| - 1];
    if |ops| == 1 {
      assert ops[1..] == [];
    } else {
      assert init[1..] == ops[1..][..|ops[1..]| - 1];
      match ops[0].kind
      case OpDelete =>
        DropFinalInsert(ops[1..], before[1..], after, b + 1, a);
      case OpInsert =>
        DropFinalInsert(ops[1..], before, after[1..], b, a + 1);
        assert after[1..][..|after[1..]| - 1] == after[..|after| - 1][1..];
      case OpEqual =>
        DropFinalInsert(ops[1..], before[1..], after[1..], b + 1, a + 1);
        assert after[1..][..|after[1..]| - 1] == after[..|after| - 1][1..];
    }
  }

  /** Because the cut is the first maximiser, an optimal left script never ends in an
      insertion. */
  lemma {:induction false} LeftEndsWithoutInsert<T>(ops: seq<Op>, left: seq<T>, right: seq<T>, after: seq<T>, b: nat,
                                                    a: nat)
    requires ops != [] && Optimal(ops, left, after[..Cut(left, right, after)], b, a)
    ensures ops[|ops| - 1].kind != OpInsert
  {
    var j := Cut(left, right, after);
    CutIsFirstMaximiser(left, right, after);
    if ops[|ops| - 1].kind == OpInsert {
      DropFinalInsert(ops, left, after[..j], b, a);
      assert Scores(left, right, after)[j - 1] < Scores(left, right, after)[j];
      assert after[..j][..j - 1] == after[..j - 1] && after[j - 1..][1..] == after[j..];
      Lcs.DropFirst(right, after[j - 1..]);
      KeepsAtMostLcs(ops[..|ops| - 1], left, after[..j - 1], b, a);
      assert false;
    }
  }

  lemma {:induction false} DeletesFirstConcat(s1: seq<Op>, s2: seq<Op>)
    requires DeletesFirst(KindsOf(s1)) && DeletesFirst(KindsOf(s2))
    requires s1 != [] ==> s1[|s1| - 1].kind != OpInsert
    ensures DeletesFirst(KindsOf(s1 + s2))
  {
    var k1, k2 := KindsOf(s1), KindsOf(s2);
    var k := k1 + k2;
    assert KindsOf(s1 + s2) == k;
    forall i | 0 <= i < |k| - 1 && k[i] == OpInsert ensures k[i + 1] != OpDelete {
      if i < |k1| - 1 {
        assert k1[i + 1] != OpDelete;
      } else if i >= |k1| {
        assert k2[i - |k1| + 1] != OpDelete;
      }
    }
  }

  // ----- the computed script is optimal and in normal form -----

  ghost predicate Canonical<T>(ops: seq<Op>, before: seq<T>, after: seq<T>, b: nat, a: nat) {
    Optimal(ops, before, after, b, a) && DeletesFirst(KindsOf(ops))
  }

  /** Two canonical halves cut at the right place make a canonical whole. */
  lemma {:induction false} HalvesCanonical<T>(s1: seq<Op>, s2: seq<Op>, left: seq<T>, right: seq<T>, part1: seq<T>,
                                              part2: seq<T>, b: nat, a: nat)
    requires |part1| == Cut(left, right, part1 + part2)
    requires Canonical(s1, left, part1, b, a)
    requires Canonical(s2, right, part2, b + |left|, a + |part1|)
    ensures Canonical(s1 + s2, left + right, part1 + part2, b, a)
  {
    TransformsConcat(s1, left, part1, b, a, s2, right, part2);
    EqualsConcat(s1, s2);
    CutIsOptimal(left, right, part1 + part2);
    assert (part1 + part2)[..|part1|] == part1 && (part1 + part2)[|part1|..] == part2;
    if s1 != [] {
      LeftEndsWithoutInsert(s1, left, right, part1 + part2, b, a);
    }
    DeletesFirstConcat(s1, s2);
  }

  lemma {:induction false} RunCanonical<T>(kind: OpKind, before: seq<T>, after: seq<T>, b: nat, a: nat)
    requires (kind == OpInsert && before == []) || (kind == OpDelete && after == [])
    ensures Canonical(Run(kind, if kind == OpInsert then a else b, |before| + |after|), before, after, b, a)
  {
    RunTransforms(kind, before, after, b, a);
  }

  lemma {:induction false} SingleCanonical<T>(x: T, after: seq<T>, b: nat, a: nat)
    ensures Canonical(SingleScript(x, after, b, a), [x], after, b, a)
  {
    SingleCorrect(x, after, b, a);
  }

  /** Induction over the divide and conquer: what holds of every script with at most
      one element to delete or nothing to insert, and is kept by joining the scripts of two halves,
      holds of every script. P relates a script to its range of `before` and of `after`. */
  lemma {:induction false} ScriptInduction<T>(before: seq<T>, after: seq<T>, P: (seq<Op>, nat, nat, nat, nat) -> bool,
                                              bStart: nat, bEnd: nat, aStart: nat, aEnd: nat)
    requires bStart <= bEnd <= |before| && aStart <= aEnd <= |after|
    requires forall b0: nat, b1: nat, a0: nat, a1: nat
               {:trigger P(Script(before, after, b0, b1, a0, a1), b0, b1, a0, a1)} ::
               b0 <= b1 <= |before| && a0 <= a1 <= |after| && (b1 - b0 <= 1 || a0 == a1)
               ==> P(Script(before, after, b0, b1, a0, a1), b0, b1, a0, a1)
    requires forall s1: seq<Op>, s2: seq<Op>, b0: nat, bMid: nat, b1: nat, a0: nat, aMid: nat, a1: nat ::
               b0 < bMid < b1 <= |before| && a0 < a1 <= |after|
               && aMid == a0 + Cut(before[b0..bMid], before[bMid..b1], after[a0..a1])
               && P(s1, b0, bMid, a0, aMid) && P(s2, bMid, b1, aMid, a1)
               ==> P(s1 + s2, b0, b1, a0, a1)
    ensures P(Script(before, after, bStart, bEnd, aStart, aEnd), bStart, bEnd, aStart, aEnd)
    decreases bEnd - bStart
  {
    if bEnd - bStart > 1 && aStart != aEnd {
      var bMid := bStart + (bEnd - bStart) / 2;
      var aMid := aStart + Cut(before[bStart..bMid], before[bMid..bEnd], after[aStart..aEnd]);
      ScriptInduction(before, after, P, bStart, bMid, aStart, aMid);
      ScriptInduction(before, after, P, bMid, bEnd, aMid, aEnd);
      var s1, s2 := Script(before, after, bStart, bMid, aStart, aMid), Script(before, after, bMid, bEnd, aMid, aEnd);
      assert P(s1 + s2, bStart, bEnd, aStart, aEnd);
    }
  }

  // ----- what a caller of Diff gets -----

  lemma {:induction false} DiffCanonical<T>(before: seq<T>, after: seq<T>)
    ensures Canonical(Diff(before, after), before, after, 0, 0)
  {
    var P := (ops: seq<Op>, b0: nat, b1: nat, a0: nat, a1: nat) =>
      b0 <= b1 <= |before| && a0 <= a1 <= |after| && Canonical(ops, before[b0..b1], after[a0..a1], b0, a0);
    forall b0: nat, b1: nat, a0: nat, a1: nat |
      b0 <= b1 <= |before| && a0 <= a1 <= |after| && (b1 - b0 <= 1 || a0 == a1)
      ensures P(Script(before, after, b0, b1, a0, a1), b0, b1, a0, a1)
    {
      if b0 == b1 {
        RunCanonical(OpInsert, before[b0..b1], after[a0..a1], b0, a0);
      } else if a0 == a1 {
        RunCanonical(OpDelete, before[b0..b1], after[a0..a1], b0, a0);
      } else {
        SingleCanonical(before[b0], after[a0..a1], b0, a0);
        assert before[b0..b1] == [before[b0]];
      }
    }
    forall s1: seq<Op>, s2: seq<Op>, b0: nat, bMid: nat, b1: nat, a0: nat, aMid: nat, a1: nat |
      b0 < bMid < b1 <= |before| && a0 < a1 <= |after|
      && aMid == a0 + Cut(before[b0..bMid], before[bMid..b1], after[a0..a1])
      && P(s1, b0, bMid, a0, aMid) && P(s2, bMid, b1, aMid, a1)
      ensures P(s1 + s2, b0, b1, a0, a1)
    {
      assert before[b0..b1] == before[b0..bMid] + before[bMid..b1];
      assert after[a0..a1] == after[a0..aMid] + after[aMid..a1];
      HalvesCanonical(s1, s2, before[b0..bMid], before[bMid..b1], after[a0..aMid], after[aMid..a1], b0, a0);
    }
    ScriptInduction(before, after, P, 0, |before|, 0, |after|);
    assert before[0..|before|] == before && after[0..|after|] == after;
  }

  /** Replaying the script turns `before` into `after`. */
  lemma {:induction false} DiffPatches<T>(before: seq<T>, after: seq<T>)
    ensures Patch(Diff(before, after), before, after) == Patched(after)
  {
    DiffCanonical(before, after);
    assert after[0..] == after;
    TransformsPatches(Diff(before, after), before, after, 0, 0);
  }

  /** No correct script is shorter. */
  lemma {:induction false} DiffMinimal<T>(before: seq<T>, after: seq<T>, other: seq<Op>)
    requires Transforms(other, before, after, 0, 0)
    ensures |Diff(before, after)| <= |other|
    ensures |Diff(before, after)| == |before| + |after| - Lcs.Length(before, after)
  {
    DiffCanonical(before, after);
    KeepsAtMostLcs(Diff(before, after), before, after, 0, 0);
    KeepsAtMostLcs(other, before, after, 0, 0);
  }

  // ----- which of the optimal scripts it is -----

  /** A single line is matched with the first equal one. */
  lemma {:induction false} OneLineKeepsFirst<T>(x: T, after: seq<T>, i: nat)
    requires i < |Diff([x], after)| && Diff([x], after)[i].kind == OpEqual
    ensures var j := Diff([x], after)[i].index;
            j < |after| && after[j] == x && forall k :: 0 <= k < j ==> after[k] != x
  {
    FirstIndexIsFirst(x, after);
    if after != [] {
      assert after[0..|after|] == after;
      assert Diff([x], after) == SingleScript(x, after, 0, 0);
    }
  }

  /** The same operations further down in both lists. */
  function Moved(ops: seq<Op>, b: nat, a: nat): seq<Op> {
    seq(|ops|, i requires 0 <= i < |ops| =>
      Op(ops[i].kind, ops[i].index + if ops[i].kind == OpDelete then b else a))
  }

  /** The elements of s from `from` on are those of t, d further down. */
  ghost predicate SameFrom<T>(s: seq<T>, t: seq<T>, from: nat, upto: nat, d: nat) {
    from <= upto <= |s| && upto + d <= |t| && s[from..upto] == t[from + d..upto + d]
  }

  lemma {:induction false} SliceOfSlice<T>(s: seq<T>, from: nat, upto: nat, p: nat, q: nat)
    requires from <= upto <= |s| && p <= q <= upto - from
    ensures s[from..upto][p..q] == s[from + p..from + q]
  {
    forall i | 0 <= i < q - p ensures s[from..upto][p..q][i] == s[from + p..from + q][i] {
      assert s[from..upto][p + i] == s[from + p + i];
    }
  }

  lemma {:induction false} SamePart<T>(s: seq<T>, t: seq<T>, from: nat, upto: nat, d: nat, i: nat, j: nat)
    requires SameFrom(s, t, from, upto, d) && from <= i <= j <= upto
    ensures SameFrom(s, t, i, j, d)
  {
    SliceOfSlice(s, from, upto, i - from, j - from);
    SliceOfSlice(t, from + d, upto + d, i - from, j - from);
  }

  /** What comes before and after a range of lines does not matter to its script. */
  lemma {:induction false} ScriptMoves<T>(before: seq<T>, after: seq<T>, bStart: nat, bEnd: nat, aStart: nat, aEnd: nat,
                                          before': seq<T>, after': seq<T>, b: nat, a: nat, ops: seq<Op>)
    requires SameFrom(before, before', bStart, bEnd, b) && SameFrom(after, after', aStart, aEnd, a)
    requires ops == Script(before, after, bStart, bEnd, aStart, aEnd)
    ensures Script(before', after', bStart + b, bEnd + b, aStart + a, aEnd + a) == Moved(ops, b, a)
    decreases bEnd - bStart, 1
  {
    if bEnd - bStart > 1 && aStart < aEnd {
      var bMid := bStart + (bEnd - bStart) / 2;
      var aMid := aStart + Cut(before[bStart..bMid], before[bMid..bEnd], after[aStart..aEnd]);
      var first, second := ScriptOfHalves(before, after, bStart, bMid, bEnd, aStart, aMid, aEnd);
      SameParts(before, before', bStart, bMid, bEnd, b);
      SameParts(after, after', aStart, aMid, aEnd, a);
      HalvesMove(before, after, bStart, bMid, bEnd, aStart, aMid, aEnd, before', after', b, a, first, second);
    } else {
      SmallMoves(before, after, bStart, bEnd, aStart, aEnd, before', after', b, a);
    }
  }

  lemma {:induction false} HalvesMove<T>(before: seq<T>, after: seq<T>, bStart: nat, bMid: nat, bEnd: nat, aStart: nat,
                                         aMid: nat, aEnd: nat, before': seq<T>, after': seq<T>, b: nat, a: nat,
                                         first: seq<Op>, second: seq<Op>)
    requires SameFrom(before, before', bStart, bMid, b) && SameFrom(before, before', bMid, bEnd, b)
    requires SameFrom(after, after', aStart, aMid, a) && SameFrom(after, after', aMid, aEnd, a)
    requires bStart + 1 < bEnd && bMid == bStart + (bEnd - bStart) / 2 && aStart < aEnd
    requires aMid == aStart + Cut(before'[bStart + b..bMid + b], before'[bMid + b..bEnd + b],
                                  after'[aStart + a..aEnd + a])
    requires first == Script(before, after, bStart, bMid, aStart, aMid)
    requires second == Script(before, after, bMid, bEnd, aMid, aEnd)
    ensures Script(before', after', bStart + b, bEnd + b, aStart + a, aEnd + a) == Moved(first + second, b, a)
    decreases bEnd - bStart, 0
  {
    ScriptMoves(before, after, bStart, bMid, aStart, aMid, before', after', b, a, first);
    ScriptMoves(before, after, bMid, bEnd, aMid, aEnd, before', after', b, a, second);
    ScriptDivides(before', after', bStart + b, bMid + b, bEnd + b, aStart + a, aMid + a, aEnd + a);
    MovedConcat(first, second, b, a);
  }

  lemma {:induction false} SameParts<T>(s: seq<T>, t: seq<T>, from: nat, mid: nat, upto: nat, d: nat)
    requires SameFrom(s, t, from, upto, d) && from <= mid <= upto
    ensures SameFrom(s, t, from, mid, d) && SameFrom(s, t, mid, upto, d)
  {
    SamePart(s, t, from, upto, d, from, mid);
    SamePart(s, t, from, upto, d, mid, upto);
  }

  lemma {:induction false} ScriptOfHalves<T>(before: seq<T>, after: seq<T>, bStart: nat, bMid: nat, bEnd: nat,
                                             aStart: nat, aMid: nat, aEnd: nat)
    returns (first: seq<Op>, second: seq<Op>)
    requires bStart + 1 < bEnd <= |before| && aStart < aEnd <= |after| && bMid == bStart + (bEnd - bStart) / 2
    requires aMid == aStart + Cut(before[bStart..bMid], before[bMid..bEnd], after[aStart..aEnd])
    ensures first == Script(before, after, bStart, bMid, aStart, aMid)
    ensures second == Script(before, after, bMid, bEnd, aMid, aEnd)
    ensures Script(before, after, bStart, bEnd, aStart, aEnd) == first + second
  {
    ScriptDivides(before, after, bStart, bMid, bEnd, aStart, aMid, aEnd);
    first := Script(before, after, bStart, bMid, aStart, aMid);
    second := Script(before, after, bMid, bEnd, aMid, aEnd);
  }

  lemma {:induction false} SmallMoves<T>(before: seq<T>, after: seq<T>, bStart: nat, bEnd: nat, aStart: nat, aEnd: nat,
                                         before': seq<T>, after': seq<T>, b: nat, a: nat)
    requires SameFrom(before, before', bStart, bEnd, b) && SameFrom(after, after', aStart, aEnd, a)
    requires bEnd - bStart <= 1 || aStart == aEnd
    ensures Script(before', after', bStart + b, bEnd + b, aStart + a, aEnd + a) ==
            Moved(Script(before, after, bStart, bEnd, aStart, aEnd), b, a)
  {
    if bEnd - bStart == 1 && aStart < aEnd {
      assert before[bStart..bEnd] == [before[bStart]] && before'[bStart + b..bEnd + b] == [before'[bStart + b]];
      SingleMoves(before[bStart], after[aStart..aEnd], bStart, aStart, b, a);
    }
  }

  lemma {:induction false} SingleMoves<T>(x: T, after: seq<T>, b: nat, a: nat, db: nat, da: nat)
    ensures SingleScript(x, after, b + db, a + da) == Moved(SingleScript(x, after, b, a), db, da)
  {
  }

  lemma {:induction false} MovedConcat(ops1: seq<Op>, ops2: seq<Op>, b: nat, a: nat)
    ensures Moved(ops1 + ops2, b, a) == Moved(ops1, b, a) + Moved(ops2, b, a)
  {
  }

  /** Cutting at k leaves no more to keep than cutting at j, and less if it comes first. */
  ghost predicate NoBetter<T>(left: seq<T>, right: seq<T>, after: seq<T>, j: nat, k: nat)
    requires j <= |after| && k <= |after|
  {
    var kept := Lcs.Length(left, after[..k]) + Lcs.Length(right, after[k..]);
    var most := Lcs.Length(left, after[..j]) + Lcs.Length(right, after[j..]);
    if k < j then kept < most else kept <= most
  }

  /** j is the first cut that leaves most to keep. */
  ghost predicate BestCut<T>(left: seq<T>, right: seq<T>, after: seq<T>, j: nat) {
    j <= |after| && forall k: nat :: k <= |after| ==> NoBetter(left, right, after, j, k)
  }

  lemma {:induction false} CutIsBest<T>(left: seq<T>, right: seq<T>, after: seq<T>)
    ensures BestCut(left, right, after, Cut(left, right, after))
  {
    var j, scores := Cut(left, right, after), Scores(left, right, after);
    CutIsFirstMaximiser(left, right, after);
    forall k: nat | k <= |after| ensures NoBetter(left, right, after, j, k) {
      assert scores[k] == Score(left, right, after, k) && scores[j] == Score(left, right, after, j);
    }
  }

  lemma {:induction false} FirstPart<T>(before: seq<T>, after: seq<T>, mid: nat, j: nat)
    requires mid <= |before| && j <= |after|
    ensures Script(before, after, 0, mid, 0, j) == Diff(before[..mid], after[..j])
  {
    WholeSlices(before, mid);
    WholeSlices(after, j);
    var ops := Diff(before[..mid], after[..j]);
    ScriptMoves(before[..mid], after[..j], 0, mid, 0, j, before, after, 0, 0, ops);
    MovedNowhere(ops);
  }

  lemma {:induction false} SecondPart<T>(before: seq<T>, after: seq<T>, mid: nat, j: nat)
    requires mid <= |before| && j <= |after|
    ensures Script(before, after, mid, |before|, j, |after|) == Moved(Diff(before[mid..], after[j..]), mid, j)
  {
    WholeSlices(before, mid);
    WholeSlices(after, j);
    ScriptMoves(before[mid..], after[j..], 0, |before| - mid, 0, |after| - j, before, after, mid, j,
                Diff(before[mid..], after[j..]));
  }

  /** The script of two lists is that of the first half of `before` with what comes before the
      first cut of `after` that leaves most to keep, and then that of the rest. */
  lemma {:induction false} DiffOfHalves<T>(before: seq<T>, after: seq<T>, left: seq<T>, right: seq<T>)
    returns (j: nat)
    requires |before| >= 2 && after != [] && left == before[..|before| / 2] && right == before[|before| / 2..]
    ensures BestCut(left, right, after, j)
    ensures Diff(before, after) == Diff(left, after[..j]) + Moved(Diff(right, after[j..]), |left|, j)
  {
    j := Cut(left, right, after);
    CutIsBest(left, right, after);
    WholeSlices(before, |left|);
    WholeSlices(after, j);
    FirstPart(before, after, |left|, j);
    SecondPart(before, after, |left|, j);
    var first, second := ScriptOfHalves(before, after, 0, |left|, |before|, 0, j, |after|);
  }

  lemma {:induction false} WholeSlices<T>(s: seq<T>, k: nat)
    requires k <= |s|
    ensures s[0..k] == s[..k] && s[k..|s|] == s[k..] && s[0..|s|] == s
    ensures SameFrom(s[..k], s, 0, k, 0) && SameFrom(s[k..], s, 0, |s| - k, k)
  {
  }

  lemma {:induction false} MovedNowhere(ops: seq<Op>)
    ensures Moved(ops, 0, 0) == ops
  {
  }
}
