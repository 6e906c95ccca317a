/** The length of a longest common subsequence: the quantity that both passes of
    the diff engine tabulate, and the laws of it that divide and conquer relies on. */
module Lcs {

  import opened Ints

  /** Longest common subsequence length, peeling the last elements (the order of
      the forward pass). */
  ghost function Length<T>(a: seq<T>, b: seq<T>): nat
    decreases |a| + |b|
  {
    if a == [] || b == [] then 0
    else if a[|a| - 1] == b[|b| - 1] then Length(a[..|a| - 1], b[..|b| - 1]) + 1
    else Max(Length(a[..|a| - 1], b), Length(a, b[..|b| - 1]))
  }

  /** s can be obtained from a by dropping elements. */
  ghost predicate Subsequence<T>(s: seq<T>, a: seq<T>)
    decreases |a|
  {
    if s == [] then true
    else if a == [] then false
    else if s[|s| - 1] == a[|a| - 1] && Subsequence(s[..|s| - 1], a[..|a| - 1]) then true
    else Subsequence(s, a[..|a| - 1])
  }

  // ----- Length is the maximum over all common subsequences -----

  lemma {:induction false} SubsequenceInit<T>(s: seq<T>, a: seq<T>)
    requires s != [] && Subsequence(s, a)
    ensures Subsequence(s[..|s| - 1], a)
    ensures s[|s| - 1] == a[|a| - 1] ==> Subsequence(s[..|s| - 1], a[..|a| - 1])
    decreases |a|
  {
    var a', s' := a[..|a| - 1], s[..|s| - 1];
    if s[|s| - 1] == a[|a| - 1] && Subsequence(s', a') {
      SubsequenceGrow(s', a', a[|a| - 1]);
      assert a == a' + [a[|a| - 1]];
    } else {
      SubsequenceInit(s, a');
      SubsequenceGrow(s', a', a[|a| - 1]);
      assert a == a' + [a[|a| - 1]];
    }
  }

  lemma {:induction false} SubsequenceGrow<T>(s: seq<T>, a: seq<T>, x: T)
    requires Subsequence(s, a)
    ensures Subsequence(s, a + [x])
  {
    assert (a + [x])[..|a|] == a;
  }

  /** No common subsequence is longer than Length. */
  lemma {:induction false} LengthIsUpperBound<T>(s: seq<T>, a: seq<T>, b: seq<T>)
    requires Subsequence(s, a) && Subsequence(s, b)
    ensures |s| <= Length(a, b)
    decreases |a| + |b|
  {
    if s != [] {
      var a', b', s' := a[..|a| - 1], b[..|b| - 1], s[..|s| - 1];
      if a[|a| - 1] == b[|b| - 1] {
        SubsequenceInit(s, a);
        SubsequenceInit(s, b);
        if s[|s| - 1] == a[|a| - 1] {
          LengthIsUpperBound(s', a', b');
        } else {
          LengthIsUpperBound(s, a', b');
        }
      } else if s[|s| - 1] == a[|a| - 1] {
        LengthIsUpperBound(s, a, b');
      } else {
        LengthIsUpperBound(s, a', b);
      }
    }
  }

  /** Some common subsequence has exactly this length. */
  lemma {:induction false} LengthIsAttained<T>(a: seq<T>, b: seq<T>) returns (s: seq<T>)
    ensures Subsequence(s, a) && Subsequence(s, b) && |s| == Length(a, b)
    decreases |a| + |b|
  {
    if a == [] || b == [] {
      s := [];
    } else {
      var a', b' := a[..|a| - 1], b[..|b| - 1];
      assert a == a' + [a[|a| - 1]] && b == b' + [b[|b| - 1]];
      if a[|a| - 1] == b[|b| - 1] {
        var s' := LengthIsAttained(a', b');
        s := s' + [a[|a| - 1]];
        assert s[..|s| - 1] == s';
      } else if Length(a', b) >= Length(a, b') {
        s := LengthIsAttained(a', b);
        SubsequenceGrow(s, a', a[|a| - 1]);
      } else {
        s := LengthIsAttained(a, b');
        SubsequenceGrow(s, b', b[|b| - 1]);
      }
    }
  }

  // ----- growth at the end -----

  /** Dropping the last element of either side loses nothing or exactly one. */
  lemma {:induction false} DropLast<T>(a: seq<T>, b: seq<T>)
    ensures a != [] ==> Length(a[..|a| - 1], b) <= Length(a, b) <= Length(a[..|a| - 1], b) + 1
    ensures b != [] ==> Length(a, b[..|b| - 1]) <= Length(a, b) <= Length(a, b[..|b| - 1]) + 1
    decreases |a| + |b|
  {
    if a != [] && b != [] {
      var a', b' := a[..|a| - 1], b[..|b| - 1];
      DropLast(a', b);
      DropLast(a, b');
    }
  }

  lemma {:induction false} PrefixMonotone<T>(a: seq<T>, b: seq<T>, j: nat)
    requires j <= |b|
    ensures Length(a, b[..j]) <= Length(a, b)
    decreases |b| - j
  {
    if j == |b| {
      assert b[..j] == b;
    } else {
      PrefixMonotone(a, b, j + 1);
      DropLast(a, b[..j + 1]);
      assert b[..j + 1][..j] == b[..j];
    }
  }

  // ----- the split theorem -----

  /** Growing b by its last element grows only the part after the cut. */
  lemma {:induction false} CutBeforeLast<T>(a2: seq<T>, b: seq<T>, j: nat)
    requires j < |b|
    ensures b[..|b| - 1][..j] == b[..j] && b[..|b| - 1][j..] == b[j..][..|b[j..]| - 1]
    ensures Length(a2, b[..|b| - 1][j..]) <= Length(a2, b[j..])
  {
    DropLast(a2, b[j..]);
  }

  /** Any cut of b yields a lower bound ... */
  lemma {:induction false} SplitLower<T>(a1: seq<T>, a2: seq<T>, b: seq<T>, j: nat)
    requires j <= |b|
    ensures Length(a1, b[..j]) + Length(a2, b[j..]) <= Length(a1 + a2, b)
    decreases |a2| + |b|
  {
    var a := a1 + a2;
    if a2 == [] {
      assert a == a1;
      PrefixMonotone(a1, b, j);
    } else if j == |b| {
      assert b[..j] == b;
      assert a[..|a| - 1] == a1 + a2[..|a2| - 1];
      SplitLower(a1, a2[..|a2| - 1], b, j);
      DropLast(a, b);
    } else {
      var a2', b' := a2[..|a2| - 1], b[..|b| - 1];
      assert a[..|a| - 1] == a1 + a2';
      CutBeforeLast(a2, b, j);
      if a2[|a2| - 1] == b[|b| - 1] {
        SplitLower(a1, a2', b', j);
      } else {
        SplitLower(a1, a2', b, j);
        SplitLower(a1, a2, b', j);
      }
    }
  }

  /** ... and some cut attains it. */
  lemma {:induction false} SplitAttained<T>(a1: seq<T>, a2: seq<T>, b: seq<T>) returns (j: nat)
    ensures j <= |b| && Length(a1, b[..j]) + Length(a2, b[j..]) == Length(a1 + a2, b)
    decreases |a2| + |b|
  {
    var a := a1 + a2;
    if a2 == [] {
      j := |b|;
      assert a == a1 && b[..j] == b;
    } else if b == [] {
      j := 0;
    } else {
      var a2', b' := a2[..|a2| - 1], b[..|b| - 1];
      assert a[..|a| - 1] == a1 + a2';
      if a2[|a2| - 1] == b[|b| - 1] {
        j := SplitAttained(a1, a2', b');
        CutBeforeLast(a2, b, j);
      } else if Length(a1 + a2', b) >= Length(a, b') {
        j := SplitAttained(a1, a2', b);
        DropLast(a2, b[j..]);
        SplitLower(a1, a2, b, j);
      } else {
        j := SplitAttained(a1, a2, b');
        CutBeforeLast(a2, b, j);
        SplitLower(a1, a2, b, j);
      }
    }
  }

  // ----- the same quantity, peeling the first elements (the backward pass) -----

  lemma {:induction false} Single<T>(x: T, b: seq<T>)
    ensures Length([x], b) == if x in b then 1 else 0
  {
    if b != [] {
      Single(x, b[..|b| - 1]);
      assert b == b[..|b| - 1] + [b[|b| - 1]];
    }
  }

  lemma {:induction false} DropFirst<T>(a: seq<T>, b: seq<T>)
    ensures b != [] ==> Length(a, b[1..]) <= Length(a, b) <= Length(a, b[1..]) + 1
    decreases |a| + |b|
  {
    if a != [] && |b| > 1 {
      var a', b' := a[..|a| - 1], b[..|b| - 1];
      assert b[1..][..|b[1..]| - 1] == b'[1..];
      DropFirst(a', b');
      DropFirst(a', b);
      DropFirst(a, b');
    } else if a != [] && b != [] {
      DropLast(a, b);
      assert b[1..] == [] && b[..|b| - 1] == [];
    }
  }

  lemma {:induction false} SuffixMonotone<T>(a: seq<T>, b: seq<T>, j: nat)
    requires j <= |b|
    ensures Length(a, b[j..]) <= Length(a, b)
    decreases j
  {
    if j == 0 {
      assert b[j..] == b;
    } else {
      SuffixMonotone(a, b, j - 1);
      DropFirst(a, b[j - 1..]);
      assert b[j - 1..][1..] == b[j..];
    }
  }

  /** The recurrence of the forward pass read from the other end. */
  lemma {:induction false} PeelFirst<T>(x: T, a: seq<T>, y: T, b: seq<T>)
    ensures x == y ==> Length([x] + a, [y] + b) == Length(a, b) + 1
    ensures x != y ==> Length([x] + a, [y] + b) == Max(Length(a, [y] + b), Length([x] + a, b))
  {
    var ys := [y] + b;
    assert ys[1..] == b && ys[..1] == [y] && ys[..0] == [] && ys[0..] == ys;
    DropFirst(a, ys);
    DropFirst([x] + a, ys);
    SplitLower([x], a, ys, 0);
    SplitLower([x], a, ys, 1);
    Single(x, [y]);
    var j := SplitAttained([x], a, ys);
    Single(x, ys[..j]);
    if j > 0 {
      SuffixMonotone(a, b, j - 1);
      assert ys[j..] == b[j - 1..];
      Single(x, b[..j - 1]);
      assert ys[..j] == [y] + b[..j - 1];
      SplitLower([x], a, b, j - 1);
    }
  }
}
