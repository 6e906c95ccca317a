/** Lists: flattening, repeating, selecting. */
module Seqs {

  lemma {:induction false} ConcatAssociative<T>(a: seq<T>, b: seq<T>, c: seq<T>)
    ensures (a + b) + c == a + (b + c)
  {
  }

  lemma {:induction false} SliceMiddle<T>(x: seq<T>, y: seq<T>, z: seq<T>)
    ensures (x + y + z)[|x|..|x| + |y|] == y
  {
  }

  function Concat<T>(xs: seq<seq<T>>): seq<T> {
    if xs == [] then [] else Concat(xs[..|xs| - 1]) + xs[|xs| - 1]
  }

  lemma {:induction false} ConcatSnoc<T>(xs: seq<seq<T>>, x: seq<T>)
    ensures Concat(xs + [x]) == Concat(xs) + x
  {
    assert (xs + [x])[..|xs|] == xs;
  }

  lemma {:induction false} ConcatAppend<T>(xs: seq<seq<T>>, ys: seq<seq<T>>)
    ensures Concat(xs + ys) == Concat(xs) + Concat(ys)
  {
    if ys == [] {
      assert xs + ys == xs;
    } else {
      var ys', y := ys[..|ys| - 1], ys[|ys| - 1];
      ConcatAppend(xs, ys');
      assert (xs + ys)[..|xs + ys| - 1] == xs + ys';
      ConcatAssociative(Concat(xs), Concat(ys'), y);
    }
  }

  lemma {:induction false} ConcatCons<T>(x: seq<T>, xs: seq<seq<T>>)
    ensures Concat([x] + xs) == x + Concat(xs)
  {
    ConcatAppend([x], xs);
    assert [x][..0] == [];
  }

  lemma {:induction false} ConcatElement<T>(xs: seq<seq<T>>, e: T) returns (i: nat)
    requires e in Concat(xs)
    ensures i < |xs| && e in xs[i]
  {
    i := |xs| - 1;
    if e !in xs[i] {
      i := ConcatElement(xs[..|xs| - 1], e);
    }
  }

  lemma {:induction false} ElementOfConcat<T>(xs: seq<seq<T>>, i: nat, e: T)
    requires i < |xs| && e in xs[i]
    ensures e in Concat(xs)
  {
    if i < |xs| - 1 {
      ElementOfConcat(xs[..|xs| - 1], i, e);
    }
  }

  lemma {:induction false} ConcatPrefix<T>(xs: seq<seq<T>>, k: nat)
    requires k < |xs|
    ensures Concat(xs[..k + 1]) == Concat(xs[..k]) + xs[k]
  {
    assert xs[..k + 1][..k] == xs[..k];
  }

  lemma {:induction false} AtConcat<T>(xs: seq<seq<T>>, k: nat, o: nat)
    requires k < |xs| && o < |xs[k]|
    ensures |Concat(xs[..k])| + o < |Concat(xs)| && Concat(xs)[|Concat(xs[..k])| + o] == xs[k][o]
  {
    if k < |xs| - 1 {
      AtConcat(xs[..|xs| - 1], k, o);
      assert xs[..|xs| - 1][..k] == xs[..k];
    }
  }

  function Repeat<T>(x: T, n: nat): seq<T> {
    seq(n, _ => x)
  }

  // ----- selecting elements -----

  ghost predicate Ascends(idx: seq<nat>) {
    forall j, k :: 0 <= j < k < |idx| ==> idx[j] < idx[k]
  }

  ghost predicate Listed(idx: seq<nat>, i: nat) {
    exists j :: 0 <= j < |idx| && idx[j] == i
  }

  /** All indices to keep, in order. */
  ghost predicate Selects(keep: nat -> bool, idx: seq<nat>) {
    && Ascends(idx)
    && (forall j :: 0 <= j < |idx| ==> keep(idx[j]))
    && (forall i: nat {:trigger Listed(idx, i)} :: keep(i) ==> Listed(idx, i))
  }

  /** One more index, perhaps to be kept. */
  lemma {:induction false} SelectsNext(keep: nat -> bool, n: nat, idx: seq<nat>, larger: nat -> bool, next: seq<nat>)
    requires Selects(keep, idx)
    requires forall i: nat :: if i < n then larger(i) == keep(i) else !keep(i) && (i > n ==> !larger(i))
    requires next == if larger(n) then idx + [n] else idx
    ensures Selects(larger, next)
  {
    forall i: nat | larger(i) ensures Listed(next, i) {
      if i < n {
        assert Listed(idx, i);
        var j :| 0 <= j < |idx| && idx[j] == i;
        assert next[j] == i;
      } else {
        assert next[|idx|] == i;
      }
    }
  }

  lemma {:induction false} SelectsSame(keep: nat -> bool, same: nat -> bool, idx: seq<nat>)
    requires Selects(keep, idx) && forall i: nat :: keep(i) == same(i)
    ensures Selects(same, idx)
  {
  }

  /** They are the only such list. */
  lemma {:induction false} SelectsUnique(keep: nat -> bool, a: seq<nat>, b: seq<nat>)
    requires Selects(keep, a) && Selects(keep, b)
    ensures a == b
  {
    AscendingWithin(a, b);
    AscendingWithin(b, a);
    forall j | 0 <= j < |a| ensures a[j] == b[j] {
      AscendingLarger(a, b, j);
      AscendingLarger(b, a, j);
    }
  }

  /** The j-th of ascending numbers that all occur in another ascending list is no smaller
      than the j-th there. */
  lemma {:induction false} AscendingLarger(a: seq<nat>, b: seq<nat>, j: nat)
    requires Ascends(a) && Ascends(b) && j < |a| && |a| <= |b|
    requires forall i :: 0 <= i < |a| ==> Listed(b, a[i])
    ensures a[j] >= b[j]
  {
    assert Listed(b, a[j]);
    var k :| 0 <= k < |b| && b[k] == a[j];
    if j > 0 {
      AscendingLarger(a, b, j - 1);
      assert b[j - 1] <= a[j - 1] < a[j] == b[k];
    }
    assert j <= k;
  }

  lemma {:induction false} AscendingWithin(a: seq<nat>, b: seq<nat>)
    requires Ascends(a) && Ascends(b) && forall i :: 0 <= i < |a| ==> Listed(b, a[i])
    ensures |a| <= |b|
  {
    if a != [] {
      var n := |a| - 1;
      assert Listed(b, a[n]);
      var k :| 0 <= k < |b| && b[k] == a[n];
      forall i | 0 <= i < n ensures Listed(b[..k], a[i]) {
        var m :| 0 <= m < |b| && b[m] == a[i];
        assert a[i] < a[n];
        assert !(k <= m);
        assert b[..k][m] == a[i];
      }
      AscendingWithin(a[..n], b[..k]);
    }
  }

  function Filter<T>(keep: T -> bool, s: seq<T>): seq<T> {
    if s == [] then [] else (if keep(s[0]) then [s[0]] else []) + Filter(keep, s[1..])
  }

  lemma {:induction false} FilterAppend<T>(keep: T -> bool, a: seq<T>, b: seq<T>)
    ensures Filter(keep, a + b) == Filter(keep, a) + Filter(keep, b)
  {
    if a == [] {
      assert a + b == b;
    } else {
      FilterAppend(keep, a[1..], b);
      assert (a + b)[1..] == a[1..] + b;
      ConcatAssociative(if keep(a[0]) then [a[0]] else [], Filter(keep, a[1..]), Filter(keep, b));
    }
  }

  ghost function Kept<T>(keep: T -> bool, s: seq<T>): nat -> bool {
    (i: nat) => i < |s| && keep(s[i])
  }

  /** The i-th element is the k-th that is kept. */
  ghost predicate KeptAs<T>(s: seq<T>, i: nat, kept: seq<T>, k: nat) {
    i < |s| && k < |kept| && kept[k] == s[i]
  }

  /** Selecting keeps exactly the elements to keep, in order. */
  lemma {:induction false} FilterSelects<T>(keep: T -> bool, s: seq<T>) returns (idx: seq<nat>)
    ensures Selects(Kept(keep, s), idx) && |idx| == |Filter(keep, s)|
    ensures forall k :: 0 <= k < |idx| ==> KeptAs(s, idx[k], Filter(keep, s), k)
  {
    idx := [];
    if s != [] {
      var n := |s| - 1;
      var init := FilterSelects(keep, s[..n]);
      idx := if keep(s[n]) then init + [n] else init;
      KeptNext(keep, s, init, idx);
      FilterLast(keep, s);
      KeptAsNext(keep, s, init, Filter(keep, s[..n]), idx, Filter(keep, s));
    }
  }

  lemma {:induction false} KeptNext<T>(keep: T -> bool, s: seq<T>, idx: seq<nat>, next: seq<nat>)
    requires s != [] && Selects(Kept(keep, s[..|s| - 1]), idx)
    requires next == if keep(s[|s| - 1]) then idx + [|s| - 1] else idx
    ensures Selects(Kept(keep, s), next)
  {
    SelectsNext(Kept(keep, s[..|s| - 1]), |s| - 1, idx, Kept(keep, s), next);
  }

  lemma {:induction false} KeptAsNext<T>(keep: T -> bool, s: seq<T>, idx: seq<nat>, kept: seq<T>, nextIdx: seq<nat>,
                                         nextKept: seq<T>)
    requires s != [] && |idx| == |kept|
    requires forall k :: 0 <= k < |idx| ==> KeptAs(s[..|s| - 1], idx[k], kept, k)
    requires var n := |s| - 1;
             if keep(s[n]) then nextIdx == idx + [n] && nextKept == kept + [s[n]]
             else nextIdx == idx && nextKept == kept
    ensures forall k :: 0 <= k < |nextIdx| ==> KeptAs(s, nextIdx[k], nextKept, k)
  {
    forall k | 0 <= k < |nextIdx| ensures KeptAs(s, nextIdx[k], nextKept, k) {
      assert k < |idx| ==> KeptAs(s[..|s| - 1], idx[k], kept, k);
    }
  }

  lemma {:induction false} FilterLast<T>(keep: T -> bool, s: seq<T>)
    requires s != []
    ensures var n := |s| - 1;
            Filter(keep, s) == Filter(keep, s[..n]) + if keep(s[n]) then [s[n]] else []
  {
    var n := |s| - 1;
    FilterAppend(keep, s[..n], [s[n]]);
    assert s == s[..n] + [s[n]] && [s[n]][1..] == [];
  }

  lemma {:induction false} FilterAll<T>(keep: T -> bool, s: seq<T>)
    requires forall i :: 0 <= i < |s| ==> keep(s[i])
    ensures Filter(keep, s) == s
  {
    if s != [] {
      FilterAll(keep, s[1..]);
    }
  }

  lemma {:induction false} FilterNone<T>(keep: T -> bool, s: seq<T>)
    requires forall i :: 0 <= i < |s| ==> !keep(s[i])
    ensures Filter(keep, s) == []
  {
    if s != [] {
      FilterNone(keep, s[1..]);
    }
  }

  /** Selecting an interval is slicing. */
  lemma {:induction false} FilterInterval<T>(keep: T -> bool, s: seq<T>, lo: nat, hi: nat)
    requires lo <= hi <= |s|
    requires forall j :: 0 <= j < |s| ==> (keep(s[j]) <==> lo <= j < hi)
    ensures Filter(keep, s) == s[lo..hi]
  {
    var a, b, c := s[..lo], s[lo..hi], s[hi..];
    assert s == a + b + c;
    FilterAppend(keep, a + b, c);
    FilterAppend(keep, a, b);
    FilterNone(keep, a);
    FilterAll(keep, b);
    FilterNone(keep, c);
  }
}
