/** Finding one list inside another. */
module Search {

  ghost predicate MatchAt<T>(s: seq<T>, p: seq<T>, k: nat) {
    k + |p| <= |s| && s[k..k + |p|] == p
  }

  /** The first k from `start` on at which p occurs, or -1. */
  function FirstMatch<T(==)>(s: seq<T>, p: seq<T>, start: nat): (k: int)
    requires start <= |s|
    ensures k == -1 || start <= k <= |s| - |p|
    decreases |s| - start
  {
    if start + |p| > |s| then -1
    else if s[start..start + |p|] == p then start
    else if start == |s| then -1
    else FirstMatch(s, p, start + 1)
  }

  /** k is the first match from `start` on; -1 says that there is none. */
  ghost predicate IsFirstMatch<T>(s: seq<T>, p: seq<T>, start: nat, k: int) {
    && (k == -1 || (k >= start && MatchAt(s, p, k)))
    && (forall j: nat :: start <= j && (k == -1 || j < k) ==> !MatchAt(s, p, j))
  }

  lemma {:induction false} FirstMatchIsFirst<T>(s: seq<T>, p: seq<T>, start: nat)
    requires start <= |s|
    ensures IsFirstMatch(s, p, start, FirstMatch(s, p, start))
    decreases |s| - start
  {
    if start + |p| <= |s| && s[start..start + |p|] != p && start < |s| {
      FirstMatchIsFirst(s, p, start + 1);
    }
  }

  lemma {:induction false} FirstMatchMatches<T>(s: seq<T>, p: seq<T>, start: nat)
    requires start <= |s| && FirstMatch(s, p, start) != -1
    ensures MatchAt(s, p, FirstMatch(s, p, start))
  {
    FirstMatchIsFirst(s, p, start);
  }
}
