/** Searching the bytes of a text: a match of encodings is a match of characters. */
module ByteSearch {
  import opened Utf8
  import opened Search

  /** The library function: the leftmost index of p in s, or -1. */
  function Index(s: seq<Byte>, p: seq<Byte>): int {
    FirstMatch(s, p, 0)
  }

  /** An occurrence of an encoding at the start of a character is an occurrence of the
      characters. */
  lemma {:induction false} MatchAtOffset(s: string, p: string, k: nat)
    requires k <= |s|
    ensures MatchAt(EncodeAll(s), EncodeAll(p), Offset(s, k)) <==> MatchAt(s, p, k)
  {
    OffsetSuffix(s, k);
    PrefixOfEncoding(p, s[k..]);
    PrefixIsMatch(s, p, k);
    PrefixIsMatch(EncodeAll(s), EncodeAll(p), Offset(s, k));
  }

  lemma {:induction false} PrefixIsMatch<T>(s: seq<T>, p: seq<T>, k: nat)
    requires k <= |s|
    ensures p <= s[k..] <==> MatchAt(s, p, k)
  {
    assert k + |p| <= |s| ==> s[k..][..|p|] == s[k..k + |p|];
  }

  /** A byte string can occur inside a character only if its first byte is a continuation
      byte; the encoding of a non-empty text never does. */
  lemma {:induction false} ByteMatchOnBoundary(s: string, pat: seq<Byte>, i: nat) returns (k: nat)
    requires pat != [] && MatchAt(EncodeAll(s), pat, i)
    ensures k < |s| && (i == Offset(s, k) <==> !IsContinuation(pat[0]))
    ensures IsContinuation(pat[0]) ==> Offset(s, k) < i < Offset(s, k + 1)
  {
    k := LeadByteStartsCharacter(s, i);
    assert EncodeAll(s)[i] == EncodeAll(s)[i..i + |pat|][0] == pat[0];
  }

  lemma {:induction false} EncodedMatch(s: string, p: string, i: nat) returns (k: nat)
    requires p != "" && MatchAt(EncodeAll(s), EncodeAll(p), i)
    ensures k < |s| && i == Offset(s, k) && MatchAt(s, p, k)
  {
    EncodeShape(p[0]);
    k := ByteMatchOnBoundary(s, EncodeAll(p), i);
    MatchAtOffset(s, p, k);
  }

  lemma {:induction false} OffsetOrder(s: string, j: nat, k: nat)
    requires j <= |s| && k <= |s|
    ensures j < k <==> Offset(s, j) < Offset(s, k)
  {
    if j < k {
      OffsetMonotone(s, j, k);
    } else {
      OffsetMonotone(s, k, j);
    }
  }

  lemma {:induction false} SuffixMatch<T>(s: seq<T>, p: seq<T>, off: nat, i: nat)
    requires off <= |s|
    ensures MatchAt(s[off..], p, i) <==> MatchAt(s, p, off + i)
  {
    assert off + i + |p| <= |s| ==> s[off..][i..i + |p|] == s[off + i..off + i + |p|];
  }

  lemma {:induction false} CharacterMatchIsByteMatch(s: string, p: string, start: nat, k: nat)
    requires start <= k <= |s| && MatchAt(s, p, k)
    ensures Offset(s, start) <= Offset(s, k) && Offset(s, start) <= |EncodeAll(s)|
    ensures MatchAt(EncodeAll(s)[Offset(s, start)..], EncodeAll(p), Offset(s, k) - Offset(s, start))
  {
    var bytes, pat := EncodeAll(s), EncodeAll(p);
    var off, at := Offset(s, start), Offset(s, k);
    OffsetSuffix(s, start);
    OffsetMonotone(s, start, k);
    MatchAtOffset(s, p, k);
    SuffixMatch(bytes, pat, off, at - off);
  }

  lemma {:induction false} ByteMatchIsCharacterMatch(s: string, p: string, start: nat, i: nat) returns (m: nat)
    requires start <= |s| && p != "" && Offset(s, start) <= |EncodeAll(s)|
    requires MatchAt(EncodeAll(s)[Offset(s, start)..], EncodeAll(p), i)
    ensures start <= m < |s| && MatchAt(s, p, m) && Offset(s, m) == Offset(s, start) + i
  {
    SuffixMatch(EncodeAll(s), EncodeAll(p), Offset(s, start), i);
    m := EncodedMatch(s, p, Offset(s, start) + i);
    OffsetOrder(s, m, start);
  }

  /** The byte search from the start of a character on finds the next character match. */
  lemma {:induction false} IndexIsFirstMatch(s: string, p: string, start: nat)
    requires start <= |s| && p != "" && Offset(s, start) <= |EncodeAll(s)|
    ensures var k, i := FirstMatch(s, p, start), Index(EncodeAll(s)[Offset(s, start)..], EncodeAll(p));
            if k == -1 then i == -1 else i != -1 && Offset(s, start) + i == Offset(s, k)
  {
    var tail, pat := EncodeAll(s)[Offset(s, start)..], EncodeAll(p);
    var k, i := FirstMatch(s, p, start), FirstMatch(tail, pat, 0);
    FirstMatchIsFirst(s, p, start);
    FirstMatchIsFirst(tail, pat, 0);
    if k != -1 {
      CharacterMatchIsByteMatch(s, p, start, k);
    }
    if i != -1 {
      var m := ByteMatchIsCharacterMatch(s, p, start, i);
      OffsetOrder(s, m, k);
    }
  }
}
