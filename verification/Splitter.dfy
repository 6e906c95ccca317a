/** Cutting a token's origin at its line feeds, and which of the parts carries the value. */
module Splitter {
  import Seqs

  predicate EndsWithNewline(s: string) {
    s != "" && s[|s| - 1] == '\n'
  }

  predicate IsPureNewline(s: string) {
    s == "\n" || s == "\r\n"
  }

  function NewlineIndex(s: string): (k: nat)
    ensures k <= |s| && (k < |s| ==> s[k] == '\n') && forall i :: 0 <= i < k ==> s[i] != '\n'
  {
    if s == "" || s[0] == '\n' then 0 else NewlineIndex(s[1..]) + 1
  }

  /** The library function: pieces keep their line feed, and the last one may be empty. */
  function SplitAfter(s: string): seq<string> {
    var k := NewlineIndex(s);
    if k == |s| then [s] else [s[..k + 1]] + SplitAfter(s[k + 1..])
  }

  function Pieces(s: string): seq<string> {
    var k := NewlineIndex(s);
    if s == "" then [] else if k == |s| then [s] else [s[..k + 1]] + Pieces(s[k + 1..])
  }

  /** An empty origin is kept as one empty part. */
  function Parts(origin: string): seq<string> {
    if origin == "" then [""] else Pieces(origin)
  }

  function DropEmpty(parts: seq<string>): seq<string> {
    if parts == [] then []
    else DropEmpty(parts[..|parts| - 1]) + (if parts[|parts| - 1] == "" then [] else [parts[|parts| - 1]])
  }

  lemma {:induction false} DropEmptyCons(p: string, parts: seq<string>)
    ensures DropEmpty([p] + parts) == (if p == "" then [] else [p]) + DropEmpty(parts)
  {
    var all := [p] + parts;
    if parts == [] {
      assert all == [p] && [p][..0] == [];
    } else {
      DropEmptyCons(p, parts[..|parts| - 1]);
      assert all[..|all| - 1] == [p] + parts[..|parts| - 1];
    }
  }

  lemma {:induction false} SplitsAt(s: string, first: string, rest: string)
    requires NewlineIndex(s) < |s| && first == s[..NewlineIndex(s) + 1] && rest == s[NewlineIndex(s) + 1..]
    ensures first != "" && SplitAfter(s) == [first] + SplitAfter(rest) && Pieces(s) == [first] + Pieces(rest)
  {
  }

  lemma {:induction false} DropEmptySplit(s: string)
    ensures DropEmpty(SplitAfter(s)) == Pieces(s)
  {
    var k := NewlineIndex(s);
    if k == |s| {
      DropEmptyCons(s, []);
      assert [s] + [] == [s];
    } else {
      var first, rest := s[..k + 1], s[k + 1..];
      DropEmptySplit(rest);
      SplitsAt(s, first, rest);
      DropEmptyCons(first, SplitAfter(rest));
    }
  }

  method SplitOriginIntoParts(origin: string) returns (parts: seq<string>)
    ensures parts == Parts(origin)
  {
    if origin == "" {
      return [""];
    }
    parts := [];
    var split := SplitAfter(origin);
    for i := 0 to |split|
      invariant parts == DropEmpty(split[..i])
    {
      assert split[..i + 1][..i] == split[..i];
      if split[i] != "" {
        parts := parts + [split[i]];
      }
    }
    assert split[..|split|] == split;
    DropEmptySplit(origin);
  }

  /** The parts of an origin are its lines: glued together they are the origin, a line
      feed occurs only at the end of a part, and every part but the last ends in one. */
  ghost predicate LinesOf(parts: seq<string>, origin: string) {
    && Seqs.Concat(parts) == origin
    && (forall i :: 0 <= i < |parts| ==> OnlyFinalNewline(parts[i]))
    && (forall i :: 0 <= i < |parts| - 1 ==> EndsWithNewline(parts[i]))
    && (origin != "" ==> parts != [] && EndsWithNewline(parts[|parts| - 1]) == EndsWithNewline(origin))
  }

  ghost predicate OnlyFinalNewline(s: string) {
    forall k :: 0 <= k < |s| - 1 ==> s[k] != '\n'
  }

  lemma {:induction false} PiecesAreLines(s: string)
    ensures LinesOf(Pieces(s), s)
  {
    var k := NewlineIndex(s);
    if s != "" {
      if k == |s| {
        assert [s][..0] == [] && Seqs.Concat([s]) == s;
      } else {
        var first, rest := s[..k + 1], s[k + 1..];
        PiecesAreLines(rest);
        SplitsAt(s, first, rest);
        LinesCons(first, Pieces(rest), rest, Pieces(s), s);
      }
    }
  }

  lemma {:induction false} LinesCons(first: string, parts: seq<string>, rest: string, all: seq<string>, s: string)
    requires OnlyFinalNewline(first) && EndsWithNewline(first) && LinesOf(parts, rest)
    requires rest == "" ==> parts == []
    requires all == [first] + parts && s == first + rest
    ensures LinesOf(all, s)
  {
    Seqs.ConcatCons(first, parts);
    assert forall i :: 0 < i < |all| ==> all[i] == parts[i - 1];
  }

  lemma {:induction false} PartsAreLines(origin: string)
    ensures LinesOf(Parts(origin), origin)
  {
    if origin == "" {
      assert [""][..0] == [] && Seqs.Concat([""]) == "";
    } else {
      PiecesAreLines(origin);
    }
  }

  lemma {:induction false} LastPartEnds(origin: string)
    ensures Parts(origin) != []
    ensures EndsWithNewline(Parts(origin)[|Parts(origin)| - 1]) == EndsWithNewline(origin)
  {
    PartsAreLines(origin);
  }

  // ----- counting line feeds -----

  function Newlines(s: string): nat {
    if s == "" then 0 else Newlines(s[..|s| - 1]) + if s[|s| - 1] == '\n' then 1 else 0
  }

  /** No line feed but at the end. */
  predicate IsSimple(s: string) {
    Newlines(s) == 0 || (Newlines(s) == 1 && EndsWithNewline(s))
  }

  lemma {:induction false} NoNewlines(s: string)
    ensures Newlines(s) == 0 <==> '\n' !in s
  {
    if s != "" {
      NoNewlines(s[..|s| - 1]);
      assert s == s[..|s| - 1] + [s[|s| - 1]];
    }
  }

  lemma {:induction false} SimpleIff(s: string)
    requires s != ""
    ensures IsSimple(s) <==> '\n' !in s[..|s| - 1]
  {
    NoNewlines(s[..|s| - 1]);
  }

  lemma {:induction false} OnePieceIff(s: string)
    requires s != ""
    ensures |Pieces(s)| == 1 <==> NewlineIndex(s) >= |s| - 1
  {
    var k := NewlineIndex(s);
    if k < |s| {
      SplitsAt(s, s[..k + 1], s[k + 1..]);
    }
  }

  /** Simple origins are those that are not cut. */
  lemma {:induction false} SimpleIsOnePart(s: string)
    ensures IsSimple(s) <==> |Parts(s)| == 1
  {
    if s != "" {
      var init, k := s[..|s| - 1], NewlineIndex(s);
      SimpleIff(s);
      OnePieceIff(s);
      if k < |s| - 1 {
        assert init[k] == '\n';
      } else {
        assert forall i :: 0 <= i < |init| ==> init[i] == s[i];
      }
    }
  }

  method CountNewlines(s: string) returns (count: nat)
    ensures count == Newlines(s)
  {
    count := 0;
    for i := 0 to |s|
      invariant count == Newlines(s[..i])
    {
      assert s[..i + 1][..i] == s[..i];
      if s[i] == '\n' {
        count := count + 1;
      }
    }
    assert s[..|s|] == s;
  }

  function LeadingNewlines(s: string): nat {
    if s == "" then 0
    else if s[0] == '\r' then LeadingNewlines(s[1..])
    else if s[0] == '\n' then 1 + LeadingNewlines(s[1..])
    else 0
  }

  /** Carriage returns are skipped. */
  method CountLeadingNewlines(s: string) returns (count: nat)
    ensures count == LeadingNewlines(s)
  {
    count := 0;
    for i := 0 to |s|
      invariant count + LeadingNewlines(s[i..]) == LeadingNewlines(s)
    {
      assert s[i..][1..] == s[i + 1..];
      if s[i] != '\r' {
        if s[i] != '\n' {
          break;
        }
        count := count + 1;
      }
    }
  }

  // ----- which part carries the value -----

  /** Some part is more than a line ending. */
  ghost predicate HasContent(parts: seq<string>) {
    exists i :: 0 <= i < |parts| && !IsPureNewline(parts[i])
  }

  /** Block scalars put the value on the last content part, all others on the first. */
  ghost predicate CarriesValue(parts: seq<string>, isBlockScalar: bool, i: nat)
    requires i < |parts|
  {
    && !IsPureNewline(parts[i])
    && (isBlockScalar ==> forall k :: i < k < |parts| ==> IsPureNewline(parts[k]))
    && (!isBlockScalar ==> forall k :: 0 <= k < i ==> IsPureNewline(parts[k]))
  }

  lemma {:induction false} SomePartCarriesValue(parts: seq<string>, isBlockScalar: bool, n: nat) returns (i: nat)
    requires n <= |parts| && HasContent(parts)
    requires isBlockScalar ==> forall k :: n <= k < |parts| ==> IsPureNewline(parts[k])
    requires !isBlockScalar ==> forall k :: 0 <= k < |parts| - n ==> IsPureNewline(parts[k])
    ensures i < |parts| && CarriesValue(parts, isBlockScalar, i)
    decreases n
  {
    i := if isBlockScalar then n - 1 else |parts| - n;
    if IsPureNewline(parts[i]) {
      i := SomePartCarriesValue(parts, isBlockScalar, n - 1);
    }
  }

  /** Exactly one part carries the value, as long as there is any content. */
  lemma {:induction false} ExactlyOneCarriesValue(parts: seq<string>, isBlockScalar: bool)
    requires HasContent(parts)
    ensures exists i :: 0 <= i < |parts| && CarriesValue(parts, isBlockScalar, i)
                        && forall k :: 0 <= k < |parts| && CarriesValue(parts, isBlockScalar, k) ==> k == i
  {
    var i := SomePartCarriesValue(parts, isBlockScalar, |parts|);
  }

  ghost predicate NoContentBefore(parts: seq<string>, n: nat) {
    n <= |parts| && forall k :: 0 <= k < n ==> IsPureNewline(parts[k])
  }

  /** The last part with content, or the last part when there is none. */
  ghost predicate IsLastContent(parts: seq<string>, idx: int) {
    && -1 <= idx < |parts|
    && (if HasContent(parts)
        then 0 <= idx && !IsPureNewline(parts[idx]) && forall k :: idx < k < |parts| ==> IsPureNewline(parts[k])
        else idx == |parts| - 1)
  }

  method FindLastContentPartIndex(parts: seq<string>) returns (idx: int)
    ensures IsLastContent(parts, idx)
  {
    var i := |parts| - 1;
    while i >= 0
      invariant -1 <= i < |parts|
      invariant forall k :: i < k < |parts| ==> IsPureNewline(parts[k])
    {
      if !IsPureNewline(parts[i]) {
        return i;
      }
      i := i - 1;
    }
    idx := |parts| - 1;
  }
}
