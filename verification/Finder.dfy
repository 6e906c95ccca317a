/** Finding text: a byte search over an index must answer like a search over runes. */
module Finder {
  import opened Position
  import opened Lines
  import opened Source
  import opened Utf8
  import opened Search
  import opened ByteSearch
  import Tokens
  import Seqs

  // ----- naive search -----

  /** The leftmost occurrences of p that do not overlap. */
  function Matches(s: string, p: string, start: nat): (ms: seq<nat>)
    requires start <= |s| && p != ""
    ensures forall i :: 0 <= i < |ms| ==> start <= ms[i] <= |s| - |p|
    decreases |s| - start
  {
    var k := FirstMatch(s, p, start);
    if k == -1 then [] else [k] + Matches(s, p, k + |p|)
  }

  ghost function Occurrences(s: string, p: string): nat -> bool {
    (k: nat) => MatchAt(s, p, k)
  }

  /** All of them are occurrences of length n, they do not overlap, and every occurrence
      meets one that starts no later than itself. */
  ghost predicate Leftmost(ms: seq<nat>, occurs: nat -> bool, n: nat, start: nat) {
    AllOccur(ms, occurs, start) && Apart(ms, n) && AllMet(ms, occurs, n, start)
  }

  ghost predicate AllOccur(ms: seq<nat>, occurs: nat -> bool, start: nat) {
    forall i :: 0 <= i < |ms| ==> ms[i] >= start && occurs(ms[i])
  }

  ghost predicate Apart(ms: seq<nat>, n: nat) {
    forall i, j :: 0 <= i < j < |ms| ==> ms[i] + n <= ms[j]
  }

  ghost predicate AllMet(ms: seq<nat>, occurs: nat -> bool, n: nat, start: nat) {
    forall k: nat {:trigger Meets(ms, k, n)} :: k >= start && occurs(k) ==> Meets(ms, k, n)
  }

  ghost predicate Meets(ms: seq<nat>, k: nat, n: nat) {
    exists i :: 0 <= i < |ms| && ms[i] <= k < ms[i] + n
  }

  lemma {:induction false} MeetsGrows(k: nat, ms: seq<nat>, n: nat, m: nat)
    requires Meets(ms, m, n) || k <= m < k + n
    ensures Meets([k] + ms, m, n)
  {
    var all := [k] + ms;
    if Meets(ms, m, n) {
      var i :| 0 <= i < |ms| && ms[i] <= m < ms[i] + n;
      assert all[i + 1] == ms[i];
    } else {
      assert all[0] == k;
    }
  }

  lemma {:induction false} LeftmostGrows(k: nat, ms: seq<nat>, occurs: nat -> bool, n: nat, start: nat)
    requires k >= start && occurs(k) && Leftmost(ms, occurs, n, k + n)
    requires forall j: nat :: start <= j < k ==> !occurs(j)
    ensures AllOccur([k] + ms, occurs, start) && Apart([k] + ms, n)
    ensures AllMet([k] + ms, occurs, n, start)
  {
    assert AllMet([k] + ms, occurs, n, start) by {
      forall m: nat | m >= start && occurs(m) ensures Meets([k] + ms, m, n) {
        MeetsGrows(k, ms, n, m);
      }
    }
  }

  lemma {:induction false} MatchesAreLeftmost(s: string, p: string, start: nat)
    requires start <= |s| && p != ""
    ensures Leftmost(Matches(s, p, start), Occurrences(s, p), |p|, start)
    decreases |s| - start
  {
    var k := FirstMatch(s, p, start);
    FirstMatchIsFirst(s, p, start);
    if k == -1 {
      assert forall j: nat :: j >= start ==> !Occurrences(s, p)(j);
    } else {
      var rest := Matches(s, p, k + |p|);
      MatchesAreLeftmost(s, p, k + |p|);
      LeftmostGrows(k, rest, Occurrences(s, p), |p|, start);
      assert Matches(s, p, start) == [k] + rest;
    }
  }

  // ----- the index -----

  class PositionMap {
    var indices: seq<int>
    var positions: seq<Position>

    ghost predicate Valid()
      reads this
    {
      |indices| == |positions| && forall i, j :: 0 <= i < j < |indices| ==> indices[i] < indices[j]
    }

    /** The i-th entry is the one for the i-th cell. */
    ghost predicate Maps(cells: seq<Cell>)
      reads this
    {
      Valid() && positions == PositionsOf(cells) && forall i :: 0 <= i < |indices| ==> indices[i] == i
    }

    constructor ()
      ensures Valid() && indices == [] && positions == []
    {
      indices, positions := [], [];
    }

    method Add(charIndex: int, pos: Position)
      requires Valid() && forall i :: 0 <= i < |indices| ==> indices[i] < charIndex
      modifies this
      ensures Valid() && indices == old(indices) + [charIndex] && positions == old(positions) + [pos]
    {
      indices := indices + [charIndex];
      positions := positions + [pos];
    }

    /** The next entry, under the next index. */
    method AddCell(pos: Position, ghost cell: Cell, ghost cells: seq<Cell>)
      requires Maps(cells) && cell.pos == pos
      modifies this
      ensures Maps(cells + [cell])
    {
      Add(|indices|, pos);
    }

    /** Entry i holds the largest index up to charIndex, or is the first one. */
    ghost predicate EntryFor(i: nat, charIndex: int)
      reads this
    {
      && i < |indices|
      && (i > 0 ==> indices[i] <= charIndex)
      && (i + 1 < |indices| ==> charIndex < indices[i + 1])
    }

    method Lookup(charIndex: int) returns (pos: Position)
      requires Valid()
      ensures indices == [] ==> pos == Position(0, 0)
      ensures indices != [] ==> exists i: nat :: EntryFor(i, charIndex) && pos == positions[i]
    {
      if |indices| == 0 {
        return Position(0, 0);
      }
      var lo, hi := 0, |indices|;
      while lo < hi
        invariant 0 <= lo <= hi <= |indices|
        invariant forall i :: 0 <= i < lo ==> indices[i] <= charIndex
        invariant forall i :: hi <= i < |indices| ==> indices[i] > charIndex
      {
        var mid := (lo + hi) / 2;
        if indices[mid] > charIndex {
          hi := mid;
        } else {
          lo := mid + 1;
        }
      }
      var idx := if lo > 0 then lo - 1 else 0;
      assert EntryFor(idx, charIndex);
      pos := positions[idx];
    }

    method LookupCell(charIndex: nat, ghost cells: seq<Cell>) returns (pos: Position)
      requires Maps(cells) && charIndex < |cells|
      ensures pos == cells[charIndex].pos
    {
      pos := Lookup(charIndex);
      ghost var i: nat :| EntryFor(i, charIndex) && pos == positions[i];
      assert i == charIndex;
    }
  }

  function Runes(cells: seq<Cell>): string {
    seq(|cells|, i requires 0 <= i < |cells| => cells[i].rune)
  }

  function PositionsOf(cells: seq<Cell>): seq<Position> {
    seq(|cells|, i requires 0 <= i < |cells| => cells[i].pos)
  }

  /** A normaliser turns any text into another; without one, text stays as it is. */
  type Normalizer = Tokens.Option<string -> string>

  function Normalize(n: Normalizer, s: string): string {
    match n
    case Some(f) => f(s)
    case None => s
  }

  function CellsAt(pos: Position, s: string): seq<Cell> {
    seq(|s|, i requires 0 <= i < |s| => Cell(pos, s[i]))
  }

  /** The searched text: every rune replaced by its normal form, all of it where the rune was. */
  function Stream(n: Normalizer, cells: seq<Cell>): seq<Cell> {
    if cells == [] then []
    else
      var last := cells[|cells| - 1];
      Stream(n, cells[..|cells| - 1]) + CellsAt(last.pos, Normalize(n, [last.rune]))
  }

  function Forms(f: string -> string, cells: seq<Cell>): seq<string> {
    seq(|cells|, i requires 0 <= i < |cells| => f([cells[i].rune]))
  }

  /** Every rune's position, as often as its normal form has runes. */
  function FormPositions(f: string -> string, cells: seq<Cell>): seq<seq<Position>> {
    seq(|cells|, i requires 0 <= i < |cells| => Seqs.Repeat(cells[i].pos, |f([cells[i].rune])|))
  }

  /** The searched text is the normal forms of all runes, one after the other, and every rune of
      a normal form has the position of the rune it stands for. */
  lemma {:induction false} StreamIsForms(f: string -> string, cells: seq<Cell>)
    ensures Runes(Stream(Tokens.Some(f), cells)) == Seqs.Concat(Forms(f, cells))
    ensures PositionsOf(Stream(Tokens.Some(f), cells)) == Seqs.Concat(FormPositions(f, cells))
  {
    if cells != [] {
      var n := |cells| - 1;
      var last, form := cells[n], f([cells[n].rune]);
      StreamIsForms(f, cells[..n]);
      assert Forms(f, cells)[..n] == Forms(f, cells[..n]);
      assert FormPositions(f, cells)[..n] == FormPositions(f, cells[..n]);
      FormAdds(Stream(Tokens.Some(f), cells[..n]), last.pos, form);
    }
  }

  lemma {:induction false} FormAdds(before: seq<Cell>, pos: Position, form: string)
    ensures Runes(before + CellsAt(pos, form)) == Runes(before) + form
    ensures PositionsOf(before + CellsAt(pos, form)) == PositionsOf(before) + Seqs.Repeat(pos, |form|)
  {
  }

  /** One range for every match of n runes: from the position of its first rune to one past that
      of its last. */
  ghost predicate RangesOfRuns(ranges: seq<Range>, ms: seq<nat>, n: nat, where: seq<Position>) {
    |ranges| == |ms| && forall i :: 0 <= i < |ms| ==> IsRangeOfRun(ranges[i], ms[i], n, where)
  }

  ghost predicate IsRangeOfRun(r: Range, k: nat, n: nat, where: seq<Position>) {
    && 0 < n && k + n <= |where|
    && r.start == where[k] && r.end == Position(where[k + n - 1].line, where[k + n - 1].col + 1)
  }

  lemma {:induction false} RangesFromRuns(cells: seq<Cell>, p: string, ms: seq<nat>)
    requires p != "" && ms == Matches(Runes(cells), p, 0)
    ensures RangesOfRuns(RangesFrom(cells, p, 0), ms, |p|, PositionsOf(cells))
  {
    RangesOfMatches(cells, p, 0);
    forall i | 0 <= i < |ms| ensures IsRangeOfRun(MatchRange(cells, ms[i], |p|), ms[i], |p|, PositionsOf(cells)) {
    }
  }

  /** With a normaliser, what is found is the leftmost occurrences of the search's normal form in
      the normal forms of all runes. */
  lemma {:induction false} FoundInForms(f: string -> string, cells: seq<Cell>, search: string) returns (ms: seq<nat>)
    requires f(search) != ""
    ensures Leftmost(ms, Occurrences(Seqs.Concat(Forms(f, cells)), f(search)), |f(search)|, 0)
    ensures RangesOfRuns(RangesFrom(Stream(Tokens.Some(f), cells), f(search), 0), ms, |f(search)|,
                         Seqs.Concat(FormPositions(f, cells)))
  {
    var stream := Stream(Tokens.Some(f), cells);
    StreamIsForms(f, cells);
    ms := Matches(Runes(stream), f(search), 0);
    MatchesAreLeftmost(Runes(stream), f(search), 0);
    RangesFromRuns(stream, f(search), ms);
  }

  lemma {:induction false} StreamWithoutNormalizer(cells: seq<Cell>)
    ensures Stream(Tokens.None, cells) == cells
  {
    if cells != [] {
      var last := cells[|cells| - 1];
      StreamWithoutNormalizer(cells[..|cells| - 1]);
      assert CellsAt(last.pos, [last.rune]) == [last];
    }
  }

  /** Where the match of n characters at k lies: from its first character to one past its last. */
  function MatchRange(cells: seq<Cell>, k: nat, n: nat): Range
    requires 0 < n && k + n <= |cells|
  {
    var last := cells[k + n - 1].pos;
    Range(cells[k].pos, Position(last.line, last.col + 1))
  }

  /** The ranges of the leftmost matches from character start on. */
  ghost function RangesFrom(cells: seq<Cell>, p: string, start: nat): seq<Range>
    requires p != "" && start <= |cells|
    decreases |cells| - start
  {
    var k := FirstMatch(Runes(cells), p, start);
    if k == -1 then [] else [MatchRange(cells, k, |p|)] + RangesFrom(cells, p, k + |p|)
  }

  lemma {:induction false} RangesUnfold(cells: seq<Cell>, p: string, start: nat)
    requires p != "" && start <= |cells|
    ensures var k := FirstMatch(Runes(cells), p, start);
            if k == -1 then RangesFrom(cells, p, start) == [] && Matches(Runes(cells), p, start) == []
            else
              && RangesFrom(cells, p, start) == [MatchRange(cells, k, |p|)] + RangesFrom(cells, p, k + |p|)
              && Matches(Runes(cells), p, start) == [k] + Matches(Runes(cells), p, k + |p|)
  {
  }

  /** From start on, either nothing is found, or this range, and the search goes on at next. */
  ghost predicate NextIs(cells: seq<Cell>, p: string, start: nat, found: bool, range: Range, next: nat)
    requires p != "" && start <= |cells|
  {
    var k := FirstMatch(Runes(cells), p, start);
    if found then k != -1 && range == MatchRange(cells, k, |p|) && next == k + |p| else k == -1
  }

  lemma {:induction false} RangesGrow(cells: seq<Cell>, p: string, start: nat, found: bool, range: Range, next: nat,
                                      results: seq<Range>)
    requires p != "" && start <= |cells| && NextIs(cells, p, start, found, range, next)
    ensures !found ==> results == results + RangesFrom(cells, p, start)
    ensures found ==>
              && start < next <= |cells|
              && results + RangesFrom(cells, p, start) == results + [range] + RangesFrom(cells, p, next)
  {
    RangesUnfold(cells, p, start);
    if found {
      Seqs.ConcatAssociative(results, [range], RangesFrom(cells, p, next));
    }
  }

  /** There is one range for every match, in the same order. */
  lemma {:induction false} RangesOfMatches(cells: seq<Cell>, p: string, start: nat)
    requires p != "" && start <= |cells|
    ensures RangesFrom(cells, p, start) == MatchRanges(cells, Matches(Runes(cells), p, start), |p|)
    decreases |cells| - start
  {
    var k, ms := FirstMatch(Runes(cells), p, start), Matches(Runes(cells), p, start);
    RangesUnfold(cells, p, start);
    if k != -1 {
      RangesOfMatches(cells, p, k + |p|);
      MatchRangesCons(cells, ms, RangesFrom(cells, p, start), |p|);
    }
  }

  lemma {:induction false} MatchRangesCons(cells: seq<Cell>, ms: seq<nat>, ranges: seq<Range>, n: nat)
    requires ms != [] && ranges != [] && 0 < n && forall i :: 0 <= i < |ms| ==> ms[i] + n <= |cells|
    requires ranges[0] == MatchRange(cells, ms[0], n) && ranges[1..] == MatchRanges(cells, ms[1..], n)
    ensures ranges == MatchRanges(cells, ms, n)
  {
    assert ranges == [ranges[0]] + ranges[1..];
  }

  function MatchRanges(cells: seq<Cell>, ms: seq<nat>, n: nat): (ranges: seq<Range>)
    requires 0 < n && forall i :: 0 <= i < |ms| ==> ms[i] + n <= |cells|
    ensures |ranges| == |ms| && forall i :: 0 <= i < |ms| ==> ranges[i] == MatchRange(cells, ms[i], n)
  {
    seq(|ms|, i requires 0 <= i < |ms| => MatchRange(cells, ms[i], n))
  }

  class Finder {
    const normalizer: Normalizer
    var prevLines: Source?
    var posMap: PositionMap
    var source: seq<Byte>
    var byteToRune: seq<nat>
    ghost var cells: seq<Cell>  // the text the index was built from

    ghost predicate Valid()
      reads this, posMap
    {
      && source == EncodeAll(Runes(cells))
      && posMap.Maps(cells)
      && Indexed(byteToRune, Runes(cells))
    }

    constructor (normalizer: Normalizer)
      ensures Valid() && cells == [] && prevLines == null && this.normalizer == normalizer
      ensures fresh(posMap)
    {
      this.normalizer := normalizer;
      prevLines, source, byteToRune, cells := null, [], [], [];
      posMap := new PositionMap();
    }

    /** Rebuilds the index, unless it is already that of the same source. */
    method Load(lines: Source?)
      requires Valid()
      modifies this
      ensures Valid() && prevLines == lines
      ensures old(prevLines) == lines ==> cells == old(cells) && posMap == old(posMap)
      ensures old(prevLines) != lines ==>
                && fresh(posMap)
                && cells == if lines == null then [] else Stream(normalizer, Cells(lines.lines, |lines.lines|))
    {
      if prevLines == lines {
        return;
      }
      prevLines := lines;
      ghost var stream;
      stream, source, posMap := BuildSourceAndPositionMap(lines);
      cells := stream;
      byteToRune := BuildByteToRuneIndex(source, Runes(cells));
    }

    method BuildSourceAndPositionMap(lines: Source?) returns (ghost stream: seq<Cell>, text: seq<Byte>, pm: PositionMap)
      ensures stream == if lines == null then [] else Stream(normalizer, Cells(lines.lines, |lines.lines|))
      ensures text == EncodeAll(Runes(stream)) && fresh(pm) && pm.Maps(stream)
    {
      stream, text := [], [];
      pm := new PositionMap();
      if lines == null || |lines.lines| == 0 {
        return;
      }
      var all := lines.AllRunes([]);
      stream, text := IndexAll(all, pm);
    }

    /** The ranges of the leftmost matches of the normalised search in the normalised
        text. The normal form of a search must not be empty. */
    method Find(search: string) returns (results: seq<Range>)
      requires Valid()
      requires search != "" && source != [] ==> Normalize(normalizer, search) != ""
      ensures search == "" || cells == [] ==> results == []
      ensures search != "" && cells != [] ==>
                var p := Normalize(normalizer, search);
                p != "" && results == RangesFrom(cells, p, 0)
    {
      NonEmptyText(cells);
      if search == "" || |source| == 0 {
        return [];
      }
      var searchStr := Normalize(normalizer, search);
      results := FindAll(searchStr);
    }

    method FindAll(searchStr: string) returns (results: seq<Range>)
      requires Valid() && searchStr != "" && cells != []
      ensures results == RangesFrom(cells, searchStr, 0)
    {
      ghost var cur, all := 0, RangesFrom(cells, searchStr, 0);
      var searchBytes := EncodeAll(searchStr);
      var searchRuneCount := RuneCount(searchBytes, searchStr);
      var offset := 0;
      results := [];
      while true
        invariant cur <= |cells| && offset == Offset(Runes(cells), cur) <= |source|
        invariant all == results + RangesFrom(cells, searchStr, cur)
        decreases |cells| - cur
      {
        var found, range, matchEnd;
        ghost var next;
        found, range, matchEnd, next := FindNext(offset, searchBytes, searchRuneCount, searchStr, cur, results);
        if !found {
          break;
        }
        results := results + [range];
        cur := next;
        offset := matchEnd;
      }
    }

    /** One round of the search: the range of the next match, and where it ends; or nothing
        is left to find. */
    method FindNext(offset: nat, searchBytes: seq<Byte>, searchRuneCount: nat, ghost searchStr: string,
                    ghost cur: nat, ghost results: seq<Range>)
      returns (found: bool, range: Range, matchEnd: nat, ghost next: nat)
      requires Valid() && searchStr != "" && searchBytes == EncodeAll(searchStr) && searchRuneCount == |searchStr|
      requires cur <= |cells| && offset == Offset(Runes(cells), cur) <= |source|
      ensures !found ==> results == results + RangesFrom(cells, searchStr, cur)
      ensures found ==>
                && cur < next <= |cells| && matchEnd == Offset(Runes(cells), next) <= |source|
                && results + RangesFrom(cells, searchStr, cur) == results + [range] + RangesFrom(cells, searchStr, next)
    {
      found, range, matchEnd, next := FindMatch(offset, searchBytes, searchRuneCount, searchStr, cur);
      RangesGrow(cells, searchStr, cur, found, range, next, results);
    }

    method FindMatch(offset: nat, searchBytes: seq<Byte>, searchRuneCount: nat, ghost searchStr: string, ghost cur: nat)
      returns (found: bool, range: Range, matchEnd: nat, ghost next: nat)
      requires Valid() && searchStr != "" && searchBytes == EncodeAll(searchStr) && searchRuneCount == |searchStr|
      requires cur <= |cells| && offset == Offset(Runes(cells), cur) <= |source|
      ensures NextIs(cells, searchStr, cur, found, range, next)
      ensures found ==> next <= |cells| && matchEnd == Offset(Runes(cells), next) <= |source|
    {
      ghost var k := FirstMatch(Runes(cells), searchStr, cur);
      var idx := NextMatch(offset, searchBytes, searchStr, cur);
      if idx == -1 {
        return false, Range(Position(0, 0), Position(0, 0)), offset, cur;
      }
      found, matchEnd, next := true, offset + idx + |searchBytes|, k + |searchStr|;
      range := FoundRange(offset + idx, searchRuneCount, k);
    }

    /** The next byte match, relative to offset, and the character match it is. */
    method NextMatch(offset: nat, searchBytes: seq<Byte>, ghost searchStr: string, ghost cur: nat) returns (idx: int)
      requires Valid() && searchStr != "" && searchBytes == EncodeAll(searchStr)
      requires cur <= |cells| && offset == Offset(Runes(cells), cur) <= |source|
      ensures var k := FirstMatch(Runes(cells), searchStr, cur);
              (idx == -1 <==> k == -1) && (k != -1 ==>
                && 0 <= idx && offset + idx == Offset(Runes(cells), k)
                && offset + idx + |searchBytes| == Offset(Runes(cells), k + |searchStr|) <= |source|)
    {
      ghost var s := Runes(cells);
      ghost var k := FirstMatch(s, searchStr, cur);
      IndexIsFirstMatch(s, searchStr, cur);
      idx := Index(source[offset..], searchBytes);
      if idx != -1 {
        FirstMatchMatches(s, searchStr, cur);
        MatchEnds(s, searchStr, k);
      }
    }

    method FoundRange(matchStart: nat, searchRuneCount: nat, ghost k: nat) returns (r: Range)
      requires Valid() && cells != [] && 0 < searchRuneCount && k + searchRuneCount <= |cells|
      requires matchStart == Offset(Runes(cells), k)
      ensures r == MatchRange(cells, k, searchRuneCount)
    {
      IndexedAt(byteToRune, Runes(cells), k);
      var matchStartChar := byteToRune[matchStart];
      var matchEndChar := matchStartChar + searchRuneCount - 1;
      var startPos := posMap.LookupCell(matchStartChar, cells);
      var endPos := posMap.LookupCell(matchEndChar, cells);
      r := Range(startPos, Position(endPos.line, endPos.col + 1));
    }

    /** Normal forms are computed once per rune. */
    method IndexAll(all: seq<Cell>, pm: PositionMap) returns (ghost stream: seq<Cell>, text: seq<Byte>)
      requires pm.Maps([])
      modifies pm
      ensures stream == Stream(normalizer, all) && text == EncodeAll(Runes(stream)) && pm.Maps(stream)
    {
      stream, text := [], [];
      var cache: map<char, string> := map[];
      for i := 0 to |all|
        invariant pm.Maps(stream)
        invariant stream == Stream(normalizer, all[..i]) && text == EncodeAll(Runes(stream))
        invariant forall r :: r in cache ==> cache[r] == Normalize(normalizer, [r])
      {
        var cell := all[i];
        var normalized;
        if cell.rune in cache {
          normalized := cache[cell.rune];
        } else {
          normalized := Normalize(normalizer, [cell.rune]);
          cache := cache[cell.rune := normalized];
        }
        stream, text := AddAll(pm, cell.pos, normalized, stream, text);
        assert all[..i + 1][..i] == all[..i];
      }
      assert all[..|all|] == all;
    }
  }

  // ----- what a search does with the index -----

  /** One round of the search loop: where it goes on after the next byte match. */
  function NextOffset(text: seq<Byte>, pat: seq<Byte>, offset: nat): Tokens.Option<nat>
    requires offset <= |text|
  {
    var i := Index(text[offset..], pat);
    if i == -1 then Tokens.None else Tokens.Some(offset + i + |pat|)
  }

  /** Where the search goes on after n rounds; nowhere once it has ended. */
  function OffsetAfter(text: seq<Byte>, pat: seq<Byte>, n: nat): (r: Tokens.Option<nat>)
    ensures r.Some? ==> r.value <= |text|
  {
    if n == 0 then Tokens.Some(0)
    else match OffsetAfter(text, pat, n - 1)
      case Some(offset) => NextOffset(text, pat, offset)
      case None => Tokens.None
  }

  /** After some number of rounds nothing is left to find. */
  ghost predicate SearchEnds(text: seq<Byte>, pat: seq<Byte>) {
    exists n: nat :: OffsetAfter(text, pat, n).None?
  }

  lemma {:induction false} EveryRoundAdvances(text: seq<Byte>, pat: seq<Byte>, n: nat)
    requires pat != [] && OffsetAfter(text, pat, n).Some?
    ensures OffsetAfter(text, pat, n).value >= n
  {
    if n > 0 {
      EveryRoundAdvances(text, pat, n - 1);
    }
  }

  lemma {:induction false} EmptyNeverAdvances(text: seq<Byte>, n: nat)
    ensures OffsetAfter(text, [], n) == Tokens.Some(0)
  {
    if n > 0 {
      EmptyNeverAdvances(text, n - 1);
      assert text[0..][0..0] == [];
    }
  }

  /** The search ends exactly when it looks for something: one that is not empty, but whose
      normal form is, would go on forever. */
  lemma {:induction false} SearchEndsIffNotEmpty(text: seq<Byte>, pat: seq<Byte>)
    ensures SearchEnds(text, pat) <==> pat != []
  {
    if pat != [] {
      var n := |text| + 1;
      if OffsetAfter(text, pat, n).Some? {
        EveryRoundAdvances(text, pat, n);
      }
      assert OffsetAfter(text, pat, n).None?;
    } else {
      forall n: nat ensures OffsetAfter(text, pat, n).Some? {
        EmptyNeverAdvances(text, n);
      }
    }
  }

  /** Find returns: at once without anything to look for or in, else after some rounds. */
  ghost predicate FindEnds(n: Normalizer, cells: seq<Cell>, search: string) {
    var text, pat := EncodeAll(Runes(Stream(n, cells))), EncodeAll(Normalize(n, search));
    search == "" || text == [] || SearchEnds(text, pat)
  }

  lemma {:induction false} FindEndsIff(n: Normalizer, cells: seq<Cell>, search: string)
    ensures FindEnds(n, cells, search) <==> search == "" || Stream(n, cells) == [] || Normalize(n, search) != ""
  {
    var text, p := EncodeAll(Runes(Stream(n, cells))), Normalize(n, search);
    NonEmptyText(Stream(n, cells));
    SearchEndsIffNotEmpty(text, EncodeAll(p));
    assert EncodeAll(p) == [] <==> p == "";
  }

  /** It does happen: a normaliser that drops an accent, and a search for the accent alone. */
  lemma {:induction false} FindForAccentNeverEnds()
    ensures var n := Tokens.Some((s: string) => if s == "\U{0301}" then "" else s);
            !FindEnds(n, [Cell(Position(0, 0), 'a')], "\U{0301}")
  {
    var n := Tokens.Some((s: string) => if s == "\U{0301}" then "" else s);
    var cells := [Cell(Position(0, 0), 'a')];
    FindEndsIff(n, cells, "\U{0301}");
    assert cells[..0] == [];
    assert Stream(n, cells) == Stream(n, []) + CellsAt(Position(0, 0), "a");
  }

  /** A match ends where its characters do. */
  lemma {:induction false} MatchEnds(s: string, p: string, k: nat)
    requires MatchAt(s, p, k)
    ensures Offset(s, k) + |EncodeAll(p)| == Offset(s, k + |p|) <= |EncodeAll(s)|
  {
    OffsetAfterMatch(s, p, k);
    OffsetSuffix(s, k + |p|);
  }

  lemma {:induction false} OffsetAfterMatch(s: string, p: string, k: nat)
    requires MatchAt(s, p, k)
    ensures Offset(s, k + |p|) == Offset(s, k) + |EncodeAll(p)|
  {
    EncodeAllAppend(s[..k], p);
    assert s[..k + |p|] == s[..k] + p;
  }

  lemma {:induction false} IndexedAt(table: seq<nat>, s: string, k: nat)
    requires Indexed(table, s) && s != "" && k <= |s|
    ensures Offset(s, k) < |table| && table[Offset(s, k)] == k
  {
    assert CountedAt(table, s, k);
  }

  /** A cell is inside the range of a match exactly when it is one of its cells. */
  lemma {:induction false} InMatchRange(cells: seq<Cell>, k: nat, n: nat, j: nat)
    requires CellsAscend(cells) && 0 < n && k + n <= |cells| && j < |cells|
    ensures MatchRange(cells, k, n).Contains(cells[j].pos) <==> k <= j < k + n
  {
    ContainsIsHalfOpen(MatchRange(cells, k, n), cells[j].pos);
    assert j < k ==> Less(cells[j].pos, cells[k].pos);
    assert k < j ==> Less(cells[k].pos, cells[j].pos);
    assert j < k + n - 1 ==> Less(cells[j].pos, cells[k + n - 1].pos);
    assert k + n - 1 < j ==> Less(cells[k + n - 1].pos, cells[j].pos);
  }

  /** Of cells in ascending order, those inside the range of a match are the match. */
  lemma {:induction false} RangeHoldsMatch(cells: seq<Cell>, k: nat, n: nat)
    requires CellsAscend(cells) && 0 < n && k + n <= |cells|
    ensures Seqs.Filter(Within(MatchRange(cells, k, n)), cells) == cells[k..k + n]
  {
    var r := MatchRange(cells, k, n);
    forall j | 0 <= j < |cells| ensures Within(r)(cells[j]) <==> k <= j < k + n {
      InMatchRange(cells, k, n, j);
    }
    Seqs.FilterInterval(Within(r), cells, k, k + n);
  }

  lemma {:induction false} RangeHoldsSearch(cells: seq<Cell>, p: string, k: nat)
    requires CellsAscend(cells) && p != "" && MatchAt(Runes(cells), p, k)
    ensures Runes(Seqs.Filter(Within(MatchRange(cells, k, |p|)), cells)) == p
  {
    RangeHoldsMatch(cells, k, |p|);
    assert Runes(cells[k..k + |p|]) == Runes(cells)[k..k + |p|];
  }

  /** Iterating over a range that a search without normaliser returned yields the
      searched text again. */
  lemma {:induction false} FoundRangesHoldSearch(lines: seq<Line>, p: string, cells: seq<Cell>, i: nat)
    requires p != "" && cells == Cells(lines, |lines|)
    requires i < |RangesFrom(cells, p, 0)|
    ensures Runes(CellsIn(lines, RangesFrom(cells, p, 0)[i])) == p
  {
    var ms := Matches(Runes(cells), p, 0);
    CellsAreAscending(lines, |lines|);
    RangesOfMatches(cells, p, 0);
    MatchesAreLeftmost(Runes(cells), p, 0);
    assert Occurrences(Runes(cells), p)(ms[i]);
    RangeHoldsSearch(cells, p, ms[i]);
  }

  /** Appends one rune's normal form to the text and to the position map. */
  method AddAll(pm: PositionMap, pos: Position, normalized: string, ghost before: seq<Cell>, text: seq<Byte>)
    returns (ghost stream: seq<Cell>, newText: seq<Byte>)
    requires pm.Maps(before) && text == EncodeAll(Runes(before))
    modifies pm
    ensures stream == before + CellsAt(pos, normalized)
    ensures pm.Maps(stream) && newText == EncodeAll(Runes(stream))
  {
    stream, newText := before, text;
    for j := 0 to |normalized|
      invariant stream == before + CellsAt(pos, normalized[..j])
      invariant pm.Maps(stream) && newText == EncodeAll(Runes(stream))
    {
      ghost var cell := Cell(pos, normalized[j]);
      pm.AddCell(pos, cell, stream);
      RunesSnoc(stream, cell);
      CellsAtSnoc(before, pos, normalized, j);
      newText := newText + Encode(normalized[j]);
      stream := stream + [cell];
    }
    assert normalized[..|normalized|] == normalized;
  }

  lemma {:induction false} CellsAtSnoc(before: seq<Cell>, pos: Position, s: string, j: nat)
    requires j < |s|
    ensures before + CellsAt(pos, s[..j]) + [Cell(pos, s[j])] == before + CellsAt(pos, s[..j + 1])
  {
    assert CellsAt(pos, s[..j + 1]) == CellsAt(pos, s[..j]) + [Cell(pos, s[j])];
    Seqs.ConcatAssociative(before, CellsAt(pos, s[..j]), [Cell(pos, s[j])]);
  }

  lemma {:induction false} NonEmptyText(cells: seq<Cell>)
    ensures EncodeAll(Runes(cells)) == [] <==> cells == []
  {
  }

  lemma {:induction false} RunesSnoc(cells: seq<Cell>, cell: Cell)
    ensures EncodeAll(Runes(cells + [cell])) == EncodeAll(Runes(cells)) + Encode(cell.rune)
  {
    var c := [cell.rune];
    assert Runes(cells + [cell]) == Runes(cells) + c;
    EncodeAllAppend(Runes(cells), c);
    assert c[1..] == "" && EncodeAll(c) == Encode(cell.rune) + EncodeAll("");
  }

  /** At the start of every character, and at the end, the table holds its number. An
      empty text has no table. */
  ghost predicate Indexed(table: seq<nat>, s: string) {
    if s == "" then table == []
    else
      && |table| == |EncodeAll(s)| + 1
      && forall k: nat {:trigger CountedAt(table, s, k)} :: k <= |s| ==> CountedAt(table, s, k)
  }

  ghost predicate CountedAt(table: seq<nat>, s: string, k: nat) {
    k <= |s| && Offset(s, k) < |table| && table[Offset(s, k)] == k
  }

  method BuildByteToRuneIndex(source: seq<Byte>, ghost s: string) returns (table: seq<nat>)
    requires source == EncodeAll(s)
    ensures Indexed(table, s)
  {
    if |source| == 0 {
      return [];
    }
    var index := new nat[|source| + 1](_ => 0);
    var runeCount, i := 0, 0;
    assert s[..0] == "";
    while i < |source|
      invariant runeCount <= |s| && i == Offset(s, runeCount) <= |source|
      invariant forall k :: 0 <= k < runeCount ==> Offset(s, k) < i && index[Offset(s, k)] == k
      decreases |source| - i
    {
      index[i] := runeCount;
      OffsetOfAll(s, runeCount);
      NextCharacter(s, runeCount);
      var size := DecodeRune(source[i..]).1;
      i := i + size;
      runeCount := runeCount + 1;
    }
    index[|source|] := runeCount;
    table := index[..];
    OffsetOfAll(s, runeCount);
    forall k: nat | k <= |s| ensures CountedAt(table, s, k) {
    }
  }
}
