/** From highlights and searches to the painted line: what a reader of the output sees. */
module Showing {
  import opened Position
  import opened Lines
  import opened Tokens
  import opened Splitter
  import opened Builder
  import opened Source
  import opened Finder
  import opened Blender
  import opened Painting
  import opened Printer
  import Seqs

  // ----- highlighting and rendering -----

  /** All highlights of a list of calls, in order. */
  function AllHighlights(calls: seq<(Kind, seq<Range>)>): seq<Highlight> {
    if calls == [] then []
    else AllHighlights(calls[..|calls| - 1]) + Highlights(calls[|calls| - 1].0, calls[|calls| - 1].1)
  }

  /** Every rune below the column limit looks like the fold of exactly those highlights
      whose range contains its position, over the look its token gives it. */
  ghost predicate ShowsHighlights(done: seq<Style>, bases: seq<Style>, hs: seq<Highlight>, line: int,
                                  sheet: StyleSheet)
  {
    && |done| == |bases|
    && forall k :: 0 <= k < |done| && k < MAX_COL ==>
         done[k].look == FoldLook(bases[k].look, StylesFor(sheet, Containing(hs, Position(line, k))), false)
  }

  lemma {:induction false} PaintedShowsHighlights(done: seq<Style>, bases: seq<Style>, hs: seq<Highlight>, line: int,
                                                  memo: Memo, sheet: StyleSheet)
    requires Painted(done, bases, memo, Resolve(sheet, OverlaysOf(hs, line)), 0, false) && LooksRight(memo)
    ensures ShowsHighlights(done, bases, hs, line, sheet)
  {
    forall k | 0 <= k < |done| && k < MAX_COL
      ensures done[k].look == FoldLook(bases[k].look, StylesFor(sheet, Containing(hs, Position(line, k))), false)
    {
      HighlightsShow(hs, line, done, bases, memo, sheet, k);
    }
  }

  /** So a rune's look is its token's, replaced by the style of the first highlight that was added
      with its position inside, and blended with those of all further ones in order. */
  lemma {:induction false} ShownLayers(done: seq<Style>, bases: seq<Style>, hs: seq<Highlight>, line: int,
                                       sheet: StyleSheet, k: nat, those: seq<Highlight>)
    returns (looks: seq<Look>, layers: seq<Look>)
    requires ShowsHighlights(done, bases, hs, line, sheet) && k < |done| && k < MAX_COL
    requires those == Seqs.Filter(HasPoint(Position(line, k)), hs)
    ensures |looks| == |those| && forall i :: 0 <= i < |those| ==> looks[i] == sheet.Of(those[i].kind).look
    ensures Layered(layers, bases[k].look, looks, false) && done[k].look == layers[|those|]
  {
    var styles := StylesFor(sheet, Containing(hs, Position(line, k)));
    ContainingInOrder(hs, Position(line, k));
    layers := FoldLookLayers(bases[k].look, styles, false);
    looks := LooksOf(styles);
  }

  lemma {:induction false} AllHighlightsInOrder(calls: seq<(Kind, seq<Range>)>)
    ensures AllHighlights(calls) ==
            Seqs.Concat(seq(|calls|, i requires 0 <= i < |calls| => Highlights(calls[i].0, calls[i].1)))
  {
    if calls != [] {
      var n := |calls| - 1;
      var each := seq(|calls|, i requires 0 <= i < |calls| => Highlights(calls[i].0, calls[i].1));
      AllHighlightsInOrder(calls[..n]);
      assert each[..n] == seq(n, i requires 0 <= i < n => Highlights(calls[..n][i].0, calls[..n][i].1));
    }
  }

  predicate AllHighlightable(calls: seq<(Kind, seq<Range>)>, n: nat) {
    forall i, j :: 0 <= i < |calls| && 0 <= j < |calls[i].1| ==> Highlightable(calls[i].1[j], n)
  }

  /** Any highlights, on a source without any so far. */
  method AddHighlights(source: Source, calls: seq<(Kind, seq<Range>)>)
    requires AllHighlightable(calls, |source.lines|)
    modifies source
    ensures |source.lines| == |old(source.lines)|
    ensures forall l :: 0 <= l < |source.lines| ==>
              source.lines[l] == old(source.lines)[l].(overlays := OverlaysOf(AllHighlights(calls), l))
  {
    source.ClearOverlays();
    for i := 0 to |calls|
      invariant |source.lines| == |old(source.lines)|
      invariant forall l :: 0 <= l < |source.lines| ==>
                  source.lines[l] == old(source.lines)[l].(overlays := OverlaysOf(AllHighlights(calls[..i]), l))
    {
      ghost var before, more := AllHighlights(calls[..i]), Highlights(calls[i].0, calls[i].1);
      source.AddOverlay(calls[i].0, calls[i].1);
      assert calls[..i + 1][..i] == calls[..i];
      forall l | 0 <= l < |source.lines|
        ensures OverlaysOf(before + more, l) == OverlaysOf(before, l) + OverlaysOf(more, l)
      {
        OverlaysOfAppend(before, more, l);
      }
    }
    assert calls[..|calls|] == calls;
  }

  /** Highlighting and then rendering a line: the cache takes care of itself. */
  method HighlightAndRender(printer: Printer, source: Source, calls: seq<(Kind, seq<Range>)>, l: nat, kindOf: KindOf)
    returns (chunks: seq<Chunk>, ghost parts: seq<seq<Chunk>>)
    requires printer.Valid() && l < |source.lines| && AllHighlightable(calls, |source.lines|)
    requires printer.blender.nextKey +
             KeysForLine(|OverlaysOf(AllHighlights(calls), l)|, |source.lines[l].segments|) <= LIMIT
    modifies source, printer.blender
    ensures printer.Valid() && SegmentsOf(source.lines) == SegmentsOf(old(source.lines))
    ensures LinePainted(chunks, parts, printer.blender.memo, printer.sheet, kindOf, source.lines[l])
    ensures var segs := old(source.lines)[l].segments;
            && TextOf(chunks) == Rendered(segs)
            && ShowsHighlights(StylesOf(chunks), LineBases(printer.sheet, kindOf, segs, |segs|), AllHighlights(calls),
                               l, printer.sheet)
  {
    AddHighlights(source, calls);
    chunks, parts := printer.RenderTokenLine(l, source.lines[l], kindOf);
    ghost var segs, blender := source.lines[l].segments, printer.blender;
    CacheLooksRight(blender.keys, blender.styles, blender.memo, blender.origin);
    PaintedShowsHighlights(StylesOf(chunks), LineBases(printer.sheet, kindOf, segs, |segs|), AllHighlights(calls), l,
                           blender.memo, printer.sheet);
  }

  // ----- painted runes and the cells of a source -----

  /** A carriage return among the line endings repeated after the line's own. */
  ghost predicate RepeatsCrlf(segs: seq<Segment>) {
    exists i :: 0 <= i < |segs| - 1 && Ends(segs[i]) && segs[i + 1].part.origin == "\r\n"
  }

  /** They differ somewhere, and will whatever follows. */
  ghost predicate Differ(r: string, t: string) {
    exists m :: 0 <= m < |r| && m < |t| && r[m] != t[m]
  }

  /** The first is what the second has before some line feed. */
  ghost predicate StopsAtNewline(r: string, t: string) {
    |r| < |t| && r == t[..|r|] && t[|r|] == '\n'
  }

  /** Painting drops line feeds, so up to the line's own nothing moves. After it, only a
      repeated CRLF leaves a rune, one column too early. */
  lemma {:induction false} RenderedUpTo(segs: seq<Segment>, number: int, n: nat)
    requires LineShape(segs, number) && n <= |segs|
    ensures Open(segs[..n]) ==> Rendered(segs[..n]) == LineText(segs[..n])
    ensures !Open(segs[..n]) && !RepeatsCrlf(segs[..n]) ==> StopsAtNewline(Rendered(segs[..n]), LineText(segs[..n]))
    ensures RepeatsCrlf(segs[..n]) ==> Differ(Rendered(segs[..n]), LineText(segs[..n]))
  {
    if n > 0 {
      RenderedUpTo(segs, number, n - 1);
      var init, last := segs[..n - 1], segs[n - 1];
      assert segs[..n][..n - 1] == init;
      OneMore(init, last, segs[..n]);
      if RepeatsCrlf(init) {
        DifferStays(Rendered(init), LineText(init), last.Text(), last.part.origin);
      } else if Open(init) {
        NewlineStops(Rendered(init), last);
      } else {
        AfterBreak(segs, number, n - 1);
        EndingFollows(Rendered(init), LineText(init), last);
      }
    }
  }

  lemma {:induction false} DifferStays(r: string, t: string, x: string, y: string)
    requires Differ(r, t)
    ensures Differ(r + x, t + y)
  {
    var m :| 0 <= m < |r| && m < |t| && r[m] != t[m];
    assert (r + x)[m] == r[m] && (t + y)[m] == t[m];
  }

  lemma {:induction false} NewlineStops(r: string, seg: Segment)
    ensures if Ends(seg) then StopsAtNewline(r + seg.Text(), r + seg.part.origin) else seg.Text() == seg.part.origin
  {
    if Ends(seg) {
      var t := r + seg.part.origin;
      assert t[|t| - 1] == '\n' && t[..|t| - 1] == r + seg.Text();
    }
  }

  lemma {:induction false} EndingFollows(r: string, t: string, seg: Segment)
    requires StopsAtNewline(r, t) && IsPureNewline(seg.part.origin)
    ensures if seg.part.origin == "\r\n" then Differ(r + seg.Text(), t + seg.part.origin)
            else StopsAtNewline(r + seg.Text(), t + seg.part.origin)
  {
    var r', t' := r + seg.Text(), t + seg.part.origin;
    assert t'[|r|] == '\n' && t'[..|r|] == t[..|r|];
    if seg.part.origin == "\r\n" {
      assert r'[|r|] == '\r';
    } else {
      assert seg.Text() == "" && r' == r;
    }
  }

  lemma {:induction false} OneMore(init: seq<Segment>, last: Segment, all: seq<Segment>)
    requires all == init + [last]
    ensures Open(all) <==> Open(init) && !Ends(last)
    ensures RepeatsCrlf(all) <==>
            RepeatsCrlf(init) || (init != [] && Ends(init[|init| - 1]) && last.part.origin == "\r\n")
  {
    if RepeatsCrlf(init) {
      var i :| 0 <= i < |init| - 1 && Ends(init[i]) && init[i + 1].part.origin == "\r\n";
      assert all[i] == init[i] && all[i + 1] == init[i + 1];
    }
    if init != [] && Ends(init[|init| - 1]) && last.part.origin == "\r\n" {
      assert all[|init| - 1] == init[|init| - 1] && all[|init| - 1 + 1] == last;
    }
    if Open(all) {
      assert all[|init|] == last;
      forall i | 0 <= i < |init| ensures !Ends(init[i]) {
        assert all[i] == init[i];
      }
    }
  }

  /** From the line feed on, every segment is a line ending. */
  lemma {:induction false} AfterBreak(segs: seq<Segment>, number: int, n: nat)
    requires LineShape(segs, number) && 0 < n < |segs| && !Open(segs[..n])
    ensures Ends(segs[n - 1]) && IsPureNewline(segs[n].part.origin)
  {
    if !Ends(segs[n - 1]) {
      assert segs[..n] == segs[..n - 1] + [segs[n - 1]];
      OneMore(segs[..n - 1], segs[n - 1], segs[..n]);
      AfterBreak(segs, number, n - 1);
    }
    assert Ends(segs[n - 1]) ==> Repeats(segs[n - 1 + 1], number);
  }

  lemma {:induction false} RenderedFits(segs: seq<Segment>)
    ensures |Rendered(segs)| <= |LineText(segs)|
  {
    if segs != [] {
      RenderedFits(segs[..|segs| - 1]);
    }
  }

  /** On a line of the builder, every painted rune is the one at its column exactly when
      no CRLF is repeated after the line's line feed. */
  lemma {:induction false} PaintedAtItsColumnIff(segs: seq<Segment>, number: int)
    requires LineShape(segs, number)
    ensures Rendered(segs) <= LineText(segs) <==> !RepeatsCrlf(segs)
  {
    RenderedUpTo(segs, number, |segs|);
    assert segs[..|segs|] == segs;
    if RepeatsCrlf(segs) {
      DifferNoPrefix(Rendered(segs), LineText(segs));
    }
  }

  lemma {:induction false} DifferNoPrefix(r: string, t: string)
    requires Differ(r, t)
    ensures !(r <= t)
  {
  }

  /** A token that is not cut has one segment, with all of its origin. */
  lemma {:induction false} SingleSegment(group: seq<Segment>, tk: Token)
    requires Complete(group, tk) && IsSimple(tk.data.origin)
    ensures |group| == 1 && group[0].part.origin == tk.data.origin
  {
    var parts := Parts(tk.data.origin);
    SimpleIsOnePart(tk.data.origin);
    PartsAreLines(tk.data.origin);
    assert SegmentOf(group[0], tk, 0);
    assert parts == [parts[0]] && parts[..0] == [];
    assert Seqs.Concat(parts) == Seqs.Concat(parts[..0]) + parts[0];
  }

  lemma {:induction false} SimpleEndings()
    ensures IsSimple("a\n") && IsSimple("\r\n") && LeadingNewlines("a\n") == 0
  {
    assert "a\n"[..1] == "a" && "\r\n"[..1] == "\r" && "a"[..0] == "" && "\r"[..0] == "";
    assert Newlines("a") == 0 && Newlines("\r") == 0;
  }

  /** A line with one segment, and the next to be filled after it. */
  function OneLine(segs: seq<Segment>): State {
    State([Line(segs, 1, FlagDefault, [], [])], [], 2, true)
  }

  lemma {:induction false} LineFeedEndsLine(t: Token, first: Segment)
    requires t.data.origin == first.part.origin == "a\n" && t.data.position.Some? && t.data.position.value.line == 1
    ensures AfterToken(State([], [], 1, false), t, [first]) == OneLine([first])
  {
    var start := State([], [], 1, false);
    OneToken(start, t, first);
    assert [] + [first] == [first] && Ends(first);
    assert AfterAppend(start, first) == OneLine([first]).(prevEnded := false);
  }

  lemma {:induction false} CrlfRepeats(u: Token, first: Segment, second: Segment)
    requires u.data.origin == second.part.origin == "\r\n" && u.data.position.Some? && u.data.position.value.line == 2
    ensures AfterToken(OneLine([first]), u, [second]) == OneLine([first, second])
  {
    var st := OneLine([first]);
    OneToken(st, u, second);
    assert IsDuplicate(st, u, true, "\r\n");
    assert st.lines[..0] == [] && [first] + [second] == [first, second];
    assert Regrown(st.lines, second) == OneLine([first, second]).lines;
  }

  lemma {:induction false} LineFeedOnOneLine(t: Token, first: Segment)
    requires t.data.origin == first.part.origin == "a\n" && t.data.position.Some? && t.data.position.value.line == 1
    ensures AfterTokens(1, [t], [[first]]) == OneLine([first])
  {
    LineFeedEndsLine(t, first);
    AfterTokensSnoc(1, [], [], t, [first]);
    assert [] + [t] == [t] && [] + [[first]] == [[first]];
  }

  /** A line feed on line 1, and a CRLF that says to be on line 2 and repeats it. */
  lemma {:induction false} RepeatedOnOneLine(t: Token, u: Token, first: Segment, second: Segment)
    requires t.data.origin == first.part.origin == "a\n" && t.data.position.Some? && t.data.position.value.line == 1
    requires u.data.origin == second.part.origin == "\r\n" && u.data.position.Some? && u.data.position.value.line == 2
    ensures AfterTokens(1, [t, u], [[first], [second]]) == OneLine([first, second])
  {
    LineFeedOnOneLine(t, first);
    CrlfRepeats(u, first, second);
    AfterTokensSnoc(1, [t], [[first]], u, [second]);
    assert [t] + [u] == [t, u] && [[first]] + [[second]] == [[first], [second]];
  }

  lemma {:induction false} OneToken(st: State, tk: Token, seg: Segment)
    requires st.open == [] && tk.data.position.Some? && tk.data.position.value.line == st.number
    ensures AfterToken(st, tk, [seg]) == AfterSegment(st, tk, true, seg).(prevEnded := EndsWithNewline(tk.data.origin))
  {
    assert AfterGap(st, tk) == st;
    assert [seg][..0] == [] && AfterSegments(st, tk, [seg][..0]) == st;
    assert AfterSegments(st, tk, [seg]) == AfterSegment(st, tk, true, seg);
  }

  lemma {:induction false} TextsOfTwo(segs: seq<Segment>)
    requires |segs| == 2 && segs[0].part.origin == "a\n" && segs[1].part.origin == "\r\n"
    ensures Rendered(segs) == "a\r" && LineText(segs) == "a\n\r\n" && RepeatsCrlf(segs)
  {
    var first := segs[..1];
    assert first[..0] == [] && first[0] == segs[0];
    assert "a\n"[..1] == "a" && "\r\n"[..1] == "\r";
    assert segs[0].Text() == "a" && segs[1].Text() == "\r";
    assert Rendered(first) == Rendered([]) + "a" && LineText(first) == LineText([]) + "a\n";
    assert "a" + "\r" == "a\r" && "a\n" + "\r\n" == "a\n\r\n";
    assert Ends(segs[0]) && segs[0 + 1].part.origin == "\r\n";
  }

  /** It does happen: of "a" with a line feed on line 1, and a CRLF that says to be on line 2,
      the builder makes one line. There the CRLF is cells 2 and 3 and is painted at column 1. */
  lemma {:induction false} CrlfMoves(t: Token, u: Token, lines: seq<Line>, groups: seq<seq<Segment>>)
    requires t.data.origin == "a\n" && t.data.position.Some? && t.data.position.value.line == 1
    requires u.data.origin == "\r\n" && u.data.position.Some? && u.data.position.value.line == 2
    requires GroupsOf(groups, [t, u]) && lines == Built(AfterTokens(StartLine(t), [t, u], groups))
    ensures |lines| == 1
    ensures var segs := lines[0].segments;
            Rendered(segs) == "a\r" && LineText(segs) == "a\n\r\n" && RepeatsCrlf(segs)
  {
    SimpleEndings();
    assert Complete(groups[0], [t, u][0]) && Complete(groups[1], [t, u][1]);
    SingleSegment(groups[0], t);
    SingleSegment(groups[1], u);
    var first, second := groups[0][0], groups[1][0];
    assert groups[0] == [first] && groups[1] == [second] && groups == [[first], [second]];
    RepeatedOnOneLine(t, u, first, second);
    TextsOfTwo([first, second]);
  }

  /** Every column of a line has its cell. */
  lemma {:induction false} CellAt(lines: seq<Line>, n: nat, l: nat, k: nat) returns (j: nat)
    requires l < n <= |lines| && k < |LineText(lines[l].segments)|
    ensures j < |Cells(lines, n)| && Cells(lines, n)[j] == Cell(Position(l, k), LineText(lines[l].segments)[k])
  {
    if l == n - 1 {
      j := |Cells(lines, n - 1)| + k;
    } else {
      j := CellAt(lines, n - 1, l, k);
    }
  }

  // ----- the runes of a source and the stream it was cut from -----

  lemma {:induction false} RunesOfLines(lines: seq<Line>, n: nat)
    requires n <= |lines|
    ensures Runes(Cells(lines, n)) == Seqs.Concat(Origins(AllSegments(lines[..n])))
  {
    if n > 0 {
      var segs := lines[n - 1].segments;
      RunesOfLines(lines, n - 1);
      LineTextIsOrigins(segs);
      assert lines[..n] == lines[..n - 1] + [lines[n - 1]];
      AllSegmentsSnoc(lines[..n - 1], lines[n - 1]);
      OriginsAppend(AllSegments(lines[..n - 1]), segs);
      RunesAppend(Cells(lines, n - 1), n - 1, LineText(segs));
    } else {
      assert lines[..0] == [] && AllSegments([]) == [];
    }
  }

  lemma {:induction false} RunesAppend(cells: seq<Cell>, line: int, text: string)
    ensures Runes(cells + CellsOf(line, text)) == Runes(cells) + text
  {
  }

  /** Iterating over the lines of a stream gives the text of the stream, rune by rune. */
  lemma {:induction false} RunesAreTheStream(lines: seq<Line>, tks: seq<Token>, groups: seq<seq<Segment>>)
    requires CutFrom(lines, tks, groups)
    ensures Runes(Cells(lines, |lines|)) ==
            Seqs.Concat(seq(|tks|, i requires 0 <= i < |tks| => tks[i].data.origin))
  {
    RunesOfLines(lines, |lines|);
    assert lines[..|lines|] == lines;
    CutConserves(groups, tks);
  }

  // ----- what a search finds is what is painted -----

  /** The cell is part of one of the leftmost matches. */
  ghost predicate IsFound(cells: seq<Cell>, search: string, j: nat) {
    search != "" && InSome(Matches(Runes(cells), search, 0), |search|, j)
  }

  ghost predicate InSome(ms: seq<nat>, n: nat, j: nat) {
    exists i :: 0 <= i < |ms| && ms[i] <= j < ms[i] + n
  }

  /** A position is in the range of at most one match: that which its cell is part of. */
  lemma {:induction false} ContainingFound(cells: seq<Cell>, ms: seq<nat>, n: nat, kind: Kind, j: nat)
    requires CellsAscend(cells) && j < |cells| && 0 < n && Apart(ms, n)
    requires forall i :: 0 <= i < |ms| ==> ms[i] + n <= |cells|
    ensures Containing(Highlights(kind, MatchRanges(cells, ms, n)), cells[j].pos) ==
            if InSome(ms, n, j) then [kind] else []
  {
    var ranges := MatchRanges(cells, ms, n);
    forall i | 0 <= i < |ms| ensures ranges[i].Contains(cells[j].pos) <==> ms[i] <= j < ms[i] + n {
      InMatchRange(cells, ms[i], n, j);
    }
    ContainingAtMostOne(kind, ranges, cells[j].pos);
    if InSome(ms, n, j) {
      var i :| 0 <= i < |ms| && ms[i] <= j < ms[i] + n;
      assert ranges[i].Contains(cells[j].pos);
    }
  }

  lemma {:induction false} ContainingAtMostOne(kind: Kind, ranges: seq<Range>, pos: Position)
    requires forall i, j :: 0 <= i < j < |ranges| ==> !(ranges[i].Contains(pos) && ranges[j].Contains(pos))
    ensures Containing(Highlights(kind, ranges), pos) == if Tokens.InSome(ranges, pos) then [kind] else []
  {
    if ranges != [] {
      var m := |ranges| - 1;
      var init, last := ranges[..m], ranges[m];
      ContainingAtMostOne(kind, init, pos);
      assert ranges == init + [last];
      ContainingSnoc(kind, init, last, pos);
      InSomeConcat(init, [last], pos);
      assert Tokens.InSome([last], pos) <==> [last][0].Contains(pos);
    }
  }

  lemma {:induction false} ContainingSnoc(kind: Kind, ranges: seq<Range>, r: Range, pos: Position)
    ensures Containing(Highlights(kind, ranges + [r]), pos) ==
            Containing(Highlights(kind, ranges), pos) + if r.Contains(pos) then [kind] else []
  {
    assert Highlights(kind, ranges + [r]) == Highlights(kind, ranges) + [Highlight(kind, r)];
    assert (Highlights(kind, ranges) + [Highlight(kind, r)])[..|ranges|] == Highlights(kind, ranges);
  }

  /** Positions never go back, and lie on n lines. */
  ghost predicate InOrder(cells: seq<Cell>, n: nat) {
    && CellsWithin(cells, n)
    && forall i, j :: 0 <= i < j < |cells| ==> !Less(cells[j].pos, cells[i].pos)
  }

  /** Normalising keeps the order of the runes; those of one rune share its position. */
  lemma {:induction false} StreamInOrder(n: Normalizer, cells: seq<Cell>, lines: nat)
    requires CellsAscend(cells) && CellsWithin(cells, lines)
    ensures InOrder(Stream(n, cells), lines)
    ensures forall i :: 0 <= i < |Stream(n, cells)| ==> !Less(cells[|cells| - 1].pos, Stream(n, cells)[i].pos)
  {
    if cells != [] {
      var m := |cells| - 1;
      var before, pos := Stream(n, cells[..m]), cells[m].pos;
      StreamInOrder(n, cells[..m], lines);
      forall i | 0 <= i < |before| ensures Less(before[i].pos, pos) {
        assert Less(cells[m - 1].pos, pos);
      }
      InOrderAppend(before, CellsAt(pos, Normalize(n, [cells[m].rune])), pos, lines);
    }
  }

  lemma {:induction false} InOrderAppend(before: seq<Cell>, cells: seq<Cell>, pos: Position, lines: nat)
    requires InOrder(before, lines) && 0 <= pos.line < lines && 0 <= pos.col
    requires forall i :: 0 <= i < |before| ==> Less(before[i].pos, pos)
    requires forall i :: 0 <= i < |cells| ==> cells[i].pos == pos
    ensures InOrder(before + cells, lines)
    ensures forall i :: 0 <= i < |before + cells| ==> !Less(pos, (before + cells)[i].pos)
  {
  }

  lemma {:induction false} FoundHighlightable(cells: seq<Cell>, lines: nat, k: nat, n: nat)
    requires InOrder(cells, lines) && 0 < n && k + n <= |cells|
    ensures Highlightable(MatchRange(cells, k, n), lines)
  {
    assert n > 1 ==> !Less(cells[k + n - 1].pos, cells[k].pos);
  }

  /** The range of a match in normalised text holds what lies from its first rune to its last. */
  lemma {:induction false} MatchRangeHolds(cells: seq<Cell>, k: nat, n: nat, pos: Position)
    requires 0 < n && k + n <= |cells|
    ensures MatchRange(cells, k, n).Contains(pos) <==> !Less(pos, cells[k].pos) && !Less(cells[k + n - 1].pos, pos)
  {
    ContainsIsHalfOpen(MatchRange(cells, k, n), pos);
  }

  /** A painted rune that was found has the search style on its own, any other its token's. */
  ghost predicate ShowsFound(done: seq<Style>, bases: seq<Style>, cells: seq<Cell>, search: string, kind: Kind,
                             l: int, sheet: StyleSheet)
  {
    forall j, k ::
      0 <= j < |cells| && 0 <= k < |done| && k < |bases| && k < MAX_COL && cells[j].pos == Position(l, k) ==>
        done[k].look ==
        if IsFound(cells, search, j) then Overridden(bases[k].look, sheet.Of(kind).look) else bases[k].look
  }

  lemma {:induction false} HighlightsShowFound(done: seq<Style>, bases: seq<Style>, lines: seq<Line>, search: string,
                                               kind: Kind, l: int, sheet: StyleSheet)
    requires ShowsHighlights(done, bases, Highlights(kind, FoundRanges(Tokens.None, lines, search)), l, sheet)
    ensures ShowsFound(done, bases, Cells(lines, |lines|), search, kind, l, sheet)
  {
    var cells, ranges := Cells(lines, |lines|), FoundRanges(Tokens.None, lines, search);
    forall j, k | 0 <= j < |cells| && 0 <= k < |done| && k < MAX_COL && cells[j].pos == Position(l, k)
      ensures done[k].look ==
              if IsFound(cells, search, j) then Overridden(bases[k].look, sheet.Of(kind).look) else bases[k].look
    {
      FoundIsHighlighted(lines, search, kind, j);
      OneFold(bases[k].look, sheet, kind);
    }
  }

  lemma {:induction false} FoundIsHighlighted(lines: seq<Line>, search: string, kind: Kind, j: nat)
    requires j < |Cells(lines, |lines|)|
    ensures var cells := Cells(lines, |lines|);
            Containing(Highlights(kind, FoundRanges(Tokens.None, lines, search)), cells[j].pos) ==
            if IsFound(cells, search, j) then [kind] else []
  {
    var cells := Cells(lines, |lines|);
    CellsAreAscending(lines, |lines|);
    StreamWithoutNormalizer(cells);
    if search != "" {
      RangesOfMatches(cells, search, 0);
      MatchesAreLeftmost(Runes(cells), search, 0);
      ContainingFound(cells, Matches(Runes(cells), search, 0), |search|, kind, j);
    }
  }

  lemma {:induction false} OneFold(base: Look, sheet: StyleSheet, kind: Kind)
    ensures FoldLook(base, StylesFor(sheet, [kind]), false) == Overridden(base, sheet.Of(kind).look)
    ensures FoldLook(base, StylesFor(sheet, []), false) == base
  {
    assert StylesFor(sheet, [kind]) == [sheet.Of(kind)] && [sheet.Of(kind)][..0] == [];
    assert StylesFor(sheet, []) == [];
  }

  /** What a search finds in a source. */
  ghost function FoundRanges(n: Normalizer, lines: seq<Line>, search: string): seq<Range> {
    var stream, p := Stream(n, Cells(lines, |lines|)), Normalize(n, search);
    if search == "" || stream == [] || p == "" then [] else RangesFrom(stream, p, 0)
  }

  /** With a normaliser, what is found is the leftmost occurrences of the search's normal form in
      the normal forms of the source's runes, one after the other. */
  lemma {:induction false} FoundNormalised(f: string -> string, lines: seq<Line>, search: string) returns (ms: seq<nat>)
    requires search != "" && f(search) != ""
    ensures var cells, p := Cells(lines, |lines|), f(search);
            && Leftmost(ms, Occurrences(Seqs.Concat(Forms(f, cells)), p), |p|, 0)
            && RangesOfRuns(FoundRanges(Tokens.Some(f), lines, search), ms, |p|, Seqs.Concat(FormPositions(f, cells)))
  {
    ms := FoundInForms(f, Cells(lines, |lines|), search);
  }

  /** The finder's index, if it is of this source, is up to date. */
  ghost predicate UpToDate(finder: Finder, source: Source)
    reads finder, source
  {
    finder.prevLines == source ==> finder.cells == Stream(finder.normalizer, Cells(source.lines, |source.lines|))
  }

  method LoadAndFind(finder: Finder, source: Source, search: string) returns (ranges: seq<Range>)
    requires finder.Valid() && UpToDate(finder, source)
    requires FindEnds(finder.normalizer, Cells(source.lines, |source.lines|), search)
    modifies finder
    ensures finder.Valid() && finder.prevLines == source && UpToDate(finder, source)
    ensures ranges == FoundRanges(finder.normalizer, source.lines, search)
  {
    FindEndsIff(finder.normalizer, Cells(source.lines, |source.lines|), search);
    finder.Load(source);
    NonEmptyText(finder.cells);
    ranges := finder.Find(search);
  }

  /** Highlighting does not outdate the index. */
  method HighlightFound(finder: Finder, printer: Printer, source: Source, kind: Kind, ranges: seq<Range>,
                        l: nat, kindOf: KindOf)
    returns (chunks: seq<Chunk>, ghost parts: seq<seq<Chunk>>)
    requires finder.Valid() && UpToDate(finder, source)
    requires printer.Valid() && l < |source.lines| && AllHighlightable([(kind, ranges)], |source.lines|)
    requires printer.blender.nextKey +
             KeysForLine(|OverlaysOf(Highlights(kind, ranges), l)|, |source.lines[l].segments|) <= LIMIT
    modifies source, printer.blender
    ensures finder.Valid() && UpToDate(finder, source)
    ensures printer.Valid() && SegmentsOf(source.lines) == SegmentsOf(old(source.lines))
    ensures var segs := old(source.lines)[l].segments;
            && TextOf(chunks) == Rendered(segs)
            && ShowsHighlights(StylesOf(chunks), LineBases(printer.sheet, kindOf, segs, |segs|),
                               Highlights(kind, ranges), l, printer.sheet)
  {
    ghost var lines := source.lines;
    OneCall(kind, ranges);
    chunks, parts := HighlightAndRender(printer, source, [(kind, ranges)], l, kindOf);
    SameCells(source.lines, lines, |lines|);
  }

  /** Searching a source, again and again, highlighting what was found and rendering a line
      paints the ranges found, and without a normaliser exactly the runes that were found. */
  method SearchAndRender(finder: Finder, printer: Printer, source: Source, search: string, kind: Kind, l: nat,
                         kindOf: KindOf)
    returns (ranges: seq<Range>, chunks: seq<Chunk>, ghost parts: seq<seq<Chunk>>)
    requires finder.Valid() && UpToDate(finder, source)
    requires FindEnds(finder.normalizer, Cells(source.lines, |source.lines|), search)
    requires printer.Valid() && l < |source.lines|
    requires var hs := Highlights(kind, FoundRanges(finder.normalizer, source.lines, search));
             printer.blender.nextKey + KeysForLine(|OverlaysOf(hs, l)|, |source.lines[l].segments|) <= LIMIT
    modifies finder, source, printer.blender
    ensures finder.Valid() && finder.prevLines == source && UpToDate(finder, source)
    ensures printer.Valid() && SegmentsOf(source.lines) == SegmentsOf(old(source.lines))
    ensures ranges == FoundRanges(finder.normalizer, source.lines, search)
    ensures TextOf(chunks) == Rendered(source.lines[l].segments)
    ensures var segs := source.lines[l].segments;
            var bases := LineBases(printer.sheet, kindOf, segs, |segs|);
            && ShowsHighlights(StylesOf(chunks), bases, Highlights(kind, ranges), l, printer.sheet)
            && (finder.normalizer.None? ==>
                  ShowsFound(StylesOf(chunks), bases, Cells(source.lines, |source.lines|), search, kind, l,
                             printer.sheet))
  {
    ghost var n, lines, sheet := finder.normalizer, source.lines, printer.sheet;
    ghost var segs := lines[l].segments;
    ghost var bases := LineBases(sheet, kindOf, segs, |segs|);
    ranges := LoadAndFind(finder, source, search);
    FoundCalls(n, lines, search, kind, ranges);
    chunks, parts := HighlightFound(finder, printer, source, kind, ranges, l, kindOf);
    SameCells(source.lines, lines, |lines|);
    SameSegments(source.lines, lines, l);
    if n.None? {
      HighlightsShowFound(StylesOf(chunks), bases, lines, search, kind, l, sheet);
    }
  }

  lemma {:induction false} SameSegments(a: seq<Line>, b: seq<Line>, l: nat)
    requires SegmentsOf(a) == SegmentsOf(b) && l < |b|
    ensures |a| == |b| && a[l].segments == b[l].segments
  {
    assert |SegmentsOf(a)| == |SegmentsOf(b)| && SegmentsOf(a)[l] == SegmentsOf(b)[l];
  }

  /** Overlays are not text. */
  lemma {:induction false} SameCells(a: seq<Line>, b: seq<Line>, n: nat)
    requires SegmentsOf(a) == SegmentsOf(b) && n <= |b|
    ensures |a| == |b| && Cells(a, n) == Cells(b, n)
  {
    assert |SegmentsOf(a)| == |SegmentsOf(b)|;
    if n > 0 {
      SameCells(a, b, n - 1);
      SameSegments(a, b, n - 1);
    }
  }

  lemma {:induction false} FoundCalls(n: Normalizer, lines: seq<Line>, search: string, kind: Kind, ranges: seq<Range>)
    requires ranges == FoundRanges(n, lines, search)
    ensures AllHighlightable([(kind, ranges)], |lines|)
  {
    var cells, p := Cells(lines, |lines|), Normalize(n, search);
    var stream := Stream(n, cells);
    CellsAreAscending(lines, |lines|);
    StreamInOrder(n, cells, |lines|);
    if ranges != [] {
      RangesOfMatches(stream, p, 0);
      forall i | 0 <= i < |ranges| ensures Highlightable(ranges[i], |lines|) {
        FoundHighlightable(stream, |lines|, Matches(Runes(stream), p, 0)[i], |p|);
      }
    }
  }

  lemma {:induction false} OneCall(kind: Kind, ranges: seq<Range>)
    ensures AllHighlights([(kind, ranges)]) == Highlights(kind, ranges)
  {
    assert [(kind, ranges)][..0] == [];
  }

  /** So on a line without a repeated CRLF, a rune is painted in the search style exactly
      when the cell it shows was found. */
  lemma {:induction false} PaintedRuneIsFoundCell(lines: seq<Line>, l: nat, k: nat) returns (j: nat)
    requires l < |lines| && LineShape(lines[l].segments, lines[l].number) && !RepeatsCrlf(lines[l].segments)
    requires k < |Rendered(lines[l].segments)|
    ensures j < |Cells(lines, |lines|)|
    ensures Cells(lines, |lines|)[j] == Cell(Position(l, k), Rendered(lines[l].segments)[k])
  {
    var segs := lines[l].segments;
    PaintedAtItsColumnIff(segs, lines[l].number);
    j := CellAt(lines, |lines|, l, k);
    assert LineText(segs)[..|Rendered(segs)|][k] == LineText(segs)[k];
  }
}
