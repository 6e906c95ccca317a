/** A source: named lines, iteration over their runes, and overlays on them. */
module Source {
  import opened Ints
  import opened Position
  import opened Tokens
  import opened Lines
  import Seqs

  // ----- runes and where they are -----

  datatype Cell = Cell(pos: Position, rune: char)

  function LineText(segs: seq<Segment>): string {
    if segs == [] then "" else LineText(segs[..|segs| - 1]) + segs[|segs| - 1].part.origin
  }

  /** The text of a line is the origins of its segments, one after the other. */
  lemma {:induction false} LineTextIsOrigins(segs: seq<Segment>)
    ensures LineText(segs) == Seqs.Concat(seq(|segs|, i requires 0 <= i < |segs| => segs[i].part.origin))
  {
    if segs != [] {
      var n := |segs| - 1;
      var origins := seq(|segs|, i requires 0 <= i < |segs| => segs[i].part.origin);
      LineTextIsOrigins(segs[..n]);
      assert origins[..n] == seq(n, i requires 0 <= i < n => segs[..n][i].part.origin);
    }
  }

  function CellsOf(line: int, text: string): seq<Cell> {
    seq(|text|, j requires 0 <= j < |text| => Cell(Position(line, j), text[j]))
  }

  /** The cells of the first n lines. */
  function Cells(lines: seq<Line>, n: nat): seq<Cell>
    requires n <= |lines|
  {
    if n == 0 then [] else Cells(lines, n - 1) + CellsOf(n - 1, LineText(lines[n - 1].segments))
  }

  /** The cell of a column of a line. */
  ghost predicate IsCell(lines: seq<Line>, cell: Cell)
  {
    && 0 <= cell.pos.line < |lines| && 0 <= cell.pos.col < |LineText(lines[cell.pos.line].segments)|
    && cell.rune == LineText(lines[cell.pos.line].segments)[cell.pos.col]
  }

  /** All columns of the first n lines are there, and nothing else. */
  lemma {:induction false} CellsExact(lines: seq<Line>, n: nat, cell: Cell)
    requires n <= |lines|
    ensures cell in Cells(lines, n) <==> IsCell(lines, cell) && cell.pos.line < n
  {
    if n > 0 {
      var own := CellsOf(n - 1, LineText(lines[n - 1].segments));
      CellsExact(lines, n - 1, cell);
      if IsCell(lines, cell) && cell.pos.line == n - 1 {
        assert own[cell.pos.col] == cell;
      }
    }
  }

  ghost predicate CellsAscend(cells: seq<Cell>) {
    forall i, j :: 0 <= i < j < |cells| ==> Less(cells[i].pos, cells[j].pos)
  }

  ghost predicate CellsWithin(cells: seq<Cell>, n: nat) {
    forall i :: 0 <= i < |cells| ==> 0 <= cells[i].pos.line < n && 0 <= cells[i].pos.col
  }

  /** Positions increase strictly along the runes of a source. */
  lemma {:induction false} CellsAreAscending(lines: seq<Line>, n: nat)
    requires n <= |lines|
    ensures CellsAscend(Cells(lines, n)) && CellsWithin(Cells(lines, n), n)
  {
    if n > 0 {
      CellsAreAscending(lines, n - 1);
      AscendByLine(Cells(lines, n - 1), n - 1, LineText(lines[n - 1].segments));
    }
  }

  lemma {:induction false} AscendByLine(cells: seq<Cell>, line: nat, text: string)
    requires CellsAscend(cells) && CellsWithin(cells, line)
    ensures CellsAscend(cells + CellsOf(line, text)) && CellsWithin(cells + CellsOf(line, text), line + 1)
  {
  }

  function Within(r: Range): Cell -> bool {
    (c: Cell) => r.Contains(c.pos)
  }

  function CellsIn(lines: seq<Line>, r: Range): seq<Cell> {
    Seqs.Filter(Within(r), Cells(lines, |lines|))
  }

  /** Iterating over a range gives all cells inside it, in order. */
  lemma {:induction false} CellsInExact(lines: seq<Line>, r: Range, cell: Cell)
    ensures cell in CellsIn(lines, r) <==> IsCell(lines, cell) && r.Contains(cell.pos)
    ensures CellsAscend(CellsIn(lines, r))
  {
    var cells := Cells(lines, |lines|);
    var idx := Seqs.FilterSelects(Within(r), cells);
    CellsAreAscending(lines, |lines|);
    CellsExact(lines, |lines|, cell);
    if cell in cells && r.Contains(cell.pos) {
      var i :| 0 <= i < |cells| && cells[i] == cell;
      assert Seqs.Kept(Within(r), cells)(i) && Seqs.Listed(idx, i);
      var k :| 0 <= k < |idx| && idx[k] == i;
      assert Seqs.KeptAs(cells, idx[k], CellsIn(lines, r), k);
    }
    if cell in CellsIn(lines, r) {
      var k :| 0 <= k < |CellsIn(lines, r)| && CellsIn(lines, r)[k] == cell;
      assert Seqs.KeptAs(cells, idx[k], CellsIn(lines, r), k) && Seqs.Kept(Within(r), cells)(idx[k]);
    }
    forall j, k | 0 <= j < k < |CellsIn(lines, r)| ensures Less(CellsIn(lines, r)[j].pos, CellsIn(lines, r)[k].pos) {
      assert Seqs.KeptAs(cells, idx[j], CellsIn(lines, r), j) && Seqs.KeptAs(cells, idx[k], CellsIn(lines, r), k);
      assert Seqs.Kept(Within(r), cells)(idx[j]) && Seqs.Kept(Within(r), cells)(idx[k]) && idx[j] < idx[k];
    }
  }

  /** Ranges may overlap: each contributes its own runes. */
  function CellsInAll(lines: seq<Line>, ranges: seq<Range>): seq<Cell> {
    if ranges == [] then [] else CellsInAll(lines, ranges[..|ranges| - 1]) + CellsIn(lines, ranges[|ranges| - 1])
  }

  lemma {:induction false} FilterLine(r: Range, line: int, text: string)
    requires line < r.start.line || line > r.end.line
    ensures Seqs.Filter(Within(r), CellsOf(line, text)) == []
  {
    Seqs.FilterNone(Within(r), CellsOf(line, text));
  }

  lemma {:induction false} FilterNextLine(lines: seq<Line>, r: Range, n: nat)
    requires n < |lines|
    ensures Seqs.Filter(Within(r), Cells(lines, n + 1)) ==
            Seqs.Filter(Within(r), Cells(lines, n)) + Seqs.Filter(Within(r), CellsOf(n, LineText(lines[n].segments)))
  {
    Seqs.FilterAppend(Within(r), Cells(lines, n), CellsOf(n, LineText(lines[n].segments)));
  }

  lemma {:induction false} SkipLine(lines: seq<Line>, r: Range, n: nat)
    requires n < |lines| && (n < r.start.line || n > r.end.line)
    ensures Seqs.Filter(Within(r), Cells(lines, n + 1)) == Seqs.Filter(Within(r), Cells(lines, n))
  {
    FilterNextLine(lines, r, n);
    FilterLine(r, n, LineText(lines[n].segments));
  }

  /** Lines outside a range contribute nothing to it. */
  lemma {:induction false} FilterOutside(lines: seq<Line>, r: Range, begin: nat, end: nat)
    requires begin <= end <= |lines| && (begin == end || end <= r.start.line || begin > r.end.line)
    ensures Seqs.Filter(Within(r), Cells(lines, end)) == Seqs.Filter(Within(r), Cells(lines, begin))
    decreases end
  {
    if begin < end {
      FilterOutside(lines, r, begin, end - 1);
      SkipLine(lines, r, end - 1);
    }
  }

  lemma {:induction false} NothingIn(lines: seq<Line>, r: Range)
    requires Max(0, r.start.line) > Min(|lines| - 1, r.end.line)
    ensures CellsIn(lines, r) == []
  {
    CellsAreAscending(lines, |lines|);
    Seqs.FilterNone(Within(r), Cells(lines, |lines|));
  }

  // ----- lines and where they are -----

  function Numbered(lines: seq<Line>): seq<(Position, Line)> {
    seq(|lines|, i requires 0 <= i < |lines| => (Position(i, 0), lines[i]))
  }

  function OnLineOf(span: Span): ((Position, Line)) -> bool {
    (entry: (Position, Line)) => span.Contains(entry.0.line)
  }

  function LinesIn(lines: seq<Line>, span: Span): seq<(Position, Line)> {
    Seqs.Filter(OnLineOf(span), Numbered(lines))
  }

  /** The lines of a span are a slice of all lines, at column 0 of their own place. */
  lemma {:induction false} LinesInExact(lines: seq<Line>, span: Span) returns (from: nat, upto: nat)
    ensures from <= upto <= |lines| && forall i :: 0 <= i < |lines| ==> (span.Contains(i) <==> from <= i < upto)
    ensures |LinesIn(lines, span)| == upto - from
    ensures forall i :: 0 <= i < upto - from ==> LinesIn(lines, span)[i] == (Position(from + i, 0), lines[from + i])
  {
    if Max(0, span.start) < Min(|lines|, span.end) {
      from, upto := Max(0, span.start), Min(|lines|, span.end);
      Seqs.FilterInterval(OnLineOf(span), Numbered(lines), from, upto);
    } else {
      from, upto := 0, 0;
      Seqs.FilterNone(OnLineOf(span), Numbered(lines));
    }
  }

  /** Spans may overlap: each contributes its own lines. */
  function LinesInAll(lines: seq<Line>, spans: seq<Span>): seq<(Position, Line)> {
    if spans == [] then [] else LinesInAll(lines, spans[..|spans| - 1]) + LinesIn(lines, spans[|spans| - 1])
  }

  lemma {:induction false} ForEachSpan(lines: seq<Line>, spans: seq<Span>)
    ensures LinesInAll(lines, spans) ==
            Seqs.Concat(seq(|spans|, i requires 0 <= i < |spans| => LinesIn(lines, spans[i])))
  {
    if spans != [] {
      var n := |spans| - 1;
      var each := seq(|spans|, i requires 0 <= i < |spans| => LinesIn(lines, spans[i]));
      ForEachSpan(lines, spans[..n]);
      assert each[..n] == seq(n, i requires 0 <= i < n => LinesIn(lines, spans[..n][i]));
    }
  }

  lemma {:induction false} ForEachRange(lines: seq<Line>, ranges: seq<Range>)
    ensures CellsInAll(lines, ranges) ==
            Seqs.Concat(seq(|ranges|, i requires 0 <= i < |ranges| => CellsIn(lines, ranges[i])))
  {
    if ranges != [] {
      var n := |ranges| - 1;
      var each := seq(|ranges|, i requires 0 <= i < |ranges| => CellsIn(lines, ranges[i]));
      ForEachRange(lines, ranges[..n]);
      assert each[..n] == seq(n, i requires 0 <= i < n => CellsIn(lines, ranges[..n][i]));
    }
  }

  // ----- overlays -----

  datatype Highlight = Highlight(kind: Kind, range: Range)

  /** What highlighting a range puts on one line: at most one overlay. */
  function OverlaysFor(h: Highlight, line: int): seq<Overlay> {
    var r := h.range;
    if r.start.line == r.end.line then
      if line == r.start.line then [Overlay(h.kind, Span(r.start.col, r.end.col))] else []
    else if r.start.line <= line <= r.end.line then
      var slice := LineSlice(r, line - r.start.line);
      [Overlay(h.kind, Span(slice.start.col, slice.end.col))]
    else []
  }

  /** One overlay on every line of the range and none on others: from its first column on its first
      line, to its last on its last line, and all columns below the limit otherwise. */
  lemma {:induction false} OverlaysForExact(h: Highlight, line: int)
    ensures var start, end, os := h.range.start, h.range.end, OverlaysFor(h, line);
            if start.line <= line <= end.line then
              os == [Overlay(h.kind, Span(if line == start.line then start.col else 0,
                                          if line == end.line then end.col else MAX_COL))]
            else os == []
  {
  }

  function OverlaysOf(hs: seq<Highlight>, line: int): seq<Overlay> {
    if hs == [] then [] else OverlaysOf(hs[..|hs| - 1], line) + OverlaysFor(hs[|hs| - 1], line)
  }

  lemma {:induction false} OverlaysOfAppend(a: seq<Highlight>, b: seq<Highlight>, line: int)
    ensures OverlaysOf(a + b, line) == OverlaysOf(a, line) + OverlaysOf(b, line)
  {
    if b == [] {
      assert a + b == a;
    } else {
      var b', h := b[..|b| - 1], b[|b| - 1];
      OverlaysOfAppend(a, b', line);
      Seqs.ConcatAssociative(OverlaysOf(a, line), OverlaysOf(b', line), OverlaysFor(h, line));
      assert (a + b)[..|a + b| - 1] == a + b';
    }
  }

  /** The ranges a caller may highlight on n lines; others index out of the list. A range
      that ends on the line above its start highlights nothing. */
  predicate Highlightable(r: Range, n: nat) {
    r.end.line == r.start.line - 1 || 0 <= r.start.line <= r.end.line < n
  }

  function Covering(overlays: seq<Overlay>, col: int): seq<Kind> {
    if overlays == [] then []
    else Covering(overlays[..|overlays| - 1], col)
         + (if overlays[|overlays| - 1].cols.Contains(col) then [overlays[|overlays| - 1].kind] else [])
  }

  function Containing(hs: seq<Highlight>, pos: Position): seq<Kind> {
    if hs == [] then []
    else Containing(hs[..|hs| - 1], pos) + (if hs[|hs| - 1].range.Contains(pos) then [hs[|hs| - 1].kind] else [])
  }

  function HasPoint(pos: Position): Highlight -> bool {
    (h: Highlight) => h.range.Contains(pos)
  }

  function HasColumn(col: int): Overlay -> bool {
    (o: Overlay) => o.cols.Contains(col)
  }

  /** Exactly the highlights whose range contains the position, in the order they were added. */
  lemma {:induction false} ContainingInOrder(hs: seq<Highlight>, pos: Position)
    ensures var those := Seqs.Filter(HasPoint(pos), hs);
            Containing(hs, pos) == seq(|those|, i requires 0 <= i < |those| => those[i].kind)
  {
    if hs != [] {
      ContainingInOrder(hs[..|hs| - 1], pos);
      Seqs.FilterLast(HasPoint(pos), hs);
    }
  }

  lemma {:induction false} CoveringInOrder(overlays: seq<Overlay>, col: int)
    ensures var those := Seqs.Filter(HasColumn(col), overlays);
            Covering(overlays, col) == seq(|those|, i requires 0 <= i < |those| => those[i].kind)
  {
    if overlays != [] {
      CoveringInOrder(overlays[..|overlays| - 1], col);
      Seqs.FilterLast(HasColumn(col), overlays);
    }
  }

  lemma {:induction false} CoveringAppend(a: seq<Overlay>, b: seq<Overlay>, col: int)
    ensures Covering(a + b, col) == Covering(a, col) + Covering(b, col)
  {
    if b == [] {
      assert a + b == a;
    } else {
      CoveringAppend(a, b[..|b| - 1], col);
      assert (a + b)[..|a + b| - 1] == a + b[..|b| - 1];
    }
  }

  lemma {:induction false} CoveringFor(h: Highlight, pos: Position)
    requires 0 <= pos.col < MAX_COL
    ensures Covering(OverlaysFor(h, pos.line), pos.col) == if h.range.Contains(pos) then [h.kind] else []
  {
    var os := OverlaysFor(h, pos.line);
    if os != [] {
      assert os[..0] == [];
      assert os[0].cols.Contains(pos.col) <==> h.range.Contains(pos);
    }
  }

  /** The overlays on a line that cover a column are, in order, the highlights whose
      range contains that position. */
  lemma {:induction false} OverlaysAreHighlights(hs: seq<Highlight>, pos: Position)
    requires 0 <= pos.col < MAX_COL
    ensures Covering(OverlaysOf(hs, pos.line), pos.col) == Containing(hs, pos)
  {
    if hs != [] {
      OverlaysAreHighlights(hs[..|hs| - 1], pos);
      CoveringAppend(OverlaysOf(hs[..|hs| - 1], pos.line), OverlaysFor(hs[|hs| - 1], pos.line), pos.col);
      CoveringFor(hs[|hs| - 1], pos);
    }
  }

  function Highlights(kind: Kind, ranges: seq<Range>): (hs: seq<Highlight>)
    ensures |hs| == |ranges|
    ensures forall i :: 0 <= i < |ranges| ==> hs[i].kind == kind && hs[i].range == ranges[i]
  {
    seq(|ranges|, i requires 0 <= i < |ranges| => Highlight(kind, ranges[i]))
  }

  method SelectRunes(line: seq<Cell>, rng: Range) returns (cells: seq<Cell>)
    ensures cells == Seqs.Filter(Within(rng), line)
  {
    cells := [];
    for k := 0 to |line|
      invariant cells == Seqs.Filter(Within(rng), line[..k])
    {
      Seqs.FilterAppend(Within(rng), line[..k], [line[k]]);
      assert line[..k + 1] == line[..k] + [line[k]] && [line[k]][1..] == [];
      if rng.Contains(line[k].pos) {
        cells := cells + [line[k]];
      }
    }
    assert line[..|line|] == line;
  }

  class Source {
    const name: string
    var lines: seq<Line>

    constructor (name: string, lines: seq<Line>)
      ensures this.name == name && this.lines == lines
    {
      this.name, this.lines := name, lines;
    }

    /** Every line with its position, or those of the given spans, one span after the other. */
    method AllLines(spans: seq<Span>) returns (result: seq<(Position, Line)>)
      ensures result == if spans == [] then Numbered(lines) else LinesInAll(lines, spans)
      ensures spans == [] ==>
                |result| == |lines| && forall i :: 0 <= i < |lines| ==> result[i] == (Position(i, 0), lines[i])
    {
      result := [];
      if |spans| == 0 {
        for i := 0 to |lines|
          invariant result == Numbered(lines)[..i]
        {
          result := result + [(Position(i, 0), lines[i])];
        }
        return;
      }
      for k := 0 to |spans|
        invariant result == LinesInAll(lines, spans[..k])
      {
        var more := LinesOfSpan(spans[k]);
        result := result + more;
        assert spans[..k + 1][..k] == spans[..k];
      }
      assert spans[..|spans|] == spans;
    }

    method LinesOfSpan(span: Span) returns (result: seq<(Position, Line)>)
      ensures result == LinesIn(lines, span)
    {
      var start, end := Max(0, span.start), Min(|lines|, span.end);
      result := [];
      if start < end {
        Seqs.FilterInterval(OnLineOf(span), Numbered(lines), start, end);
      } else {
        Seqs.FilterNone(OnLineOf(span), Numbered(lines));
        return;
      }
      for i := start to end
        invariant result == Numbered(lines)[start..i]
      {
        result := result + [(Position(i, 0), lines[i])];
      }
    }

    /** Every rune with its position, or those inside the given ranges. */
    method AllRunes(ranges: seq<Range>) returns (cells: seq<Cell>)
      ensures cells == if ranges == [] then Cells(lines, |lines|) else CellsInAll(lines, ranges)
    {
      cells := [];
      if |ranges| == 0 {
        for i := 0 to |lines|
          invariant cells == Cells(lines, i)
        {
          var more := LineRunes(i);
          cells := cells + more;
        }
        return;
      }
      for k := 0 to |ranges|
        invariant cells == CellsInAll(lines, ranges[..k])
      {
        var more := RunesIn(ranges[k]);
        cells := cells + more;
        assert ranges[..k + 1][..k] == ranges[..k];
      }
      assert ranges[..|ranges|] == ranges;
    }

    /** The runes of one line, counting columns across its tokens. */
    method LineRunes(i: nat) returns (cells: seq<Cell>)
      requires i < |lines|
      ensures cells == CellsOf(i, LineText(lines[i].segments))
    {
      var col, segs := 0, lines[i].segments;
      cells := [];
      for k := 0 to |segs|
        invariant cells == CellsOf(i, LineText(segs[..k])) && col == |LineText(segs[..k])|
      {
        var origin := segs[k].part.origin;
        ghost var before := LineText(segs[..k]);
        for j := 0 to |origin|
          invariant cells == CellsOf(i, before + origin[..j]) && col == |before| + j
        {
          cells := cells + [Cell(Position(i, col), origin[j])];
          col := col + 1;
        }
        assert origin[..|origin|] == origin && segs[..k + 1][..k] == segs[..k];
      }
      assert segs[..|segs|] == segs;
    }

    method RunesIn(rng: Range) returns (cells: seq<Cell>)
      ensures cells == CellsIn(lines, rng)
    {
      var startLine := Max(0, rng.start.line);
      var endLine := Min(|lines| - 1, rng.end.line);
      cells := [];
      if startLine > endLine {
        NothingIn(lines, rng);
        return;
      }
      FilterOutside(lines, rng, 0, startLine);
      for i := startLine to endLine + 1
        invariant cells == Seqs.Filter(Within(rng), Cells(lines, i))
      {
        var line := LineRunes(i);
        FilterNextLine(lines, rng, i);
        var selected := SelectRunes(line, rng);
        cells := cells + selected;
      }
      FilterOutside(lines, rng, endLine + 1, |lines|);
    }

    /** Splits every range into its lines and appends one overlay to each of them. */
    method AddOverlay(kind: Kind, ranges: seq<Range>)
      requires lines != [] ==> forall i :: 0 <= i < |ranges| ==> Highlightable(ranges[i], |lines|)
      modifies this
      ensures |lines| == old(|lines|)
      ensures forall l :: 0 <= l < |lines| ==>
                lines[l] == old(lines)[l].(overlays := old(lines)[l].overlays + OverlaysOf(Highlights(kind, ranges), l))
    {
      if |lines| == 0 {
        return;
      }
      for k := 0 to |ranges|
        invariant |lines| == old(|lines|)
        invariant forall l :: 0 <= l < |lines| ==>
                    lines[l] == old(lines)[l].(overlays := old(lines)[l].overlays +
                                               OverlaysOf(Highlights(kind, ranges[..k]), l))
      {
        AddOverlayRange(kind, ranges[k]);
        assert Highlights(kind, ranges[..k + 1])[..k] == Highlights(kind, ranges[..k]);
      }
      assert ranges[..|ranges|] == ranges;
    }

    method AddOverlayRange(kind: Kind, r: Range)
      requires Highlightable(r, |lines|)
      modifies this
      ensures |lines| == old(|lines|)
      ensures forall l :: 0 <= l < |lines| ==>
                lines[l] == old(lines)[l].(overlays := old(lines)[l].overlays + OverlaysFor(Highlight(kind, r), l))
    {
      var slices := SliceLines(r);
      for k := 0 to |slices|
        invariant |lines| == old(|lines|)
        invariant forall l :: 0 <= l < |lines| ==>
                    lines[l] == if r.start.line <= l < r.start.line + k
                                then old(lines)[l].(overlays := old(lines)[l].overlays +
                                                    OverlaysFor(Highlight(kind, r), l))
                                else old(lines)[l]
      {
        var slice := slices[k];
        var idx := slice.start.line;
        var o := Overlay(kind, Span(slice.start.col, slice.end.col));
        assert OverlaysFor(Highlight(kind, r), idx) == [o];
        lines := lines[idx := lines[idx].(overlays := lines[idx].overlays + [o])];
      }
      assert forall l :: 0 <= l < |lines| && !(r.start.line <= l <= r.end.line) ==>
             OverlaysFor(Highlight(kind, r), l) == [];
    }

    method ClearOverlays()
      modifies this
      ensures |lines| == old(|lines|)
      ensures forall l :: 0 <= l < |lines| ==> lines[l] == old(lines)[l].(overlays := [])
    {
      for i := 0 to |lines|
        invariant |lines| == old(|lines|)
        invariant forall l :: 0 <= l < |lines| ==>
                    lines[l] == if l < i then old(lines)[l].(overlays := []) else old(lines)[l]
      {
        lines := lines[i := lines[i].(overlays := [])];
      }
    }
  }
}
