/** Tokens, the segments that lines are made of, and the queries on them. */
module Tokens {
  import opened Position
  import Seqs

  datatype Option<+T> = None | Some(value: T)

  datatype TokenType = StringType | LiteralType | FoldedType | CommentType | SpaceType | OtherType(code: nat)

  datatype TokenPosition = TokenPosition(line: int, column: int)

  /** What a token holds; a clone of a token is a token with the same data. */
  datatype TokenData = TokenData(typ: TokenType, origin: string, value: string, position: Option<TokenPosition>)

  /** Tokens are compared by identity and never change. */
  class Token {
    const data: TokenData
    /** The types of the tokens reached by following the Prev links, nearest first. */
    const prevTypes: seq<TokenType>

    constructor (data: TokenData, prevTypes: seq<TokenType>)
      ensures this.data == data && this.prevTypes == prevTypes
    {
      this.data := data;
      this.prevTypes := prevTypes;
    }
  }

  function TrimSuffix(s: string, suffix: char): string {
    if s != [] && s[|s| - 1] == suffix then s[..|s| - 1] else s
  }

  /** One such character less at the end, if there is one. */
  lemma {:induction false} TrimSuffixExact(s: string, suffix: char)
    ensures var r := TrimSuffix(s, suffix);
            s == r + [suffix] || (s == r && (s != "" ==> s[|s| - 1] != suffix))
  {
    if s != "" && s[|s| - 1] == suffix {
      assert s == s[..|s| - 1] + [suffix];
    }
  }

  /** A piece of a token: the token it comes from, a token for the piece alone, and the
      piece's width without its line feed, computed once. */
  datatype Segment = Segment(source: Token, part: TokenData, width: nat) {
    function Text(): string {
      TrimSuffix(part.origin, '\n')
    }

    ghost predicate Valid() {
      width == |Text()|
    }
  }

  function NewSegment(source: Token, part: TokenData): (seg: Segment)
    ensures seg.Valid() && seg.source == source && seg.part == part
  {
    Segment(source, part, |TrimSuffix(part.origin, '\n')|)
  }

  // ----- recovering the source tokens -----

  function Sources(segs: seq<Segment>): (r: seq<Token>)
    ensures |r| == |segs|
  {
    if segs == [] then [] else Sources(segs[..|segs| - 1]) + [segs[|segs| - 1].source]
  }

  lemma {:induction false} SourcesAt(segs: seq<Segment>, i: nat)
    requires i < |segs|
    ensures Sources(segs)[i] == segs[i].source
  {
    if i < |segs| - 1 {
      SourcesAt(segs[..|segs| - 1], i);
    }
  }

  /** Collapses every run of the same token to one. */
  function Dedup(tks: seq<Token>): seq<Token> {
    if tks == [] then []
    else if |tks| > 1 && tks[|tks| - 1] == tks[|tks| - 2] then Dedup(tks[..|tks| - 1])
    else Dedup(tks[..|tks| - 1]) + [tks[|tks| - 1]]
  }

  function Datas(tks: seq<Token>): (datas: seq<TokenData>)
    ensures |datas| == |tks| && forall i :: 0 <= i < |tks| ==> datas[i] == tks[i].data
  {
    seq(|tks|, i requires 0 <= i < |tks| => tks[i].data)
  }

  /** Whether at an index there is another token than before. */
  ghost function StartsRun(tks: seq<Token>): nat -> bool {
    (i: nat) => i < |tks| && (i > 0 ==> tks[i - 1] != tks[i])
  }

  /** The indices at which another token begins, in order. */
  ghost predicate RunStarts(tks: seq<Token>, idx: seq<nat>) {
    Seqs.Selects(StartsRun(tks), idx)
  }

  /** Collapsing keeps the first token of every run, in order. */
  lemma {:induction false} DedupKeepsFirsts(tks: seq<Token>) returns (idx: seq<nat>)
    ensures RunStarts(tks, idx) && |Dedup(tks)| == |idx|
    ensures forall j :: 0 <= j < |idx| ==> idx[j] < |tks| && Dedup(tks)[j] == tks[idx[j]]
  {
    idx := [];
    if tks != [] {
      var n := |tks| - 1;
      var before := DedupKeepsFirsts(tks[..n]);
      idx := if StartsRun(tks)(n) then before + [n] else before;
      Seqs.SelectsNext(StartsRun(tks[..n]), n, before, StartsRun(tks), idx);
      assert Dedup(tks) == Dedup(tks[..n]) + if StartsRun(tks)(n) then [tks[n]] else [];
    }
  }

  /** The data of the first segment's token of every run of segments of one token. */
  method SourceTokens(segs: seq<Segment>) returns (result: seq<TokenData>, ghost idx: seq<nat>)
    ensures result == Datas(Dedup(Sources(segs)))
    ensures RunStarts(Sources(segs), idx) && |result| == |idx|
    ensures forall j :: 0 <= j < |idx| ==> idx[j] < |segs| && result[j] == segs[idx[j]].source.data
  {
    result := [];
    var lastSource: Token? := null;
    for i := 0 to |segs|
      invariant lastSource == if i == 0 then null else segs[i - 1].source
      invariant result == Datas(Dedup(Sources(segs[..i])))
    {
      var seg := segs[i];
      ghost var before, after := Sources(segs[..i]), Sources(segs[..i + 1]);
      assert segs[..i + 1][..i] == segs[..i];
      assert after == before + [seg.source] && after[..i] == before;
      if i > 0 {
        SourcesAt(segs[..i], i - 1);
      }
      if seg.source != lastSource {
        result := result + [seg.source.data];
        lastSource := seg.source;
        assert Datas(Dedup(after)) == Datas(Dedup(before)) + [seg.source.data];
      }
    }
    assert segs[..|segs|] == segs;
    idx := FirstsOfSources(segs);
  }

  lemma {:induction false} FirstsOfSources(segs: seq<Segment>) returns (idx: seq<nat>)
    ensures RunStarts(Sources(segs), idx) && |Dedup(Sources(segs))| == |idx|
    ensures forall j :: 0 <= j < |idx| ==> idx[j] < |segs| && Dedup(Sources(segs))[j] == segs[idx[j]].source
  {
    idx := DedupKeepsFirsts(Sources(segs));
    forall j | 0 <= j < |idx| ensures idx[j] < |segs| && Dedup(Sources(segs))[j] == segs[idx[j]].source {
      assert StartsRun(Sources(segs))(idx[j]);
      SourcesAt(segs, idx[j]);
    }
  }

  ghost predicate NoNeighboursSame(tks: seq<Token>) {
    forall i :: 0 <= i < |tks| - 1 ==> tks[i] != tks[i + 1]
  }

  lemma {:induction false} NoNeighboursSameGrows(init: seq<Token>, tk: Token)
    ensures NoNeighboursSame(init + [tk]) <==> NoNeighboursSame(init) && (init != [] ==> init[|init| - 1] != tk)
  {
    var tks := init + [tk];
    forall i | 0 <= i < |init| - 1 ensures (tks[i] != tks[i + 1]) == (init[i] != init[i + 1]) {
    }
    if init != [] {
      assert (tks[|init| - 1] != tks[|init| - 1 + 1]) == (init[|init| - 1] != tk);
    }
  }

  /** Collapsing loses nothing exactly when no token follows itself. */
  lemma {:induction false} DedupLossless(tks: seq<Token>)
    ensures |Dedup(tks)| <= |tks|
    ensures NoNeighboursSame(tks) ==> Dedup(tks) == tks
    ensures !NoNeighboursSame(tks) ==> |Dedup(tks)| < |tks|
  {
    if tks != [] {
      var init := tks[..|tks| - 1];
      DedupLossless(init);
      assert tks == init + [tks[|tks| - 1]];
      NoNeighboursSameGrows(init, tks[|tks| - 1]);
    }
  }

  /** Repeating the last token does not change what Dedup makes of the list. */
  lemma {:induction false} DedupRepeats(tks: seq<Token>, tk: Token, n: nat)
    requires n > 0
    ensures Dedup(tks + Seqs.Repeat(tk, n)) == Dedup(tks + [tk])
  {
    var all := tks + Seqs.Repeat(tk, n);
    if n == 1 {
      assert all == tks + [tk];
    } else {
      DedupRepeats(tks, tk, n - 1);
      assert all[..|all| - 1] == tks + Seqs.Repeat(tk, n - 1);
    }
  }

  // ----- which token owns a cell -----

  function OwnerIn(segs: seq<Segment>, col: int): Token? {
    if segs == [] then null
    else if 0 <= col < segs[0].width then segs[0].source
    else OwnerIn(segs[1..], col - segs[0].width)
  }

  method SourceTokenAt(segs: seq<Segment>, col: int) returns (tk: Token?)
    ensures tk == OwnerIn(segs, col)
  {
    var c := 0;
    for i := 0 to |segs|
      invariant OwnerIn(segs, col) == OwnerIn(segs[i..], col - c)
    {
      var w := segs[i].width;
      assert segs[i..][1..] == segs[i + 1..];
      if col >= c && col < c + w {
        return segs[i].source;
      }
      c := c + w;
    }
    tk := null;
  }

  function Owner(lines: seq<seq<Segment>>, idx: int, col: int): Token? {
    if 0 <= idx < |lines| then OwnerIn(lines[idx], col) else null
  }

  function Widths(segs: seq<Segment>): nat {
    if segs == [] then 0 else segs[0].width + Widths(segs[1..])
  }

  /** Segments lie next to each other in order, and each owns exactly its own columns. */
  lemma {:induction false} OwnerOfColumn(segs: seq<Segment>, k: nat, o: nat)
    requires k < |segs| && o < segs[k].width
    ensures OwnerIn(segs, Widths(segs[..k]) + o) == segs[k].source
    ensures IsContentIn(segs, Widths(segs[..k]) + o) <==> ContentSpan(segs[k]).Contains(o)
  {
    if k > 0 {
      OwnerOfColumn(segs[1..], k - 1, o);
      assert segs[..k][1..] == segs[1..][..k - 1];
    }
  }

  lemma {:induction false} NoOwnerOutside(segs: seq<Segment>, col: int)
    requires col < 0 || col >= Widths(segs)
    ensures OwnerIn(segs, col) == null && !IsContentIn(segs, col)
  {
    if segs != [] {
      NoOwnerOutside(segs[1..], col - segs[0].width);
    }
  }

  // ----- the ranges that belong to one token -----

  /** The columns a segment contributes, relative to its start: all of them ... */
  function TokenSpan(seg: Segment): Span {
    Span(0, seg.width)
  }

  /** ... or all but the spaces at either end. */
  function ContentSpan(seg: Segment): Span {
    var origin := TrimSuffix(seg.Text(), '\r');
    Span(LeadingSpaces(origin), seg.width - TrailingSpaces(origin))
  }

  function LeadingSpaces(s: string): (n: nat)
    ensures n <= |s|
  {
    if s != [] && s[0] == ' ' then LeadingSpaces(s[1..]) + 1 else 0
  }

  function TrailingSpaces(s: string): (n: nat)
    ensures n <= |s|
  {
    if s != [] && s[|s| - 1] == ' ' then TrailingSpaces(s[..|s| - 1]) + 1 else 0
  }

  function SegmentRange(span: Span, line: int, col: int): seq<Range> {
    if span.start < span.end then [Range(Position(line, col + span.start), Position(line, col + span.end))] else []
  }

  /** The ranges of source among the segments of a line, the first of them at col. */
  function LineRanges(segs: seq<Segment>, source: Token, cells: Segment -> Span, line: int, col: int): seq<Range> {
    if segs == [] then []
    else
      (if segs[0].source == source then SegmentRange(cells(segs[0]), line, col) else [])
      + LineRanges(segs[1..], source, cells, line, col + segs[0].width)
  }

  /** The k-th segment's range comes next. */
  lemma {:induction false} LineRangesStep(segs: seq<Segment>, k: nat, source: Token, cells: Segment -> Span,
                                          line: int, col: int, before: seq<Range>)
    requires k < |segs|
    ensures var own := if segs[k].source == source then SegmentRange(cells(segs[k]), line, col) else [];
            before + LineRanges(segs[k..], source, cells, line, col) ==
            (before + own) + LineRanges(segs[k + 1..], source, cells, line, col + segs[k].width)
  {
    assert segs[k..][1..] == segs[k + 1..];
    Seqs.ConcatAssociative(before, if segs[k].source == source then SegmentRange(cells(segs[k]), line, col) else [],
                           LineRanges(segs[k + 1..], source, cells, line, col + segs[k].width));
  }

  function Ranges(lines: seq<seq<Segment>>, source: Token, cells: Segment -> Span, n: nat): seq<Range>
    requires n <= |lines|
  {
    if n == 0 then [] else Ranges(lines, source, cells, n - 1) + LineRanges(lines[n - 1], source, cells, n - 1, 0)
  }

  function RangesOfOwner(lines: seq<seq<Segment>>, idx: int, col: int, cells: Segment -> Span): seq<Range> {
    var source := Owner(lines, idx, col);
    if source == null then [] else Ranges(lines, source, cells, |lines|)
  }

  method TokenRangesAt(lines: seq<seq<Segment>>, idx: int, col: int) returns (ranges: seq<Range>)
    ensures ranges == RangesOfOwner(lines, idx, col, TokenSpan)
  {
    ranges := [];
    if idx < 0 || idx >= |lines| {
      return;
    }
    var source := SourceTokenAt(lines[idx], col);
    if source == null {
      return;
    }
    for i := 0 to |lines|
      invariant ranges == Ranges(lines, source, TokenSpan, i)
    {
      var lineCol, segs := 0, lines[i];
      for k := 0 to |segs|
        invariant Ranges(lines, source, TokenSpan, i + 1) ==
                  ranges + LineRanges(segs[k..], source, TokenSpan, i, lineCol)
      {
        var w := segs[k].width;
        LineRangesStep(segs, k, source, TokenSpan, i, lineCol, ranges);
        if segs[k].source == source && w > 0 {
          ranges := ranges + [Range(Position(i, lineCol), Position(i, lineCol + w))];
        }
        lineCol := lineCol + w;
      }
    }
  }

  method ContentRangesAt(lines: seq<seq<Segment>>, idx: int, col: int) returns (ranges: seq<Range>)
    ensures ranges == RangesOfOwner(lines, idx, col, ContentSpan)
  {
    ranges := [];
    if idx < 0 || idx >= |lines| {
      return;
    }
    var source := SourceTokenAt(lines[idx], col);
    if source == null {
      return;
    }
    for i := 0 to |lines|
      invariant ranges == Ranges(lines, source, ContentSpan, i)
    {
      var lineCol, segs := 0, lines[i];
      for k := 0 to |segs|
        invariant Ranges(lines, source, ContentSpan, i + 1) ==
                  ranges + LineRanges(segs[k..], source, ContentSpan, i, lineCol)
      {
        LineRangesStep(segs, k, source, ContentSpan, i, lineCol, ranges);
        if segs[k].source == source && segs[k].width > 0 {
          var content := TrimmedRange(segs[k], i, lineCol);
          ranges := ranges + content;
        }
        lineCol := lineCol + segs[k].width;
      }
    }
  }

  method TrimmedRange(seg: Segment, line: int, lineCol: int) returns (content: seq<Range>)
    ensures content == SegmentRange(ContentSpan(seg), line, lineCol)
  {
    var origin := TrimSuffix(TrimSuffix(seg.part.origin, '\n'), '\r');
    var leading, trailing := LeadingSpaces(origin), TrailingSpaces(origin);
    var contentWidth: int := seg.width - leading - trailing;
    if contentWidth > 0 {
      content := [Range(Position(line, lineCol + leading), Position(line, lineCol + leading + contentWidth))];
    } else {
      content := [];
    }
  }

  // ----- one range for every segment -----

  datatype Place = Place(line: nat, k: nat)

  ghost predicate IsPlace(lines: seq<seq<Segment>>, source: Token, cells: Segment -> Span, p: Place) {
    && p.line < |lines| && p.k < |lines[p.line]| && lines[p.line][p.k].source == source
    && cells(lines[p.line][p.k]).start < cells(lines[p.line][p.k]).end
  }

  /** The columns of the segment's span, counted from the start of its line. */
  ghost predicate IsRangeOf(lines: seq<seq<Segment>>, cells: Segment -> Span, p: Place, r: Range)
    requires p.line < |lines| && p.k < |lines[p.line]|
  {
    var col, span := Widths(lines[p.line][..p.k]), cells(lines[p.line][p.k]);
    r == Range(Position(p.line, col + span.start), Position(p.line, col + span.end))
  }

  /** The ranges are, in order, those of the segments at these places. */
  ghost predicate RangesAt(lines: seq<seq<Segment>>, source: Token, cells: Segment -> Span, places: seq<Place>,
                           ranges: seq<Range>)
  {
    && |places| == |ranges|
    && (forall i :: 0 <= i < |places| ==>
          IsPlace(lines, source, cells, places[i]) && IsRangeOf(lines, cells, places[i], ranges[i]))
    && (forall i, j :: 0 <= i < j < |places| ==>
          places[i].line < places[j].line || (places[i].line == places[j].line && places[i].k < places[j].k))
  }

  /** A token query answers with one range for every non-empty segment of the token, in order. */
  lemma {:induction false} OneRangePerSegment(lines: seq<seq<Segment>>, source: Token, cells: Segment -> Span, n: nat)
    returns (places: seq<Place>)
    requires n <= |lines|
    ensures RangesAt(lines, source, cells, places, Ranges(lines, source, cells, n))
    ensures forall p: Place :: p.line < n && IsPlace(lines, source, cells, p) ==> p in places
    ensures forall i :: 0 <= i < |places| ==> places[i].line < n
  {
    places := [];
    if n > 0 {
      var before := OneRangePerSegment(lines, source, cells, n - 1);
      var more := OneRangePerSegmentOfLine(lines, source, cells, n - 1, 0);
      assert lines[n - 1][0..] == lines[n - 1] && lines[n - 1][..0] == [];
      places := before + more;
      RangesAtConcat(lines, source, cells, before, Ranges(lines, source, cells, n - 1), more,
                     LineRanges(lines[n - 1], source, cells, n - 1, 0));
    }
  }

  lemma {:induction false} RangesAtConcat(lines: seq<seq<Segment>>, source: Token, cells: Segment -> Span,
                                          before: seq<Place>, ranges: seq<Range>, more: seq<Place>,
                                          moreRanges: seq<Range>)
    requires RangesAt(lines, source, cells, before, ranges) && RangesAt(lines, source, cells, more, moreRanges)
    requires forall p, q :: p in before && q in more ==> p.line < q.line || (p.line == q.line && p.k < q.k)
    ensures RangesAt(lines, source, cells, before + more, ranges + moreRanges)
  {
    var places := before + more;
    forall i, j | 0 <= i < j < |places|
      ensures places[i].line < places[j].line || (places[i].line == places[j].line && places[i].k < places[j].k)
    {
      if i < |before| <= j {
        assert before[i] in before && more[j - |before|] in more;
      }
    }
  }

  lemma {:induction false} OwnRange(lines: seq<seq<Segment>>, source: Token, cells: Segment -> Span, l: nat, k: nat)
    requires l < |lines| && k < |lines[l]|
    ensures RangesAt(lines, source, cells, if IsPlace(lines, source, cells, Place(l, k)) then [Place(l, k)] else [],
                     if lines[l][k].source == source
                     then SegmentRange(cells(lines[l][k]), l, Widths(lines[l][..k]))
                     else [])
  {
  }

  lemma {:induction false} OneRangePerSegmentOfLine(lines: seq<seq<Segment>>, source: Token, cells: Segment -> Span,
                                                    l: nat, k: nat) returns (places: seq<Place>)
    requires l < |lines| && k <= |lines[l]|
    ensures RangesAt(lines, source, cells, places, LineRanges(lines[l][k..], source, cells, l, Widths(lines[l][..k])))
    ensures forall j: nat :: k <= j && IsPlace(lines, source, cells, Place(l, j)) ==> Place(l, j) in places
    ensures forall p :: p in places ==> p.line == l && p.k >= k
    decreases |lines[l]| - k
  {
    var segs, col := lines[l], Widths(lines[l][..k]);
    places := [];
    if k < |segs| {
      var own := if IsPlace(lines, source, cells, Place(l, k)) then [Place(l, k)] else [];
      var range := if segs[k].source == source then SegmentRange(cells(segs[k]), l, col) else [];
      var rest := OneRangePerSegmentOfLine(lines, source, cells, l, k + 1);
      WidthsSnoc(segs, k);
      LineRangesStep(segs, k, source, cells, l, col, []);
      OwnRange(lines, source, cells, l, k);
      places := own + rest;
      RangesAtConcat(lines, source, cells, own, range, rest,
                     LineRanges(segs[k + 1..], source, cells, l, col + segs[k].width));
    }
  }

  lemma {:induction false} WidthsSnoc(segs: seq<Segment>, k: nat)
    requires k < |segs|
    ensures Widths(segs[..k + 1]) == Widths(segs[..k]) + segs[k].width
  {
    if k > 0 {
      WidthsSnoc(segs[1..], k - 1);
      assert segs[..k + 1][1..] == segs[1..][..k] && segs[..k][1..] == segs[1..][..k - 1];
    }
  }

  // ----- a token query answers with the class of cells of equal owner -----

  ghost predicate InSome(ranges: seq<Range>, pos: Position) {
    exists i :: 0 <= i < |ranges| && ranges[i].Contains(pos)
  }

  lemma {:induction false} InSomeConcat(r1: seq<Range>, r2: seq<Range>, pos: Position)
    ensures InSome(r1 + r2, pos) <==> InSome(r1, pos) || InSome(r2, pos)
  {
    if InSome(r1 + r2, pos) {
      var i :| 0 <= i < |r1 + r2| && (r1 + r2)[i].Contains(pos);
      assert if i < |r1| then r1[i].Contains(pos) else r2[i - |r1|].Contains(pos);
    }
    if InSome(r1, pos) {
      var i :| 0 <= i < |r1| && r1[i].Contains(pos);
      assert (r1 + r2)[i].Contains(pos);
    }
    if InSome(r2, pos) {
      var i :| 0 <= i < |r2| && r2[i].Contains(pos);
      assert (r1 + r2)[|r1| + i].Contains(pos);
    }
  }

  lemma {:induction false} InSomeSegment(span: Span, line: int, col: int, pos: Position)
    ensures InSome(SegmentRange(span, line, col), pos) <==> pos.line == line && span.Contains(pos.col - col)
  {
    if span.start < span.end {
      assert SegmentRange(span, line, col)[0].Contains(pos) <==> pos.line == line && span.Contains(pos.col - col);
    }
  }

  lemma {:induction false} OwnerLeftOf(segs: seq<Segment>, col: int)
    requires col < 0
    ensures OwnerIn(segs, col) == null
  {
    if segs != [] {
      OwnerLeftOf(segs[1..], col - segs[0].width);
    }
  }

  /** One of the source's segments contributes this column. */
  ghost predicate IsHit(segs: seq<Segment>, source: Token, cells: Segment -> Span, col: int) {
    segs != []
    && ((segs[0].source == source && cells(segs[0]).Contains(col)) ||
        IsHit(segs[1..], source, cells, col - segs[0].width))
  }

  lemma {:induction false} LineRangesCover(segs: seq<Segment>, source: Token, cells: Segment -> Span, line: int,
                                           col: int, pos: Position)
    ensures InSome(LineRanges(segs, source, cells, line, col), pos) <==>
            pos.line == line && IsHit(segs, source, cells, pos.col - col)
  {
    if segs != [] {
      var w := segs[0].width;
      var first := if segs[0].source == source then SegmentRange(cells(segs[0]), line, col) else [];
      var rest := LineRanges(segs[1..], source, cells, line, col + w);
      LineRangesCover(segs[1..], source, cells, line, col + w, pos);
      InSomeConcat(first, rest, pos);
      InSomeSegment(cells(segs[0]), line, col, pos);
    }
  }

  lemma {:induction false} RangesCover(lines: seq<seq<Segment>>, source: Token, cells: Segment -> Span, n: nat,
                                       pos: Position)
    requires n <= |lines|
    ensures InSome(Ranges(lines, source, cells, n), pos) <==>
            0 <= pos.line < n && IsHit(lines[pos.line], source, cells, pos.col)
  {
    if n > 0 {
      RangesCover(lines, source, cells, n - 1, pos);
      LineRangesCover(lines[n - 1], source, cells, n - 1, 0, pos);
      InSomeConcat(Ranges(lines, source, cells, n - 1), LineRanges(lines[n - 1], source, cells, n - 1, 0), pos);
    }
  }

  /** The token's own columns are hit. */
  lemma {:induction false} HitIsOwned(segs: seq<Segment>, source: Token, col: int)
    ensures IsHit(segs, source, TokenSpan, col) <==> OwnerIn(segs, col) == source
  {
    if segs != [] {
      HitIsOwned(segs[1..], source, col - segs[0].width);
      if col < segs[0].width {
        OwnerLeftOf(segs[1..], col - segs[0].width);
      }
    }
  }

  /** Ranges follow each other without overlap. */
  ghost predicate Ascending(ranges: seq<Range>) {
    && (forall i :: 0 <= i < |ranges| ==> Less(ranges[i].start, ranges[i].end))
    && (forall i, j :: 0 <= i < j < |ranges| ==> !Less(ranges[j].start, ranges[i].end))
  }

  /** Ranges of one line, from left to right, none before col. */
  ghost predicate OnLine(ranges: seq<Range>, line: int, col: int) {
    && (forall i :: 0 <= i < |ranges| ==> ranges[i].start.line == ranges[i].end.line == line)
    && (forall i :: 0 <= i < |ranges| ==> col <= ranges[i].start.col < ranges[i].end.col)
    && (forall i, j :: 0 <= i < j < |ranges| ==> ranges[i].end.col <= ranges[j].start.col)
  }

  ghost predicate OnLines(ranges: seq<Range>, n: nat) {
    forall i :: 0 <= i < |ranges| ==> 0 <= ranges[i].start.line == ranges[i].end.line < n
  }

  /** No segment contributes columns outside itself. */
  ghost predicate Fits(segs: seq<Segment>, cells: Segment -> Span) {
    forall seg :: seg in segs && cells(seg).start < cells(seg).end ==>
      0 <= cells(seg).start && cells(seg).end <= seg.width
  }

  lemma {:induction false} LineRangesWithin(segs: seq<Segment>, source: Token, cells: Segment -> Span, line: int,
                                            col: int)
    requires Fits(segs, cells)
    ensures OnLine(LineRanges(segs, source, cells, line, col), line, col)
  {
    if segs != [] {
      LineRangesWithin(segs[1..], source, cells, line, col + segs[0].width);
    }
  }

  lemma {:induction false} AscendingConcat(before: seq<Range>, ranges: seq<Range>, line: nat)
    requires Ascending(before) && OnLines(before, line) && OnLine(ranges, line, 0)
    ensures Ascending(before + ranges) && OnLines(before + ranges, line + 1)
  {
  }

  lemma {:induction false} RangesAscending(lines: seq<seq<Segment>>, source: Token, cells: Segment -> Span, n: nat)
    requires n <= |lines| && forall i :: 0 <= i < n ==> Fits(lines[i], cells)
    ensures Ascending(Ranges(lines, source, cells, n)) && OnLines(Ranges(lines, source, cells, n), n)
  {
    if n > 0 {
      RangesAscending(lines, source, cells, n - 1);
      LineRangesWithin(lines[n - 1], source, cells, n - 1, 0);
      AscendingConcat(Ranges(lines, source, cells, n - 1), LineRanges(lines[n - 1], source, cells, n - 1, 0), n - 1);
    }
  }

  /** A query covers exactly the cells with the same owner as the queried cell, by
      disjoint ranges, and every covered cell answers with the same list. */
  lemma {:induction false} TokenRangesAreOwnershipClass(lines: seq<seq<Segment>>, idx: int, col: int, pos: Position)
    ensures var rs := RangesOfOwner(lines, idx, col, TokenSpan);
            && Ascending(rs)
            && (InSome(rs, pos) <==>
                && Owner(lines, idx, col) != null
                && Owner(lines, pos.line, pos.col) == Owner(lines, idx, col))
            && (InSome(rs, pos) ==> RangesOfOwner(lines, pos.line, pos.col, TokenSpan) == rs)
  {
    var source := Owner(lines, idx, col);
    if source != null {
      RangesCover(lines, source, TokenSpan, |lines|, pos);
      RangesAscending(lines, source, TokenSpan, |lines|);
      if 0 <= pos.line < |lines| {
        HitIsOwned(lines[pos.line], source, pos.col);
      }
    }
  }

  // ----- content queries -----

  lemma {:induction false} LeadingSpacesExact(s: string)
    ensures forall i :: 0 <= i < LeadingSpaces(s) ==> s[i] == ' '
    ensures LeadingSpaces(s) < |s| ==> s[LeadingSpaces(s)] != ' '
  {
    if s != [] && s[0] == ' ' {
      LeadingSpacesExact(s[1..]);
    }
  }

  lemma {:induction false} TrailingSpacesExact(s: string)
    ensures forall i :: |s| - TrailingSpaces(s) <= i < |s| ==> s[i] == ' '
    ensures TrailingSpaces(s) < |s| ==> s[|s| - TrailingSpaces(s) - 1] != ' '
  {
    if s != [] && s[|s| - 1] == ' ' {
      TrailingSpacesExact(s[..|s| - 1]);
    }
  }

  /** A carriage return right before the line feed, with a space before it. */
  predicate SpacesBeforeCr(seg: Segment) {
    var text := seg.Text();
    |text| >= 2 && text[|text| - 1] == '\r' && text[|text| - 2] == ' '
  }

  /** What is left of a segment lies inside it, never starts at a space, and ends right
      after a space exactly when a carriage return hides trailing spaces. */
  lemma {:induction false} ContentSpanTrimmed(seg: Segment)
    requires seg.Valid()
    ensures var c := ContentSpan(seg);
            c.start < c.end ==>
              && 0 <= c.start && c.end <= seg.width
              && seg.Text()[c.start] != ' '
              && (seg.Text()[c.end - 1] == ' ' <==> SpacesBeforeCr(seg))
  {
    var text := seg.Text();
    var origin := TrimSuffix(text, '\r');
    LeadingSpacesExact(origin);
    TrailingSpacesExact(origin);
    var lead, trail := LeadingSpaces(origin), TrailingSpaces(origin);
    if lead == |origin| && origin != [] {
      assert origin[|origin| - 1] == ' ' && origin[0] == ' ';
    } else if origin != [] && trail < |origin| {
      assert text[..|origin|] == origin;
      assert trail > 0 ==> origin[|origin| - trail] == ' ' && origin[|origin| - 1] == ' ';
      assert trail == 0 ==> origin[|origin| - 1] != ' ';
    }
  }

  /** It does happen: the content of "ab" with a space and a CRLF after it keeps the space. */
  lemma {:induction false} SpaceKeptBeforeCrlf(source: Token)
    ensures var seg := NewSegment(source, TokenData(OtherType(0), "ab \r\n", "ab", None));
            ContentSpan(seg) == Span(0, 3) && seg.Text()[2] == ' ' && SpacesBeforeCr(seg)
  {
    var seg := NewSegment(source, TokenData(OtherType(0), "ab \r\n", "ab", None));
    assert seg.Text() == "ab \r" && TrimSuffix("ab \r", '\r') == "ab ";
    assert LeadingSpaces("ab ") == 0;
    assert "ab "[..2] == "ab" && TrailingSpaces("ab") == 0 && TrailingSpaces("ab ") == 1;
  }

  /** The column is in its segment's content. */
  predicate IsContentIn(segs: seq<Segment>, col: int) {
    if segs == [] then false
    else if 0 <= col < segs[0].width then ContentSpan(segs[0]).Contains(col)
    else IsContentIn(segs[1..], col - segs[0].width)
  }

  predicate IsContent(lines: seq<seq<Segment>>, line: int, col: int) {
    0 <= line < |lines| && IsContentIn(lines[line], col)
  }

  lemma {:induction false} HitIsContent(segs: seq<Segment>, source: Token, col: int)
    requires forall seg :: seg in segs ==> seg.Valid()
    ensures IsHit(segs, source, ContentSpan, col) <==> OwnerIn(segs, col) == source && IsContentIn(segs, col)
  {
    if segs != [] {
      HitIsContent(segs[1..], source, col - segs[0].width);
      ContentFits(segs[0]);
      if col < segs[0].width {
        OwnerLeftOf(segs[1..], col - segs[0].width);
      }
    }
  }

  lemma {:induction false} ContentFits(seg: Segment)
    requires seg.Valid()
    ensures 0 <= ContentSpan(seg).start && ContentSpan(seg).end <= seg.width
  {
  }

  /** A content query covers exactly the cells of the queried cell's owner that are in their
      segment's content, by disjoint ranges. */
  lemma {:induction false} ContentRangesAreOwnedContent(lines: seq<seq<Segment>>, idx: int, col: int, pos: Position)
    requires forall i, seg :: 0 <= i < |lines| && seg in lines[i] ==> seg.Valid()
    ensures var rs := RangesOfOwner(lines, idx, col, ContentSpan);
            && Ascending(rs)
            && (InSome(rs, pos) <==>
                && Owner(lines, idx, col) != null
                && Owner(lines, pos.line, pos.col) == Owner(lines, idx, col)
                && IsContent(lines, pos.line, pos.col))
  {
    var source := Owner(lines, idx, col);
    if source != null {
      forall i | 0 <= i < |lines| ensures Fits(lines[i], ContentSpan) {
        forall seg | seg in lines[i] ensures 0 <= ContentSpan(seg).start && ContentSpan(seg).end <= seg.width {
          ContentFits(seg);
        }
      }
      RangesCover(lines, source, ContentSpan, |lines|, pos);
      RangesAscending(lines, source, ContentSpan, |lines|);
      if 0 <= pos.line < |lines| {
        HitIsContent(lines[pos.line], source, pos.col);
      }
    }
  }

  /** Something other than a space stands at or before a, and at or after b. */
  ghost predicate Surrounded(s: string, a: int, b: int) {
    && (exists p :: 0 <= p < |s| && p <= a && s[p] != ' ')
    && (exists q :: 0 <= q < |s| && b <= q && s[q] != ' ')
  }

  /** A column is in the content exactly when it is neither a leading nor a trailing space.
      A carriage return before the line feed counts one column more at the end: the first
      trailing space, or itself where there is none, even alone. */
  lemma {:induction false} ContentSpanExact(seg: Segment, o: int)
    requires seg.Valid() && 0 <= o < seg.width
    ensures var text := seg.Text();
            var origin := TrimSuffix(text, '\r');
            ContentSpan(seg).Contains(o) <==>
              if origin == text then Surrounded(text, o, o)
              else Surrounded(origin, o, o - 1) || (origin == "" && o == 0)
  {
    var origin := TrimSuffix(seg.Text(), '\r');
    var lead, trail := LeadingSpaces(origin), TrailingSpaces(origin);
    LeadingSpacesExact(origin);
    TrailingSpacesExact(origin);
    if lead < |origin| {
      assert origin[lead] != ' ' && trail <= |origin| - 1 - lead;
      assert origin[|origin| - trail - 1] != ' ';
    }
  }

  /** Every content range is the trimmed part of some segment of the source, whose own
      range the token query returns. */
  ghost predicate ContentRangeOf(r: Range, seg: Segment, source: Token, line: int, col: int, tokenRanges: seq<Range>) {
    && seg.source == source && ContentSpan(seg).start < ContentSpan(seg).end
    && r == Range(Position(line, col + ContentSpan(seg).start), Position(line, col + ContentSpan(seg).end))
    && (seg.width > 0 ==> Range(Position(line, col), Position(line, col + seg.width)) in tokenRanges)
  }

  lemma {:induction false} LineContentInside(segs: seq<Segment>, source: Token, line: int, col: int, r: Range)
    returns (seg: Segment, c: int)
    requires r in LineRanges(segs, source, ContentSpan, line, col)
    ensures seg in segs && ContentRangeOf(r, seg, source, line, c, LineRanges(segs, source, TokenSpan, line, col))
  {
    if segs[0].source == source && r in SegmentRange(ContentSpan(segs[0]), line, col) {
      seg, c := segs[0], col;
    } else {
      seg, c := LineContentInside(segs[1..], source, line, col + segs[0].width, r);
    }
  }

  lemma {:induction false} ContentInsideTokenRanges(lines: seq<seq<Segment>>, source: Token, n: nat, r: Range)
    returns (seg: Segment, col: int)
    requires n <= |lines| && r in Ranges(lines, source, ContentSpan, n)
    ensures 0 <= r.start.line < n && seg in lines[r.start.line]
    ensures ContentRangeOf(r, seg, source, r.start.line, col, Ranges(lines, source, TokenSpan, n))
  {
    if r in LineRanges(lines[n - 1], source, ContentSpan, n - 1, 0) {
      seg, col := LineContentInside(lines[n - 1], source, n - 1, 0, r);
    } else {
      seg, col := ContentInsideTokenRanges(lines, source, n - 1, r);
    }
  }
}
