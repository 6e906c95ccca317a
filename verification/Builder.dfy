/** Cutting a token stream into lines. */
module Builder {
  import opened Tokens
  import opened Lines
  import opened Splitter
  import Seqs

  // ----- what the segments of one token look like -----

  /** A string token is block scalar content when, skipping comments, a literal or
      folded header comes before it. */
  predicate FollowsBlockHeader(prevTypes: seq<TokenType>) {
    prevTypes != [] &&
    match prevTypes[0]
    case LiteralType => true
    case FoldedType => true
    case CommentType => FollowsBlockHeader(prevTypes[1..])
    case _ => false
  }

  /** Going back, the first token that is no comment is such a header. */
  lemma {:induction false} FollowsBlockHeaderIff(prevTypes: seq<TokenType>)
    ensures FollowsBlockHeader(prevTypes) <==>
            exists k :: 0 <= k < |prevTypes| && (prevTypes[k] == LiteralType || prevTypes[k] == FoldedType)
                        && forall j :: 0 <= j < k ==> prevTypes[j] == CommentType
  {
    if prevTypes != [] && prevTypes[0] == CommentType {
      FollowsBlockHeaderIff(prevTypes[1..]);
      if FollowsBlockHeader(prevTypes[1..]) {
        var k :| 0 <= k < |prevTypes| - 1 && (prevTypes[1..][k] == LiteralType || prevTypes[1..][k] == FoldedType)
                 && forall j :: 0 <= j < k ==> prevTypes[1..][j] == CommentType;
        assert forall j :: 0 < j < k + 1 ==> prevTypes[j] == prevTypes[1..][j - 1];
        assert prevTypes[k + 1] == prevTypes[1..][k];
      }
      if k :| 0 <= k < |prevTypes| && (prevTypes[k] == LiteralType || prevTypes[k] == FoldedType)
              && forall j :: 0 <= j < k ==> prevTypes[j] == CommentType {
        assert prevTypes[1..][k - 1] == prevTypes[k];
        assert forall j :: 0 <= j < k - 1 ==> prevTypes[1..][j] == prevTypes[j + 1];
      }
    }
  }

  predicate IsBlockScalar(tk: Token) {
    tk.data.typ == StringType && FollowsBlockHeader(tk.prevTypes)
  }

  method IsBlockScalarContent(tk: Token) returns (b: bool)
    ensures b == IsBlockScalar(tk)
  {
    if tk.data.typ != StringType {
      return false;
    }
    for i := 0 to |tk.prevTypes|
      invariant FollowsBlockHeader(tk.prevTypes) == FollowsBlockHeader(tk.prevTypes[i..])
    {
      assert tk.prevTypes[i..][1..] == tk.prevTypes[i + 1..];
      match tk.prevTypes[i] {
        case LiteralType => return true;
        case FoldedType => return true;
        case CommentType =>
        case _ => return false;
      }
    }
    b := false;
  }

  predicate IsPureHorizontalWhitespace(s: string) {
    s != "" && forall i :: 0 <= i < |s| ==> s[i] == ' ' || s[i] == '\t'
  }

  /** Of a token that is cut, one part keeps the position: of a block scalar the first or the
      last content, by where the position points; after a leading blank line the first. */
  ghost predicate KeepsPosition(tk: Token, i: nat)
    requires i < |Parts(tk.data.origin)|
  {
    var parts := Parts(tk.data.origin);
    var isFirst := NoContentBefore(parts, i) && !IsPureNewline(parts[i]);
    && |parts| > 1 && tk.data.position.Some?
    && (if IsBlockScalar(tk) && tk.data.position.value.column != 0 && IsLastContent(parts, i) then true
        else isFirst && (IsPureNewline(parts[0]) || (IsBlockScalar(tk) && tk.data.position.value.column == 0)))
  }

  /** The i-th segment of tk: its origin is the i-th part, it has the token's value exactly
      when that part is the one to carry it, and the token's type but for white space. */
  ghost predicate SegmentOf(seg: Segment, tk: Token, i: nat)
    requires i < |Parts(tk.data.origin)|
  {
    var parts := Parts(tk.data.origin);
    && seg.source == tk && seg.Valid() && seg.part.origin == parts[i]
    && seg.part.value == (if CarriesValue(parts, IsBlockScalar(tk), i) then tk.data.value else "")
    && seg.part.typ == (if IsPureHorizontalWhitespace(parts[i]) && seg.part.value == "" && !IsBlockScalar(tk)
                        then SpaceType
                        else tk.data.typ)
    && (KeepsPosition(tk, i) ==> seg.part.position == tk.data.position)
  }

  /** The first segments of tk. */
  ghost predicate SegmentsUpTo(segs: seq<Segment>, tk: Token, n: nat) {
    && |segs| == n <= |Parts(tk.data.origin)|
    && forall i: nat {:trigger SegmentOf(segs[i], tk, i)} :: i < n ==> SegmentOf(segs[i], tk, i)
  }

  lemma {:induction false} SegmentsSnoc(segs: seq<Segment>, seg: Segment, tk: Token)
    requires |segs| < |Parts(tk.data.origin)| && SegmentsUpTo(segs, tk, |segs|) && SegmentOf(seg, tk, |segs|)
    ensures SegmentsUpTo(segs + [seg], tk, |segs| + 1)
  {
    var all := segs + [seg];
    forall i: nat | i < |all| ensures SegmentOf(all[i], tk, i) {
      assert i < |segs| ==> all[i] == segs[i] && SegmentOf(segs[i], tk, i);
    }
  }

  /** All segments of tk. */
  ghost predicate Complete(segs: seq<Segment>, tk: Token) {
    SegmentsUpTo(segs, tk, |Parts(tk.data.origin)|)
  }

  /** One complete, non-empty group of segments for every token. */
  ghost predicate GroupsOf(groups: seq<seq<Segment>>, tks: seq<Token>) {
    && |groups| == |tks|
    && forall i: nat {:trigger Complete(groups[i], tks[i])} :: i < |groups| ==> Complete(groups[i], tks[i])
  }

  lemma {:induction false} GroupsSnoc(groups: seq<seq<Segment>>, tks: seq<Token>, group: seq<Segment>, tk: Token)
    requires GroupsOf(groups, tks) && Complete(group, tk)
    ensures GroupsOf(groups + [group], tks + [tk])
    ensures Seqs.Concat(groups + [group]) == Seqs.Concat(groups) + group
  {
    var gs, ts := groups + [group], tks + [tk];
    forall i: nat | i < |gs| ensures Complete(gs[i], ts[i]) {
      assert i < |groups| ==> gs[i] == groups[i] && ts[i] == tks[i] && Complete(groups[i], tks[i]);
    }
    Seqs.ConcatSnoc(groups, group);
  }

  // ----- what lines look like -----

  predicate Ends(seg: Segment) {
    EndsWithNewline(seg.part.origin)
  }

  /** A line ending of a token that says to be further down: it was read before. */
  ghost predicate Repeats(seg: Segment, number: int) {
    && IsPureNewline(seg.part.origin)
    && seg.source.data.position.Some? && seg.source.data.position.value.line > number
  }

  /** A line has segments, and after its line feed only repeated line endings. */
  ghost predicate LineShape(segs: seq<Segment>, number: int) {
    && segs != []
    && forall i :: 0 <= i < |segs| - 1 && Ends(segs[i]) ==> Repeats(segs[i + 1], number)
  }

  ghost predicate LinesShape(lines: seq<Line>) {
    forall i: nat {:trigger LineShape(lines[i].segments, lines[i].number)} :: i < |lines| ==>
      LineShape(lines[i].segments, lines[i].number)
  }

  /** A line still being filled has no line feed yet. */
  ghost predicate Open(segs: seq<Segment>) {
    forall i :: 0 <= i < |segs| ==> !Ends(segs[i])
  }

  /** Some segment brought a line feed. */
  ghost predicate Broken(segs: seq<Segment>) {
    exists i :: 0 <= i < |segs| && Ends(segs[i])
  }

  /** A token without a line feed inside it says that it is on this line. */
  ghost predicate IsLineOf(number: int, tks: seq<Token>) {
    exists k :: 0 <= k < |tks| && IsOn(tks[k], number)
  }

  ghost predicate IsOn(tk: Token, number: int) {
    IsSimple(tk.data.origin) && tk.data.position.Some? && tk.data.position.value.line == number
  }

  /** What the number after these lines may be: the next one, if a line feed ended the last
      line; otherwise there is a gap, and some token of the stream is after it. */
  ghost predicate NextOk(lines: seq<Line>, number: int, start: int, tks: seq<Token>) {
    if lines == [] then number == start || (number > start && IsLineOf(number, tks))
    else
      var last := lines[|lines| - 1];
      || (number == last.number + 1 && Broken(last.segments))
      || (number > last.number + 1 && IsLineOf(number, tks))
  }

  /** Why every line ends where it does, and has the number it has. */
  ghost predicate Explained(lines: seq<Line>, start: int, tks: seq<Token>) {
    forall i: nat {:trigger NextOk(lines[..i], lines[i].number, start, tks)} ::
      i < |lines| ==> NextOk(lines[..i], lines[i].number, start, tks)
  }

  lemma {:induction false} NextOkStays(lines: seq<Line>, number: int, start: int, tks: seq<Token>, tk: Token)
    requires NextOk(lines, number, start, tks)
    ensures NextOk(lines, number, start, tks + [tk])
  {
    if IsLineOf(number, tks) {
      var k :| 0 <= k < |tks| && IsOn(tks[k], number);
      assert (tks + [tk])[k] == tks[k];
    }
  }

  lemma {:induction false} ExplainedStays(lines: seq<Line>, start: int, tks: seq<Token>, tk: Token)
    requires Explained(lines, start, tks)
    ensures Explained(lines, start, tks + [tk])
  {
    forall i: nat | i < |lines| ensures NextOk(lines[..i], lines[i].number, start, tks + [tk]) {
      NextOkStays(lines[..i], lines[i].number, start, tks, tk);
    }
  }

  lemma {:induction false} ExplainedSnoc(lines: seq<Line>, line: Line, start: int, tks: seq<Token>)
    requires Explained(lines, start, tks) && NextOk(lines, line.number, start, tks)
    ensures Explained(lines + [line], start, tks)
  {
    var all := lines + [line];
    forall i: nat | i < |all| ensures NextOk(all[..i], all[i].number, start, tks) {
      assert all[..i] == lines[..i];
      if i == |lines| {
        assert lines[..i] == lines;
      } else {
        assert NextOk(lines[..i], lines[i].number, start, tks);
      }
    }
  }

  /** Explained numbers increase. */
  lemma {:induction false} ExplainedIncreases(lines: seq<Line>, start: int, tks: seq<Token>)
    requires Explained(lines, start, tks)
    ensures NumbersIncrease(lines, start)
  {
    if lines != [] {
      var n := |lines| - 1;
      assert NextOk(lines[..n], lines[n].number, start, tks);
      ExplainedInit(lines, start, tks);
      ExplainedIncreases(lines[..n], start, tks);
      assert n > 0 ==> lines[n].number > lines[..n][n - 1].number;
      forall i | 0 <= i < n ensures start <= lines[i].number < lines[n].number {
        assert lines[i] == lines[..n][i];
      }
    }
  }

  lemma {:induction false} ExplainedInit(lines: seq<Line>, start: int, tks: seq<Token>)
    requires lines != [] && Explained(lines, start, tks)
    ensures Explained(lines[..|lines| - 1], start, tks)
  {
    var init := lines[..|lines| - 1];
    forall i: nat | i < |init| ensures NextOk(init[..i], init[i].number, start, tks) {
      assert init[..i] == lines[..i] && NextOk(lines[..i], lines[i].number, start, tks);
    }
  }

  /** Adding to the last line explains its number no worse. */
  lemma {:induction false} ExplainedRegrown(lines: seq<Line>, grown: Line, start: int, tks: seq<Token>)
    requires lines != [] && Explained(lines, start, tks) && grown.number == lines[|lines| - 1].number
    ensures Explained(lines[..|lines| - 1] + [grown], start, tks)
  {
    var init := lines[..|lines| - 1];
    assert NextOk(init, lines[|lines| - 1].number, start, tks);
    ExplainedInit(lines, start, tks);
    ExplainedSnoc(init, grown, start, tks);
  }

  /** A token is not put on a line before its own, except that one on the very next line
      joins a line that has not ended yet. */
  ghost predicate InTime(tk: Token, number: int, first: bool) {
    IsSimple(tk.data.origin) && tk.data.position.Some? ==>
      tk.data.position.value.line <= number + if first then 0 else 1
  }

  ghost predicate BeforeBreak(segs: seq<Segment>, k: nat)
    requires k <= |segs|
  {
    forall j :: 0 <= j < k ==> !Ends(segs[j])
  }

  /** That is so up to the line feed of a line. */
  ghost predicate OnTime(segs: seq<Segment>, number: int) {
    forall k: nat {:trigger BeforeBreak(segs, k)} :: k < |segs| && BeforeBreak(segs, k) ==>
      InTime(segs[k].source, number, k == 0)
  }

  ghost predicate LinesOnTime(lines: seq<Line>) {
    forall i: nat {:trigger OnTime(lines[i].segments, lines[i].number)} :: i < |lines| ==>
      OnTime(lines[i].segments, lines[i].number)
  }

  lemma {:induction false} OnTimeSnoc(segs: seq<Segment>, seg: Segment, number: int)
    requires OnTime(segs, number) && (Broken(segs) || InTime(seg.source, number, segs == []))
    ensures OnTime(segs + [seg], number)
  {
    var all := segs + [seg];
    forall k: nat | k < |all| && BeforeBreak(all, k) ensures InTime(all[k].source, number, k == 0) {
      if k < |segs| {
        assert forall j :: 0 <= j < k ==> segs[j] == all[j];
        assert BeforeBreak(segs, k);
      } else {
        assert forall j :: 0 <= j < k ==> segs[j] == all[j];
      }
    }
  }

  lemma {:induction false} BrokenGrows(segs: seq<Segment>, seg: Segment)
    requires Broken(segs) || Ends(seg)
    ensures Broken(segs + [seg])
  {
    var all := segs + [seg];
    if Ends(seg) {
      assert Ends(all[|segs|]);
    } else {
      var i :| 0 <= i < |segs| && Ends(segs[i]);
      assert Ends(all[i]);
    }
  }

  /** The first line's number: line feeds before the first token's content count back. */
  function StartLine(tk: Token): (n: int)
    ensures n >= 1 <==> tk.data.position.None? || tk.data.position.value.line >= 1
  {
    match tk.data.position
    case None => 1
    case Some(p) =>
      var leading := LeadingNewlines(tk.data.origin);
      if leading > 0 && p.line > leading then p.line - leading else p.line
  }

  /** Without a position a stream starts at line 1; otherwise at the first token's line, less the
      line feeds among the line endings it begins with, as long as a line above 0 is left. */
  lemma {:induction false} StartLineExact(tk: Token) returns (lead: nat)
    ensures var origin := tk.data.origin;
            && lead <= |origin| && (forall i :: 0 <= i < lead ==> origin[i] == '\r' || origin[i] == '\n')
            && (lead < |origin| ==> origin[lead] != '\r' && origin[lead] != '\n')
            && var lineFeeds := multiset(origin[..lead])['\n'];
            && match tk.data.position
               case None => StartLine(tk) == 1
               case Some(p) => StartLine(tk) == if lineFeeds < p.line then p.line - lineFeeds else p.line
  {
    lead := LeadingExact(tk.data.origin);
  }

  lemma {:induction false} LeadingExact(s: string) returns (lead: nat)
    ensures lead <= |s| && (forall i :: 0 <= i < lead ==> s[i] == '\r' || s[i] == '\n')
    ensures lead < |s| ==> s[lead] != '\r' && s[lead] != '\n'
    ensures LeadingNewlines(s) == multiset(s[..lead])['\n']
  {
    lead := 0;
    if s != "" && (s[0] == '\r' || s[0] == '\n') {
      var rest := LeadingExact(s[1..]);
      lead := rest + 1;
      assert s[..lead] == [s[0]] + s[1..][..rest];
    }
  }

  function NextColumn(segs: seq<Segment>): int {
    if segs == [] then 0
    else
      var col := NextColumn(segs[..|segs| - 1]);
      match segs[|segs| - 1].part.position
      case Some(p) => if p.column > col then p.column else col
      case None => col
  }

  ghost predicate HasColumn(seg: Segment, col: int) {
    seg.part.position.Some? && seg.part.position.value.column == col
  }

  /** The largest column on the line so far, or 0. */
  lemma {:induction false} NextColumnIsLargest(segs: seq<Segment>)
    ensures var col := NextColumn(segs);
            && col >= 0 && (col == 0 || exists i :: 0 <= i < |segs| && HasColumn(segs[i], col))
            && forall i, c :: 0 <= i < |segs| && HasColumn(segs[i], c) ==> c <= col
  {
    if segs != [] {
      NextColumnIsLargest(segs[..|segs| - 1]);
    }
  }

  /** A part has its token's column if it is the first content or carries a value. */
  function ContentColumn(tk: Token, isTokens: bool): int {
    match tk.data.position
    case Some(p) => if p.column > 0 && isTokens then p.column else 1
    case None => 1
  }

  /** The column and the value of a content part. */
  method PartColumnAndValue(tk: Token, isFirst: bool, shouldHaveValue: bool) returns (col: int, val: string)
    ensures val == if shouldHaveValue then tk.data.value else ""
    ensures col == ContentColumn(tk, isFirst || (shouldHaveValue && tk.data.value != ""))
  {
    col, val := 1, "";
    if tk.data.value != "" && shouldHaveValue {
      val := tk.data.value;
      if tk.data.position.Some? && tk.data.position.value.column > 0 {
        col := tk.data.position.value.column;
      }
    } else if isFirst && tk.data.position.Some? && tk.data.position.value.column > 0 {
      col := tk.data.position.value.column;
    }
  }

  // ----- where the parts of a token go -----

  /** Lines, one being filled under a number, and whether the last token ended a line. */
  datatype State = State(lines: seq<Line>, open: seq<Segment>, number: int, prevEnded: bool)

  /** A token without inner line feeds that is two or more lines ahead leaves the line being
      filled; with no line being filled, the next one takes the number of its line. */
  function AfterGap(st: State, tk: Token): State {
    var ahead := if IsSimple(tk.data.origin) && tk.data.position.Some?
                 then tk.data.position.value.line - st.number
                 else 0;
    if st.open != [] && ahead > 1 then Leave(st).(number := st.number + ahead)
    else if st.open == [] && ahead > 0 then st.(number := st.number + ahead)
    else st
  }

  function Leave(st: State): State {
    st.(lines := st.lines + [Line(st.open, st.number, FlagDefault, [], [])], open := [])
  }

  /** A segment goes on the line being filled, and a line feed ends that line. */
  function AfterAppend(st: State, seg: Segment): State {
    var grown := st.(open := st.open + [seg]);
    if Ends(seg) then Leave(grown).(number := st.number + 1) else grown
  }

  function Regrown(lines: seq<Line>, seg: Segment): seq<Line>
    requires lines != []
  {
    var last := lines[|lines| - 1];
    lines[..|lines| - 1] + [last.(segments := last.segments + [seg])]
  }

  /** A token that starts with the line ending that the token before it ended with. */
  predicate IsDuplicate(st: State, tk: Token, first: bool, part: string) {
    && first && IsPureNewline(part) && st.prevEnded && st.lines != []
    && tk.data.position.Some? && tk.data.position.value.line == st.number
  }

  /** A duplicate line ending goes to the line closed last, everything else is appended. */
  function AfterSegment(st: State, tk: Token, first: bool, seg: Segment): State {
    if IsDuplicate(st, tk, first, seg.part.origin) then st.(lines := Regrown(st.lines, seg)) else AfterAppend(st, seg)
  }

  function AfterSegments(st: State, tk: Token, segs: seq<Segment>): State {
    if segs == [] then st
    else AfterSegment(AfterSegments(st, tk, segs[..|segs| - 1]), tk, |segs| == 1, segs[|segs| - 1])
  }

  function AfterToken(st: State, tk: Token, segs: seq<Segment>): State {
    AfterSegments(AfterGap(st, tk), tk, segs).(prevEnded := EndsWithNewline(tk.data.origin))
  }

  /** After these tokens, cut into these groups of segments, beginning at line `start`. */
  function AfterTokens(start: int, tks: seq<Token>, groups: seq<seq<Segment>>): State
    requires |tks| == |groups|
  {
    if tks == [] then State([], [], start, false)
    else
      var n := |tks| - 1;
      AfterToken(AfterTokens(start, tks[..n], groups[..n]), tks[n], groups[n])
  }

  lemma {:induction false} AfterTokensSnoc(start: int, tks: seq<Token>, groups: seq<seq<Segment>>, tk: Token,
                                           group: seq<Segment>)
    requires |tks| == |groups|
    ensures AfterTokens(start, tks + [tk], groups + [group]) == AfterToken(AfterTokens(start, tks, groups), tk, group)
  {
    assert (tks + [tk])[..|tks|] == tks && (groups + [group])[..|tks|] == groups;
  }

  // ----- what that comes to, in terms of the lines -----

  /** The line has this number, and only its last segment ends with a line feed. */
  ghost predicate IsClosed(line: Line, number: int) {
    && line == Line(line.segments, number, FlagDefault, [], []) && line.segments != []
    && forall i :: 0 <= i < |line.segments| ==> (Ends(line.segments[i]) <==> i == |line.segments| - 1)
  }

  /** Such lines, numbered from `number` on. */
  ghost predicate AreClosed(lines: seq<Line>, number: int) {
    forall i: nat {:trigger lines[i]} :: i < |lines| ==> IsClosed(lines[i], number + i)
  }

  /** The segments follow the line being filled, one after the other; the line ends at every
      line feed, and the next one has the next number. */
  ghost predicate Continues(st: State, segs: seq<Segment>, end: State, more: seq<Line>) {
    && end == State(st.lines + more, end.open, st.number + |more|, st.prevEnded)
    && AllSegments(more) + end.open == st.open + segs
    && AreClosed(more, st.number) && Open(end.open)
  }

  lemma {:induction false} AreClosedSnoc(lines: seq<Line>, number: int, line: Line)
    requires AreClosed(lines, number) && IsClosed(line, number + |lines|)
    ensures AreClosed(lines + [line], number)
  {
  }

  lemma {:induction false} LineCloses(open: seq<Segment>, seg: Segment, number: int)
    requires Open(open) && Ends(seg)
    ensures IsClosed(Line(open + [seg], number, FlagDefault, [], []), number)
  {
  }

  lemma {:induction false} ContinuesNext(st: State, segs: seq<Segment>, mid: State, more: seq<Line>, seg: Segment)
    returns (next: seq<Line>)
    requires Continues(st, segs, mid, more)
    ensures Continues(st, segs + [seg], AfterAppend(mid, seg), next)
  {
    next := more;
    Seqs.ConcatAssociative(st.open, segs, [seg]);
    Seqs.ConcatAssociative(AllSegments(more), mid.open, [seg]);
    if Ends(seg) {
      var line := Line(mid.open + [seg], mid.number, FlagDefault, [], []);
      next := more + [line];
      LineCloses(mid.open, seg, mid.number);
      AreClosedSnoc(more, st.number, line);
      AllSegmentsSnoc(more, line);
      Seqs.ConcatAssociative(st.lines, more, [line]);
    }
  }

  lemma {:induction false} ContinuesOne(st: State, seg: Segment) returns (more: seq<Line>)
    requires Open(st.open)
    ensures Continues(st, [seg], AfterAppend(st, seg), more)
  {
    assert AllSegments([]) == [] && st.lines + [] == st.lines && [] + st.open == st.open + [];
    more := ContinuesNext(st, [], st, [], seg);
    assert [] + [seg] == [seg];
  }

  /** A token's segments: the first one ends the line closed last if it is a bare line ending, the
      token before has ended in a line feed and the token says that it is on the line to be filled.
      No number changes then. In all other cases it follows the line being filled, and so do the
      other segments in any case. */
  lemma {:induction false} AfterSegmentsExact(st: State, tk: Token, segs: seq<Segment>) returns (more: seq<Line>)
    requires segs != [] && Open(st.open)
    ensures var end, origin, n := AfterSegments(st, tk, segs), segs[0].part.origin, |st.lines| - 1;
            if (origin == "\n" || origin == "\r\n") && st.prevEnded && st.lines != []
               && tk.data.position.Some? && tk.data.position.value.line == st.number
            then
              var last := st.lines[n];
              var joined := st.(lines := st.lines[..n] + [last.(segments := last.segments + [segs[0]])]);
              Continues(joined, segs[1..], end, more)
            else Continues(st, segs, end, more)
  {
    var m := |segs| - 1;
    var init, seg := segs[..m], segs[m];
    if m == 0 {
      assert segs == [seg] && segs[1..] == [];
      more := FirstSegmentGoes(st, tk, seg);
    } else {
      more := AfterSegmentsExact(st, tk, init);
      var mid := AfterSegments(st, tk, init);
      assert init + [seg] == segs && init[1..] + [seg] == segs[1..] && init[0] == segs[0];
      if IsDuplicate(st, tk, true, segs[0].part.origin) {
        more := ContinuesNext(st.(lines := Regrown(st.lines, segs[0])), init[1..], mid, more, seg);
      } else {
        more := ContinuesNext(st, init, mid, more, seg);
      }
    }
  }

  lemma {:induction false} FirstSegmentGoes(st: State, tk: Token, seg: Segment) returns (more: seq<Line>)
    requires Open(st.open)
    ensures var end := AfterSegments(st, tk, [seg]);
            if IsDuplicate(st, tk, true, seg.part.origin)
            then Continues(st.(lines := Regrown(st.lines, seg)), [], end, more)
            else Continues(st, [seg], end, more)
  {
    assert [seg][..0] == [] && AfterSegments(st, tk, [seg][..0]) == st;
    assert AfterSegments(st, tk, [seg]) == AfterSegment(st, tk, true, seg);
    if IsDuplicate(st, tk, true, seg.part.origin) {
      var joined := st.(lines := Regrown(st.lines, seg));
      assert AllSegments([]) == [] && joined.lines + [] == joined.lines && [] + joined.open == joined.open + [];
      more := [];
    } else {
      more := ContinuesOne(st, seg);
    }
  }

  /** Before its first segment, a token without a line feed inside that is further down moves on:
      it leaves a line that is being filled if it skips one, and then the next line is its own. */
  lemma {:induction false} AfterGapExact(st: State, tk: Token)
    ensures var g := AfterGap(st, tk);
            g.prevEnded == st.prevEnded &&
            if tk.data.origin != "" && '\n' in tk.data.origin[..|tk.data.origin| - 1] then g == st
            else if tk.data.position.None? then g == st
            else
              var line := tk.data.position.value.line;
              if st.open == [] then g == st.(number := if line > st.number then line else st.number)
              else if line <= st.number + 1 then g == st
              else
                && g.open == [] && g.number == line
                && g.lines == st.lines + [Line(st.open, st.number, FlagDefault, [], [])]
  {
    if tk.data.origin != "" {
      SimpleIff(tk.data.origin);
    }
  }

  /** Whether the last token ended in a line feed is all that is remembered of it. */
  lemma {:induction false} PrevEndedExact(start: int, tks: seq<Token>, groups: seq<seq<Segment>>)
    requires |tks| == |groups|
    ensures AfterTokens(start, tks, groups).prevEnded <==>
            tks != [] && tks[|tks| - 1].data.origin != "" &&
            var origin := tks[|tks| - 1].data.origin; origin[|origin| - 1] == '\n'
  {
  }

  function Built(st: State): seq<Line> {
    if st.open != [] then Leave(st).lines else st.lines
  }

  ghost predicate Plain(lines: seq<Line>) {
    forall i :: 0 <= i < |lines| ==> lines[i] == Line(lines[i].segments, lines[i].number, FlagDefault, [], [])
  }

  /** All lines are without flags, overlays and annotations, and the last one is what was left to fill. */
  lemma {:induction false} BuiltIsPlain(start: int, tks: seq<Token>, groups: seq<seq<Segment>>)
    requires |tks| == |groups|
    ensures var st := AfterTokens(start, tks, groups);
            && Plain(Built(st)) && st.lines <= Built(st)
            && AllSegments(Built(st)) == AllSegments(st.lines) + st.open
            && (st.open != [] ==> |Built(st)| == |st.lines| + 1 && Built(st)[|st.lines|].number == st.number)
            && (st.open == [] ==> Built(st) == st.lines)
  {
    var st := AfterTokens(start, tks, groups);
    StaysPlain(start, tks, groups);
    if st.open != [] {
      AllSegmentsSnoc(st.lines, Line(st.open, st.number, FlagDefault, [], []));
    }
  }

  lemma {:induction false} StaysPlain(start: int, tks: seq<Token>, groups: seq<seq<Segment>>)
    requires |tks| == |groups|
    ensures Plain(AfterTokens(start, tks, groups).lines)
  {
    if tks != [] {
      var n := |tks| - 1;
      StaysPlain(start, tks[..n], groups[..n]);
      SegmentsStayPlain(AfterGap(AfterTokens(start, tks[..n], groups[..n]), tks[n]), tks[n], groups[n]);
    }
  }

  lemma {:induction false} SegmentsStayPlain(st: State, tk: Token, segs: seq<Segment>)
    requires Plain(st.lines)
    ensures Plain(AfterSegments(st, tk, segs).lines)
  {
    if segs != [] {
      SegmentsStayPlain(st, tk, segs[..|segs| - 1]);
    }
  }

  // ----- what the parts of a token are -----

  /** The token for the i-th part of tk on the given line; a bare line ending gets the next column. */
  ghost function PartToken(tk: Token, i: nat, line: int, nextColumn: int): TokenData
    requires i < |Parts(tk.data.origin)|
  {
    var parts := Parts(tk.data.origin);
    var value := if CarriesValue(parts, IsBlockScalar(tk), i) then tk.data.value else "";
    var isSpace := IsPureHorizontalWhitespace(parts[i]) && value == "" && !IsBlockScalar(tk);
    var column := if IsPureNewline(parts[i]) then nextColumn
                  else ContentColumn(tk, NoContentBefore(parts, i) || value != "");
    TokenData(if isSpace then SpaceType else tk.data.typ, parts[i], value,
              if KeepsPosition(tk, i) then tk.data.position else Some(TokenPosition(line, column)))
  }

  /** The segment made of the i-th part, when the parts before it are in place. */
  ghost function PartSegment(st: State, tk: Token, i: nat): Segment
    requires i < |Parts(tk.data.origin)|
  {
    var part := Parts(tk.data.origin)[i];
    if IsDuplicate(st, tk, i == 0, part) then
      var column := NextColumn(st.lines[|st.lines| - 1].segments) + 1;
      NewSegment(tk, TokenData(tk.data.typ, part, "", Some(TokenPosition(st.number - 1, column))))
    else NewSegment(tk, PartToken(tk, i, st.number, NextColumn(st.open) + 1))
  }

  /** Wherever it goes, it is the token's i-th segment. */
  lemma {:induction false} PartSegmentIsSegment(st: State, tk: Token, i: nat)
    requires i < |Parts(tk.data.origin)|
    ensures SegmentOf(PartSegment(st, tk, i), tk, i)
  {
  }

  /** Bare line endings have no value; of the other parts a block scalar's last one has it, and
      any other token's first one. */
  ghost predicate HasValue(tk: Token, parts: seq<string>, i: nat)
    requires i < |parts|
  {
    && parts[i] != "\n" && parts[i] != "\r\n"
    && forall k :: (if IsBlockScalar(tk) then i < k < |parts| else 0 <= k < i) ==>
         parts[k] == "\n" || parts[k] == "\r\n"
  }

  lemma {:induction false} HasValueExact(tk: Token, parts: seq<string>, i: nat)
    requires i < |parts|
    ensures HasValue(tk, parts, i) <==> CarriesValue(parts, IsBlockScalar(tk), i)
  {
  }

  /** The token for a part on a line: its origin, value and type, and, if the token is not cut, its
      position. A content part has the token's column if the token has one and nothing but line
      endings come before, or else the first column. */
  lemma {:induction false} PartTokenExact(tk: Token, i: nat, line: int, nextColumn: int)
    requires i < |Parts(tk.data.origin)|
    ensures var parts, part := Parts(tk.data.origin), PartToken(tk, i, line, nextColumn);
            && part.origin == parts[i]
            && part.value == (if HasValue(tk, parts, i) then tk.data.value else "")
            && part.typ ==
               (if !IsBlockScalar(tk) && part.value == "" && part.origin != "" &&
                   (forall k :: 0 <= k < |part.origin| ==> part.origin[k] == ' ' || part.origin[k] == '\t')
                then SpaceType
                else tk.data.typ)
            && (|parts| == 1 && (part.origin == "\n" || part.origin == "\r\n") ==>
                  part.position == Some(TokenPosition(line, nextColumn)))
            && (|parts| == 1 && part.origin != "\n" && part.origin != "\r\n" ==>
                  part.position == Some(TokenPosition(line, match tk.data.position
                                                            case Some(p) => if p.column > 0 then p.column else 1
                                                            case None => 1)))
  {
    HasValueExact(tk, Parts(tk.data.origin), i);
  }

  /** Of a token that is cut, one part may keep the position: of a block scalar the last content,
      or the first if the position has no column; of others the first after a leading blank line.
      The others are on their line, at the token's column if they are the first content or have
      its value, at the first column if not, and after all others if they are bare line endings. */
  lemma {:induction false} CutPartPositionExact(tk: Token, i: nat, line: int, nextColumn: int)
    requires |Parts(tk.data.origin)| > 1 && i < |Parts(tk.data.origin)|
    ensures var parts, part := Parts(tk.data.origin), PartToken(tk, i, line, nextColumn);
            var isEnding := parts[i] == "\n" || parts[i] == "\r\n";
            var isFirst := !isEnding && forall k :: 0 <= k < i ==> parts[k] == "\n" || parts[k] == "\r\n";
            var isLast := !isEnding && forall k :: i < k < |parts| ==> parts[k] == "\n" || parts[k] == "\r\n";
            var noContent := forall k :: 0 <= k < |parts| ==> parts[k] == "\n" || parts[k] == "\r\n";
            match tk.data.position
            case None => part.position == Some(TokenPosition(line, if isEnding then nextColumn else 1))
            case Some(p) =>
              part.position ==
              if IsBlockScalar(tk) && p.column != 0 && (isLast || (noContent && i == |parts| - 1)) then Some(p)
              else if isFirst && (parts[0] == "\n" || parts[0] == "\r\n" || (IsBlockScalar(tk) && p.column == 0))
              then Some(p)
              else if isEnding then Some(TokenPosition(line, nextColumn))
              else Some(TokenPosition(line, if p.column > 0 && (isFirst || part.value != "") then p.column else 1))
  {
    HasValueExact(tk, Parts(tk.data.origin), i);
  }

  /** A line ending that joins the line closed last says to be on the line before the next one; it
      has no value. */
  lemma {:induction false} PartSegmentExact(st: State, tk: Token, i: nat)
    requires i < |Parts(tk.data.origin)|
    ensures var part, n := Parts(tk.data.origin)[i], |st.lines| - 1;
            PartSegment(st, tk, i) == NewSegment(tk,
              if i == 0 && (part == "\n" || part == "\r\n") && st.prevEnded && st.lines != []
                 && tk.data.position.Some? && tk.data.position.value.line == st.number
              then TokenData(tk.data.typ, part, "",
                             Some(TokenPosition(st.number - 1, NextColumn(st.lines[n].segments) + 1)))
              else PartToken(tk, i, st.number, NextColumn(st.open) + 1))
  {
  }

  ghost predicate IsPart(st: State, tk: Token, segs: seq<Segment>, i: nat)
    requires i < |segs| <= |Parts(tk.data.origin)|
  {
    segs[i] == PartSegment(AfterSegments(st, tk, segs[..i]), tk, i)
  }

  /** The segments are exactly those made of the first parts of tk. */
  ghost predicate MadeOf(st: State, tk: Token, segs: seq<Segment>) {
    && |segs| <= |Parts(tk.data.origin)|
    && forall i: nat {:trigger IsPart(st, tk, segs, i)} :: i < |segs| ==> IsPart(st, tk, segs, i)
  }

  lemma {:induction false} MadeOfSnoc(st: State, tk: Token, segs: seq<Segment>, seg: Segment)
    requires MadeOf(st, tk, segs) && |segs| < |Parts(tk.data.origin)|
    requires seg == PartSegment(AfterSegments(st, tk, segs), tk, |segs|)
    ensures MadeOf(st, tk, segs + [seg])
    ensures AfterSegments(st, tk, segs + [seg]) == AfterSegment(AfterSegments(st, tk, segs), tk, segs == [], seg)
  {
    var all := segs + [seg];
    assert all[..|segs|] == segs;
    forall i: nat | i < |all| ensures IsPart(st, tk, all, i) {
      assert all[..i] == segs[..i];
      assert i < |segs| ==> IsPart(st, tk, segs, i);
    }
  }

  /** The first parts of tk are in place: `emitted` was `before`, and the state was st. */
  ghost predicate PartsPlaced(st: State, tk: Token, group: seq<Segment>, now: State,
                              before: seq<Segment>, emitted: seq<Segment>)
  {
    && SegmentsUpTo(group, tk, |group|) && emitted == before + group
    && MadeOf(st, tk, group) && now == AfterSegments(st, tk, group)
  }

  lemma {:induction false} PartsPlacedSnoc(st: State, tk: Token, group: seq<Segment>, now: State,
                                           before: seq<Segment>, emitted: seq<Segment>)
    requires PartsPlaced(st, tk, group, now, before, emitted) && |group| < |Parts(tk.data.origin)|
    ensures var seg := PartSegment(now, tk, |group|);
            PartsPlaced(st, tk, group + [seg], AfterSegment(now, tk, group == [], seg), before, emitted + [seg])
  {
    var seg := PartSegment(now, tk, |group|);
    PartSegmentIsSegment(now, tk, |group|);
    MadeOfSnoc(st, tk, group, seg);
    SegmentsSnoc(group, seg, tk);
    Seqs.ConcatAssociative(before, group, [seg]);
  }

  /** The i-th token's segments are those it is cut into after the tokens before it. */
  ghost predicate PlacedAt(start: int, tks: seq<Token>, groups: seq<seq<Segment>>, i: nat)
    requires i < |tks| == |groups|
  {
    MadeOf(AfterGap(AfterTokens(start, tks[..i], groups[..i]), tks[i]), tks[i], groups[i])
  }

  /** The whole cutting, step by step: what every token's segments are and where they go. */
  ghost predicate Placed(start: int, tks: seq<Token>, groups: seq<seq<Segment>>, st: State) {
    && |groups| == |tks| && st == AfterTokens(start, tks, groups)
    && forall i: nat {:trigger PlacedAt(start, tks, groups, i)} :: i < |tks| ==> PlacedAt(start, tks, groups, i)
  }

  lemma {:induction false} PlacedSnoc(start: int, tks: seq<Token>, groups: seq<seq<Segment>>, st: State, tk: Token,
                                      group: seq<Segment>)
    requires Placed(start, tks, groups, st) && MadeOf(AfterGap(st, tk), tk, group)
    ensures Placed(start, tks + [tk], groups + [group], AfterToken(st, tk, group))
  {
    var ts, gs := tks + [tk], groups + [group];
    AfterTokensSnoc(start, tks, groups, tk, group);
    forall i: nat | i < |ts| ensures PlacedAt(start, ts, gs, i) {
      assert ts[..i] == tks[..i] && gs[..i] == groups[..i];
      assert i < |tks| ==> ts[i] == tks[i] && gs[i] == groups[i] && PlacedAt(start, tks, groups, i);
      assert tks[..|tks|] == tks && groups[..|tks|] == groups;
    }
  }

  /** The stream alone determines how it is cut. */
  lemma {:induction false} PlacedUnique(start: int, tks: seq<Token>, groups: seq<seq<Segment>>,
                                        others: seq<seq<Segment>>, st: State, end: State)
    requires GroupsOf(groups, tks) && Placed(start, tks, groups, st)
    requires GroupsOf(others, tks) && Placed(start, tks, others, end)
    ensures groups == others && st == end
  {
    PlacedSame(start, tks, groups, others, st, end, |tks|);
    assert groups[..|tks|] == groups && others[..|tks|] == others;
  }

  lemma {:induction false} PlacedSame(start: int, tks: seq<Token>, groups: seq<seq<Segment>>,
                                      others: seq<seq<Segment>>, st: State, end: State, n: nat)
    requires GroupsOf(groups, tks) && Placed(start, tks, groups, st)
    requires GroupsOf(others, tks) && Placed(start, tks, others, end)
    requires n <= |tks|
    ensures groups[..n] == others[..n]
  {
    if n > 0 {
      var i := n - 1;
      PlacedSame(start, tks, groups, others, st, end, i);
      assert PlacedAt(start, tks, groups, i) && PlacedAt(start, tks, others, i);
      assert Complete(groups[i], tks[i]) && Complete(others[i], tks[i]);
      MadeOfSame(AfterGap(AfterTokens(start, tks[..i], groups[..i]), tks[i]), tks[i], groups[i], others[i],
                 |groups[i]|);
      assert groups[i][..|groups[i]|] == groups[i] && others[i][..|groups[i]|] == others[i];
      assert groups[..n] == groups[..i] + [groups[i]] && others[..n] == others[..i] + [others[i]];
    }
  }

  lemma {:induction false} MadeOfSame(st: State, tk: Token, segs: seq<Segment>, others: seq<Segment>, n: nat)
    requires MadeOf(st, tk, segs) && MadeOf(st, tk, others) && n <= |segs| == |others|
    ensures segs[..n] == others[..n]
  {
    if n > 0 {
      MadeOfSame(st, tk, segs, others, n - 1);
      PartSame(st, tk, segs, others, n - 1);
      assert segs[..n] == segs[..n - 1] + [segs[n - 1]] && others[..n] == others[..n - 1] + [others[n - 1]];
    }
  }

  lemma {:induction false} PartSame(st: State, tk: Token, segs: seq<Segment>, others: seq<Segment>, i: nat)
    requires MadeOf(st, tk, segs) && MadeOf(st, tk, others) && i < |segs| == |others| && segs[..i] == others[..i]
    ensures segs[i] == others[i]
  {
    assert IsPart(st, tk, segs, i) && IsPart(st, tk, others, i);
  }

  /** The token for one part, on the given line; a bare line ending gets the next column. */
  method NewPart(tk: Token, parts: seq<string>, i: nat, isBlockScalarContent: bool, isMultiPart: bool,
                 lastContentPartIdx: int, isFirstContentPart: bool, line: int, nextColumn: int)
    returns (newTk: TokenData, stillFirst: bool)
    requires parts == Parts(tk.data.origin) && i < |parts|
    requires isBlockScalarContent == IsBlockScalar(tk) && isMultiPart == (|parts| > 1)
    requires isFirstContentPart <==> NoContentBefore(parts, i)
    requires IsLastContent(parts, lastContentPartIdx)
    ensures newTk == PartToken(tk, i, line, nextColumn)
    ensures stillFirst <==> NoContentBefore(parts, i + 1)
  {
    var part := parts[i];
    var partIsPureNewline := IsPureNewline(part);
    var col, val := nextColumn, "";
    var isLastContentPart := i == lastContentPartIdx;
    var shouldHaveValue := if isBlockScalarContent then isLastContentPart else isFirstContentPart;
    var wasFirstContentPart := isFirstContentPart && !partIsPureNewline;
    stillFirst := isFirstContentPart;
    if !partIsPureNewline {
      col, val := PartColumnAndValue(tk, isFirstContentPart, shouldHaveValue);
      stillFirst := false;
    }
    var tokenType := tk.data.typ;
    if IsPureHorizontalWhitespace(part) && val == "" && !isBlockScalarContent {
      tokenType := SpaceType;
    }
    var position := Some(TokenPosition(line, col));
    if isBlockScalarContent && isMultiPart && tk.data.position.Some? {
      var isFirstLinePosition := tk.data.position.value.column == 0;
      if (wasFirstContentPart && isFirstLinePosition) || (isLastContentPart && !isFirstLinePosition) {
        position := tk.data.position;
      }
    }
    var hasLeadingBlankLine := isMultiPart && |parts| > 1 && IsPureNewline(parts[0]);
    if hasLeadingBlankLine && wasFirstContentPart && tk.data.position.Some? {
      position := tk.data.position;
    }
    newTk := TokenData(tokenType, part, val, position);
  }

  /** Lines, and one being filled under the number `next`. */
  ghost predicate Sound(lines: seq<Line>, open: seq<Segment>, next: int, start: int, tks: seq<Token>) {
    && LinesShape(lines) && Open(open)
    && Explained(lines, start, tks) && NextOk(lines, next, start, tks)
    && LinesOnTime(lines) && OnTime(open, next)
  }

  /** Leaving the line being filled. */
  lemma {:induction false} SoundLeave(lines: seq<Line>, open: seq<Segment>, number: int, start: int, tks: seq<Token>)
    requires LinesShape(lines) && LineShape(open, number) && LinesOnTime(lines) && OnTime(open, number)
    requires Explained(lines, start, tks) && NextOk(lines, number, start, tks)
    ensures var all := lines + [Line(open, number, FlagDefault, [], [])];
            LinesShape(all) && LinesOnTime(all) && Explained(all, start, tks)
  {
    var line := Line(open, number, FlagDefault, [], []);
    ExplainedSnoc(lines, line, start, tks);
    ShapesSnoc(lines, line);
  }

  lemma {:induction false} ShapesSnoc(lines: seq<Line>, line: Line)
    requires LinesShape(lines) && LinesOnTime(lines) && LineShape(line.segments, line.number)
    requires OnTime(line.segments, line.number)
    ensures LinesShape(lines + [line]) && LinesOnTime(lines + [line])
  {
    var all := lines + [line];
    forall i: nat | i < |all| ensures LineShape(all[i].segments, all[i].number) {
      assert i < |lines| ==> all[i] == lines[i] && LineShape(lines[i].segments, lines[i].number);
    }
    forall i: nat | i < |all| ensures OnTime(all[i].segments, all[i].number) {
      assert i < |lines| ==> all[i] == lines[i] && OnTime(lines[i].segments, lines[i].number);
    }
  }

  lemma {:induction false} ShapesInit(lines: seq<Line>)
    requires lines != [] && LinesShape(lines) && LinesOnTime(lines)
    ensures LinesShape(lines[..|lines| - 1]) && LinesOnTime(lines[..|lines| - 1])
    ensures LineShape(lines[|lines| - 1].segments, lines[|lines| - 1].number)
    ensures OnTime(lines[|lines| - 1].segments, lines[|lines| - 1].number)
  {
    var init := lines[..|lines| - 1];
    forall i: nat | i < |init| ensures LineShape(init[i].segments, init[i].number) {
      assert LineShape(lines[i].segments, lines[i].number);
    }
    forall i: nat | i < |init| ensures OnTime(init[i].segments, init[i].number) {
      assert OnTime(lines[i].segments, lines[i].number);
    }
    assert LineShape(lines[|lines| - 1].segments, lines[|lines| - 1].number) &&
           OnTime(lines[|lines| - 1].segments, lines[|lines| - 1].number);
  }

  /** Adding a repeated line ending to the last line. */
  lemma {:induction false} SoundRegrow(lines: seq<Line>, seg: Segment, start: int, tks: seq<Token>)
    requires LinesShape(lines) && LinesOnTime(lines) && Explained(lines, start, tks)
    requires lines != [] && Broken(lines[|lines| - 1].segments) && Repeats(seg, lines[|lines| - 1].number)
    ensures var all := Regrown(lines, seg);
            LinesShape(all) && LinesOnTime(all) && Explained(all, start, tks) && Broken(all[|all| - 1].segments)
  {
    var n := |lines| - 1;
    var grown := lines[n].(segments := lines[n].segments + [seg]);
    ExplainedRegrown(lines, grown, start, tks);
    BrokenGrows(lines[n].segments, seg);
    ShapesInit(lines);
    OnTimeSnoc(lines[n].segments, seg, lines[n].number);
    ShapesSnoc(lines[..n], grown);
  }

  class LinesBuilder {
    var lines: seq<Line>
    var segments: seq<Segment>
    var currentLine: int
    var built: bool
    var prevEndedWithNewline: bool
    ghost const start: int
    ghost var tokens: seq<Token>
    ghost var groups: seq<seq<Segment>>

    /** Everything emitted so far, in order. */
    ghost function Emitted(): seq<Segment>
      reads this
    {
      AllSegments(lines) + segments
    }

    ghost function Now(): State
      reads this
    {
      State(lines, segments, currentLine, prevEndedWithNewline)
    }

    /** The shape of the lines, whatever token is being cut. */
    ghost predicate Wellformed()
      reads this
    {
      !built && Sound(lines, segments, currentLine, start, tokens)
    }

    /** The last line has ended. */
    ghost predicate Ended()
      reads this
    {
      segments == [] && lines != [] && Broken(lines[|lines| - 1].segments)
    }

    ghost predicate Valid()
      reads this
    {
      && Wellformed()
      && GroupsOf(groups, tokens) && Emitted() == Seqs.Concat(groups)
      && (prevEndedWithNewline ==> Ended())
    }

    constructor (tks: seq<Token>)
      requires tks != []
      ensures Valid() && tokens == []
      ensures start == StartLine(tks[0]) && Now() == State([], [], start, false) && groups == []
    {
      var line := 1;
      if tks[0].data.position.Some? {
        line := tks[0].data.position.value.line;
        var leadingNewlines := CountLeadingNewlines(tks[0].data.origin);
        if leadingNewlines > 0 && line > leadingNewlines {
          line := line - leadingNewlines;
        }
      }
      lines, segments, currentLine := [], [], line;
      built, prevEndedWithNewline := false, false;
      start, tokens, groups := line, [], [];
    }

    method AddToken(tk: Token) returns (ghost group: seq<Segment>)
      requires Valid()
      modifies this
      ensures Valid() && tokens == old(tokens) + [tk] && groups == old(groups) + [group]
      ensures MadeOf(AfterGap(old(Now()), tk), tk, group)
      ensures Now() == AfterToken(old(Now()), tk, group)
    {
      group := CutToken(tk);
      GroupsSnoc(groups, old(tokens), group, tk);
      Remember(tk.data.origin, group);
    }

    /** What is kept of a token: whether it ended a line. */
    method Remember(origin: string, ghost group: seq<Segment>)
      requires Wellformed() && (EndsWithNewline(origin) ==> Ended())
      requires GroupsOf(groups + [group], tokens) && Emitted() == Seqs.Concat(groups + [group])
      modifies this`prevEndedWithNewline, this`groups
      ensures Valid() && groups == old(groups) + [group]
      ensures Now() == old(Now()).(prevEnded := EndsWithNewline(origin))
    {
      prevEndedWithNewline := EndsWithNewline(origin);
      groups := groups + [group];
    }

    /** Puts a token's parts where they belong. */
    method CutToken(tk: Token) returns (ghost group: seq<Segment>)
      requires Wellformed() && (prevEndedWithNewline ==> Ended())
      modifies this`lines, this`segments, this`currentLine, this`tokens
      ensures Wellformed() && tokens == old(tokens) + [tk] && Complete(group, tk)
      ensures Emitted() == old(Emitted()) + group
      ensures EndsWithNewline(tk.data.origin) ==> Ended()
      ensures MadeOf(AfterGap(old(Now()), tk), tk, group)
      ensures Now() == AfterSegments(AfterGap(old(Now()), tk), tk, group)
    {
      var isBlockScalarContent := IsBlockScalarContent(tk);
      var origin := tk.data.origin;
      ReadToken(tk);
      HandleGap(tk, origin);
      var parts := SplitOriginIntoParts(origin);
      LastPartEnds(origin);
      group := AddParts(tk, parts, isBlockScalarContent);
    }

    /** One more token to explain the lines with. */
    ghost method ReadToken(tk: Token)
      requires Wellformed()
      modifies this`tokens
      ensures Wellformed() && tokens == old(tokens) + [tk]
    {
      ExplainedStays(lines, start, tokens, tk);
      NextOkStays(lines, currentLine, start, tokens, tk);
      tokens := tokens + [tk];
    }

    method AddParts(tk: Token, parts: seq<string>, isBlockScalarContent: bool) returns (ghost group: seq<Segment>)
      requires Wellformed() && parts == Parts(tk.data.origin) && parts != []
      requires isBlockScalarContent == IsBlockScalar(tk)
      requires InTime(tk, currentLine, segments == []) && (prevEndedWithNewline ==> Ended())
      modifies this`lines, this`segments, this`currentLine
      ensures Wellformed() && Complete(group, tk) && Emitted() == old(Emitted()) + group
      ensures EndsWithNewline(parts[|parts| - 1]) ==> Ended()
      ensures MadeOf(old(Now()), tk, group) && Now() == AfterSegments(old(Now()), tk, group)
    {
      var isMultiPart := |parts| > 1;
      var lastContentPartIdx := FindLastContentPartIndex(parts);
      var isFirstContentPart := true;
      ghost var before, st := Emitted(), Now();
      group := [];
      for i := 0 to |parts|
        invariant Wellformed()
        invariant isFirstContentPart <==> NoContentBefore(parts, i)
        invariant i == 0 ==> InTime(tk, currentLine, segments == []) && (prevEndedWithNewline ==> Ended())
        invariant i > 0 && EndsWithNewline(parts[i - 1]) ==> Ended()
        invariant |group| == i && PartsPlaced(st, tk, group, Now(), before, Emitted())
      {
        isFirstContentPart, group := AddPart(tk, parts, i, isBlockScalarContent, isMultiPart, lastContentPartIdx,
                                             isFirstContentPart, st, before, group);
      }
    }

    /** One more part, after those in `group`. */
    method AddPart(tk: Token, parts: seq<string>, i: nat, isBlockScalarContent: bool, isMultiPart: bool,
                   lastContentPartIdx: int, isFirstContentPart: bool,
                   ghost st: State, ghost before: seq<Segment>, ghost group: seq<Segment>)
      returns (stillFirst: bool, ghost grown: seq<Segment>)
      requires Wellformed() && parts == Parts(tk.data.origin) && i < |parts|
      requires isBlockScalarContent == IsBlockScalar(tk) && isMultiPart == (|parts| > 1)
      requires isFirstContentPart <==> NoContentBefore(parts, i)
      requires IsLastContent(parts, lastContentPartIdx)
      requires i == 0 ==> InTime(tk, currentLine, segments == []) && (prevEndedWithNewline ==> Ended())
      requires |group| == i && PartsPlaced(st, tk, group, Now(), before, Emitted())
      modifies this`lines, this`segments, this`currentLine
      ensures Wellformed() && (EndsWithNewline(parts[i]) ==> Ended())
      ensures stillFirst <==> NoContentBefore(parts, i + 1)
      ensures |grown| == i + 1 && PartsPlaced(st, tk, grown, Now(), before, Emitted())
    {
      PartsPlacedSnoc(st, tk, group, Now(), before, Emitted());
      grown := group + [PartSegment(Now(), tk, i)];
      stillFirst := ProcessPart(tk, parts, i, isBlockScalarContent, isMultiPart, lastContentPartIdx,
                                isFirstContentPart);
    }

    /** Leaves a line when the token is at least two lines ahead, and moves on to the
        token's line when nothing is being filled. */
    method HandleGap(tk: Token, origin: string)
      requires Wellformed() && origin == tk.data.origin && tk in tokens
      modifies this`lines, this`segments, this`currentLine
      ensures Wellformed() && Emitted() == old(Emitted())
      ensures InTime(tk, currentLine, segments == [])
      ensures old(Ended()) ==> Ended()
      ensures Now() == AfterGap(old(Now()), tk)
    {
      var newlineCount := CountNewlines(origin);
      var isSimple := newlineCount == 0 || (newlineCount == 1 && EndsWithNewline(origin));
      if !isSimple {
        return;
      }
      var tkLine := currentLine;
      if tk.data.position.Some? {
        tkLine := tk.data.position.value.line;
        assert IsOn(tk, tkLine) && IsLineOf(tkLine, tokens);
      }
      if tkLine > currentLine + 1 && |segments| > 0 {
        PushLine();
      }
      if |segments| == 0 && tkLine > currentLine {
        currentLine := tkLine;
      }
    }

    /** Stores the line being filled under the current number. */
    method PushLine()
      requires LinesShape(lines) && LineShape(segments, currentLine) && LinesOnTime(lines)
      requires OnTime(segments, currentLine)
      requires Explained(lines, start, tokens) && NextOk(lines, currentLine, start, tokens)
      modifies this`lines, this`segments
      ensures segments == [] && lines == old(lines) + [Line(old(segments), currentLine, FlagDefault, [], [])]
      ensures Emitted() == old(Emitted())
      ensures LinesShape(lines) && LinesOnTime(lines) && Explained(lines, start, tokens)
    {
      var line := Line(segments, currentLine, FlagDefault, [], []);
      AllSegmentsSnoc(lines, line);
      SoundLeave(lines, segments, currentLine, start, tokens);
      lines := lines + [line];
      segments := [];
    }

    /** Puts a segment on the line being filled, and closes the line at a line feed. */
    method AppendSegment(seg: Segment)
      requires Wellformed() && InTime(seg.source, currentLine, segments == [])
      modifies this`lines, this`segments, this`currentLine
      ensures Wellformed() && Emitted() == old(Emitted()) + [seg]
      ensures Ends(seg) ==> Ended()
      ensures Now() == AfterAppend(old(Now()), seg)
    {
      OnTimeSnoc(segments, seg, currentLine);
      segments := segments + [seg];
      if EndsWithNewline(seg.part.origin) {
        BrokenGrows(old(segments), seg);
        PushLine();
        currentLine := currentLine + 1;
      }
    }

    /** Puts a repeated line ending on the line closed last. */
    method AppendToLastLine(seg: Segment)
      requires Wellformed() && Ended() && Repeats(seg, lines[|lines| - 1].number)
      modifies this`lines
      ensures Wellformed() && Ended() && Emitted() == old(Emitted()) + [seg]
      ensures lines == Regrown(old(lines), seg)
    {
      var n := |lines| - 1;
      var last := lines[n];
      AllSegmentsSnoc(lines[..n], last);
      assert lines == lines[..n] + [last];
      var grown := last.(segments := last.segments + [seg]);
      AllSegmentsSnoc(lines[..n], grown);
      SoundRegrow(lines, seg, start, tokens);
      lines := lines[..n] + [grown];
    }

    method ProcessPart(tk: Token, parts: seq<string>, i: nat, isBlockScalarContent: bool, isMultiPart: bool,
                       lastContentPartIdx: int, isFirstContentPart: bool)
      returns (stillFirst: bool)
      requires Wellformed() && parts == Parts(tk.data.origin) && i < |parts|
      requires isBlockScalarContent == IsBlockScalar(tk) && isMultiPart == (|parts| > 1)
      requires isFirstContentPart <==> NoContentBefore(parts, i)
      requires IsLastContent(parts, lastContentPartIdx)
      requires i == 0 ==> InTime(tk, currentLine, segments == []) && (prevEndedWithNewline ==> Ended())
      modifies this`lines, this`segments, this`currentLine
      ensures Wellformed() && Emitted() == old(Emitted()) + [PartSegment(old(Now()), tk, i)]
      ensures EndsWithNewline(parts[i]) ==> Ended()
      ensures stillFirst <==> NoContentBefore(parts, i + 1)
      ensures Now() == AfterSegment(old(Now()), tk, i == 0, PartSegment(old(Now()), tk, i))
    {
      SimpleIsOnePart(tk.data.origin);
      ghost var st, seg := Now(), PartSegment(Now(), tk, i);
      var part := parts[i];
      var partIsPureNewline := IsPureNewline(part);
      var isDuplicateNewline := i == 0 && partIsPureNewline && prevEndedWithNewline
        && tk.data.position.Some? && currentLine == tk.data.position.value.line;
      assert isDuplicateNewline && |lines| > 0 <==> IsDuplicate(st, tk, i == 0, part);
      if isDuplicateNewline && |lines| > 0 {
        var column := NextColumn(lines[|lines| - 1].segments) + 1;
        var newSeg := NewSegment(tk, TokenData(tk.data.typ, part, "", Some(TokenPosition(currentLine - 1, column))));
        assert newSeg == seg;
        AppendToLastLine(newSeg);
        return isFirstContentPart;
      }
      var newTk;
      newTk, stillFirst := NewPart(tk, parts, i, isBlockScalarContent, isMultiPart, lastContentPartIdx,
                                   isFirstContentPart, currentLine, NextColumn(segments) + 1);
      var newSeg := NewSegment(tk, newTk);
      assert newSeg == seg;
      AppendSegment(newSeg);
    }

    method Build() returns (result: seq<Line>)
      requires Valid()
      modifies this`lines, this`built
      ensures LinesShape(result) && NumbersIncrease(result, start)
      ensures Explained(result, start, tokens) && LinesOnTime(result)
      ensures AllSegments(result) == Seqs.Concat(groups)
      ensures lines == result == Built(old(Now())) && built
    {
      if |segments| > 0 {
        var line := Line(segments, currentLine, FlagDefault, [], []);
        AllSegmentsSnoc(lines, line);
        SoundLeave(lines, segments, currentLine, start, tokens);
        lines := lines + [line];
      }
      ExplainedIncreases(lines, start, tokens);
      built := true;
      result := lines;
    }
  }

  // ----- the whole stream -----

  /** The lines are a cutting of the tokens: one group of segments per token, in order. */
  ghost predicate CutFrom(lines: seq<Line>, tks: seq<Token>, groups: seq<seq<Segment>>) {
    GroupsOf(groups, tks) && AllSegments(lines) == Seqs.Concat(groups)
  }

  method AddTokens(b: LinesBuilder, tks: seq<Token>)
    requires b.Valid() && b.tokens == [] && b.groups == [] && b.Now() == State([], [], b.start, false)
    modifies b
    ensures b.Valid() && b.tokens == tks && Placed(b.start, tks, b.groups, b.Now())
  {
    ghost var start, groups, st := b.start, b.groups, b.Now();
    for i := 0 to |tks|
      invariant b.Valid() && b.tokens == tks[..i]
      invariant groups == b.groups && st == b.Now() && Placed(start, tks[..i], groups, st)
    {
      ghost var group := b.AddToken(tks[i]);
      PlacedSnoc(start, tks[..i], groups, st, tks[i], group);
      assert tks[..i + 1] == tks[..i] + [tks[i]];
      groups, st := groups + [group], b.Now();
    }
    assert tks[..|tks|] == tks;
  }

  method NewLines(tks: seq<Token>) returns (lines: seq<Line>, ghost groups: seq<seq<Segment>>)
    ensures CutFrom(lines, tks, groups) && LinesShape(lines) && LinesOnTime(lines)
    ensures tks != [] ==> lines == Built(AfterTokens(StartLine(tks[0]), tks, groups))
    ensures tks != [] ==> Placed(StartLine(tks[0]), tks, groups, AfterTokens(StartLine(tks[0]), tks, groups))
    ensures tks != [] ==> Explained(lines, StartLine(tks[0]), tks)
    ensures tks != [] && (tks[0].data.position.Some? ==> tks[0].data.position.value.line >= 1) ==>
            NumbersIncrease(lines, 1)
    ensures tks == [] ==> lines == []
    ensures forall i, j :: 0 <= i < j < |lines| ==> lines[i].number < lines[j].number
  {
    groups := [];
    if |tks| == 0 {
      lines := [];
      assert SegmentsOf(lines) == [];
      return;
    }
    var b := new LinesBuilder(tks);
    AddTokens(b, tks);
    groups := b.groups;
    lines := b.Build();
  }

  // ----- round trip and conservation -----

  function Origins(segs: seq<Segment>): seq<string> {
    seq(|segs|, i requires 0 <= i < |segs| => segs[i].part.origin)
  }

  function TokenOrigins(tks: seq<Token>): seq<string> {
    seq(|tks|, i requires 0 <= i < |tks| => tks[i].data.origin)
  }

  lemma {:induction false} GroupsPrefix(groups: seq<seq<Segment>>, tks: seq<Token>)
    requires GroupsOf(groups, tks) && groups != []
    ensures GroupsOf(groups[..|groups| - 1], tks[..|tks| - 1])
    ensures Complete(groups[|groups| - 1], tks[|tks| - 1])
  {
    var n := |groups| - 1;
    assert Complete(groups[n], tks[n]);
    forall i: nat | i < n ensures Complete(groups[..n][i], tks[..n][i]) {
      assert Complete(groups[i], tks[i]);
    }
  }

  lemma {:induction false} GroupConserves(group: seq<Segment>, tk: Token)
    requires Complete(group, tk)
    ensures Seqs.Concat(Origins(group)) == tk.data.origin
  {
    PartsAreLines(tk.data.origin);
    forall i | 0 <= i < |group| ensures Origins(group)[i] == Parts(tk.data.origin)[i] {
      assert SegmentOf(group[i], tk, i);
    }
    assert Origins(group) == Parts(tk.data.origin);
  }

  lemma {:induction false} OriginsAppend(a: seq<Segment>, b: seq<Segment>)
    ensures Seqs.Concat(Origins(a + b)) == Seqs.Concat(Origins(a)) + Seqs.Concat(Origins(b))
  {
    assert Origins(a + b) == Origins(a) + Origins(b);
    Seqs.ConcatAppend(Origins(a), Origins(b));
  }

  lemma {:induction false} TokenOriginsSnoc(tks: seq<Token>)
    requires tks != []
    ensures Seqs.Concat(TokenOrigins(tks)) == Seqs.Concat(TokenOrigins(tks[..|tks| - 1])) + tks[|tks| - 1].data.origin
  {
    assert TokenOrigins(tks) == TokenOrigins(tks[..|tks| - 1]) + [tks[|tks| - 1].data.origin];
    Seqs.ConcatSnoc(TokenOrigins(tks[..|tks| - 1]), tks[|tks| - 1].data.origin);
  }

  /** No character of the source is lost, added or moved. */
  lemma {:induction false} CutConserves(groups: seq<seq<Segment>>, tks: seq<Token>)
    requires GroupsOf(groups, tks)
    ensures Seqs.Concat(Origins(Seqs.Concat(groups))) == Seqs.Concat(TokenOrigins(tks))
  {
    if groups != [] {
      var n := |groups| - 1;
      GroupsPrefix(groups, tks);
      CutConserves(groups[..n], tks[..n]);
      OriginsAppend(Seqs.Concat(groups[..n]), groups[n]);
      GroupConserves(groups[n], tks[n]);
      TokenOriginsSnoc(tks);
    }
  }

  lemma {:induction false} SourcesAppend(a: seq<Segment>, b: seq<Segment>)
    ensures Sources(a + b) == Sources(a) + Sources(b)
  {
    if b == [] {
      assert a + b == a;
    } else {
      SourcesAppend(a, b[..|b| - 1]);
      assert (a + b)[..|a + b| - 1] == a + b[..|b| - 1];
    }
  }

  lemma {:induction false} GroupSources(group: seq<Segment>, tk: Token)
    requires Complete(group, tk)
    ensures group != [] && Sources(group) == Seqs.Repeat(tk, |group|)
  {
    PartsAreLines(tk.data.origin);
    forall k | 0 <= k < |group| ensures Sources(group)[k] == tk {
      SourcesAt(group, k);
      assert SegmentOf(group[k], tk, k);
    }
  }

  /** The same tokens up to repetition, with the same last one. */
  ghost predicate SameRuns(a: seq<Token>, b: seq<Token>) {
    Dedup(a) == Dedup(b) && (a == [] <==> b == []) && (a != [] ==> a[|a| - 1] == b[|b| - 1])
  }

  lemma {:induction false} SameRunsGrow(a: seq<Token>, b: seq<Token>, tk: Token, n: nat)
    requires SameRuns(a, b) && n > 0
    ensures SameRuns(a + Seqs.Repeat(tk, n), b + [tk])
  {
    DedupRepeats(a, tk, n);
    assert (a + [tk])[..|a|] == a && (b + [tk])[..|b|] == b;
  }

  lemma {:induction false} GroupRecovers(segs: seq<Segment>, tks: seq<Token>, group: seq<Segment>, tk: Token)
    requires SameRuns(Sources(segs), tks) && SegmentsUpTo(group, tk, |Parts(tk.data.origin)|)
    ensures SameRuns(Sources(segs + group), tks + [tk])
  {
    SourcesAppend(segs, group);
    GroupSources(group, tk);
    SameRunsGrow(Sources(segs), tks, tk, |group|);
  }

  /** Collapsing the sources of the segments is collapsing the token list itself. */
  lemma {:induction false} CutRecovers(groups: seq<seq<Segment>>, tks: seq<Token>)
    requires GroupsOf(groups, tks)
    ensures SameRuns(Sources(Seqs.Concat(groups)), tks)
  {
    if groups != [] {
      var n := |groups| - 1;
      var tks', tk := tks[..n], tks[n];
      assert tks == tks' + [tk];
      GroupsPrefix(groups, tks);
      CutRecovers(groups[..n], tks');
      GroupRecovers(Seqs.Concat(groups[..n]), tks', groups[n], tk);
    }
  }

  /** Reading the tokens back returns the stream exactly when no token in it directly
      follows itself. */
  lemma {:induction false} RoundTrip(lines: seq<Line>, tks: seq<Token>, groups: seq<seq<Segment>>)
    requires CutFrom(lines, tks, groups)
    ensures Datas(Dedup(Sources(AllSegments(lines)))) == Datas(tks) <==> NoNeighboursSame(tks)
    ensures Seqs.Concat(Origins(AllSegments(lines))) == Seqs.Concat(TokenOrigins(tks))
  {
    CutRecovers(groups, tks);
    CutConserves(groups, tks);
    DedupLossless(tks);
    assert |Datas(Dedup(tks))| == |Dedup(tks)| && |Datas(tks)| == |tks|;
  }

  /** A stream cut into lines and read back: the data of the first token of every run, in order,
      which is all of the stream when no token directly follows itself. */
  method CutAndRead(tks: seq<Token>) returns (lines: seq<Line>, result: seq<TokenData>, ghost idx: seq<nat>)
    ensures RunStarts(tks, idx) && |result| == |idx|
    ensures forall j :: 0 <= j < |idx| ==> idx[j] < |tks| && result[j] == tks[idx[j]].data
    ensures (forall i :: 0 <= i < |tks| - 1 ==> tks[i] != tks[i + 1]) ==>
              |result| == |tks| && forall i :: 0 <= i < |tks| ==> result[i] == tks[i].data
  {
    ghost var groups, firsts;
    lines, groups := NewLines(tks);
    result, firsts := TokensOf(lines);
    CutRecovers(groups, tks);
    idx := DedupKeepsFirsts(tks);
    DedupLossless(tks);
  }

  /** It does happen: of a token that is there twice in a row one is lost. */
  lemma {:induction false} RepeatedTokenLost(t: Token, lines: seq<Line>, groups: seq<seq<Segment>>)
    requires CutFrom(lines, [t, t], groups)
    ensures Datas(Dedup(Sources(AllSegments(lines)))) == [t.data]
  {
    CutRecovers(groups, [t, t]);
    assert [t, t][..1] == [t] && [t][..0] == [];
    assert Dedup([t, t]) == Dedup([t]) == [t];
  }

  // ----- line structure -----

  lemma {:induction false} ContentWithoutNewline(segs: seq<Segment>)
    requires forall i :: 0 <= i < |segs| ==> OnlyFinalNewline(segs[i].part.origin)
    ensures '\n' !in ContentOf(segs)
  {
    if segs != [] {
      ContentWithoutNewline(segs[..|segs| - 1]);
    }
  }

  /** No line's content contains a line feed. */
  lemma {:induction false} NoNewlineInContent(lines: seq<Line>, tks: seq<Token>, groups: seq<seq<Segment>>, i: nat)
    requires CutFrom(lines, tks, groups) && i < |lines|
    ensures '\n' !in lines[i].Content()
  {
    forall k | 0 <= k < |lines[i].segments| ensures OnlyFinalNewline(lines[i].segments[k].part.origin) {
      var seg := lines[i].segments[k];
      Seqs.ElementOfConcat(SegmentsOf(lines), i, seg);
      var g := Seqs.ConcatElement(groups, seg);
      var j :| 0 <= j < |groups[g]| && groups[g][j] == seg;
      assert Complete(groups[g], tks[g]) && SegmentOf(groups[g][j], tks[g], j);
      PartsAreLines(tks[g].data.origin);
    }
    ContentWithoutNewline(lines[i].segments);
  }

  /** A token with content has its value on exactly one of its segments, and nothing on
      the others: the last content part of a block scalar, else the first. */
  lemma {:induction false} ValueOnExactlyOneSegment(group: seq<Segment>, tk: Token)
    requires Complete(group, tk)
    requires HasContent(Parts(tk.data.origin)) && tk.data.value != ""
    ensures exists i :: 0 <= i < |group| && CarriesValue(Parts(tk.data.origin), IsBlockScalar(tk), i)
                        && group[i].part.value == tk.data.value
                        && forall k :: 0 <= k < |group| && k != i ==> group[k].part.value == ""
  {
    var parts := Parts(tk.data.origin);
    ExactlyOneCarriesValue(parts, IsBlockScalar(tk));
    var i :| 0 <= i < |parts| && CarriesValue(parts, IsBlockScalar(tk), i)
             && forall k :: 0 <= k < |parts| && CarriesValue(parts, IsBlockScalar(tk), k) ==> k == i;
    assert SegmentOf(group[i], tk, i);
    forall k | 0 <= k < |group| && k != i ensures group[k].part.value == "" {
      assert SegmentOf(group[k], tk, k);
    }
  }
}
