/** Lines of segments and what can be read off them. */
module Lines {
  import opened Position
  import opened Tokens
  import Seqs

  datatype Flag = FlagDefault | FlagInserted | FlagDeleted

  /** A style kind: the name under which a style sheet keeps a style. */
  type Kind = nat

  datatype Overlay = Overlay(kind: Kind, cols: Span)

  /** A hunk header stands for its text: the four numbers printed in it. */
  datatype AnnotationText = Text(text: string) | HunkHeader(fromLine: int, fromCount: int, toLine: int, toCount: int)

  datatype Annotation = Annotation(content: AnnotationText, above: bool, col: int)

  datatype Line = Line(segments: seq<Segment>, number: int, flag: Flag, overlays: seq<Overlay>,
                       annotations: seq<Annotation>) {
    /** The stored number; only a line without one asks its first segment. */
    function Number(): (n: int)
      ensures number != 0 ==> n == number
      ensures number == 0 ==>
                n == if segments != [] && segments[0].part.position.Some?
                     then segments[0].part.position.value.line
                     else 0
    {
      if number != 0 then number
      else if segments == [] then 0
      else match segments[0].part.position
        case Some(p) => p.line
        case None => 0
    }

    function Content(): string {
      ContentOf(segments)
    }
  }

  const EmptyLine := Line([], 0, FlagDefault, [], [])

  function ContentOf(segs: seq<Segment>): string {
    if segs == [] then ""
    else ContentOf(segs[..|segs| - 1]) + TrimSuffix(TrimSuffix(segs[|segs| - 1].part.origin, '\n'), '\r')
  }

  /** The text is all of the origin but one line ending: a line feed, a carriage return, or both. */
  ghost predicate Stripped(text: string, origin: string) {
    || origin == text + "\r\n"
    || (origin == text + "\n" && (text != "" ==> text[|text| - 1] != '\r'))
    || origin == text + "\r"
    || (origin == text && (text != "" ==> text[|text| - 1] != '\n' && text[|text| - 1] != '\r'))
  }

  lemma {:induction false} StripsEnding(origin: string)
    ensures Stripped(TrimSuffix(TrimSuffix(origin, '\n'), '\r'), origin)
  {
    var text := TrimSuffix(origin, '\n');
    var last := TrimSuffix(text, '\r');
    TrimSuffixExact(origin, '\n');
    TrimSuffixExact(text, '\r');
    if origin == text + ['\n'] && text == last + ['\r'] {
      assert origin == last + "\r\n";
    }
  }

  /** A line's content is the texts of its segments, one after the other. */
  lemma {:induction false} ContentIsStripped(segs: seq<Segment>) returns (texts: seq<string>)
    ensures |texts| == |segs| && ContentOf(segs) == Seqs.Concat(texts)
    ensures forall i :: 0 <= i < |segs| ==> Stripped(texts[i], segs[i].part.origin)
  {
    texts := [];
    if segs != [] {
      var n := |segs| - 1;
      var last := TrimSuffix(TrimSuffix(segs[n].part.origin, '\n'), '\r');
      var before := ContentIsStripped(segs[..n]);
      StripsEnding(segs[n].part.origin);
      texts := before + [last];
      Seqs.ConcatSnoc(before, last);
    }
  }

  method BuildContent(line: Line) returns (content: string)
    ensures content == line.Content()
  {
    content := "";
    for i := 0 to |line.segments|
      invariant content == ContentOf(line.segments[..i])
    {
      var origin := TrimSuffix(line.segments[i].part.origin, '\n');
      origin := TrimSuffix(origin, '\r');
      content := content + origin;
      assert line.segments[..i + 1][..i] == line.segments[..i];
    }
    assert line.segments[..|line.segments|] == line.segments;
  }

  function SegmentsOf(lines: seq<Line>): seq<seq<Segment>> {
    seq(|lines|, i requires 0 <= i < |lines| => lines[i].segments)
  }

  function AllSegments(lines: seq<Line>): seq<Segment> {
    Seqs.Concat(SegmentsOf(lines))
  }

  lemma {:induction false} AllSegmentsSnoc(lines: seq<Line>, line: Line)
    ensures AllSegments(lines + [line]) == AllSegments(lines) + line.segments
  {
    assert SegmentsOf(lines + [line]) == SegmentsOf(lines) + [line.segments];
    Seqs.ConcatSnoc(SegmentsOf(lines), line.segments);
  }

  /** Reconstructs the token stream the lines were made from. */
  method TokensOf(lines: seq<Line>) returns (result: seq<TokenData>, ghost idx: seq<nat>)
    ensures result == Datas(Dedup(Sources(AllSegments(lines))))
    ensures var segs := AllSegments(lines);
            && RunStarts(Sources(segs), idx) && |result| == |idx|
            && forall j :: 0 <= j < |idx| ==> idx[j] < |segs| && result[j] == segs[idx[j]].source.data
  {
    var combined: seq<Segment> := [];
    for i := 0 to |lines|
      invariant combined == AllSegments(lines[..i])
    {
      AllSegmentsSnoc(lines[..i], lines[i]);
      assert lines[..i + 1] == lines[..i] + [lines[i]];
      combined := combined + lines[i].segments;
    }
    assert lines[..|lines|] == lines;
    result, idx := SourceTokens(combined);
  }

  // ----- validation -----

  datatype ValidateError =
    | LineNumberNotIncreasing(index: nat)
    | LineNumberMismatch(index: nat, token: nat)
    | ColumnNotIncreasing(index: nat, token: nat)

  /** The last number given to a line before the i-th, or 0. */
  function PrevNumber(lines: seq<Line>, i: nat): int
    requires i <= |lines|
  {
    if i == 0 then 0
    else if lines[i - 1].Number() != 0 then lines[i - 1].Number()
    else PrevNumber(lines, i - 1)
  }

  predicate NumberOk(lines: seq<Line>, i: nat)
    requires i < |lines|
  {
    lines[i].Number() == 0 || lines[i].Number() > PrevNumber(lines, i)
  }

  /** The first complaint about the tokens of the line at index, from the j-th on. */
  function TokenError(segs: seq<Segment>, index: nat, j: nat, expectedLine: int, prevCol: int): Option<ValidateError>
    requires j <= |segs|
    decreases |segs| - j
  {
    if j == |segs| then None
    else match segs[j].part.position
      case None => TokenError(segs, index, j + 1, expectedLine, prevCol)
      case Some(p) =>
        if expectedLine != -1 && p.line != expectedLine then Some(LineNumberMismatch(index, j))
        else if segs[j].part.origin == "" then TokenError(segs, index, j + 1, p.line, prevCol)
        else if p.column <= prevCol then Some(ColumnNotIncreasing(index, j))
        else TokenError(segs, index, j + 1, p.line, p.column)
  }

  function LineError(lines: seq<Line>, i: nat): Option<ValidateError>
    requires i < |lines|
  {
    if !NumberOk(lines, i) then Some(LineNumberNotIncreasing(i))
    else TokenError(lines[i].segments, i, 0, -1, 0)
  }

  /** Numbers are not negative, and those that are given increase. */
  ghost predicate NumbersRise(lines: seq<Line>, n: nat)
    requires n <= |lines|
  {
    && (forall b :: 0 <= b < n ==> lines[b].Number() >= 0)
    && (forall a, b :: 0 <= a < b < n && lines[a].Number() != 0 && lines[b].Number() != 0 ==>
          lines[a].Number() < lines[b].Number())
  }

  /** No two of the first n parts say to be on different lines; -1 does not say. */
  ghost predicate OnOneLine(segs: seq<Segment>, n: nat)
    requires n <= |segs|
  {
    forall a, b :: 0 <= a < b < n && segs[a].part.position.Some? && segs[b].part.position.Some? ==>
      var line := segs[a].part.position.value.line;
      line == -1 || line == segs[b].part.position.value.line
  }

  /** The part has a column and takes room. */
  predicate TakesRoom(seg: Segment) {
    seg.part.position.Some? && seg.part.origin != ""
  }

  /** The columns of the first n parts, as far as they take room, are positive and increase. */
  ghost predicate ColumnsRise(segs: seq<Segment>, n: nat)
    requires n <= |segs|
  {
    && (forall b :: 0 <= b < n && TakesRoom(segs[b]) ==> segs[b].part.position.value.column > 0)
    && (forall a, b :: 0 <= a < b < n && TakesRoom(segs[a]) && TakesRoom(segs[b]) ==>
          segs[a].part.position.value.column < segs[b].part.position.value.column)
  }

  ghost predicate TokensFit(segs: seq<Segment>, n: nat)
    requires n <= |segs|
  {
    OnOneLine(segs, n) && ColumnsRise(segs, n)
  }

  /** Nothing is wrong with the first n lines. */
  ghost predicate LinesFit(lines: seq<Line>, n: nat)
    requires n <= |lines|
  {
    NumbersRise(lines, n) && forall i :: 0 <= i < n ==> TokensFit(lines[i].segments, |lines[i].segments|)
  }

  /** The complaint is about the first thing that is wrong, and none means that nothing is. */
  ghost predicate Justified(lines: seq<Line>, err: Option<ValidateError>) {
    match err
    case None => LinesFit(lines, |lines|)
    case Some(LineNumberNotIncreasing(i)) => i < |lines| && LinesFit(lines, i) && !NumbersRise(lines, i + 1)
    case Some(LineNumberMismatch(i, j)) =>
      && i < |lines| && LinesFit(lines, i) && NumbersRise(lines, i + 1)
      && j < |lines[i].segments| && TokensFit(lines[i].segments, j) && !OnOneLine(lines[i].segments, j + 1)
    case Some(ColumnNotIncreasing(i, j)) =>
      && i < |lines| && LinesFit(lines, i) && NumbersRise(lines, i + 1)
      && j < |lines[i].segments| && TokensFit(lines[i].segments, j)
      && OnOneLine(lines[i].segments, j + 1) && !ColumnsRise(lines[i].segments, j + 1)
  }

  lemma {:induction false} PrevNumberIsLargest(lines: seq<Line>, i: nat)
    requires i <= |lines| && NumbersRise(lines, i)
    ensures forall a :: 0 <= a < i ==> lines[a].Number() <= PrevNumber(lines, i)
    ensures PrevNumber(lines, i) == 0 || exists a :: 0 <= a < i && lines[a].Number() == PrevNumber(lines, i)
  {
    if i > 0 {
      PrevNumberIsLargest(lines, i - 1);
    }
  }

  lemma {:induction false} NumberOkExact(lines: seq<Line>, i: nat)
    requires i < |lines| && NumbersRise(lines, i)
    ensures NumberOk(lines, i) <==> NumbersRise(lines, i + 1)
  {
    PrevNumberIsLargest(lines, i);
  }

  /** What is expected of the line: that of any part before, as far as they say. */
  ghost predicate Expects(segs: seq<Segment>, j: nat, expectedLine: int)
    requires j <= |segs|
  {
    && (forall a :: 0 <= a < j && segs[a].part.position.Some? ==>
          segs[a].part.position.value.line == -1 || segs[a].part.position.value.line == expectedLine)
    && (expectedLine != -1 ==>
          exists a :: 0 <= a < j && segs[a].part.position.Some? && segs[a].part.position.value.line == expectedLine)
  }

  /** The largest column so far. */
  ghost predicate Reached(segs: seq<Segment>, j: nat, prevCol: int)
    requires j <= |segs|
  {
    && (forall a :: 0 <= a < j && TakesRoom(segs[a]) ==> segs[a].part.position.value.column <= prevCol)
    && (prevCol == 0 || exists a :: 0 <= a < j && TakesRoom(segs[a]) && segs[a].part.position.value.column == prevCol)
  }

  lemma {:induction false} OnOneLineNext(segs: seq<Segment>, j: nat, expectedLine: int)
    requires j < |segs| && OnOneLine(segs, j) && Expects(segs, j, expectedLine)
    ensures match segs[j].part.position
            case None => OnOneLine(segs, j + 1) && Expects(segs, j + 1, expectedLine)
            case Some(p) =>
              if expectedLine != -1 && p.line != expectedLine then !OnOneLine(segs, j + 1)
              else OnOneLine(segs, j + 1) && Expects(segs, j + 1, p.line)
  {
  }

  lemma {:induction false} ColumnsRiseNext(segs: seq<Segment>, j: nat, prevCol: int)
    requires j < |segs| && ColumnsRise(segs, j) && Reached(segs, j, prevCol) && prevCol >= 0
    ensures if !TakesRoom(segs[j]) then ColumnsRise(segs, j + 1) && Reached(segs, j + 1, prevCol)
            else
              var col := segs[j].part.position.value.column;
              if col <= prevCol then !ColumnsRise(segs, j + 1)
              else ColumnsRise(segs, j + 1) && Reached(segs, j + 1, col)
  {
  }

  /** What a complaint about the tokens of one line says. */
  ghost predicate TokensJustified(segs: seq<Segment>, index: nat, err: Option<ValidateError>) {
    match err
    case None => TokensFit(segs, |segs|)
    case Some(LineNumberMismatch(i, j)) =>
      i == index && j < |segs| && TokensFit(segs, j) && !OnOneLine(segs, j + 1)
    case Some(ColumnNotIncreasing(i, j)) =>
      i == index && j < |segs| && TokensFit(segs, j) && OnOneLine(segs, j + 1) && !ColumnsRise(segs, j + 1)
    case _ => false
  }

  /** Nothing is wrong with the first j parts, and this is what they lead to expect. */
  ghost predicate Progress(segs: seq<Segment>, j: nat, expectedLine: int, prevCol: int)
    requires j <= |segs|
  {
    prevCol >= 0 && TokensFit(segs, j) && Expects(segs, j, expectedLine) && Reached(segs, j, prevCol)
  }

  lemma {:induction false} TokenStep(segs: seq<Segment>, index: nat, j: nat, expectedLine: int, prevCol: int)
    returns (found: bool, nextLine: int, nextCol: int)
    requires j < |segs| && Progress(segs, j, expectedLine, prevCol)
    ensures found ==> TokensJustified(segs, index, TokenError(segs, index, j, expectedLine, prevCol))
    ensures !found ==>
              && Progress(segs, j + 1, nextLine, nextCol)
              && TokenError(segs, index, j, expectedLine, prevCol) == TokenError(segs, index, j + 1, nextLine, nextCol)
  {
    found, nextLine, nextCol := false, expectedLine, prevCol;
    OnOneLineNext(segs, j, expectedLine);
    ColumnsRiseNext(segs, j, prevCol);
    if segs[j].part.position.Some? {
      var p := segs[j].part.position.value;
      found := (expectedLine != -1 && p.line != expectedLine) || (segs[j].part.origin != "" && p.column <= prevCol);
      nextLine := p.line;
      if segs[j].part.origin != "" {
        nextCol := p.column;
      }
    }
  }

  lemma {:induction false} TokenErrorJustified(segs: seq<Segment>, index: nat, j: nat, expectedLine: int, prevCol: int)
    requires j <= |segs| && Progress(segs, j, expectedLine, prevCol)
    ensures TokensJustified(segs, index, TokenError(segs, index, j, expectedLine, prevCol))
    decreases |segs| - j
  {
    if j < |segs| {
      var found, nextLine, nextCol := TokenStep(segs, index, j, expectedLine, prevCol);
      if !found {
        TokenErrorJustified(segs, index, j + 1, nextLine, nextCol);
      }
    }
  }

  lemma {:induction false} LineErrorJustified(lines: seq<Line>, i: nat)
    requires i < |lines| && LinesFit(lines, i)
    ensures if LineError(lines, i) == None then LinesFit(lines, i + 1) else Justified(lines, LineError(lines, i))
  {
    NumberOkExact(lines, i);
    TokenErrorJustified(lines[i].segments, i, 0, -1, 0);
  }

  /** Reports the first complaint, and none exactly when there is nothing to complain about. */
  method Validate(lines: seq<Line>) returns (err: Option<ValidateError>)
    ensures Justified(lines, err)
    ensures err.None? ==> forall i :: 0 <= i < |lines| ==> LineError(lines, i) == None
    ensures err.Some? ==>
              exists i ::
                && 0 <= i < |lines| && err == LineError(lines, i)
                && forall k :: 0 <= k < i ==> LineError(lines, k) == None
  {
    var prevLineNum := 0;
    for i := 0 to |lines|
      invariant prevLineNum == PrevNumber(lines, i)
      invariant LinesFit(lines, i)
      invariant forall k :: 0 <= k < i ==> LineError(lines, k) == None
    {
      LineErrorJustified(lines, i);
      var lineNum := lines[i].Number();
      if lineNum != 0 && lineNum <= prevLineNum {
        assert LineError(lines, i) == Some(LineNumberNotIncreasing(i));
        return Some(LineNumberNotIncreasing(i));
      }
      if lineNum != 0 {
        prevLineNum := lineNum;
      }
      var segs := lines[i].segments;
      var expectedLineNum, prevCol := -1, 0;
      for j := 0 to |segs|
        invariant LineError(lines, i) == TokenError(segs, i, j, expectedLineNum, prevCol)
      {
        var tk := segs[j].part;
        match tk.position {
          case None =>
          case Some(p) =>
            if expectedLineNum == -1 {
              expectedLineNum := p.line;
            } else if p.line != expectedLineNum {
              return Some(LineNumberMismatch(i, j));
            }
            if tk.origin != "" {
              if p.column <= prevCol {
                return Some(ColumnNotIncreasing(i, j));
              }
              prevCol := p.column;
            }
        }
      }
    }
    err := None;
  }

  ghost predicate NumbersIncrease(lines: seq<Line>, start: int) {
    && (forall i :: 0 <= i < |lines| ==> lines[i].number >= start)
    && (forall i, j :: 0 <= i < j < |lines| ==> lines[i].number < lines[j].number)
  }

  lemma {:induction false} PrevNumberIsNumber(lines: seq<Line>, i: nat)
    requires NumbersIncrease(lines, 1) && i <= |lines|
    ensures PrevNumber(lines, i) == if i == 0 then 0 else lines[i - 1].number
  {
  }

  /** Lines numbered upwards from at least 1 never get the line-number complaint. */
  lemma {:induction false} NeverNotIncreasing(lines: seq<Line>, i: nat)
    requires NumbersIncrease(lines, 1) && i < |lines|
    ensures LineError(lines, i) != Some(LineNumberNotIncreasing(i))
  {
    PrevNumberIsNumber(lines, i);
    TokenErrorKind(lines[i].segments, i, 0, -1, 0);
  }

  lemma {:induction false} TokenErrorKind(segs: seq<Segment>, index: nat, j: nat, expectedLine: int, prevCol: int)
    requires j <= |segs|
    ensures var e := TokenError(segs, index, j, expectedLine, prevCol);
            e.None? || e.value.LineNumberMismatch? || e.value.ColumnNotIncreasing?
    decreases |segs| - j
  {
    if j < |segs| {
      match segs[j].part.position
      case None => TokenErrorKind(segs, index, j + 1, expectedLine, prevCol);
      case Some(p) =>
        TokenErrorKind(segs, index, j + 1, p.line, prevCol);
        TokenErrorKind(segs, index, j + 1, p.line, p.column);
    }
  }
}
