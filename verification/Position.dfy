/** Positions, half-open ranges and spans, the grouping of indices into spans with
    context, and prefix sums. */
module Position {

  import opened Ints

  /** Stands for "end of line" when a multi-line range is cut into lines. */
  const MAX_COL := 1_000_000

  datatype Position = Position(line: int, col: int)

  /** Lexicographic order: line first, then column. */
  predicate Less(p: Position, q: Position) {
    p.line < q.line || (p.line == q.line && p.col < q.col)
  }

  datatype Range = Range(start: Position, end: Position) {
    predicate Contains(pos: Position) {
      if pos.line < start.line || (pos.line == start.line && pos.col < start.col) then false
      else if pos.line > end.line || (pos.line == end.line && pos.col >= end.col) then false
      else true
    }
  }

  lemma {:induction false} ContainsIsHalfOpen(r: Range, pos: Position)
    ensures r.Contains(pos) <==> !Less(pos, r.start) && Less(pos, r.end)
  {
  }

  /** The part of r that lies on the i-th of its lines. */
  function LineSlice(r: Range, i: nat): Range {
    var line := r.start.line + i;
    var from := if i == 0 then r.start.col else 0;
    var to := if i > 0 && line == r.end.line then r.end.col else MAX_COL;
    Range(Position(line, from), Position(line, to))
  }

  function Slices(r: Range): seq<Range>
    requires r.end.line >= r.start.line - 1
  {
    if r.start.line == r.end.line then [r]
    else seq(r.end.line - r.start.line + 1, i requires 0 <= i => LineSlice(r, i))
  }

  /** A range that ends more than one line above its start makes the source panic. */
  method SliceLines(r: Range) returns (result: seq<Range>)
    requires r.end.line >= r.start.line - 1
    ensures result == Slices(r)
  {
    if r.start.line == r.end.line {
      return [r];
    }
    var lineCount := r.end.line - r.start.line + 1;
    var slices := new Range[lineCount](_ => r);
    for i := 0 to lineCount
      invariant forall k :: 0 <= k < i ==> slices[k] == LineSlice(r, k)
    {
      var line := r.start.line + i;
      var start, end;
      if i == 0 {
        start, end := Position(line, r.start.col), Position(line, MAX_COL);
      } else if i == lineCount - 1 {
        start, end := Position(line, 0), Position(line, r.end.col);
      } else {
        start, end := Position(line, 0), Position(line, MAX_COL);
      }
      slices[i] := Range(start, end);
    }
    return slices[..];
  }

  /** Cutting a range into lines keeps exactly its positions, except that columns
      from MAX_COL on are lost on every line but the last. */
  lemma {:induction false} SlicesCover(r: Range, pos: Position)
    requires r.end.line >= r.start.line - 1 && pos.col >= 0
    ensures (exists i :: 0 <= i < |Slices(r)| && Slices(r)[i].Contains(pos))
            <==> r.Contains(pos) && (pos.line == r.end.line || pos.col < MAX_COL)
    ensures forall i :: 0 <= i < |Slices(r)| ==>
              Slices(r)[i].start.line == Slices(r)[i].end.line == r.start.line + i
  {
    if r.Contains(pos) && (pos.line == r.end.line || pos.col < MAX_COL) {
      assert Slices(r)[pos.line - r.start.line].Contains(pos);
    }
  }

  /** It does happen: the first column that is lost. */
  lemma {:induction false} LastColumnsLost()
    ensures var r, pos := Range(Position(0, 0), Position(1, 0)), Position(0, MAX_COL);
            r.Contains(pos) && forall i :: 0 <= i < |Slices(r)| ==> !Slices(r)[i].Contains(pos)
  {
    var r, pos := Range(Position(0, 0), Position(1, 0)), Position(0, MAX_COL);
    SlicesCover(r, pos);
  }

  datatype Span = Span(start: int, end: int) {
    predicate Contains(v: int) {
      v >= start && v < end
    }

    predicate Overlaps(other: Span) {
      if start >= end || other.start >= other.end then false
      else start < other.end && end > other.start
    }
  }

  lemma {:induction false} OverlapsIsCommonPoint(s: Span, t: Span)
    ensures s.Overlaps(t) <==> exists v :: s.Contains(v) && t.Contains(v)
  {
    if s.Overlaps(t) {
      var v := if s.start >= t.start then s.start else t.start;
      assert s.Contains(v) && t.Contains(v);
    }
  }

  // ----- expanding, clamping and grouping -----

  function Expanded(spans: seq<Span>, amount: int): seq<Span> {
    seq(|spans|, i requires 0 <= i < |spans| => Span(spans[i].start - amount, spans[i].end + amount))
  }

  method Expand(spans: seq<Span>, amount: int) returns (result: seq<Span>)
    ensures result == Expanded(spans, amount)
  {
    var expanded := new Span[|spans|](_ => Span(0, 0));
    for i := 0 to |spans|
      invariant expanded[..i] == Expanded(spans, amount)[..i]
    {
      expanded[i] := Span(spans[i].start - amount, spans[i].end + amount);
    }
    return expanded[..];
  }

  function Clamped(spans: seq<Span>, lower: int, upper: int): seq<Span> {
    seq(|spans|, i requires 0 <= i < |spans| => Span(Max(spans[i].start, lower), Min(spans[i].end, upper)))
  }

  method Clamp(spans: seq<Span>, lower: int, upper: int) returns (result: seq<Span>)
    ensures result == Clamped(spans, lower, upper)
  {
    var clamped := new Span[|spans|](_ => Span(0, 0));
    for i := 0 to |spans|
      invariant clamped[..i] == Clamped(spans, lower, upper)[..i]
    {
      clamped[i] := Span(Max(spans[i].start, lower), Min(spans[i].end, upper));
    }
    return clamped[..];
  }

  /** What one more index does to the groups so far. */
  function Extended(spans: seq<Span>, idx: int, context: int): (r: seq<Span>)
    requires spans != []
    ensures r != []
  {
    var last := spans[|spans| - 1];
    if idx < last.end + (context * 2 + 1) then spans[..|spans| - 1] + [Span(last.start, idx + 1)]
    else spans + [Span(idx, idx + 1)]
  }

  /** The groups after looking at all of `indices`, the last index first to be peeled. */
  function Grouped(indices: seq<int>, context: int): (spans: seq<Span>)
    ensures indices != [] ==> spans != []
  {
    if indices == [] then []
    else if |indices| == 1 then [Span(indices[0], indices[0] + 1)]
    else
      Extended(Grouped(indices[..|indices| - 1], context), indices[|indices| - 1], context)
  }

  method GroupIndices(indices: seq<int>, context: int) returns (spans: seq<Span>)
    ensures spans == Grouped(indices, context)
  {
    if |indices| == 0 {
      return [];
    }
    var threshold := context * 2 + 1;
    spans := [Span(indices[0], indices[0] + 1)];
    assert indices[..1] == [indices[0]];
    for i := 1 to |indices|
      invariant spans == Grouped(indices[..i], context)
    {
      var idx := indices[i];
      var lastSpan := spans[|spans| - 1];
      assert indices[..i + 1][..i] == indices[..i];
      if idx < lastSpan.end + threshold {
        spans := spans[|spans| - 1 := Span(lastSpan.start, idx + 1)];
      } else {
        spans := spans + [Span(idx, idx + 1)];
      }
    }
    assert indices[..|indices|] == indices;
  }

  ghost predicate Sorted(indices: seq<int>) {
    forall i, j :: 0 <= i < j < |indices| ==> indices[i] <= indices[j]
  }

  /** v is at most `context` away from some index. */
  ghost predicate Near(v: int, indices: seq<int>, context: int) {
    exists k :: 0 <= k < |indices| && indices[k] - context <= v <= indices[k] + context
  }

  ghost predicate Covered(spans: seq<Span>, v: int) {
    exists i :: 0 <= i < |spans| && spans[i].Contains(v)
  }

  /** Non-empty, in order, and with at least one uncovered value between neighbours. */
  ghost predicate Separated(spans: seq<Span>) {
    && (forall i :: 0 <= i < |spans| ==> spans[i].start < spans[i].end)
    && (forall i, j :: 0 <= i < j < |spans| ==> spans[i].end < spans[j].start)
  }

  lemma {:induction false} ExtendShape(spans: seq<Span>, idx: int, context: int)
    requires spans != [] && idx + 1 >= spans[|spans| - 1].end
    requires forall i :: 0 <= i < |spans| ==> spans[i].start < spans[i].end
    requires forall i, j :: 0 <= i < j < |spans| ==> spans[i].end + context * 2 + 1 <= spans[j].start
    requires context >= 0
    ensures var r := Extended(spans, idx, context);
            && r[|r| - 1].end == idx + 1
            && (forall i :: 0 <= i < |r| ==> r[i].start < r[i].end)
            && (forall i :: 0 <= i < |spans| ==> r[i].start == spans[i].start)
            && (forall i, j :: 0 <= i < j < |r| ==> r[i].end + context * 2 + 1 <= r[j].start)
  {
    var r, last := Extended(spans, idx, context), spans[|spans| - 1];
    forall i, j | 0 <= i < j < |r| ensures r[i].end + context * 2 + 1 <= r[j].start {
      if j == |spans| && i < |spans| - 1 {
        assert spans[i].end + context * 2 + 1 <= last.start;
      }
    }
  }

  lemma {:induction false} GroupedShape(indices: seq<int>, context: int)
    requires Sorted(indices) && context >= 0 && indices != []
    ensures var spans := Grouped(indices, context);
            && spans[|spans| - 1].end == indices[|indices| - 1] + 1
            && (forall i :: 0 <= i < |spans| ==> indices[0] <= spans[i].start < spans[i].end)
            && (forall i, j :: 0 <= i < j < |spans| ==> spans[i].end + context * 2 + 1 <= spans[j].start)
  {
    if |indices| > 1 {
      var init, idx := indices[..|indices| - 1], indices[|indices| - 1];
      var before := Grouped(init, context);
      GroupedShape(init, context);
      assert init[|init| - 1] <= idx && indices[0] == init[0];
      ExtendShape(before, idx, context);
      assert Grouped(indices, context) == Extended(before, idx, context);
    }
  }

  lemma {:induction false} GroupedCovers(indices: seq<int>, context: int, v: int)
    requires Sorted(indices) && context >= 0 && indices != []
    ensures Covered(Expanded(Grouped(indices, context), context), v) <==> Near(v, indices, context)
  {
    if |indices| == 1 {
      var e := Expanded(Grouped(indices, context), context);
      assert e[0].Contains(v) <==> indices[0] - context <= v <= indices[0] + context;
    } else {
      var init, idx := indices[..|indices| - 1], indices[|indices| - 1];
      GroupedCovers(init, context, v);
      GroupedShape(init, context);
      assert indices == init + [idx];
      assert init[|init| - 1] <= idx;
      GroupedStepCovers(init, idx, context, v);
      NearGrows(init, idx, context, v);
    }
  }

  lemma {:induction false} NearGrows(init: seq<int>, idx: int, context: int, v: int)
    ensures Near(v, init + [idx], context) <==> Near(v, init, context) || idx - context <= v <= idx + context
  {
    var indices := init + [idx];
    if Near(v, init, context) {
      var k :| 0 <= k < |init| && init[k] - context <= v <= init[k] + context;
      assert indices[k] == init[k];
    } else if idx - context <= v <= idx + context {
      assert indices[|init|] == idx;
    }
  }

  lemma {:induction false} GroupedStepCovers(init: seq<int>, idx: int, context: int, v: int)
    requires init != [] && context >= 0 && init[|init| - 1] <= idx
    requires var spans := Grouped(init, context);
             spans[|spans| - 1].end == init[|init| - 1] + 1 && spans[|spans| - 1].start < spans[|spans| - 1].end
    ensures Covered(Expanded(Grouped(init + [idx], context), context), v) <==>
            Covered(Expanded(Grouped(init, context), context), v) || idx - context <= v <= idx + context
  {
    assert (init + [idx])[..|init|] == init;
    var before, after := Expanded(Grouped(init, context), context), Expanded(Grouped(init + [idx], context), context);
    var n := |before| - 1;
    assert forall i :: 0 <= i < n ==> after[i] == before[i];
    if Covered(before, v) {
      var i :| 0 <= i < |before| && before[i].Contains(v);
      assert after[i].Contains(v);
    } else if idx - context <= v <= idx + context {
      assert after[|after| - 1].Contains(v);
    }
    if Covered(after, v) {
      var i :| 0 <= i < |after| && after[i].Contains(v);
      assert i <= n && before[i].Contains(v) ==> Covered(before, v);
    }
  }

  /** Grouping, expanding and clamping sorted indices of [0, n) covers exactly the
      values of [0, n) near an index, by spans that are as long as they can be. */
  lemma {:induction false} HunkSpansExact(indices: seq<int>, context: int, n: int)
    requires Sorted(indices) && context >= 0
    requires forall i :: 0 <= i < |indices| ==> 0 <= indices[i] < n
    ensures var spans := Clamped(Expanded(Grouped(indices, context), context), 0, n);
            && Separated(spans)
            && (forall v :: Covered(spans, v) <==> 0 <= v < n && Near(v, indices, context))
  {
    if indices != [] {
      GroupedShape(indices, context);
      var g := Grouped(indices, context);
      var e := Expanded(g, context);
      var spans := Clamped(e, 0, n);
      forall i | 0 <= i < |spans| ensures spans[i].start < spans[i].end {
        assert g[i].end <= g[|g| - 1].end == indices[|indices| - 1] + 1;
        assert indices[0] <= g[i].start;
      }
      forall v ensures Covered(spans, v) <==> 0 <= v < n && Near(v, indices, context) {
        GroupedCovers(indices, context, v);
        ClampedCovers(e, 0, n, v);
      }
    }
  }

  lemma {:induction false} ClampedCovers(spans: seq<Span>, lower: int, upper: int, v: int)
    ensures Covered(Clamped(spans, lower, upper), v) <==> lower <= v < upper && Covered(spans, v)
  {
    var c := Clamped(spans, lower, upper);
    if Covered(c, v) {
      var i :| 0 <= i < |c| && c[i].Contains(v);
      assert spans[i].Contains(v);
    }
    if lower <= v < upper && Covered(spans, v) {
      var i :| 0 <= i < |spans| && spans[i].Contains(v);
      assert c[i].Contains(v);
    }
  }

  /** Separated spans are determined by the values they cover, so the list above is
      the only one with its two properties. */
  lemma {:induction false} SeparatedUnique(s: seq<Span>, t: seq<Span>)
    requires Separated(s) && Separated(t)
    requires forall v :: Covered(s, v) <==> Covered(t, v)
    ensures s == t
    decreases |s|
  {
    if s == [] {
      if t != [] {
        assert t[0].Contains(t[0].start);
        assert Covered(t, t[0].start);
      }
    } else {
      FirstSpanAtMost(s, t);
      FirstSpanAtMost(t, s);
      forall v ensures Covered(s[1..], v) <==> Covered(t[1..], v) {
        TailCovers(s, v);
        TailCovers(t, v);
      }
      SeparatedUnique(s[1..], t[1..]);
      assert s == [s[0]] + s[1..] && t == [t[0]] + t[1..];
    }
  }

  lemma {:induction false} FirstSpanAtMost(s: seq<Span>, t: seq<Span>)
    requires Separated(s) && Separated(t) && s != []
    requires forall v :: Covered(s, v) <==> Covered(t, v)
    ensures t != [] && t[0].start <= s[0].start
    ensures t[0].start == s[0].start ==> t[0].end >= s[0].end
  {
    assert s[0].Contains(s[0].start);
    assert Covered(s, s[0].start);
    var i :| 0 <= i < |t| && t[i].Contains(s[0].start);
    assert i > 0 ==> t[0].end < t[i].start;
    var e := t[0].end;
    assert s[0].Contains(e) ==> Covered(s, e);
    EndUncovered(t);
  }

  lemma {:induction false} EndUncovered(t: seq<Span>)
    requires Separated(t) && t != []
    ensures !Covered(t, t[0].end)
  {
    forall j | 0 <= j < |t| ensures !t[j].Contains(t[0].end) {
      assert j > 0 ==> t[0].end < t[j].start;
    }
  }

  lemma {:induction false} TailCovers(s: seq<Span>, v: int)
    requires Separated(s) && s != []
    ensures Covered(s[1..], v) <==> Covered(s, v) && v >= s[0].end
  {
    if Covered(s[1..], v) {
      var i :| 0 <= i < |s[1..]| && s[1..][i].Contains(v);
      assert s[i + 1].Contains(v);
    }
    if Covered(s, v) && v >= s[0].end {
      var i :| 0 <= i < |s| && s[i].Contains(v);
      assert s[1..][i - 1].Contains(v);
    }
  }

  // ----- prefix sums -----

  function Sum(values: seq<int>): int {
    if values == [] then 0 else Sum(values[..|values| - 1]) + values[|values| - 1]
  }

  datatype PrefixSums = PrefixSums(sums: seq<int>) {
    ghost predicate Of(values: seq<int>) {
      |sums| == |values| + 1 && forall i :: 0 <= i <= |values| ==> sums[i] == Sum(values[..i])
    }

    function At(i: int): int
      requires 0 <= i < |sums|
    {
      sums[i]
    }

    function Range(s: Span): int
      requires 0 <= s.start < |sums| && 0 <= s.end < |sums|
    {
      sums[s.end] - sums[s.start]
    }
  }

  method NewPrefixSums(values: seq<int>) returns (p: PrefixSums)
    ensures p.Of(values)
  {
    var sums := new int[|values| + 1](_ => 0);
    for i := 0 to |values|
      invariant forall k :: 0 <= k <= i ==> sums[k] == Sum(values[..k])
    {
      sums[i + 1] := sums[i] + values[i];
      assert values[..i + 1][..i] == values[..i];
    }
    p := PrefixSums(sums[..]);
  }

  lemma {:induction false} SumConcat(a: seq<int>, b: seq<int>)
    ensures Sum(a + b) == Sum(a) + Sum(b)
  {
    if b == [] {
      assert a + b == a;
    } else {
      assert (a + b)[..|a + b| - 1] == a + b[..|b| - 1];
      SumConcat(a, b[..|b| - 1]);
    }
  }

  /** Two table lookups give the sum of the elements inside a span. */
  lemma {:induction false} RangeIsSum(p: PrefixSums, values: seq<int>, s: Span)
    requires p.Of(values) && 0 <= s.start <= s.end <= |values|
    ensures p.Range(s) == Sum(values[s.start..s.end])
  {
    SumConcat(values[..s.start], values[s.start..s.end]);
    assert values[..s.start] + values[s.start..s.end] == values[..s.end];
  }
}
