/** What painting is: every rune gets the fold of the overlays at its column. */
module Painting {
  import opened Position
  import opened Tokens
  import opened Lines
  import opened Source
  import opened Blender
  import Separator
  import Seqs

  /** A run of text in one style: what is handed to the terminal renderer at once. */
  datatype Chunk = Chunk(style: Style, text: string)

  function TextOf(chunks: seq<Chunk>): string {
    if chunks == [] then "" else TextOf(chunks[..|chunks| - 1]) + chunks[|chunks| - 1].text
  }

  /** The style of every rune. */
  function StylesOf(chunks: seq<Chunk>): seq<Style> {
    if chunks == [] then []
    else StylesOf(chunks[..|chunks| - 1]) + Seqs.Repeat(chunks[|chunks| - 1].style, |chunks[|chunks| - 1].text|)
  }

  /** A text is the texts of its chunks, and every rune has the style of its chunk. */
  lemma {:induction false} ChunksSpelledOut(chunks: seq<Chunk>)
    ensures TextOf(chunks) == Seqs.Concat(seq(|chunks|, i requires 0 <= i < |chunks| => chunks[i].text))
    ensures StylesOf(chunks) ==
            Seqs.Concat(seq(|chunks|, i requires 0 <= i < |chunks| => Seqs.Repeat(chunks[i].style, |chunks[i].text|)))
  {
    if chunks != [] {
      var n := |chunks| - 1;
      var init := chunks[..n];
      var texts := seq(|chunks|, i requires 0 <= i < |chunks| => chunks[i].text);
      var styles := seq(|chunks|, i requires 0 <= i < |chunks| => Seqs.Repeat(chunks[i].style, |chunks[i].text|));
      ChunksSpelledOut(init);
      assert texts[..n] == seq(|init|, i requires 0 <= i < |init| => init[i].text);
      assert styles[..n] == seq(|init|, i requires 0 <= i < |init| => Seqs.Repeat(init[i].style, |init[i].text|));
    }
  }

  lemma {:induction false} ChunksAppend(a: seq<Chunk>, b: seq<Chunk>)
    ensures TextOf(a + b) == TextOf(a) + TextOf(b) && StylesOf(a + b) == StylesOf(a) + StylesOf(b)
  {
    if b == [] {
      assert a + b == a;
    } else {
      var b', c := b[..|b| - 1], b[|b| - 1];
      ChunksAppend(a, b');
      assert (a + b)[..|a + b| - 1] == a + b';
      Seqs.ConcatAssociative(TextOf(a), TextOf(b'), c.text);
      Seqs.ConcatAssociative(StylesOf(a), StylesOf(b'), Seqs.Repeat(c.style, |c.text|));
    }
  }

  lemma {:induction false} ChunkSnoc(a: seq<Chunk>, c: Chunk)
    ensures TextOf(a + [c]) == TextOf(a) + c.text && StylesOf(a + [c]) == StylesOf(a) + Seqs.Repeat(c.style, |c.text|)
  {
    assert (a + [c])[..|a|] == a;
  }

  // ----- the fold of overlays at a point -----

  type Memo = map<Combination, Style>

  /** The style that the overlays' styles, applied in order, give the base, by the answers
      remembered so far. The first one replaces instead of blending, unless told always
      to blend. */
  ghost function Fold(memo: Memo, base: Style, overlays: seq<Style>, alwaysBlend: bool): Option<Style> {
    if overlays == [] then Some(base)
    else
      var n := |overlays| - 1;
      match Fold(memo, base, overlays[..n], alwaysBlend)
      case None => None
      case Some(below) =>
        var c := Combination(below, overlays[n], !alwaysBlend && n == 0);
        if c in memo then Some(memo[c]) else None
  }

  ghost function FoldLook(base: Look, overlays: seq<Style>, alwaysBlend: bool): Look {
    if overlays == [] then base
    else
      var n := |overlays| - 1;
      Combined(FoldLook(base, overlays[..n], alwaysBlend), overlays[n].look, !alwaysBlend && n == 0)
  }

  /** Overlays on top of each other: unless always blending, the first one replaces the look
      below it; every other one blends with what is below. */
  ghost predicate Layered(layers: seq<Look>, base: Look, overlays: seq<Look>, alwaysBlend: bool) {
    && |layers| == |overlays| + 1 && layers[0] == base
    && forall i :: 0 <= i < |overlays| ==>
         layers[i + 1] == if i == 0 && !alwaysBlend then Overridden(layers[i], overlays[i])
                          else Blended(layers[i], overlays[i])
  }

  function LooksOf(styles: seq<Style>): (looks: seq<Look>)
    ensures |looks| == |styles| && forall i :: 0 <= i < |styles| ==> looks[i] == styles[i].look
  {
    seq(|styles|, i requires 0 <= i < |styles| => styles[i].look)
  }

  lemma {:induction false} FoldLookLayers(base: Look, overlays: seq<Style>, alwaysBlend: bool)
    returns (layers: seq<Look>)
    ensures Layered(layers, base, LooksOf(overlays), alwaysBlend)
    ensures FoldLook(base, overlays, alwaysBlend) == layers[|overlays|]
  {
    layers := [base];
    if overlays != [] {
      var n := |overlays| - 1;
      var below := FoldLookLayers(base, overlays[..n], alwaysBlend);
      layers := below + [FoldLook(base, overlays, alwaysBlend)];
    }
  }

  ghost predicate Extends(memo: Memo, larger: Memo) {
    forall c :: c in memo ==> c in larger && larger[c] == memo[c]
  }

  lemma {:induction false} FoldStays(memo: Memo, larger: Memo, base: Style, overlays: seq<Style>, alwaysBlend: bool)
    requires Extends(memo, larger) && Fold(memo, base, overlays, alwaysBlend).Some?
    ensures Fold(larger, base, overlays, alwaysBlend) == Fold(memo, base, overlays, alwaysBlend)
  {
    if overlays != [] {
      FoldStays(memo, larger, base, overlays[..|overlays| - 1], alwaysBlend);
    }
  }

  ghost predicate LooksRight(memo: Memo) {
    forall c :: c in memo ==> memo[c].look == Combined(c.base.look, c.overlay.look, c.override)
  }

  /** A remembered fold looks like the uncached fold of the looks. */
  lemma {:induction false} FoldLooksRight(memo: Memo, base: Style, overlays: seq<Style>, alwaysBlend: bool)
    requires LooksRight(memo) && Fold(memo, base, overlays, alwaysBlend).Some?
    ensures Fold(memo, base, overlays, alwaysBlend).value.look == FoldLook(base.look, overlays, alwaysBlend)
  {
    if overlays != [] {
      FoldLooksRight(memo, base, overlays[..|overlays| - 1], alwaysBlend);
    }
  }

  // ----- boundaries -----

  datatype Active = Active(cols: Span, style: Style)

  function StylesAt(active: seq<Active>, point: int): seq<Style> {
    if active == [] then []
    else StylesAt(active[..|active| - 1], point)
         + (if active[|active| - 1].cols.Contains(point) then [active[|active| - 1].style] else [])
  }

  function AtPoint(point: int): Active -> bool {
    (a: Active) => a.cols.Contains(point)
  }

  /** The styles of exactly the overlays that contain the point, in order. */
  lemma {:induction false} StylesAtInOrder(active: seq<Active>, point: int)
    ensures var those := Seqs.Filter(AtPoint(point), active);
            StylesAt(active, point) == seq(|those|, i requires 0 <= i < |those| => those[i].style)
  {
    if active != [] {
      StylesAtInOrder(active[..|active| - 1], point);
      Seqs.FilterLast(AtPoint(point), active);
    }
  }

  function Insert(x: int, xs: seq<int>): seq<int> {
    if xs == [] then [x] else if x <= xs[0] then [x] + xs else [xs[0]] + Insert(x, xs[1..])
  }

  /** The library function. */
  function Sort(xs: seq<int>): seq<int> {
    if xs == [] then [] else Insert(xs[0], Sort(xs[1..]))
  }

  lemma {:induction false} InsertSorted(x: int, xs: seq<int>)
    requires Sorted(xs)
    ensures Sorted(Insert(x, xs)) && |Insert(x, xs)| == |xs| + 1
    ensures forall y :: y in Insert(x, xs) <==> y == x || y in xs
  {
    if xs != [] && x > xs[0] {
      var ys := Insert(x, xs[1..]);
      InsertSorted(x, xs[1..]);
      assert xs == [xs[0]] + xs[1..] && Insert(x, xs) == [xs[0]] + ys;
      forall i | 0 <= i < |ys| ensures xs[0] <= ys[i] {
        assert ys[i] in ys;
      }
    }
  }

  lemma {:induction false} SortSorts(xs: seq<int>)
    ensures Sorted(Sort(xs)) && |Sort(xs)| == |xs|
    ensures forall y :: y in Sort(xs) <==> y in xs
  {
    if xs != [] {
      SortSorts(xs[1..]);
      InsertSorted(xs[0], Sort(xs[1..]));
      assert xs == [xs[0]] + xs[1..];
    }
  }

  ghost predicate StrictlySorted(xs: seq<int>) {
    forall i, j :: 0 <= i < j < |xs| ==> xs[i] < xs[j]
  }

  /** Drops repetitions from a sorted list. */
  method Compact(xs: seq<int>) returns (ys: seq<int>)
    requires Sorted(xs)
    ensures StrictlySorted(ys) && |ys| <= |xs| && forall y :: y in ys <==> y in xs
  {
    ys := [];
    for i := 0 to |xs|
      invariant StrictlySorted(ys) && |ys| <= i
      invariant i > 0 ==> ys != [] && ys[|ys| - 1] == xs[i - 1]
      invariant forall y :: y in ys <==> y in xs[..i]
    {
      assert xs[..i + 1] == xs[..i] + [xs[i]];
      if i == 0 || xs[i] != xs[i - 1] {
        assert i > 0 ==> xs[i - 1] <= xs[i];
        ys := ys + [xs[i]];
      }
    }
    assert xs[..|xs|] == xs;
  }

  ghost predicate Strictly(v: int, cols: Span) {
    cols.start < v < cols.end
  }

  /** Where an overlay begins or ends. */
  ghost predicate IsEdge(active: seq<Active>, v: int) {
    exists k :: 0 <= k < |active| && (active[k].cols.start == v || active[k].cols.end == v)
  }

  /** From cols.start up to cols.end, with exactly the overlay edges strictly between them. */
  ghost predicate Boundaries(bs: seq<int>, active: seq<Active>, cols: Span) {
    && StrictlySorted(bs) && 2 <= |bs| <= 2 * |active| + 2
    && bs[0] == cols.start && bs[|bs| - 1] == cols.end
    && (forall k :: 0 <= k < |active| && Strictly(active[k].cols.start, cols) ==> active[k].cols.start in bs)
    && (forall k :: 0 <= k < |active| && Strictly(active[k].cols.end, cols) ==> active[k].cols.end in bs)
    && (forall v :: v in bs && v != cols.start && v != cols.end ==> Strictly(v, cols) && IsEdge(active, v))
  }

  method ComputeStyleBoundaries(active: seq<Active>, cols: Span) returns (boundaries: seq<int>)
    requires cols.start < cols.end
    ensures Boundaries(boundaries, active, cols)
  {
    var edges := [cols.start, cols.end];
    for k := 0 to |active|
      invariant 2 <= |edges| <= 2 * k + 2 && cols.start in edges && cols.end in edges
      invariant forall e :: e in edges && e != cols.start && e != cols.end ==> Strictly(e, cols) && IsEdge(active, e)
      invariant forall j :: 0 <= j < k && Strictly(active[j].cols.start, cols) ==> active[j].cols.start in edges
      invariant forall j :: 0 <= j < k && Strictly(active[j].cols.end, cols) ==> active[j].cols.end in edges
    {
      var ov := active[k];
      if ov.cols.start > cols.start && ov.cols.start < cols.end {
        edges := edges + [ov.cols.start];
      }
      if ov.cols.end > cols.start && ov.cols.end < cols.end {
        edges := edges + [ov.cols.end];
      }
    }
    SortSorts(edges);
    boundaries := Compact(Sort(edges));
    EdgesFirstAndLast(boundaries, cols.start, cols.end);
  }

  lemma {:induction false} EdgesFirstAndLast(bs: seq<int>, lo: int, hi: int)
    requires StrictlySorted(bs) && lo in bs && hi in bs && lo < hi
    requires forall b :: b in bs ==> lo <= b <= hi
    ensures |bs| >= 2 && bs[0] == lo && bs[|bs| - 1] == hi
  {
    var i :| 0 <= i < |bs| && bs[i] == lo;
    var j :| 0 <= j < |bs| && bs[j] == hi;
    assert bs[0] in bs && bs[|bs| - 1] in bs;
  }

  /** Between two neighbouring boundaries the overlays in force do not change. */
  lemma {:induction false} StylesConstant(active: seq<Active>, bs: seq<int>, cols: Span, all: seq<Active>, i: nat,
                                          v: int)
    requires Boundaries(bs, all, cols) && i + 1 < |bs| && bs[i] <= v < bs[i + 1]
    requires |active| <= |all| && active == all[..|active|]
    ensures StylesAt(active, v) == StylesAt(active, bs[i])
  {
    if active != [] {
      var n := |active| - 1;
      StylesConstant(active[..n], bs, cols, all, i, v);
      EdgeNotBetween(bs, i, all[n].cols.start, cols);
      EdgeNotBetween(bs, i, all[n].cols.end, cols);
    }
  }

  /** No edge of the list lies strictly between two neighbouring boundaries. */
  lemma {:induction false} EdgeNotBetween(bs: seq<int>, i: nat, e: int, cols: Span)
    requires StrictlySorted(bs) && i + 1 < |bs| && bs[0] == cols.start && bs[|bs| - 1] == cols.end
    requires Strictly(e, cols) ==> e in bs
    ensures !(bs[i] < e < bs[i + 1])
  {
    if Strictly(e, cols) {
      var k :| 0 <= k < |bs| && bs[k] == e;
      assert k <= i ==> bs[k] <= bs[i];
      assert k > i ==> bs[i + 1] <= bs[k];
    }
  }

  lemma {:induction false} BoundaryWithin(bs: seq<int>, active: seq<Active>, cols: Span, i: nat)
    requires Boundaries(bs, active, cols) && i + 1 < |bs|
    ensures cols.start <= bs[i] < bs[i + 1] <= cols.end
  {
    assert i > 0 ==> bs[0] < bs[i];
    assert i + 1 < |bs| - 1 ==> bs[i + 1] < bs[|bs| - 1];
  }

  // ----- painting one piece of text -----

  /** At most so many keys are used up by painting k pieces under n overlays. */
  function KeysFor(n: nat, k: nat): nat {
    if k == 0 then 0 else 3 * n + KeysFor(n, k - 1)
  }

  lemma {:induction false} KeysForMonotone(n: nat, m: nat, k: nat, l: nat)
    requires n <= m && k <= l
    ensures KeysFor(n, k) <= KeysFor(m, l)
    decreases l
  {
    if k > 0 {
      KeysForMonotone(n, m, k - 1, l - 1);
    } else if l > 0 {
      KeysForMonotone(n, m, k, l - 1);
    }
  }

  function KeysForText(overlays: nat): nat {
    KeysFor(overlays, 2 * overlays + 1)
  }

  /** The k-th rune's style is the fold of the overlays at its column over its base style. */
  ghost predicate PaintedAt(done: seq<Style>, bases: seq<Style>, memo: Memo, active: seq<Active>, start: int,
                            alwaysBlend: bool, k: nat)
  {
    && k < |done| && k < |bases|
    && Fold(memo, bases[k], StylesAt(active, start + k), alwaysBlend) == Some(done[k])
  }

  ghost predicate Painted(done: seq<Style>, bases: seq<Style>, memo: Memo, active: seq<Active>, start: int,
                          alwaysBlend: bool)
  {
    && |done| == |bases|
    && forall k: nat {:trigger PaintedAt(done, bases, memo, active, start, alwaysBlend, k)} ::
         k < |done| ==> PaintedAt(done, bases, memo, active, start, alwaysBlend, k)
  }

  lemma {:induction false} PaintedStays(done: seq<Style>, bases: seq<Style>, memo: Memo, larger: Memo,
                                        active: seq<Active>, start: int, alwaysBlend: bool)
    requires Extends(memo, larger) && Painted(done, bases, memo, active, start, alwaysBlend)
    ensures Painted(done, bases, larger, active, start, alwaysBlend)
  {
    forall k: nat | k < |done| ensures PaintedAt(done, bases, larger, active, start, alwaysBlend, k) {
      assert PaintedAt(done, bases, memo, active, start, alwaysBlend, k);
      FoldStays(memo, larger, bases[k], StylesAt(active, start + k), alwaysBlend);
    }
  }

  lemma {:induction false} PaintedGrows(done: seq<Style>, more: seq<Style>, bases: seq<Style>, moreBases: seq<Style>,
                                        memo: Memo, active: seq<Active>, start: int, alwaysBlend: bool)
    requires Painted(done, bases, memo, active, start, alwaysBlend)
    requires Painted(more, moreBases, memo, active, start + |done|, alwaysBlend)
    ensures Painted(done + more, bases + moreBases, memo, active, start, alwaysBlend)
  {
    forall k: nat | k < |done + more|
      ensures PaintedAt(done + more, bases + moreBases, memo, active, start, alwaysBlend, k)
    {
      if k >= |done| {
        assert start + k == (start + |done|) + (k - |done|);
        assert PaintedAt(more, moreBases, memo, active, start + |done|, alwaysBlend, k - |done|);
      } else {
        assert PaintedAt(done, bases, memo, active, start, alwaysBlend, k);
      }
    }
  }

  /** A piece between two boundaries is painted in one style. */
  lemma {:induction false} PiecePainted(s: Style, base: Style, memo: Memo, active: seq<Active>, bs: seq<int>,
                                        cols: Span, i: nat, alwaysBlend: bool)
    requires Boundaries(bs, active, cols) && i + 1 < |bs|
    requires Fold(memo, base, StylesAt(active, bs[i]), alwaysBlend) == Some(s)
    ensures bs[i] < bs[i + 1]
    ensures var n := bs[i + 1] - bs[i];
            Painted(Seqs.Repeat(s, n), Seqs.Repeat(base, n), memo, active, bs[i], alwaysBlend)
  {
    var done, bases := Seqs.Repeat(s, bs[i + 1] - bs[i]), Seqs.Repeat(base, bs[i + 1] - bs[i]);
    assert active == active[..|active|];
    forall k: nat | k < |done|
      ensures PaintedAt(done, bases, memo, active, bs[i], alwaysBlend, k)
    {
      StylesConstant(active, bs, cols, active, i, bs[i] + k);
    }
  }

  lemma {:induction false} SweepAdvances(done: seq<Style>, s: Style, base: Style, memo: Memo, larger: Memo,
                                         active: seq<Active>, bs: seq<int>, cols: Span, i: nat, alwaysBlend: bool)
    requires Boundaries(bs, active, cols) && i + 1 < |bs| && |done| == bs[i] - cols.start
    requires Extends(memo, larger) && Painted(done, Seqs.Repeat(base, |done|), memo, active, cols.start, alwaysBlend)
    requires Fold(larger, base, StylesAt(active, bs[i]), alwaysBlend) == Some(s)
    ensures bs[i] < bs[i + 1]
    ensures var n := bs[i + 1] - bs[i];
            Painted(done + Seqs.Repeat(s, n), Seqs.Repeat(base, |done| + n), larger, active, cols.start, alwaysBlend)
  {
    PiecePainted(s, base, larger, active, bs, cols, i, alwaysBlend);
    var n := bs[i + 1] - bs[i];
    PaintedStays(done, Seqs.Repeat(base, |done|), memo, larger, active, cols.start, alwaysBlend);
    PaintedGrows(done, Seqs.Repeat(s, n), Seqs.Repeat(base, |done|), Seqs.Repeat(base, n), larger, active, cols.start,
                 alwaysBlend);
    assert Seqs.Repeat(base, |done|) + Seqs.Repeat(base, n) == Seqs.Repeat(base, |done| + n);
  }

  /** Neighbouring chunks have different styles, and no chunk is empty. */
  ghost predicate Merged(chunks: seq<Chunk>) {
    && (forall i :: 0 <= i < |chunks| ==> chunks[i].text != "")
    && (forall i :: 0 <= i < |chunks| - 1 ==> chunks[i].style != chunks[i + 1].style)
  }

  /** Chunks for text[..from], then a run in one style up to `upto`, follow the styles done. */
  ghost predicate InProgress(chunks: seq<Chunk>, run: Style, text: string, from: nat, upto: nat, done: seq<Style>) {
    && from < upto <= |text| && |done| == upto
    && TextOf(chunks) == text[..from]
    && StylesOf(chunks) + Seqs.Repeat(run, upto - from) == done
    && Merged(chunks) && (chunks != [] ==> chunks[|chunks| - 1].style != run)
  }

  lemma {:induction false} RunGrows(chunks: seq<Chunk>, run: Style, text: string, from: nat, upto: nat, next: nat,
                                    done: seq<Style>)
    requires InProgress(chunks, run, text, from, upto, done) && upto <= next <= |text|
    ensures InProgress(chunks, run, text, from, next, done + Seqs.Repeat(run, next - upto))
  {
    assert Seqs.Repeat(run, upto - from) + Seqs.Repeat(run, next - upto) == Seqs.Repeat(run, next - from);
    Seqs.ConcatAssociative(StylesOf(chunks), Seqs.Repeat(run, upto - from), Seqs.Repeat(run, next - upto));
  }

  lemma {:induction false} RunEnds(chunks: seq<Chunk>, run: Style, text: string, from: nat, upto: nat, done: seq<Style>)
    requires InProgress(chunks, run, text, from, upto, done)
    ensures var flushed := chunks + [Chunk(run, text[from..upto])];
            TextOf(flushed) == text[..upto] && StylesOf(flushed) == done && Merged(flushed)
  {
    ChunkSnoc(chunks, Chunk(run, text[from..upto]));
    assert text[..from] + text[from..upto] == text[..upto];
  }

  lemma {:induction false} RunStarts(chunks: seq<Chunk>, run: Style, text: string, from: nat, next: nat)
    requires from < next <= |text| && TextOf(chunks) == text[..from] && Merged(chunks)
    requires chunks != [] ==> chunks[|chunks| - 1].style != run
    requires |StylesOf(chunks)| == from
    ensures InProgress(chunks, run, text, from, next, StylesOf(chunks) + Seqs.Repeat(run, next - from))
  {
  }

  ghost predicate SweptTo(chunks: seq<Chunk>, run: Style?, text: string, from: nat, upto: nat, done: seq<Style>) {
    if run == null then chunks == [] && done == [] && upto == 0
    else InProgress(chunks, run, text, from, upto, done)
  }

  /** Prolongs the current run by a piece of its style, or flushes it and starts another. */
  method AddPiece(chunks: seq<Chunk>, run: Style?, text: string, from: nat, upto: nat, next: nat, s: Style,
                  ghost done: seq<Style>)
    returns (flushed: seq<Chunk>, newRun: Style, newFrom: nat)
    requires SweptTo(chunks, run, text, from, upto, done) && upto < next <= |text|
    ensures InProgress(flushed, newRun, text, newFrom, next, done + Seqs.Repeat(s, next - upto))
  {
    if run == null {
      RunStarts([], s, text, upto, next);
      return [], s, upto;
    }
    if run != s {
      RunEnds(chunks, run, text, from, upto, done);
      flushed := chunks + [Chunk(run, text[from..upto])];
      RunStarts(flushed, s, text, upto, next);
      return flushed, s, upto;
    }
    RunGrows(chunks, run, text, from, upto, next, done);
    return chunks, run, from;
  }

  // ----- overlays and their styles -----

  datatype StyleSheet = StyleSheet(styles: map<Kind, Style>, empty: Style) {
    /** A kind without a style has the empty one. */
    function Of(kind: Kind): (s: Style)
      ensures kind in styles ==> s == styles[kind]
      ensures kind !in styles ==> s == empty
    {
      if kind in styles then styles[kind] else empty
    }

    ghost predicate Has(s: Style) {
      s == empty || s in styles.Values
    }
  }

  function Resolve(sheet: StyleSheet, overlays: seq<Overlay>): (active: seq<Active>)
    ensures |active| == |overlays|
    ensures forall i :: 0 <= i < |overlays| ==>
              active[i].cols == overlays[i].cols && active[i].style == sheet.Of(overlays[i].kind)
  {
    seq(|overlays|, i requires 0 <= i < |overlays| => Active(overlays[i].cols, sheet.Of(overlays[i].kind)))
  }

  function StylesFor(sheet: StyleSheet, kinds: seq<Kind>): (styles: seq<Style>)
    ensures |styles| == |kinds| && forall i :: 0 <= i < |kinds| ==> styles[i] == sheet.Of(kinds[i])
  {
    seq(|kinds|, i requires 0 <= i < |kinds| => sheet.Of(kinds[i]))
  }

  lemma {:induction false} StylesAtCovering(sheet: StyleSheet, overlays: seq<Overlay>, col: int)
    ensures StylesAt(Resolve(sheet, overlays), col) == StylesFor(sheet, Covering(overlays, col))
  {
    if overlays != [] {
      var init := overlays[..|overlays| - 1];
      StylesAtCovering(sheet, init, col);
      assert Resolve(sheet, overlays)[..|overlays| - 1] == Resolve(sheet, init);
    }
  }

  /** On the columns of a text, the overlays that overlap them act like all overlays. */
  ghost predicate SameOn(cols: Span, active: seq<Active>, all: seq<Active>) {
    forall v {:trigger StylesAt(active, v)} :: cols.Contains(v) ==> StylesAt(active, v) == StylesAt(all, v)
  }

  lemma {:induction false} SameOnNext(cols: Span, active: seq<Active>, all: seq<Active>, a: Active)
    requires SameOn(cols, active, all)
    ensures SameOn(cols, active + [a], all + [a])
    ensures !a.cols.Overlaps(cols) ==> SameOn(cols, active, all + [a])
  {
    assert (active + [a])[..|active|] == active && (all + [a])[..|all|] == all;
    OverlapsIsCommonPoint(a.cols, cols);
    forall v | cols.Contains(v)
      ensures StylesAt(active + [a], v) == StylesAt(all + [a], v)
      ensures !a.cols.Overlaps(cols) ==> StylesAt(active, v) == StylesAt(all + [a], v)
    {
      assert StylesAt(active, v) == StylesAt(all, v);
    }
  }

  lemma {:induction false} PaintedByAll(done: seq<Style>, bases: seq<Style>, memo: Memo, active: seq<Active>,
                                        all: seq<Active>, start: int, alwaysBlend: bool)
    requires Painted(done, bases, memo, active, start, alwaysBlend)
    requires SameOn(Span(start, start + |done|), active, all)
    ensures Painted(done, bases, memo, all, start, alwaysBlend)
  {
    forall k: nat | k < |done| ensures PaintedAt(done, bases, memo, all, start, alwaysBlend, k) {
      assert PaintedAt(done, bases, memo, active, start, alwaysBlend, k);
      assert StylesAt(active, start + k) == StylesAt(all, start + k);
    }
  }

  /** Without overlays in force a text keeps its base style. */
  lemma {:induction false} PlainPainted(base: Style, n: nat, memo: Memo, all: seq<Active>, start: int,
                                        alwaysBlend: bool)
    requires SameOn(Span(start, start + n), [], all)
    ensures Painted(Seqs.Repeat(base, n), Seqs.Repeat(base, n), memo, all, start, alwaysBlend)
  {
    var bases := Seqs.Repeat(base, n);
    forall k: nat | k < n ensures PaintedAt(bases, bases, memo, [], start, alwaysBlend, k) {
    }
    assert Painted(bases, bases, memo, [], start, alwaysBlend);
    PaintedByAll(bases, bases, memo, [], all, start, alwaysBlend);
  }

  lemma {:induction false} OneChunk(c: Chunk)
    ensures TextOf([c]) == c.text && StylesOf([c]) == Seqs.Repeat(c.style, |c.text|)
  {
    ChunkSnoc([], c);
  }

  /** One more overlay on top of a fold. */
  lemma {:induction false} FoldNext(memo: Memo, larger: Memo, base: Style, overlays: seq<Style>, alwaysBlend: bool,
                                    below: Style, s: Style)
    requires Extends(memo, larger) && Fold(memo, base, overlays, alwaysBlend) == Some(below)
    requires Combination(below, s, !alwaysBlend && overlays == []) in larger
    ensures Fold(larger, base, overlays + [s], alwaysBlend) ==
            Some(larger[Combination(below, s, !alwaysBlend && overlays == [])])
  {
    var all := overlays + [s];
    assert all[..|all| - 1] == overlays && all[|overlays|] == s;
    FoldStays(memo, larger, base, overlays, alwaysBlend);
    assert Fold(larger, base, all[..|all| - 1], alwaysBlend) == Some(below);
  }

  /** What is painted next to each other is painted. */
  lemma {:induction false} PaintedJoin(a: seq<Chunk>, b: seq<Chunk>, bases: seq<Style>, moreBases: seq<Style>,
                                       memo: Memo, larger: Memo, all: seq<Active>, start: int, alwaysBlend: bool)
    requires Extends(memo, larger)
    requires Painted(StylesOf(a), bases, memo, all, start, alwaysBlend)
    requires Painted(StylesOf(b), moreBases, larger, all, start + |bases|, alwaysBlend)
    ensures Painted(StylesOf(a + b), bases + moreBases, larger, all, start, alwaysBlend)
    ensures TextOf(a + b) == TextOf(a) + TextOf(b)
  {
    ChunksAppend(a, b);
    PaintedStays(StylesOf(a), bases, memo, larger, all, start, alwaysBlend);
    PaintedGrows(StylesOf(a), StylesOf(b), bases, moreBases, larger, all, start, alwaysBlend);
  }

  // ----- lines of tokens -----

  /** The kind of the default style. */
  const TEXT: Kind := 0

  /** Which kind a token has depends on its neighbours too. */
  type KindOf = (seq<Segment>, nat) -> Kind

  /** The separator of a token and what follows it, as far as there is anything. */
  function TextsOf(tk: TokenData): seq<string> {
    var text, width := TrimSuffix(tk.origin, '\n'), Separator.Width(tk);
    NonEmpty(text[..width]) + NonEmpty(text[width..])
  }

  /** A text, unless it is empty. */
  function NonEmpty(text: string): seq<string> {
    if text == "" then [] else [text]
  }

  function BasesOf(sheet: StyleSheet, kind: Kind, tk: TokenData): seq<Style> {
    var width := Separator.Width(tk);
    Seqs.Repeat(sheet.Of(TEXT), width) + Seqs.Repeat(sheet.Of(kind), |TrimSuffix(tk.origin, '\n')| - width)
  }

  lemma {:induction false} TokenSteps(sheet: StyleSheet, kind: Kind, tk: TokenData, before: string,
                                      texts: seq<string>, bases: seq<Style>)
    ensures var text, width := TrimSuffix(tk.origin, '\n'), Separator.Width(tk);
            && before + text == before + text[..width] + text[width..]
            && texts + TextsOf(tk) == texts + NonEmpty(text[..width]) + NonEmpty(text[width..])
            && bases + BasesOf(sheet, kind, tk) ==
               bases + Seqs.Repeat(sheet.Of(TEXT), |text[..width]|) + Seqs.Repeat(sheet.Of(kind), |text[width..]|)
  {
    var text, width := TrimSuffix(tk.origin, '\n'), Separator.Width(tk);
    Seqs.ConcatAssociative(texts, NonEmpty(text[..width]), NonEmpty(text[width..]));
    assert text == text[..width] + text[width..];
    Seqs.ConcatAssociative(before, text[..width], text[width..]);
    Seqs.ConcatAssociative(bases, Seqs.Repeat(sheet.Of(TEXT), width), Seqs.Repeat(sheet.Of(kind), |text| - width));
  }

  /** The texts painted one by one for the first n tokens. */
  function LineTexts(segs: seq<Segment>, n: nat): seq<string>
    requires n <= |segs|
  {
    if n == 0 then [] else LineTexts(segs, n - 1) + TextsOf(segs[n - 1].part)
  }

  /** The base styles of the runes of the first n tokens. */
  function LineBases(sheet: StyleSheet, kindOf: KindOf, segs: seq<Segment>, n: nat): seq<Style>
    requires n <= |segs|
  {
    if n == 0 then []
    else LineBases(sheet, kindOf, segs, n - 1) + BasesOf(sheet, kindOf(segs, n - 1), segs[n - 1].part)
  }

  function Rendered(segs: seq<Segment>): string {
    if segs == [] then "" else Rendered(segs[..|segs| - 1]) + segs[|segs| - 1].Text()
  }

  /** A line is painted without the line feeds of its segments. */
  lemma {:induction false} RenderedIsTexts(segs: seq<Segment>)
    ensures Rendered(segs) == Seqs.Concat(seq(|segs|, i requires 0 <= i < |segs| => segs[i].Text()))
  {
    if segs != [] {
      var n := |segs| - 1;
      var texts := seq(|segs|, i requires 0 <= i < |segs| => segs[i].Text());
      RenderedIsTexts(segs[..n]);
      assert texts[..n] == seq(n, i requires 0 <= i < n => segs[..n][i].Text());
    }
  }

  lemma {:induction false} BasesOfExact(sheet: StyleSheet, kind: Kind, tk: TokenData)
    ensures var bases, n := BasesOf(sheet, kind, tk), |TrimSuffix(tk.origin, '\n')|;
            && |bases| == n
            && forall o :: 0 <= o < n ==> bases[o] == sheet.Of(if o < Separator.Width(tk) then TEXT else kind)
  {
  }

  function TokenBases(sheet: StyleSheet, kindOf: KindOf, segs: seq<Segment>): (bases: seq<seq<Style>>)
    ensures |bases| == |segs|
  {
    seq(|segs|, i requires 0 <= i < |segs| => BasesOf(sheet, kindOf(segs, i), segs[i].part))
  }

  /** Every token's runes have the token's base styles, one token after the other. */
  lemma {:induction false} LineBasesAreConcat(sheet: StyleSheet, kindOf: KindOf, segs: seq<Segment>, n: nat,
                                              all: seq<seq<Style>>, bases: seq<Style>)
    requires n <= |segs| && all == TokenBases(sheet, kindOf, segs) && bases == LineBases(sheet, kindOf, segs, n)
    ensures bases == Seqs.Concat(all[..n])
  {
    if n > 0 {
      var before := BasesNext(sheet, kindOf, segs, n, bases);
      LineBasesAreConcat(sheet, kindOf, segs, n - 1, all, before);
      Seqs.ConcatPrefix(all, n - 1);
    }
  }

  lemma {:induction false} BasesNext(sheet: StyleSheet, kindOf: KindOf, segs: seq<Segment>, n: nat, bases: seq<Style>)
    returns (before: seq<Style>)
    requires 0 < n <= |segs| && bases == LineBases(sheet, kindOf, segs, n)
    ensures before == LineBases(sheet, kindOf, segs, n - 1)
    ensures bases == before + TokenBases(sheet, kindOf, segs)[n - 1]
  {
    before := LineBases(sheet, kindOf, segs, n - 1);
  }

  function SplitTexts(segs: seq<Segment>): seq<string> {
    Seqs.Concat(seq(|segs|, i requires 0 <= i < |segs| =>
      var width := Separator.Width(segs[i].part); [segs[i].Text()[..width], segs[i].Text()[width..]]))
  }

  predicate IsNonEmpty(text: string) {
    text != ""
  }

  /** What is painted one by one: of every token its separator and then the rest, unless empty. */
  lemma {:induction false} LineTextsExact(segs: seq<Segment>, n: nat)
    requires n <= |segs|
    ensures LineTexts(segs, n) == Seqs.Filter(IsNonEmpty, SplitTexts(segs[..n]))
  {
    if n > 0 {
      var width, text := Separator.Width(segs[n - 1].part), segs[n - 1].Text();
      var before, own := SplitTexts(segs[..n - 1]), [text[..width], text[width..]];
      LineTextsExact(segs, n - 1);
      SplitTextsSnoc(segs, n - 1);
      TextsOfToken(segs[n - 1]);
      Seqs.FilterAppend(IsNonEmpty, before, own);
      assert LineTexts(segs, n) == Seqs.Filter(IsNonEmpty, before) + Seqs.Filter(IsNonEmpty, own);
    }
  }

  lemma {:induction false} TextsOfToken(seg: Segment)
    ensures var width, text := Separator.Width(seg.part), seg.Text();
            TextsOf(seg.part) == Seqs.Filter(IsNonEmpty, [text[..width], text[width..]])
  {
    var width, text := Separator.Width(seg.part), seg.Text();
    TwoTexts(text[..width], text[width..]);
  }

  lemma {:induction false} SplitTextsSnoc(segs: seq<Segment>, n: nat)
    requires n < |segs|
    ensures var text, width := segs[n].Text(), Separator.Width(segs[n].part);
            SplitTexts(segs[..n + 1]) == SplitTexts(segs[..n]) + [text[..width], text[width..]]
  {
    var all := seq(n + 1, i requires 0 <= i < n + 1 =>
      var width := Separator.Width(segs[..n + 1][i].part);
      [segs[..n + 1][i].Text()[..width], segs[..n + 1][i].Text()[width..]]);
    var init := seq(n, i requires 0 <= i < n =>
      var width := Separator.Width(segs[..n][i].part);
      [segs[..n][i].Text()[..width], segs[..n][i].Text()[width..]]);
    assert all[..n] == init;
  }

  lemma {:induction false} TwoTexts(a: string, b: string)
    ensures Seqs.Filter(IsNonEmpty, [a, b]) == NonEmpty(a) + NonEmpty(b)
  {
    assert [a, b][1..] == [b] && [b][1..] == [];
    assert Seqs.Filter(IsNonEmpty, [b]) == NonEmpty(b) + Seqs.Filter(IsNonEmpty, []);
  }

  /** What the k-th token adds. */
  lemma {:induction false} NextToken(sheet: StyleSheet, kindOf: KindOf, segs: seq<Segment>, k: nat)
    requires k < |segs|
    ensures LineTexts(segs, k + 1) == LineTexts(segs, k) + TextsOf(segs[k].part)
    ensures LineBases(sheet, kindOf, segs, k + 1) ==
            LineBases(sheet, kindOf, segs, k) + BasesOf(sheet, kindOf(segs, k), segs[k].part)
    ensures |BasesOf(sheet, kindOf(segs, k), segs[k].part)| == |TrimSuffix(segs[k].part.origin, '\n')|
  {
  }

  lemma {:induction false} RenderedSnoc(segs: seq<Segment>, k: nat)
    requires k < |segs|
    ensures Rendered(segs[..k + 1]) == Rendered(segs[..k]) + TrimSuffix(segs[k].part.origin, '\n')
  {
    assert segs[..k + 1][..k] == segs[..k];
  }

  ghost predicate AllIn(sheet: StyleSheet, bases: seq<Style>) {
    forall i :: 0 <= i < |bases| ==> sheet.Has(bases[i])
  }

  lemma {:induction false} AllInAppend(sheet: StyleSheet, a: seq<Style>, b: seq<Style>)
    requires AllIn(sheet, a) && AllIn(sheet, b)
    ensures AllIn(sheet, a + b)
  {
  }

  lemma {:induction false} RepeatIn(sheet: StyleSheet, kind: Kind, n: nat)
    ensures AllIn(sheet, Seqs.Repeat(sheet.Of(kind), n))
  {
  }

  /** Base styles come from the style sheet. */
  lemma {:induction false} BasesInSheet(sheet: StyleSheet, kindOf: KindOf, segs: seq<Segment>, n: nat)
    requires n <= |segs|
    ensures AllIn(sheet, LineBases(sheet, kindOf, segs, n))
  {
    if n > 0 {
      var kind, tk := kindOf(segs, n - 1), segs[n - 1].part;
      var before, own := LineBases(sheet, kindOf, segs, n - 1), BasesOf(sheet, kind, tk);
      BasesInSheet(sheet, kindOf, segs, n - 1);
      TokenBasesInSheet(sheet, kind, tk);
      AllInAppend(sheet, before, own);
      assert LineBases(sheet, kindOf, segs, n) == before + own;
    }
  }

  lemma {:induction false} TokenBasesInSheet(sheet: StyleSheet, kind: Kind, tk: TokenData)
    ensures AllIn(sheet, BasesOf(sheet, kind, tk))
  {
    var width, n := Separator.Width(tk), |TrimSuffix(tk.origin, '\n')|;
    RepeatIn(sheet, TEXT, width);
    RepeatIn(sheet, kind, n - width);
    AllInAppend(sheet, Seqs.Repeat(sheet.Of(TEXT), width), Seqs.Repeat(sheet.Of(kind), n - width));
  }

  function KeysForLine(overlays: nat, tokens: nat): nat {
    if tokens == 0 then 0 else 2 * KeysForText(overlays) + KeysForLine(overlays, tokens - 1)
  }

  lemma {:induction false} KeysForLineMonotone(overlays: nat, m: nat, n: nat)
    requires m <= n
    ensures KeysForLine(overlays, m) <= KeysForLine(overlays, n)
    decreases n
  {
    if m < n {
      KeysForLineMonotone(overlays, m, n - 1);
    }
  }

  /** A rune on a highlighted line looks like the fold of exactly those highlights whose
      range contains its position, in the order in which they were added. */
  lemma {:induction false} HighlightsShow(hs: seq<Highlight>, line: int, done: seq<Style>, bases: seq<Style>,
                                          memo: Memo, sheet: StyleSheet, k: nat)
    requires Painted(done, bases, memo, Resolve(sheet, OverlaysOf(hs, line)), 0, false) && LooksRight(memo)
    requires k < |done| && k < MAX_COL
    ensures var highlights := StylesFor(sheet, Containing(hs, Position(line, k)));
            && Fold(memo, bases[k], highlights, false) == Some(done[k])
            && done[k].look == FoldLook(bases[k].look, highlights, false)
  {
    var highlights := StylesFor(sheet, Containing(hs, Position(line, k)));
    OverlaysAreHighlights(hs, Position(line, k));
    StylesAtCovering(sheet, OverlaysOf(hs, line), 0 + k);
    assert PaintedAt(done, bases, memo, Resolve(sheet, OverlaysOf(hs, line)), 0, false, k);
    FoldLooksRight(memo, bases[k], highlights, false);
  }

  // ----- where neighbouring runes share a style -----

  /** No style of the sheet is itself the answer to a combination. */
  ghost predicate SheetApart(sheet: StyleSheet, memo: Memo) {
    forall c :: c in memo ==> !sheet.Has(memo[c])
  }

  /** Folds over different bases or overlays have different results. */
  lemma {:induction false} FoldInjective(memo: Memo, sheet: StyleSheet, base1: Style, overlays1: seq<Style>,
                                         base2: Style, overlays2: seq<Style>, alwaysBlend: bool)
    requires Injective(memo) && SheetApart(sheet, memo) && sheet.Has(base1) && sheet.Has(base2)
    requires Fold(memo, base1, overlays1, alwaysBlend).Some?
    requires Fold(memo, base1, overlays1, alwaysBlend) == Fold(memo, base2, overlays2, alwaysBlend)
    ensures base1 == base2 && overlays1 == overlays2
  {
    if overlays1 != [] && overlays2 != [] {
      var n, m := |overlays1| - 1, |overlays2| - 1;
      var below1 := Fold(memo, base1, overlays1[..n], alwaysBlend).value;
      var below2 := Fold(memo, base2, overlays2[..m], alwaysBlend).value;
      var c := Combination(below1, overlays1[n], !alwaysBlend && n == 0);
      var d := Combination(below2, overlays2[m], !alwaysBlend && m == 0);
      assert SameOnlyIfEqual(memo, c, d);
      FoldInjective(memo, sheet, base1, overlays1[..n], base2, overlays2[..m], alwaysBlend);
      assert overlays1 == overlays1[..n] + [overlays1[n]] && overlays2 == overlays2[..m] + [overlays2[m]];
    }
  }

  /** Two runes have the same style exactly when they have the same base style and the
      same overlays. */
  lemma {:induction false} SameStyleIff(done: seq<Style>, bases: seq<Style>, memo: Memo, sheet: StyleSheet,
                                        active: seq<Active>, start: int, alwaysBlend: bool, j: nat, k: nat)
    requires Painted(done, bases, memo, active, start, alwaysBlend) && Injective(memo) && SheetApart(sheet, memo)
    requires j < |done| && k < |done| && sheet.Has(bases[j]) && sheet.Has(bases[k])
    ensures done[j] == done[k] <==> bases[j] == bases[k] && StylesAt(active, start + j) == StylesAt(active, start + k)
  {
    assert PaintedAt(done, bases, memo, active, start, alwaysBlend, j);
    assert PaintedAt(done, bases, memo, active, start, alwaysBlend, k);
    if done[j] == done[k] {
      FoldInjective(memo, sheet, bases[j], StylesAt(active, start + j), bases[k], StylesAt(active, start + k),
                    alwaysBlend);
    }
  }

  /** The j-th chunk's style is that of its runes. */
  lemma {:induction false} ChunkStyles(chunks: seq<Chunk>, j: nat, i: nat)
    requires j < |chunks| && i < |chunks[j].text|
    ensures var c := |TextOf(chunks[..j])| + i;
            c < |StylesOf(chunks)| && StylesOf(chunks)[c] == chunks[j].style
  {
    var before, rest := chunks[..j + 1], chunks[j + 1..];
    assert chunks == before + rest && before == chunks[..j] + [chunks[j]];
    ChunksAppend(before, rest);
    ChunkSnoc(chunks[..j], chunks[j]);
    StylesFit(chunks[..j]);
  }

  lemma {:induction false} StylesFit(chunks: seq<Chunk>)
    ensures |StylesOf(chunks)| == |TextOf(chunks)|
  {
    if chunks != [] {
      StylesFit(chunks[..|chunks| - 1]);
    }
  }

  /** Two neighbouring chunks have the same style exactly when the runes left and right of
      the border between them have the same base style and the same overlays. */
  lemma {:induction false} NeighboursShareIff(chunks: seq<Chunk>, j: nat, bases: seq<Style>, memo: Memo,
                                              sheet: StyleSheet, active: seq<Active>, start: int, alwaysBlend: bool)
    requires Painted(StylesOf(chunks), bases, memo, active, start, alwaysBlend) && Injective(memo)
    requires SheetApart(sheet, memo)
    requires j + 1 < |chunks| && chunks[j].text != "" && chunks[j + 1].text != ""
    requires AllIn(sheet, bases)
    ensures var c := |TextOf(chunks[..j + 1])|;
            && 0 < c < |bases|
            && (chunks[j].style == chunks[j + 1].style <==>
                bases[c - 1] == bases[c] && StylesAt(active, start + c - 1) == StylesAt(active, start + c))
  {
    var c := |TextOf(chunks[..j + 1])|;
    assert chunks[..j + 1] == chunks[..j] + [chunks[j]];
    ChunkSnoc(chunks[..j], chunks[j]);
    ChunkStyles(chunks, j, |chunks[j].text| - 1);
    ChunkStyles(chunks, j + 1, 0);
    SameStyleIff(StylesOf(chunks), bases, memo, sheet, active, start, alwaysBlend, c - 1, c);
  }

  // ----- a line painted text by text -----

  /** The chunks of one text: none is empty, and neighbours differ in style. */
  ghost predicate PartOf(part: seq<Chunk>, text: string) {
    text != "" && part != [] && Merged(part) && TextOf(part) == text
  }

  ghost predicate PartsOf(parts: seq<seq<Chunk>>, texts: seq<string>) {
    && |parts| == |texts|
    && forall i: nat {:trigger PartOf(parts[i], texts[i])} :: i < |parts| ==> PartOf(parts[i], texts[i])
  }

  /** The chunks are the texts', one after the other, and paint them. */
  ghost predicate Written(chunks: seq<Chunk>, parts: seq<seq<Chunk>>, texts: seq<string>, bases: seq<Style>,
                          memo: Memo, all: seq<Active>)
  {
    && chunks == Seqs.Concat(parts) && PartsOf(parts, texts)
    && Painted(StylesOf(chunks), bases, memo, all, 0, false)
  }

  lemma {:induction false} PartsSnoc(parts: seq<seq<Chunk>>, texts: seq<string>, part: seq<Chunk>, text: string)
    requires PartsOf(parts, texts) && PartOf(part, text)
    ensures PartsOf(parts + [part], texts + [text])
  {
    var ps, ts := parts + [part], texts + [text];
    forall i: nat | i < |ps| ensures PartOf(ps[i], ts[i]) {
      assert i < |parts| ==> ps[i] == parts[i] && ts[i] == texts[i] && PartOf(parts[i], texts[i]);
    }
  }

  /** One more text is painted where the others end. */
  lemma {:induction false} WrittenGrows(chunks: seq<Chunk>, parts: seq<seq<Chunk>>, texts: seq<string>,
                                        bases: seq<Style>, memo: Memo, larger: Memo, all: seq<Active>,
                                        part: seq<Chunk>, text: string, s: Style)
    requires Written(chunks, parts, texts, bases, memo, all) && Extends(memo, larger)
    requires text != "" && TextOf(part) == text && Merged(part)
    requires Painted(StylesOf(part), Seqs.Repeat(s, |text|), larger, all, |bases|, false)
    ensures Written(chunks + part, parts + [part], texts + NonEmpty(text), bases + Seqs.Repeat(s, |text|), larger, all)
    ensures TextOf(chunks + part) == TextOf(chunks) + text
  {
    PaintedJoin(chunks, part, bases, Seqs.Repeat(s, |text|), memo, larger, all, 0, false);
    PartsSnoc(parts, texts, part, text);
    Seqs.ConcatSnoc(parts, part);
  }

  lemma {:induction false} NothingAdded(texts: seq<string>, bases: seq<Style>, s: Style)
    ensures texts + NonEmpty("") == texts && bases + Seqs.Repeat(s, 0) == bases
  {
  }

  /** A line of tokens as it is painted: part by part, each with a base style of its own. */
  ghost predicate LinePainted(chunks: seq<Chunk>, parts: seq<seq<Chunk>>, memo: Memo, sheet: StyleSheet,
                              kindOf: KindOf, line: Line)
  {
    var segs := line.segments;
    && Written(chunks, parts, LineTexts(segs, |segs|), LineBases(sheet, kindOf, segs, |segs|), memo,
               Resolve(sheet, line.overlays))
    && TextOf(chunks) == Rendered(segs)
  }

  /** The first n tokens of a line are painted, and the next rune has this column. */
  ghost predicate TokensPainted(chunks: seq<Chunk>, parts: seq<seq<Chunk>>, memo: Memo, sheet: StyleSheet,
                                kindOf: KindOf, line: Line, n: nat, col: int)
    requires n <= |line.segments|
  {
    var segs := line.segments;
    && Written(chunks, parts, LineTexts(segs, n), LineBases(sheet, kindOf, segs, n), memo,
               Resolve(sheet, line.overlays))
    && TextOf(chunks) == Rendered(segs[..n]) && col == |LineBases(sheet, kindOf, segs, n)|
  }

  lemma {:induction false} NoTokensPainted(memo: Memo, sheet: StyleSheet, kindOf: KindOf, line: Line)
    ensures TokensPainted([], [], memo, sheet, kindOf, line, 0, 0)
  {
  }

  lemma {:induction false} OneMoreToken(chunks: seq<Chunk>, parts: seq<seq<Chunk>>, memo: Memo, sheet: StyleSheet,
                                        kindOf: KindOf, line: Line, n: nat, before: string)
    requires n < |line.segments| && before == Rendered(line.segments[..n])
    requires var segs := line.segments;
             var texts, bases := LineTexts(segs, n), LineBases(sheet, kindOf, segs, n);
             var tk, kind := segs[n].part, kindOf(segs, n);
             && Written(chunks, parts, texts + TextsOf(tk), bases + BasesOf(sheet, kind, tk), memo,
                        Resolve(sheet, line.overlays))
             && TextOf(chunks) == before + TrimSuffix(tk.origin, '\n')
    ensures var segs := line.segments;
            TokensPainted(chunks, parts, memo, sheet, kindOf, line, n + 1,
                          |LineBases(sheet, kindOf, segs, n)| + |TrimSuffix(segs[n].part.origin, '\n')|)
  {
    NextToken(sheet, kindOf, line.segments, n);
    RenderedSnoc(line.segments, n);
  }

  lemma {:induction false} AllTokensPainted(chunks: seq<Chunk>, parts: seq<seq<Chunk>>, memo: Memo, sheet: StyleSheet,
                                            kindOf: KindOf, line: Line, col: int)
    requires TokensPainted(chunks, parts, memo, sheet, kindOf, line, |line.segments|, col)
    ensures LinePainted(chunks, parts, memo, sheet, kindOf, line)
  {
    assert line.segments[..|line.segments|] == line.segments;
  }

  lemma {:induction false} ElementOfPart(parts: seq<seq<Chunk>>, texts: seq<string>, j: nat)
    requires PartsOf(parts, texts) && j < |Seqs.Concat(parts)|
    ensures Seqs.Concat(parts)[j].text != ""
  {
    var e := Seqs.Concat(parts)[j];
    var i := Seqs.ConcatElement(parts, e);
    assert PartOf(parts[i], texts[i]);
  }

  /** Covering overlays instead of resolved ones. */
  lemma {:induction false} SheetNeighboursShareIff(chunks: seq<Chunk>, j: nat, bases: seq<Style>, memo: Memo,
                                                   sheet: StyleSheet, overlays: seq<Overlay>)
    requires Painted(StylesOf(chunks), bases, memo, Resolve(sheet, overlays), 0, false) && Injective(memo)
    requires SheetApart(sheet, memo)
    requires j + 1 < |chunks| && chunks[j].text != "" && chunks[j + 1].text != ""
    requires AllIn(sheet, bases)
    ensures var c := |TextOf(chunks[..j + 1])|;
            && 0 < c < |bases|
            && (chunks[j].style == chunks[j + 1].style <==>
                && bases[c - 1] == bases[c]
                && StylesFor(sheet, Covering(overlays, c - 1)) == StylesFor(sheet, Covering(overlays, c)))
  {
    var c := |TextOf(chunks[..j + 1])|;
    NeighboursShareIff(chunks, j, bases, memo, sheet, Resolve(sheet, overlays), 0, false);
    StylesAtCovering(sheet, overlays, 0 + c - 1);
    StylesAtCovering(sheet, overlays, 0 + c);
  }

  /** Anywhere on a painted line, also between two tokens: neighbouring chunks have the same
      style exactly when base style and overlays do not change at the border. */
  lemma {:induction false} LineNeighboursShareIff(chunks: seq<Chunk>, parts: seq<seq<Chunk>>, memo: Memo,
                                                  sheet: StyleSheet, kindOf: KindOf, line: Line, j: nat)
    requires LinePainted(chunks, parts, memo, sheet, kindOf, line) && Injective(memo) && SheetApart(sheet, memo)
    requires j + 1 < |chunks|
    ensures var c, bases := |TextOf(chunks[..j + 1])|, LineBases(sheet, kindOf, line.segments, |line.segments|);
            && 0 < c < |bases|
            && (chunks[j].style == chunks[j + 1].style <==>
                && bases[c - 1] == bases[c]
                && StylesFor(sheet, Covering(line.overlays, c - 1)) == StylesFor(sheet, Covering(line.overlays, c)))
  {
    var segs := line.segments;
    var bases, texts := LineBases(sheet, kindOf, segs, |segs|), LineTexts(segs, |segs|);
    BasesInSheet(sheet, kindOf, segs, |segs|);
    ElementOfPart(parts, texts, j);
    ElementOfPart(parts, texts, j + 1);
    SheetNeighboursShareIff(chunks, j, bases, memo, sheet, line.overlays);
  }

  /** Where the i-th text begins. */
  function Border(texts: seq<string>, i: nat): nat
    requires i <= |texts|
  {
    if i == 0 then 0 else Border(texts, i - 1) + |texts[i - 1]|
  }

  /** Base style and overlays do not change from one text to the next. */
  ghost predicate NothingChangesAt(texts: seq<string>, bases: seq<Style>, sheet: StyleSheet, overlays: seq<Overlay>,
                                   i: nat)
    requires i < |texts|
  {
    var c := Border(texts, i);
    && 0 < c < |bases| && bases[c - 1] == bases[c]
    && StylesFor(sheet, Covering(overlays, c - 1)) == StylesFor(sheet, Covering(overlays, c))
  }

  ghost predicate SomeBorderUnchanged(texts: seq<string>, bases: seq<Style>, sheet: StyleSheet,
                                      overlays: seq<Overlay>)
  {
    exists i: nat :: 0 < i < |texts| && NothingChangesAt(texts, bases, sheet, overlays, i)
  }

  ghost predicate SomeNeighboursShare(chunks: seq<Chunk>) {
    exists j {:trigger chunks[j].style} :: 0 <= j < |chunks| - 1 && chunks[j].style == chunks[j + 1].style
  }

  lemma {:induction false} PartsPrefix(parts: seq<seq<Chunk>>, texts: seq<string>, n: nat)
    requires PartsOf(parts, texts) && n <= |parts|
    ensures PartsOf(parts[..n], texts[..n])
  {
    forall i: nat | i < n ensures PartOf(parts[..n][i], texts[..n][i]) {
      assert PartOf(parts[i], texts[i]);
    }
  }

  /** The chunks of the first i parts reach up to the i-th text. */
  lemma {:induction false} PartsReach(parts: seq<seq<Chunk>>, texts: seq<string>, i: nat)
    requires PartsOf(parts, texts) && i <= |parts|
    ensures |TextOf(Seqs.Concat(parts[..i]))| == Border(texts, i)
    ensures |Seqs.Concat(parts[..i])| >= i
  {
    if i > 0 {
      PartsReach(parts, texts, i - 1);
      assert PartOf(parts[i - 1], texts[i - 1]);
      assert parts[..i] == parts[..i - 1] + [parts[i - 1]];
      Seqs.ConcatSnoc(parts[..i - 1], parts[i - 1]);
      ChunksAppend(Seqs.Concat(parts[..i - 1]), parts[i - 1]);
    }
  }

  lemma {:induction false} ConcatPrefix(parts: seq<seq<Chunk>>, i: nat)
    requires i <= |parts|
    ensures |Seqs.Concat(parts[..i])| <= |Seqs.Concat(parts)|
    ensures Seqs.Concat(parts)[..|Seqs.Concat(parts[..i])|] == Seqs.Concat(parts[..i])
  {
    Seqs.ConcatAppend(parts[..i], parts[i..]);
    assert parts == parts[..i] + parts[i..];
  }

  lemma {:induction false} DifferWithinLastPart(parts: seq<seq<Chunk>>, texts: seq<string>, j: nat)
    requires PartsOf(parts, texts) && parts != [] && j + 1 < |Seqs.Concat(parts)|
    ensures j >= |Seqs.Concat(parts[..|parts| - 1])| ==> Seqs.Concat(parts)[j].style != Seqs.Concat(parts)[j + 1].style
  {
    var n := |parts| - 1;
    assert PartOf(parts[n], texts[n]);
  }

  /** Neighbours of one style come from two parts. */
  lemma {:induction false} ShareAcrossParts(parts: seq<seq<Chunk>>, texts: seq<string>, j: nat) returns (i: nat)
    requires PartsOf(parts, texts) && j + 1 < |Seqs.Concat(parts)|
    requires Seqs.Concat(parts)[j].style == Seqs.Concat(parts)[j + 1].style
    ensures 0 < i < |parts| && j + 1 == |Seqs.Concat(parts[..i])|
  {
    var n := |parts| - 1;
    DifferWithinLastPart(parts, texts, j);
    i := n;
    if j + 1 < |Seqs.Concat(parts[..n])| {
      PartsPrefix(parts, texts, n);
      i := ShareAcrossParts(parts[..n], texts[..n], j);
      assert parts[..n][..i] == parts[..i];
    }
  }

  /** What is needed of a line: its parts, painted. */
  ghost predicate PartsPainted(chunks: seq<Chunk>, parts: seq<seq<Chunk>>, texts: seq<string>, bases: seq<Style>,
                               memo: Memo, sheet: StyleSheet, overlays: seq<Overlay>)
  {
    && chunks == Seqs.Concat(parts) && PartsOf(parts, texts) && AllIn(sheet, bases)
    && Painted(StylesOf(chunks), bases, memo, Resolve(sheet, overlays), 0, false)
  }

  /** At the border of two texts the chunks share a style exactly when nothing changes. */
  lemma {:induction false} BorderSharesIff(chunks: seq<Chunk>, parts: seq<seq<Chunk>>, texts: seq<string>,
                                           bases: seq<Style>, memo: Memo, sheet: StyleSheet, overlays: seq<Overlay>,
                                           i: nat)
    requires PartsPainted(chunks, parts, texts, bases, memo, sheet, overlays) && Injective(memo)
    requires SheetApart(sheet, memo)
    requires 0 < i < |parts|
    ensures var j := |Seqs.Concat(parts[..i])| - 1;
            0 <= j < |chunks| - 1 && (chunks[j].style == chunks[j + 1].style <==>
                                      NothingChangesAt(texts, bases, sheet, overlays, i))
  {
    var j := |Seqs.Concat(parts[..i])| - 1;
    BorderOfPart(chunks, parts, texts, i);
    ElementOfPart(parts, texts, j);
    ElementOfPart(parts, texts, j + 1);
    SheetNeighboursShareIff(chunks, j, bases, memo, sheet, overlays);
  }

  lemma {:induction false} SharedFromBorder(chunks: seq<Chunk>, parts: seq<seq<Chunk>>, texts: seq<string>,
                                            bases: seq<Style>, memo: Memo, sheet: StyleSheet, overlays: seq<Overlay>)
    requires PartsPainted(chunks, parts, texts, bases, memo, sheet, overlays)
    requires Injective(memo) && SheetApart(sheet, memo) && SomeBorderUnchanged(texts, bases, sheet, overlays)
    ensures SomeNeighboursShare(chunks)
  {
    var i: nat :| 0 < i < |texts| && NothingChangesAt(texts, bases, sheet, overlays, i);
    BorderSharesIff(chunks, parts, texts, bases, memo, sheet, overlays, i);
    var j := |Seqs.Concat(parts[..i])| - 1;
    assert chunks[j].style == chunks[j + 1].style;
  }

  lemma {:induction false} PartsShareIff(chunks: seq<Chunk>, parts: seq<seq<Chunk>>, texts: seq<string>,
                                         bases: seq<Style>, memo: Memo, sheet: StyleSheet, overlays: seq<Overlay>)
    requires PartsPainted(chunks, parts, texts, bases, memo, sheet, overlays)
    requires Injective(memo) && SheetApart(sheet, memo)
    ensures SomeNeighboursShare(chunks) <==> SomeBorderUnchanged(texts, bases, sheet, overlays)
  {
    if SomeNeighboursShare(chunks) {
      var j: nat :| j < |chunks| - 1 && chunks[j].style == chunks[j + 1].style;
      var i := ShareAcrossParts(parts, texts, j);
      BorderSharesIff(chunks, parts, texts, bases, memo, sheet, overlays, i);
    }
    if SomeBorderUnchanged(texts, bases, sheet, overlays) {
      SharedFromBorder(chunks, parts, texts, bases, memo, sheet, overlays);
    }
  }

  /** The condition on what is painted: some neighbouring chunks of a line share a style exactly
      when from one of its texts to the next base style and overlays do not change. */
  lemma {:induction false} SomeNeighboursShareIff(chunks: seq<Chunk>, parts: seq<seq<Chunk>>, memo: Memo,
                                                  sheet: StyleSheet, kindOf: KindOf, line: Line)
    requires LinePainted(chunks, parts, memo, sheet, kindOf, line) && Injective(memo) && SheetApart(sheet, memo)
    ensures var n := |line.segments|;
            SomeNeighboursShare(chunks) <==>
            SomeBorderUnchanged(LineTexts(line.segments, n), LineBases(sheet, kindOf, line.segments, n), sheet,
                                line.overlays)
  {
    var n := |line.segments|;
    BasesInSheet(sheet, kindOf, line.segments, n);
    PartsShareIff(chunks, parts, LineTexts(line.segments, n), LineBases(sheet, kindOf, line.segments, n), memo, sheet,
                  line.overlays);
  }

  /** A border of texts is one of chunks. */
  lemma {:induction false} BorderOfPart(chunks: seq<Chunk>, parts: seq<seq<Chunk>>, texts: seq<string>, i: nat)
    requires chunks == Seqs.Concat(parts) && PartsOf(parts, texts) && 0 < i < |parts|
    ensures 0 < |Seqs.Concat(parts[..i])| < |chunks|
    ensures |TextOf(chunks[..|Seqs.Concat(parts[..i])|])| == Border(texts, i)
  {
    PartsReach(parts, texts, i);
    ConcatPrefix(parts, i);
    assert parts == parts[..i] + parts[i..];
    Seqs.ConcatAppend(parts[..i], parts[i..]);
    assert PartOf(parts[i], texts[i]);
    assert parts[i..] == [parts[i]] + parts[i + 1..];
    Seqs.ConcatCons(parts[i], parts[i + 1..]);
  }

  /** So two tokens of one kind, without overlays, are two chunks of one style. */
  lemma {:induction false} TwoTokensOneStyle(segs: seq<Segment>, chunks: seq<Chunk>, parts: seq<seq<Chunk>>,
                                             memo: Memo, sheet: StyleSheet, kindOf: KindOf)
    requires |segs| == 2 && kindOf(segs, 0) == kindOf(segs, 1)
    requires segs[0].part == TokenData(OtherType(0), "x", "x", None)
    requires segs[1].part == TokenData(OtherType(0), "y", "y", None)
    requires LinePainted(chunks, parts, memo, sheet, kindOf, Line(segs, 1, FlagDefault, [], []))
    ensures var s := sheet.Of(kindOf(segs, 0));
            chunks == [Chunk(s, "x"), Chunk(s, "y")]
  {
    var s := sheet.Of(kindOf(segs, 0));
    TwoTokens(segs, sheet, kindOf);
    assert Resolve(sheet, []) == [];
    TwoParts(chunks, parts, "x", "y");
    TwoPlainStyles(chunks, memo, s);
  }

  lemma {:induction false} TwoTokens(segs: seq<Segment>, sheet: StyleSheet, kindOf: KindOf)
    requires |segs| == 2 && kindOf(segs, 0) == kindOf(segs, 1)
    requires segs[0].part == TokenData(OtherType(0), "x", "x", None)
    requires segs[1].part == TokenData(OtherType(0), "y", "y", None)
    ensures LineTexts(segs, 2) == ["x", "y"]
    ensures var s := sheet.Of(kindOf(segs, 0)); LineBases(sheet, kindOf, segs, 2) == [s, s]
  {
    var s := sheet.Of(kindOf(segs, 0));
    NoSeparator("x");
    NoSeparator("y");
    assert LineTexts(segs, 1) == ["x"];
    assert LineBases(sheet, kindOf, segs, 1) == [s];
  }

  lemma {:induction false} TwoPlainStyles(chunks: seq<Chunk>, memo: Memo, s: Style)
    requires |chunks| == 2 && |chunks[0].text| == |chunks[1].text| == 1
    requires Painted(StylesOf(chunks), [s, s], memo, [], 0, false)
    ensures chunks[0].style == chunks[1].style == s
  {
    var done := StylesOf(chunks);
    assert PaintedAt(done, [s, s], memo, [], 0, false, 0) && PaintedAt(done, [s, s], memo, [], 0, false, 1);
    OneChunk(chunks[0]);
    assert chunks[..0] == [] && chunks[..1] == [chunks[0]];
    ChunkStyles(chunks, 0, 0);
    ChunkStyles(chunks, 1, 0);
  }

  lemma {:induction false} TwoParts(chunks: seq<Chunk>, parts: seq<seq<Chunk>>, x: string, y: string)
    requires |x| == |y| == 1 && PartsOf(parts, [x, y]) && chunks == Seqs.Concat(parts)
    ensures |chunks| == 2 && chunks[0].text == x && chunks[1].text == y
  {
    assert PartOf(parts[0], [x, y][0]) && PartOf(parts[1], [x, y][1]);
    OneRune(parts[0]);
    OneRune(parts[1]);
    assert parts[..1] == [parts[0]] && parts[..1][..0] == [];
    assert Seqs.Concat(parts[..1]) == parts[0];
    assert chunks == parts[0] + parts[1];
  }

  lemma {:induction false} NoSeparator(x: string)
    requires |x| == 1 && x[0] != '\n'
    ensures Separator.Width(TokenData(OtherType(0), x, x, None)) == 0
  {
    Separator.FirstLineIsPrefix(x);
  }

  lemma {:induction false} OneRune(part: seq<Chunk>)
    requires Merged(part) && |TextOf(part)| == 1
    ensures |part| == 1 && part[0].text == TextOf(part)
  {
    AtLeastOneRuneEach(part);
    assert part == [part[0]];
    OneChunk(part[0]);
  }

  lemma {:induction false} AtLeastOneRuneEach(chunks: seq<Chunk>)
    requires forall i :: 0 <= i < |chunks| ==> chunks[i].text != ""
    ensures |chunks| <= |TextOf(chunks)|
  {
    if chunks != [] {
      AtLeastOneRuneEach(chunks[..|chunks| - 1]);
    }
  }

  /** A cache in order remembers the right looks. */
  lemma {:induction false} CacheLooksRight(keys: Keys, styles: map<nat, Style>, memo: Memo,
                                           origin: map<nat, Combination>)
    requires CacheOk(keys, styles, memo, origin)
    ensures LooksRight(memo)
  {
    forall c | c in memo ensures memo[c].look == Combined(c.base.look, c.overlay.look, c.override) {
      assert Answers(c, memo[c], keys, styles);
    }
  }
}
