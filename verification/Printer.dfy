/** Painting overlays: a sweep over style boundaries must equal a fold per column. */
module Printer {
  import opened Position
  import opened Tokens
  import opened Lines
  import opened Blender
  import opened Painting
  import Separator
  import Seqs

  class Printer {
    const sheet: StyleSheet
    const blender: Blender

    /** The cache is in order, and styles of the sheet are no answers. */
    ghost predicate Valid()
      reads blender
    {
      blender.Valid() && SheetApart(sheet, blender.memo)
    }

    /** A printer has a cache of its own. */
    constructor (sheet: StyleSheet)
      ensures Valid() && this.sheet == sheet && fresh(blender) && blender.nextKey == 1
    {
      this.sheet := sheet;
      blender := new Blender();
    }

    /** One more overlay on the styles below it. */
    method Apply(below: Style, s: Style, override: bool, ghost base: Style, ghost overlays: seq<Style>,
                 ghost alwaysBlend: bool)
      returns (result: Style)
      requires Valid() && blender.nextKey + 3 <= LIMIT
      requires Fold(blender.memo, base, overlays, alwaysBlend) == Some(below)
      requires override == (!alwaysBlend && overlays == [])
      modifies blender
      ensures Valid() && Extends(old(blender.memo), blender.memo)
      ensures old(blender.nextKey) <= blender.nextKey <= old(blender.nextKey) + 3
      ensures Fold(blender.memo, base, overlays + [s], alwaysBlend) == Some(result)
    {
      ghost var memo := blender.memo;
      result := blender.Blend(below, s, override);
      FoldNext(memo, blender.memo, base, overlays, alwaysBlend, below, s);
    }

    method ComputeStyleForPoint(point: int, active: seq<Active>, base: Style, alwaysBlend: bool) returns (result: Style)
      requires Valid() && blender.nextKey + 3 * |active| <= LIMIT
      modifies blender
      ensures Valid() && Extends(old(blender.memo), blender.memo)
      ensures old(blender.nextKey) <= blender.nextKey <= old(blender.nextKey) + 3 * |active|
      ensures Fold(blender.memo, base, StylesAt(active, point), alwaysBlend) == Some(result)
    {
      result := base;
      var firstRange := true;
      ghost var before := [];
      for k := 0 to |active|
        invariant Valid() && Extends(old(blender.memo), blender.memo)
        invariant old(blender.nextKey) <= blender.nextKey <= old(blender.nextKey) + 3 * k
        invariant before == StylesAt(active[..k], point) && (firstRange <==> before == [])
        invariant Fold(blender.memo, base, before, alwaysBlend) == Some(result)
      {
        var ov := active[k];
        assert active[..k + 1][..k] == active[..k];
        if ov.cols.Contains(point) {
          result := Apply(result, ov.style, !alwaysBlend && firstRange, base, before, alwaysBlend);
          before := before + [ov.style];
          firstRange := false;
        }
      }
      assert active[..|active|] == active;
    }

    /** The overlays that overlap the columns, with their styles. */
    method ActiveOverlays(overlays: seq<Overlay>, cols: Span) returns (active: seq<Active>)
      ensures |active| <= |overlays| && SameOn(cols, active, Resolve(sheet, overlays))
    {
      active := [];
      for k := 0 to |overlays|
        invariant |active| <= k && SameOn(cols, active, Resolve(sheet, overlays[..k]))
      {
        var o := overlays[k];
        var a := Active(o.cols, sheet.Of(o.kind));
        SameOnNext(cols, active, Resolve(sheet, overlays[..k]), a);
        assert Resolve(sheet, overlays[..k + 1]) == Resolve(sheet, overlays[..k]) + [a];
        if o.cols.Overlaps(cols) {
          active := active + [a];
        }
      }
      assert overlays[..|overlays|] == overlays;
    }

    /** Paints the piece between two neighbouring boundaries. */
    method PaintPiece(src: string, cols: Span, base: Style, alwaysBlend: bool, active: seq<Active>,
                      boundaries: seq<int>, i: nat, chunks: seq<Chunk>, run: Style?, spanStart: nat,
                      ghost done: seq<Style>)
      returns (flushed: seq<Chunk>, newRun: Style, newStart: nat, ghost newDone: seq<Style>)
      requires Boundaries(boundaries, active, cols) && i + 1 < |boundaries| && cols.end == cols.start + |src|
      requires |done| == boundaries[i] - cols.start && SweptTo(chunks, run, src, spanStart, |done|, done)
      requires Valid() && blender.nextKey + 3 * |active| <= LIMIT
      requires Painted(done, Seqs.Repeat(base, |done|), blender.memo, active, cols.start, alwaysBlend)
      modifies blender
      ensures Valid() && Extends(old(blender.memo), blender.memo)
      ensures old(blender.nextKey) <= blender.nextKey <= old(blender.nextKey) + 3 * |active|
      ensures |newDone| == boundaries[i + 1] - cols.start
      ensures InProgress(flushed, newRun, src, newStart, |newDone|, newDone)
      ensures Painted(newDone, Seqs.Repeat(base, |newDone|), blender.memo, active, cols.start, alwaysBlend)
    {
      var boundaryStart, boundaryEnd := boundaries[i] - cols.start, boundaries[i + 1] - cols.start;
      ghost var memo := blender.memo;
      var spanStyle := ComputeStyleForPoint(boundaries[i], active, base, alwaysBlend);
      BoundaryWithin(boundaries, active, cols, i);
      SweepAdvances(done, spanStyle, base, memo, blender.memo, active, boundaries, cols, i, alwaysBlend);
      flushed, newRun, newStart := AddPiece(chunks, run, src, spanStart, boundaryStart, boundaryEnd, spanStyle, done);
      newDone := done + Seqs.Repeat(spanStyle, boundaryEnd - boundaryStart);
    }

    /** Paints the pieces between neighbouring boundaries, merging those of one style. */
    method Sweep(src: string, cols: Span, base: Style, alwaysBlend: bool, active: seq<Active>)
      returns (chunks: seq<Chunk>)
      requires src != "" && cols.end == cols.start + |src|
      requires Valid() && blender.nextKey + KeysFor(|active|, 2 * |active| + 1) <= LIMIT
      modifies blender
      ensures Valid() && Extends(old(blender.memo), blender.memo)
      ensures old(blender.nextKey) <= blender.nextKey <= old(blender.nextKey) + KeysFor(|active|, 2 * |active| + 1)
      ensures TextOf(chunks) == src && Merged(chunks)
      ensures Painted(StylesOf(chunks), Seqs.Repeat(base, |src|), blender.memo, active, cols.start, alwaysBlend)
    {
      var boundaries := ComputeStyleBoundaries(active, cols);
      chunks := [];
      var currentStyle: Style? := null;
      var spanStart: nat := 0;
      ghost var done := [];
      for i := 0 to |boundaries| - 1
        invariant Valid() && Extends(old(blender.memo), blender.memo)
        invariant old(blender.nextKey) <= blender.nextKey <= old(blender.nextKey) + KeysFor(|active|, i)
        invariant |done| == boundaries[i] - cols.start && (i > 0 ==> currentStyle != null)
        invariant SweptTo(chunks, currentStyle, src, spanStart, |done|, done)
        invariant Painted(done, Seqs.Repeat(base, |done|), blender.memo, active, cols.start, alwaysBlend)
      {
        KeysForMonotone(|active|, |active|, i + 1, 2 * |active| + 1);
        chunks, currentStyle, spanStart, done :=
          PaintPiece(src, cols, base, alwaysBlend, active, boundaries, i, chunks, currentStyle, spanStart, done);
      }
      KeysForMonotone(|active|, |active|, |boundaries| - 1, 2 * |active| + 1);
      RunEnds(chunks, currentStyle, src, spanStart, |src|, done);
      assert src[..|src|] == src;
      chunks := chunks + [Chunk(currentStyle, src[spanStart..])];
    }

    /** Every rune gets its base style with exactly the overlays that cover its column, in
        their order. */
    method StyleLineWithRanges(src: string, pos: Position, s: Style, alwaysBlend: bool, overlays: seq<Overlay>)
      returns (chunks: seq<Chunk>)
      requires Valid() && blender.nextKey + KeysForText(|overlays|) <= LIMIT
      modifies blender
      ensures Valid() && Extends(old(blender.memo), blender.memo)
      ensures old(blender.nextKey) <= blender.nextKey <= old(blender.nextKey) + KeysForText(|overlays|)
      ensures TextOf(chunks) == src && Merged(chunks)
      ensures Painted(StylesOf(chunks), Seqs.Repeat(s, |src|), blender.memo, Resolve(sheet, overlays), pos.col,
                      alwaysBlend)
    {
      if src == "" {
        return [];
      }
      OneChunk(Chunk(s, src));
      if |overlays| == 0 {
        PlainPainted(s, |src|, blender.memo, Resolve(sheet, overlays), pos.col, alwaysBlend);
        return [Chunk(s, src)];
      }
      var cols := Span(pos.col, pos.col + |src|);
      var active := ActiveOverlays(overlays, cols);
      if |active| == 0 {
        PlainPainted(s, |src|, blender.memo, Resolve(sheet, overlays), pos.col, alwaysBlend);
        return [Chunk(s, src)];
      }
      KeysForMonotone(|active|, |overlays|, 2 * |active| + 1, 2 * |overlays| + 1);
      chunks := Sweep(src, cols, s, alwaysBlend, active);
      PaintedByAll(StylesOf(chunks), Seqs.Repeat(s, |src|), blender.memo, active, Resolve(sheet, overlays), pos.col,
                   alwaysBlend);
    }

    /** Writes a text in a style after what has been written already, if there is any text. */
    method Write(chunks: seq<Chunk>, ghost parts: seq<seq<Chunk>>, ghost texts: seq<string>, ghost bases: seq<Style>,
                 src: string, pos: Position, s: Style, overlays: seq<Overlay>)
      returns (written: seq<Chunk>, newPos: Position, ghost newParts: seq<seq<Chunk>>)
      requires Valid() && blender.nextKey + KeysForText(|overlays|) <= LIMIT
      requires Written(chunks, parts, texts, bases, blender.memo, Resolve(sheet, overlays)) && pos.col == |bases|
      modifies blender
      ensures Valid() && Extends(old(blender.memo), blender.memo)
      ensures old(blender.nextKey) <= blender.nextKey <= old(blender.nextKey) + KeysForText(|overlays|)
      ensures newPos == Position(pos.line, pos.col + |src|)
      ensures TextOf(written) == TextOf(chunks) + src
      ensures Written(written, newParts, texts + NonEmpty(src), bases + Seqs.Repeat(s, |src|),
                      blender.memo, Resolve(sheet, overlays))
    {
      if |src| == 0 {
        NothingAdded(texts, bases, s);
        return chunks, pos, parts;
      }
      ghost var memo := blender.memo;
      var more := StyleLineWithRanges(src, pos, s, false, overlays);
      WrittenGrows(chunks, parts, texts, bases, memo, blender.memo, Resolve(sheet, overlays), more, src, s);
      written, newParts := chunks + more, parts + [more];
      newPos := pos.(col := pos.col + |src|);
    }

    /** Paints white space before the value in the default style, the rest in the token's. */
    method RenderToken(chunks: seq<Chunk>, ghost parts: seq<seq<Chunk>>, ghost texts: seq<string>,
                       ghost bases: seq<Style>, tk: TokenData, kind: Kind, pos: Position, overlays: seq<Overlay>)
      returns (written: seq<Chunk>, newPos: Position, ghost newParts: seq<seq<Chunk>>)
      requires Valid() && blender.nextKey + 2 * KeysForText(|overlays|) <= LIMIT
      requires Written(chunks, parts, texts, bases, blender.memo, Resolve(sheet, overlays)) && pos.col == |bases|
      modifies blender
      ensures Valid() && Extends(old(blender.memo), blender.memo)
      ensures old(blender.nextKey) <= blender.nextKey <= old(blender.nextKey) + 2 * KeysForText(|overlays|)
      ensures newPos == Position(pos.line, pos.col + |TrimSuffix(tk.origin, '\n')|)
      ensures TextOf(written) == TextOf(chunks) + TrimSuffix(tk.origin, '\n')
      ensures Written(written, newParts, texts + TextsOf(tk), bases + BasesOf(sheet, kind, tk),
                      blender.memo, Resolve(sheet, overlays))
    {
      var origin := TrimSuffix(tk.origin, '\n');
      var separatorRunes := Separator.LeadingWhitespaceRunes(origin, Separator.ValueOffset(tk));
      Separator.LeadingIsWidth(tk);
      var separator, content := origin[..separatorRunes], origin[separatorRunes..];
      TokenSteps(sheet, kind, tk, TextOf(chunks), texts, bases);
      written, newPos, newParts := Write(chunks, parts, texts, bases, separator, pos, sheet.Of(TEXT), overlays);
      ghost var nextTexts, nextBases := texts + NonEmpty(separator), bases + Seqs.Repeat(sheet.Of(TEXT), |separator|);
      written, newPos, newParts := Write(written, newParts, nextTexts, nextBases, content, newPos, sheet.Of(kind),
                                         overlays);
    }

    /** Every rune of a line gets the style its token gives it, with exactly the overlays
        that cover its column, in their order; every text is cut only where the style changes. */
    method RenderTokenLine(lineIndex: nat, line: Line, kindOf: KindOf)
      returns (chunks: seq<Chunk>, ghost parts: seq<seq<Chunk>>)
      requires Valid() && blender.nextKey + KeysForLine(|line.overlays|, |line.segments|) <= LIMIT
      modifies blender
      ensures Valid() && Extends(old(blender.memo), blender.memo)
      ensures old(blender.nextKey) <= blender.nextKey <=
              old(blender.nextKey) + KeysForLine(|line.overlays|, |line.segments|)
      ensures LinePainted(chunks, parts, blender.memo, sheet, kindOf, line)
    {
      var pos, segs, overlays := Position(lineIndex, 0), line.segments, line.overlays;
      chunks, parts := [], [];
      ghost var memo, nextKey := blender.memo, blender.nextKey;
      NoTokensPainted(memo, sheet, kindOf, line);
      for k := 0 to |segs|
        invariant Valid() && Extends(memo, blender.memo)
        invariant nextKey <= blender.nextKey <= nextKey + KeysForLine(|overlays|, k)
        invariant TokensPainted(chunks, parts, blender.memo, sheet, kindOf, line, k, pos.col)
      {
        var tk, kind := segs[k].part, kindOf(segs, k);
        ghost var texts, bases, before := LineTexts(segs, k), LineBases(sheet, kindOf, segs, k), TextOf(chunks);
        KeysForLineMonotone(|overlays|, k + 1, |segs|);
        chunks, pos, parts := RenderToken(chunks, parts, texts, bases, tk, kind, pos, overlays);
        OneMoreToken(chunks, parts, blender.memo, sheet, kindOf, line, k, before);
      }
      AllTokensPainted(chunks, parts, blender.memo, sheet, kindOf, line, pos.col);
    }
  }
}
