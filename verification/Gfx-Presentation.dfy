/** Presenting damage, and why a sink that is kept up with it agrees with its surface. */
module Presentation {
  import opened Wrappers
  import opened Words
  import opened Rects
  import opened DamageSpec
  import opened DamageSets
  import opened Pictures
  import opened Surfaces

  datatype PresentError = FormatMismatch(surface: PixelFormat, sink: PixelFormat)

  /** The area both hold. */
  function Shared(a: Shape, b: Shape): (r: Rect) {
    Rect(0, 0, Min(a.width, b.width), Min(a.height, b.height))
  }

  /** A pixel is in that area when both pictures have it. */
  lemma SharedIsBoth(a: Shape, b: Shape, x: nat, y: nat)
    ensures Contains(Shared(a, b), x, y) <==> x < a.width && x < b.width && y < a.height && y < b.height
  {
  }

  /** The sink after the rectangles were copied one by one. */
  function Presented(from: seq<Pixel>, shape: Shape, into: seq<Pixel>, target: Shape, held: seq<Rect>)
    : (r: seq<Pixel>)
    requires WellShaped(shape, |from|)
    ensures |r| == |into|
  {
    if held == [] then into
    else
      var n := |held| - 1;
      var part := Intersect(held[n], Shared(shape, target));
      PartFits(held[n], shape, target);
      RowsWritten(Presented(from, shape, into, target, held[..n]), target, part.x, part.y,
        Rows(from, shape, part))
  }

  /** The first `n` rows of a part of a picture, as they are. */
  function RowsUpTo(from: seq<Pixel>, shape: Shape, part: Rect, n: nat): (rows: seq<seq<Pixel>>)
    ensures |rows| == n
  {
    seq(n, k requires 0 <= k < n => RunAt(from, Index(shape, part.x, part.y + k), part.w))
  }

  /** All of them. */
  function Rows(from: seq<Pixel>, shape: Shape, part: Rect): (rows: seq<seq<Pixel>>)
    ensures |rows| == part.h
  {
    RowsUpTo(from, shape, part, part.h)
  }

  lemma PartFits(r: Rect, shape: Shape, target: Shape)
    ensures var part := Intersect(r, Shared(shape, target));
      part.x + part.w <= Min(shape.width, target.width) && part.y + part.h <= Min(shape.height, target.height)
      && Right(part) == part.x + part.w && Bottom(part) == part.y + part.h
  {
  }

  lemma RowsAt(from: seq<Pixel>, shape: Shape, part: Rect, a: nat, b: nat)
    requires WellShaped(shape, |from|) && part.x + part.w <= shape.width && part.y + part.h <= shape.height
    requires part.x <= a < part.x + part.w && part.y <= b < part.y + part.h
    ensures var rows := Rows(from, shape, part);
      |rows[b - part.y]| == part.w && Index(shape, a, b) < |from|
      && rows[b - part.y][a - part.x] == from[Index(shape, a, b)]
  {
    hide Index;
    RowFits(shape, |from|, part.x, b, part.w);
    IndexStep(shape, part.x, b, a - part.x);
    var at := Index(shape, part.x, b);
    assert Rows(from, shape, part)[b - part.y] == RunAt(from, at, part.w);
  }

  lemma AllRowsFit(from: seq<Pixel>, shape: Shape, target: Shape, part: Rect)
    requires WellShaped(shape, |from|) && part.x + part.w <= Min(shape.width, target.width)
    requires part.y + part.h <= Min(shape.height, target.height)
    ensures RowsFit(target, part.x, part.y, part.w, Rows(from, shape, part))
  {
    hide Index;
    forall k | 0 <= k < part.h ensures |Rows(from, shape, part)[k]| == part.w {
      RowFits(shape, |from|, part.x, part.y + k, part.w);
      assert Rows(from, shape, part)[k] == RunAt(from, Index(shape, part.x, part.y + k), part.w);
    }
  }

  /** What a presentation shows: a pixel of the shared area that is damaged is the surface's, every
      other, in the picture or in the padding of a row, is what it was. */
  lemma {:induction false} PresentedAt(from: seq<Pixel>, shape: Shape, into: seq<Pixel>, target: Shape,
      held: seq<Rect>, a: nat, b: nat)
    requires WellShaped(shape, |from|) && WellShaped(target, |into|) && a < target.stride && b < target.height
    ensures Index(target, a, b) < |into|
    ensures Contains(Shared(shape, target), a, b) ==> Index(shape, a, b) < |from|
    ensures Presented(from, shape, into, target, held)[Index(target, a, b)]
      == if Contains(Shared(shape, target), a, b) && Covers(held, a, b)
         then from[Index(shape, a, b)] else into[Index(target, a, b)]
  {
    hide Index, Intersect, Contains, RowsWritten, WellShaped, Rows;
    IndexFits(target, |into|, a, b);
    SharedIndex(shape, target, |from|, a, b);
    if held == [] {
      assert !Covers(held, a, b);
    } else {
      var n := |held| - 1;
      var front := held[..n];
      PresentedAt(from, shape, into, target, front, a, b);
      var part, before := Intersect(held[n], Shared(shape, target)), Presented(from, shape, into, target, front);
      PartFits(held[n], shape, target);
      AllRowsFit(from, shape, target, part);
      RowsWrittenAt(before, target, part.x, part.y, part.w, Rows(from, shape, part), a, b);
      PartContains(held[n], shape, target, a, b);
      CoversLast(held, a, b);
      if InRows(part.x, part.y, part.w, part.h, a, b) {
        RowsAt(from, shape, part, a, b);
      }
    }
  }

  lemma SharedIndex(shape: Shape, target: Shape, n: nat, a: nat, b: nat)
    requires WellShaped(shape, n)
    ensures Contains(Shared(shape, target), a, b) ==> Index(shape, a, b) < n
  {
    hide Index;
    if Contains(Shared(shape, target), a, b) {
      IndexFits(shape, n, a, b);
    }
  }

  lemma PartContains(r: Rect, shape: Shape, target: Shape, a: nat, b: nat)
    ensures var part := Intersect(r, Shared(shape, target));
      InRows(part.x, part.y, part.w, part.h, a, b) <==> Contains(r, a, b) && Contains(Shared(shape, target), a, b)
  {
    hide Intersect;
    IntersectIsBoth(r, Shared(shape, target), a, b);
    PartFits(r, shape, target);
  }

  lemma CoversLast(held: seq<Rect>, a: nat, b: nat)
    requires held != []
    ensures var n := |held| - 1;
      Covers(held, a, b) <==> Covers(held[..n], a, b) || Contains(held[n], a, b)
  {
    hide Contains;
    var n := |held| - 1;
    var front := held[..n];
    if Covers(held, a, b) {
      var i :| 0 <= i < |held| && Contains(held[i], a, b);
      if i < n {
        assert front[i] == held[i];
      }
    }
    if Covers(front, a, b) {
      var i :| 0 <= i < |front| && Contains(front[i], a, b);
      assert held[i] == front[i];
    }
  }

  lemma {:induction false} PresentedPast(from: seq<Pixel>, shape: Shape, into: seq<Pixel>, target: Shape,
      held: seq<Rect>, i: nat)
    requires WellShaped(shape, |from|) && WellShaped(target, |into|) && target.height * target.stride <= i < |into|
    ensures Presented(from, shape, into, target, held)[i] == into[i]
  {
    hide Index, Intersect, RowsWritten, Rows;
    if held != [] {
      var n := |held| - 1;
      PresentedPast(from, shape, into, target, held[..n], i);
      var part := Intersect(held[n], Shared(shape, target));
      PartFits(held[n], shape, target);
      AllRowsFit(from, shape, target, part);
      PastThePicture(Presented(from, shape, into, target, held[..n]), target, part.x, part.y, part.w,
        Rows(from, shape, part), i);
    }
  }

  // ---------- the method ----------

  function Area(r: Rect): (n: nat) {
    r.w * r.h
  }

  /** The pixels of the parts. */
  function Count(held: seq<Rect>, shared: Rect): (n: nat) {
    hide Intersect, Area;
    if held == [] then 0
    else Count(held[..|held| - 1], shared) + Area(Intersect(held[|held| - 1], shared))
  }

  /** `n` rows of `w` pixels. */
  function Times(w: nat, n: nat): (r: nat) {
    if n == 0 then 0 else Times(w, n - 1) + w
  }

  lemma {:induction false} TimesIsProduct(w: nat, n: nat)
    ensures Times(w, n) == w * n
  {
    if n > 0 {
      TimesIsProduct(w, n - 1);
      assert w * n == w * (n - 1) + w;
    }
  }

  function Saturated(n: nat): (r: nat) {
    if n > U64_MAX then U64_MAX else n
  }

  /** Makes the sink `Presented`, and counts its pixels up to `U64_MAX`. */
  method Present(surface: Surface, sink: Surface, damage: Damage) returns (r: Result<nat, PresentError>)
    requires surface.Valid() && sink.Valid() && damage.Valid() && surface.bytes != sink.bytes
    modifies sink.bytes
    ensures r.Ok? <==> surface.format == sink.format
    ensures r.Err? ==> r.error == FormatMismatch(surface.format, sink.format) && sink.bytes[..] == old(sink.bytes[..])
    ensures Rest(sink.bytes[..]) == old(Rest(sink.bytes[..]))
    ensures r.Ok? ==> (sink.Cells() == Presented(old(surface.Cells()), surface.shape, old(sink.Cells()), sink.shape,
      old(damage.Held())))
    ensures r.Ok? ==> r.value == Saturated(Count(old(damage.Held()), Shared(surface.shape, sink.shape)))
  {
    hide CellsOf, Intersect, RowsWritten, Rows, Area;
    if surface.format != sink.format {
      return Err(FormatMismatch(surface.format, sink.format));
    }
    var shared := Shared(surface.shape, sink.shape);
    ghost var from, into, held := surface.Cells(), sink.Cells(), damage.Held();
    var written: nat := 0;
    for i := 0 to damage.len
      invariant Rest(sink.bytes[..]) == old(Rest(sink.bytes[..])) && surface.Cells() == from
      invariant sink.Cells() == Presented(from, surface.shape, into, sink.shape, held[..i])
      invariant written == Saturated(Count(held[..i], shared))
    {
      ghost var j := i + 1;
      assert held[..j][..i] == held[..i] && held[..j][i] == held[i] == damage.rects[i];
      var part := Intersect(damage.rects[i], shared);
      PartFits(damage.rects[i], surface.shape, sink.shape);
      written := PresentPart(surface, sink, part, written, Count(held[..i], shared));
    }
    assert held[..damage.len] == held;
    r := Ok(written);
  }

  /** Copies the rows of one part. */
  method PresentPart(surface: Surface, sink: Surface, part: Rect, written: nat, ghost counted: nat) returns (total: nat)
    requires surface.Valid() && sink.Valid() && surface.bytes != sink.bytes && written == Saturated(counted)
    requires part.x + part.w <= Min(surface.shape.width, sink.shape.width)
    requires part.y + part.h <= Min(surface.shape.height, sink.shape.height)
    modifies sink.bytes
    ensures Rest(sink.bytes[..]) == old(Rest(sink.bytes[..]))
    ensures sink.Cells() == RowsWritten(old(sink.Cells()), sink.shape, part.x, part.y,
      Rows(old(surface.Cells()), surface.shape, part))
    ensures total == Saturated(counted + Area(part))
  {
    hide CellsOf, RowsWritten, Index, RowsUpTo;
    ghost var from, before := surface.Cells(), sink.Cells();
    total := written;
    NoRows(before, sink.shape, part.x, part.y);
    RowsNone(from, surface.shape, part);
    TimesIsProduct(part.w, part.h);
    for row: nat := 0 to part.h
      invariant Rest(sink.bytes[..]) == old(Rest(sink.bytes[..])) && surface.Cells() == from
      invariant sink.Cells() == RowsWritten(before, sink.shape, part.x, part.y,
          RowsUpTo(from, surface.shape, part, row))
      invariant total == Saturated(counted + Times(part.w, row))
    {
      var y := part.y + row;
      RowFits(surface.shape, |from|, part.x, y, part.w);
      var bytes := surface.ReadRow(part.x, y, part.w);
      NextRow(before, sink.shape, part.x, part.y, RowsUpTo(from, surface.shape, part, row), bytes);
      RowsGrow(from, surface.shape, part, row);
      sink.WriteRow(part.x, y, bytes);
      total := Saturated(total + part.w);
    }
  }

  lemma RowsNone(from: seq<Pixel>, shape: Shape, part: Rect)
    ensures RowsUpTo(from, shape, part, 0) == []
  {
  }

  lemma RowsGrow(from: seq<Pixel>, shape: Shape, part: Rect, n: nat)
    ensures RowsUpTo(from, shape, part, n + 1)
      == RowsUpTo(from, shape, part, n) + [RunAt(from, Index(shape, part.x, part.y + n), part.w)]
  {
  }

  // ---------- presenting only what changed ----------

  /** A picture: its pixels and its shape. */
  datatype Picture = Picture(cells: seq<Pixel>, shape: Shape)

  ghost predicate Whole(p: Picture) {
    WellShaped(p.shape, |p.cells|)
  }

  function PixelOf(p: Picture, x: nat, y: nat): (r: Pixel)
    requires WellShaped(p.shape, |p.cells|) && x < p.shape.stride && y < p.shape.height
  {
    IndexFits(p.shape, |p.cells|, x, y);
    p.cells[Index(p.shape, x, y)]
  }

  ghost predicate SamePixel(a: Picture, b: Picture, x: nat, y: nat)
    requires Whole(a) && Whole(b) && Contains(Shared(a.shape, b.shape), x, y)
  {
    PixelOf(a, x, y) == PixelOf(b, x, y)
  }

  /** Where nothing is damaged the two show the same. */
  ghost predicate InStep(a: Picture, b: Picture, held: seq<Rect>)
    requires Whole(a) && Whole(b)
  {
    forall x: nat, y: nat | Contains(Shared(a.shape, b.shape), x, y) && !Covers(held, x, y) :: SamePixel(a, b, x, y)
  }

  /** A drawing changes no pixel it does not damage, and takes no damage away. */
  ghost predicate Draws(a: Picture, held: seq<Rect>, a': Picture, held': seq<Rect>) {
    && Whole(a) && Whole(a') && a'.shape == a.shape
    && forall x: nat, y: nat | x < a.shape.width && y < a.shape.height && !Covers(held', x, y) ::
         !Covers(held, x, y) && PixelOf(a', x, y) == PixelOf(a, x, y)
  }

  /** Rows written where the damage was recorded are such a drawing. Filling and blitting are that. */
  lemma WritingDraws(a: Picture, held: seq<Rect>, area: Rect, rows: seq<seq<Pixel>>)
    requires Whole(a) && RowsFit(a.shape, area.x, area.y, area.w, rows) && |rows| == area.h
    requires Right(area) == area.x + area.w && Bottom(area) == area.y + area.h
    ensures Draws(a, held, a.(cells := RowsWritten(a.cells, a.shape, area.x, area.y, rows)), Pushed(held, area))
  {
    hide Index, RowsWritten, Pushed;
    var a', held' := a.(cells := RowsWritten(a.cells, a.shape, area.x, area.y, rows)), Pushed(held, area);
    StillWhole(a, a');
    forall x: nat, y: nat | x < a.shape.width && y < a.shape.height && !Covers(held', x, y)
      ensures !Covers(held, x, y) && PixelOf(a', x, y) == PixelOf(a, x, y)
    {
      if Covers(held, x, y) || Contains(area, x, y) {
        PushCovers(held, area, x, y);
      }
      StrideCovers(a, x);
      RowsWrittenAt(a.cells, a.shape, area.x, area.y, area.w, rows, x, y);
    }
  }

  /** Filling is such a drawing. */
  lemma FillDraws(a: Picture, held: seq<Rect>, rect: Rect, p: Pixel)
    requires Whole(a)
    ensures var area := ClipTo(rect, a.shape.width, a.shape.height);
      Draws(a, held, a.(cells := RowsWritten(a.cells, a.shape, area.x, area.y, Filling(p, area.w, area.h))),
          Pushed(held, area))
  {
    hide RowsWritten, Pushed, Draws, Intersect;
    var area := ClipTo(rect, a.shape.width, a.shape.height);
    ClipFits(rect, a.shape.width, a.shape.height);
    WritingDraws(a, held, area, Filling(p, area.w, area.h));
  }

  /** So is blitting. */
  lemma BlitDraws(a: Picture, held: seq<Rect>, source: Picture, from: PixelFormat, into: PixelFormat, x: nat, y: nat,
      placed: Rect)
    requires Whole(a) && CanTake(source.shape, |source.cells|, x, y, placed.w, placed.h)
    requires placed.x + placed.w <= a.shape.width && placed.y + placed.h <= a.shape.height
    ensures Draws(a, held, a.(cells := RowsWritten(a.cells, a.shape, placed.x, placed.y,
      Taken(source.cells, source.shape, from, into, x, y, placed.w, placed.h))), Pushed(held, placed))
  {
    hide RowsWritten, Pushed, Draws, Index;
    var rows := Taken(source.cells, source.shape, from, into, x, y, placed.w, placed.h);
    forall k | 0 <= k < |rows| ensures |rows[k]| == placed.w {
      RowFits(source.shape, |source.cells|, x, y + k, placed.w);
      assert rows[k] == ConvertRow(from, into, RunAt(source.cells, Index(source.shape, x, y + k), placed.w));
    }
    WritingDraws(a, held, placed, rows);
  }

  lemma StillWhole(a: Picture, b: Picture)
    requires Whole(a) && a.shape == b.shape && |a.cells| == |b.cells|
    ensures Whole(b)
  {
  }

  lemma StrideCovers(a: Picture, x: nat)
    requires Whole(a) && x < a.shape.width
    ensures x < a.shape.stride
  {
  }

  /** Over any run of drawings the surface and what shows it stay in step where nothing is damaged. */
  lemma {:induction false} DrawingKeepsStep(pictures: seq<Picture>, damages: seq<seq<Rect>>, shown: Picture, k: nat)
    requires |pictures| == |damages| > 0 && k < |pictures| && Whole(shown)
    requires forall i | 0 <= i < |pictures| - 1 :: Draws(pictures[i], damages[i], pictures[i + 1], damages[i + 1])
    requires Whole(pictures[0]) && InStep(pictures[0], shown, damages[0])
    ensures Whole(pictures[k]) && pictures[k].shape == pictures[0].shape && InStep(pictures[k], shown, damages[k])
  {
    hide PixelOf, Covers, WellShaped;
    if k > 0 {
      var i := k - 1;
      DrawingKeepsStep(pictures, damages, shown, i);
      assert Draws(pictures[i], damages[i], pictures[i + 1], damages[i + 1]);
      StepDrawn(pictures[i], damages[i], pictures[k], damages[k], shown);
    }
  }

  lemma StepDrawn(a: Picture, held: seq<Rect>, a': Picture, held': seq<Rect>, shown: Picture)
    requires Draws(a, held, a', held') && Whole(shown) && InStep(a, shown, held)
    ensures InStep(a', shown, held')
  {
    hide PixelOf, Covers, WellShaped;
    forall x: nat, y: nat | Contains(Shared(a'.shape, shown.shape), x, y) && !Covers(held', x, y)
      ensures SamePixel(a', shown, x, y)
    {
      assert x < a.shape.width && y < a.shape.height;
      assert SamePixel(a, shown, x, y);
    }
  }

  /** Presenting the damage brings them to show the same everywhere, as presenting everything would;
      a pixel that was not damaged, and the padding of every row, is left alone. */
  lemma PresentingCatchesUp(a: Picture, shown: Picture, held: seq<Rect>, x: nat, y: nat)
    requires Whole(a) && Whole(shown) && InStep(a, shown, held) && x < shown.shape.stride && y < shown.shape.height
    ensures var after := shown.(cells := Presented(a.cells, a.shape, shown.cells, shown.shape, held));
      && Whole(after)
      && (Contains(Shared(a.shape, shown.shape), x, y) ==> SamePixel(a, after, x, y))
      && (!Contains(Shared(a.shape, shown.shape), x, y) || !Covers(held, x, y) ==>
            PixelOf(after, x, y) == PixelOf(shown, x, y))
  {
    hide Index, Presented, WellShaped, Covers, Contains;
    var after := shown.(cells := Presented(a.cells, a.shape, shown.cells, shown.shape, held));
    StillWhole(shown, after);
    PresentedAt(a.cells, a.shape, shown.cells, shown.shape, held, x, y);
    if Contains(Shared(a.shape, shown.shape), x, y) && !Covers(held, x, y) {
      assert SamePixel(a, shown, x, y);
    }
  }
}
