/** A surface over bytes the caller owns. */
module Surfaces {
  import opened Wrappers
  import opened Words
  import opened Rects
  import opened DamageSpec
  import opened DamageSets
  import opened Pictures

  datatype SurfaceError = Empty | Stride | Overflow | TooShort(needed: nat, given: nat)

  /** The pixels bytes hold. */
  function CellsOf(b: seq<Byte>): (cells: seq<Pixel>)
    ensures |cells| == |b| / 4
  {
    seq(|b| / 4, i requires 0 <= i < |b| / 4 => Pixel(b[4 * i], b[4 * i + 1], b[4 * i + 2], b[4 * i + 3]))
  }

  /** The bytes past the last whole pixel. */
  function Rest(b: seq<Byte>): (r: seq<Byte>) {
    b[|b| / 4 * 4..]
  }

  /** Four bytes for every cell, unless that overflows 64 bits. */
  function NeededBytes(height: U32, stride: U32): (n: Option<nat>) {
    if height * stride * 4 <= U64_MAX then Some(height * stride * 4) else None
  }

  class Surface {
    const bytes: array<Byte>
    const shape: Shape
    const format: PixelFormat
    const damage: Damage

    ghost predicate Valid()
      reads this, damage, damage.rects
    {
      WellShaped(shape, bytes.Length / 4) && damage.Valid()
    }

    ghost function Cells(): (cells: seq<Pixel>)
      reads this, bytes
      ensures |cells| == bytes.Length / 4
    {
      CellsOf(bytes[..])
    }

    constructor (bytes: array<Byte>, shape: Shape, format: PixelFormat)
      requires WellShaped(shape, bytes.Length / 4)
      ensures Valid() && this.bytes == bytes && this.shape == shape && this.format == format
      ensures fresh(damage) && fresh(damage.rects) && damage.Held() == []
    {
      this.bytes := bytes;
      this.shape := shape;
      this.format := format;
      var none := new Damage();
      this.damage := none;
    }

    /** A surface with no damage, or the first of the four things wrong with its size. */
    static method New(bytes: array<Byte>, width: U32, height: U32, stride: U32, format: PixelFormat)
      returns (r: Result<Surface, SurfaceError>)
      ensures r.Ok? <==>
        width > 0 && height > 0 && stride >= width && height * stride * 4 <= U64_MAX
            && height * stride * 4 <= bytes.Length
      ensures r.Ok? ==> r.value.Valid() && r.value.bytes == bytes && r.value.shape == Shape(width, height, stride)
      ensures r.Ok? ==> r.value.format == format && fresh(r.value.damage.rects) && r.value.damage.Held() == []
      ensures r.Err? ==> r.error == (if width == 0 || height == 0 then Empty else if stride < width then Stride
        else if height * stride * 4 > U64_MAX then Overflow else TooShort(height * stride * 4, bytes.Length))
    {
      if width == 0 || height == 0 {
        return Err(Empty);
      }
      if stride < width {
        return Err(Stride);
      }
      var needed := NeededBytes(height, stride);
      if needed.None? {
        return Err(Overflow);
      }
      if bytes.Length < needed.value {
        return Err(TooShort(needed.value, bytes.Length));
      }
      var surface := new Surface(bytes, Shape(width, height, stride), format);
      r := Ok(surface);
    }

    /** The index of `x`, `y`, when the test of a run passes. The end of the run saturates, so a surface as
        wide as the coordinates go passes runs that end past it. */
    function Range(x: U32, y: U32, count: U32): (i: Option<nat>)
      ensures i.Some? <==> y < shape.height && RunAllowed(shape, x, count)
      ensures i.Some? ==> i.value == Index(shape, x, y)
    {
      if y >= shape.height || SaturatingAdd(x, count) > shape.width then None else Some(Index(shape, x, y))
    }

    /** Writes the four bytes of one pixel. */
    method PutPixel(i: nat, p: Pixel)
      requires i < bytes.Length / 4
      modifies bytes
      ensures Cells() == old(Cells())[i := p] && Rest(bytes[..]) == old(Rest(bytes[..]))
    {
      bytes[4 * i] := p.b0;
      bytes[4 * i + 1] := p.b1;
      bytes[4 * i + 2] := p.b2;
      bytes[4 * i + 3] := p.b3;
      PixelPut(old(bytes[..]), bytes[..], i, p);
    }

    /** The run is in the picture afterwards, whole, or the test of `Range` fails and nothing has changed. */
    method WriteRow(x: U32, y: U32, row: seq<Pixel>)
      modifies bytes
      ensures Rest(bytes[..]) == old(Rest(bytes[..]))
      ensures var run := if |row| <= U32_MAX then row else row[..U32_MAX];
        Cells() == if y < shape.height && RunAllowed(shape, x, |run|)
          then RowWritten(old(Cells()), Index(shape, x, y), run) else old(Cells())
    {
      ghost var cells := Cells();
      var run := if |row| <= U32_MAX then row else row[..U32_MAX];
      var start := Range(x, y, |run|);
      if start.None? || start.value + |run| > bytes.Length / 4 {
        return;
      }
      assert RowWritten(cells, start.value, []) == cells;
      for k := 0 to |run|
        invariant Rest(bytes[..]) == old(Rest(bytes[..]))
        invariant Cells() == RowWritten(cells, start.value, run[..k])
      {
        RowGrows(cells, start.value, run, k);
        PutPixel(start.value + k, run[k]);
      }
      assert run[..|run|] == run;
    }

    /** The run that stands there, or nothing when the test of `Range` fails. */
    method ReadRow(x: U32, y: U32, count: U32) returns (row: seq<Pixel>)
      ensures row == if y < shape.height && RunAllowed(shape, x, count) then RunAt(Cells(), Index(shape, x, y), count)
          else []
    {
      hide Index;
      var start := Range(x, y, count);
      if start.None? || start.value + count > bytes.Length / 4 {
        return [];
      }
      row := [];
      ghost var cells := Cells();
      for k := 0 to count
        invariant row == cells[start.value..start.value + k]
      {
        var i := start.value + k;
        row := row + [Pixel(bytes[4 * i], bytes[4 * i + 1], bytes[4 * i + 2], bytes[4 * i + 3])];
      }
    }

    /** Every pixel of the clipped rectangle has the color; its damage is the rectangle pushed. */
    method Fill(rect: Rect, color: Color) returns (area: Rect)
      requires Valid()
      modifies bytes, damage, damage.rects
      ensures Valid() && area == ClipTo(rect, shape.width, shape.height)
      ensures Cells() == RowsWritten(old(Cells()), shape, area.x, area.y,
        Filling(Encode(color, format), area.w, area.h))
      ensures damage.Held() == Pushed(old(damage.Held()), area) && Rest(bytes[..]) == old(Rest(bytes[..]))
    {
      hide RowsWritten, RowWritten, CellsOf, Pushed;
      ghost var cells := Cells();
      area := ClipTo(rect, shape.width, shape.height);
      ClipFits(rect, shape.width, shape.height);
      var encoded := Encode(color, format);
      var y := area.y;
      NoRows(cells, shape, area.x, area.y);
      while y < Bottom(area)
        invariant area.y <= y <= Bottom(area) && Rest(bytes[..]) == old(Rest(bytes[..]))
        invariant damage.Valid() && damage.Held() == old(damage.Held())
        invariant Cells() == RowsWritten(cells, shape, area.x, area.y, Filling(encoded, area.w, y - area.y))
      {
        FillingGrows(encoded, area.w, y - area.y);
        NextRow(cells, shape, area.x, area.y, Filling(encoded, area.w, y - area.y), Repeat(encoded, area.w));
        WriteRow(area.x, y, Repeat(encoded, area.w));
        y := y + 1;
      }
      damage.Push(area);
    }

    /** Every pixel of the clipped target is the source's, converted; its damage is the target pushed. */
    method Blit(source: Surface, src: Rect, x: U32, y: U32) returns (placed: Rect)
      requires Valid() && source.Valid() && source.bytes != bytes
      modifies bytes, damage, damage.rects
      ensures Valid() && Rest(bytes[..]) == old(Rest(bytes[..]))
      ensures var from := ClipTo(src, source.shape.width, source.shape.height);
        placed == ClipTo(Rect(x, y, from.w, from.h), shape.width, shape.height)
        && CanTake(source.shape, |old(source.Cells())|, from.x, from.y, placed.w, placed.h)
        && Cells() == RowsWritten(old(Cells()), shape, placed.x, placed.y,
             Taken(old(source.Cells()), source.shape, source.format, format, from.x, from.y, placed.w, placed.h))
      ensures damage.Held() == Pushed(old(damage.Held()), placed)
    {
      hide RowsWritten, CellsOf, Pushed, Taken, Intersect;
      var from := ClipTo(src, source.shape.width, source.shape.height);
      ClipFits(src, source.shape.width, source.shape.height);
      placed := ClipTo(Rect(x, y, from.w, from.h), shape.width, shape.height);
      ClipFits(Rect(x, y, from.w, from.h), shape.width, shape.height);
      ClipShrinks(x, y, from.w, from.h, shape.width, shape.height);
      CopyRows(source, from.x, from.y, placed);
      damage.Push(placed);
    }

    /** The rows of a blit. */
    method CopyRows(source: Surface, x: U32, y: U32, placed: Rect)
      requires Valid() && source.bytes != bytes
      requires CanTake(source.shape, source.bytes.Length / 4, x, y, placed.w, placed.h)
      requires placed.x + placed.w <= shape.width && placed.y + placed.h <= shape.height
      modifies bytes
      ensures Rest(bytes[..]) == old(Rest(bytes[..]))
      ensures Cells() == RowsWritten(old(Cells()), shape, placed.x, placed.y,
        Taken(old(source.Cells()), source.shape, source.format, format, x, y, placed.w, placed.h))
    {
      hide RowsWritten, RowWritten, CellsOf, Taken, Index;
      ghost var cells, others := Cells(), source.Cells();
      NoRows(cells, shape, placed.x, placed.y);
      TakenNone(others, source.shape, source.format, format, x, y, placed.w);
      for row: nat := 0 to placed.h
        invariant Rest(bytes[..]) == old(Rest(bytes[..])) && source.Cells() == others
        invariant Cells() == RowsWritten(cells, shape, placed.x, placed.y,
          Taken(others, source.shape, source.format, format, x, y, placed.w, row))
      {
        RowFits(source.shape, |others|, x, y + row, placed.w);
        var taken := source.ReadRow(x, y + row, placed.w);
        var written := ConvertRow(source.format, format, taken);
        TakenGrows(others, source.shape, source.format, format, x, y, placed.w, row);
        NextRow(cells, shape, placed.x, placed.y,
          Taken(others, source.shape, source.format, format, x, y, placed.w, row), written);
        WriteRow(placed.x, placed.y + row, written);
      }
    }
  }

  /** The runs that pass the test of their end, which saturates: all of them on the widest surface there is. */
  predicate RunAllowed(shape: Shape, x: U32, count: nat) {
    x + count <= shape.width || shape.width == U32_MAX
  }

  /** On the widest surface a run whose end saturates passes, lies in the picture's memory, and goes on into the
      next row. */
  lemma RunCanLeave(shape: Shape, n: nat, x: U32, y: U32, count: U32)
    requires WellShaped(shape, n) && shape.width == U32_MAX
    requires y + 1 < shape.height && x + count > U32_MAX
    ensures RunAllowed(shape, x, count)
    ensures Index(shape, 0, y + 1) < Index(shape, x, y) + count <= n
  {
    assert shape.stride == U32_MAX;
    assert (y + 1) * U32_MAX == y * U32_MAX + U32_MAX && (y + 2) * U32_MAX == (y + 1) * U32_MAX + U32_MAX;
    assert (y + 2) * U32_MAX <= shape.height * U32_MAX;
  }

  /** It means that the run lies inside the surface exactly where its end does not saturate. */
  lemma RunIsInside(shape: Shape, x: U32, count: U32)
    ensures (RunAllowed(shape, x, count) <==> x + count <= shape.width)
        <==> (shape.width < U32_MAX || x + count <= U32_MAX)
  {
  }

  /** Pixels `at` to `at + count`, where there are as many. */
  function RunAt(cells: seq<Pixel>, at: nat, count: nat): (row: seq<Pixel>) {
    if at + count <= |cells| then cells[at..at + count] else []
  }

  predicate CanTake(shape: Shape, n: nat, x: nat, y: nat, w: nat, h: nat) {
    WellShaped(shape, n) && x + w <= shape.width && y + h <= shape.height
  }

  /** Each pixel of a row, converted. */
  function ConvertRow(from: PixelFormat, into: PixelFormat, row: seq<Pixel>): (r: seq<Pixel>)
    ensures |r| == |row| && forall i | 0 <= i < |row| :: r[i] == Converted(from, into, row[i])
  {
    seq(|row|, i requires 0 <= i < |row| => Converted(from, into, row[i]))
  }

  /** Rows of one color. */
  function Filling(p: Pixel, w: nat, h: nat): (rows: seq<seq<Pixel>>)
    ensures |rows| == h && forall k | 0 <= k < h :: rows[k] == Repeat(p, w)
  {
    seq(h, _ => Repeat(p, w))
  }

  /** Rows of a picture, converted. */
  function Taken(cells: seq<Pixel>, shape: Shape, from: PixelFormat, into: PixelFormat, x: nat, y: nat, w: nat, h: nat)
    : (rows: seq<seq<Pixel>>)
    requires CanTake(shape, |cells|, x, y, w, h)
    ensures |rows| == h
  {
    seq(h, k requires 0 <= k < h => ConvertRow(from, into, RunAt(cells, Index(shape, x, y + k), w)))
  }

  /** A pixel of those rows is the pixel of the picture, converted. */
  lemma TakenAt(cells: seq<Pixel>, shape: Shape, from: PixelFormat, into: PixelFormat, x: nat, y: nat, w: nat, h: nat,
      a: nat, b: nat)
    requires CanTake(shape, |cells|, x, y, w, h) && a < w && b < h
    ensures var rows := Taken(cells, shape, from, into, x, y, w, h);
      |rows[b]| == w && Index(shape, x + a, y + b) < |cells|
      && rows[b][a] == Converted(from, into, cells[Index(shape, x + a, y + b)])
  {
    hide Index;
    RowFits(shape, |cells|, x, y + b, w);
    IndexStep(shape, x, y + b, a);
    var at := Index(shape, x, y + b);
    assert Taken(cells, shape, from, into, x, y, w, h)[b] == ConvertRow(from, into, RunAt(cells, at, w));
    assert RunAt(cells, at, w)[a] == cells[at + a];
  }

  lemma RowFits(shape: Shape, n: nat, x: nat, y: nat, count: nat)
    requires WellShaped(shape, n) && x + count <= shape.width && y < shape.height
    ensures Index(shape, x, y) + count <= n
  {
    if count > 0 {
      IndexFits(shape, n, x + count - 1, y);
      IndexStep(shape, x, y, count - 1);
    } else if x < shape.stride {
      IndexFits(shape, n, x, y);
    } else {
      IndexFits(shape, n, x - 1, y);
      IndexStep(shape, x - 1, y, 1);
    }
  }

  lemma PixelPut(before: seq<Byte>, after: seq<Byte>, i: nat, p: Pixel)
    requires |after| == |before| && i < |before| / 4
    requires after[4 * i] == p.b0 && after[4 * i + 1] == p.b1 && after[4 * i + 2] == p.b2 && after[4 * i + 3] == p.b3
    requires forall k | 0 <= k < |before| && !(4 * i <= k < 4 * i + 4) :: after[k] == before[k]
    ensures CellsOf(after) == CellsOf(before)[i := p] && Rest(after) == Rest(before)
  {
  }

  lemma RowGrows(cells: seq<Pixel>, at: nat, row: seq<Pixel>, k: nat)
    requires at + |row| <= |cells| && k < |row|
    ensures RowWritten(cells, at, row[..k + 1]) == RowWritten(cells, at, row[..k])[at + k := row[k]]
  {
  }

  lemma NoRows(cells: seq<Pixel>, shape: Shape, x: nat, y: nat)
    ensures RowsWritten(cells, shape, x, y, []) == cells
  {
  }

  lemma NextRow(cells: seq<Pixel>, shape: Shape, x: nat, y: nat, rows: seq<seq<Pixel>>, row: seq<Pixel>)
    ensures RowsWritten(cells, shape, x, y, rows + [row])
      == RowWritten(RowsWritten(cells, shape, x, y, rows), Index(shape, x, y + |rows|), row)
  {
    assert (rows + [row])[..|rows|] == rows;
  }

  lemma FillingGrows(p: Pixel, w: nat, h: nat)
    ensures Filling(p, w, h + 1) == Filling(p, w, h) + [Repeat(p, w)]
  {
  }

  lemma TakenNone(cells: seq<Pixel>, shape: Shape, from: PixelFormat, into: PixelFormat, x: nat, y: nat, w: nat)
    requires CanTake(shape, |cells|, x, y, w, 0)
    ensures Taken(cells, shape, from, into, x, y, w, 0) == []
  {
  }

  lemma TakenGrows(cells: seq<Pixel>, shape: Shape, from: PixelFormat, into: PixelFormat, x: nat, y: nat, w: nat,
      h: nat)
    requires CanTake(shape, |cells|, x, y, w, h + 1)
    ensures Taken(cells, shape, from, into, x, y, w, h + 1)
      == Taken(cells, shape, from, into, x, y, w, h) + [ConvertRow(from, into, RunAt(cells, Index(shape, x, y + h), w))]
  {
  }

  /** What is clipped to a surface lies inside it. */
  lemma ClipShrinks(x: U32, y: U32, w: U32, h: U32, width: U32, height: U32)
    ensures var c := ClipTo(Rect(x, y, w, h), width, height);
      c.w <= w && c.h <= h && (!IsEmpty(c) ==> c.x == x && c.y == y)
  {
  }
}
