/** Pixels in memory: rows of a picture, with a stride between them. */
module Pictures {
  import opened Words

  datatype PixelFormat = Rgbx8888 | Bgrx8888

  datatype Color = Color(r: Byte, g: Byte, b: Byte)

  /** The four bytes of a pixel. */
  datatype Pixel = Pixel(b0: Byte, b1: Byte, b2: Byte, b3: Byte)

  function Encode(c: Color, format: PixelFormat): (p: Pixel) {
    match format
    case Rgbx8888 => Pixel(c.r, c.g, c.b, 0)
    case Bgrx8888 => Pixel(c.b, c.g, c.r, 0)
  }

  function Decode(format: PixelFormat, p: Pixel): (c: Color) {
    match format
    case Rgbx8888 => Color(p.b0, p.b1, p.b2)
    case Bgrx8888 => Color(p.b2, p.b1, p.b0)
  }

  /** A pixel of one format as one of another. */
  function Converted(from: PixelFormat, into: PixelFormat, p: Pixel): (r: Pixel)
    ensures Decode(into, r) == Decode(from, p)
  {
    Encode(Decode(from, p), into)
  }

  /** The channels of a format, in the order of the bytes in memory; `x` is a byte that is not used. */
  function Order(format: PixelFormat): (channels: string)
    ensures |channels| == 4
  {
    match format
    case Rgbx8888 => "rgbx"
    case Bgrx8888 => "bgrx"
  }

  function Channel(c: Color, name: char): (v: Byte) {
    if name == 'r' then c.r else if name == 'g' then c.g else if name == 'b' then c.b else 0
  }

  /** What a format's name says is what its bytes are, both ways. */
  lemma ChannelsInOrder(c: Color, format: PixelFormat, p: Pixel)
    ensures var e := Encode(c, format);
      [e.b0, e.b1, e.b2, e.b3] == seq(4, i requires 0 <= i < 4 => Channel(c, Order(format)[i]))
    ensures var bytes := [p.b0, p.b1, p.b2, p.b3];
      forall i | 0 <= i < 4 && Order(format)[i] != 'x' :: bytes[i] == Channel(Decode(format, p), Order(format)[i])
    ensures Decode(format, Encode(c, format)) == c
  {
  }

  function Repeat(p: Pixel, n: nat): (row: seq<Pixel>)
    ensures |row| == n
  {
    seq(n, _ => p)
  }

  /** A picture of `width` by `height` pixels; rows start `stride` pixels apart. */
  datatype Shape = Shape(width: U32, height: U32, stride: U32)

  predicate WellShaped(shape: Shape, n: nat) {
    0 < shape.width <= shape.stride && 0 < shape.height && shape.height * shape.stride <= n
  }

  /** Where pixel `x` of row `y` is. */
  function Index(shape: Shape, x: nat, y: nat): (i: nat) {
    y * shape.stride + x
  }

  lemma IndexFits(shape: Shape, n: nat, x: nat, y: nat)
    requires WellShaped(shape, n) && x < shape.stride && y < shape.height
    ensures Index(shape, x, y) < shape.height * shape.stride <= n
  {
    var rest := shape.height - y - 1;
    assert rest * shape.stride >= 0;
    assert shape.height * shape.stride == y * shape.stride + shape.stride + rest * shape.stride;
  }

  /** Different pixels are at different places. */
  lemma IndexApart(shape: Shape, x: nat, y: nat, x': nat, y': nat)
    requires x < shape.stride && x' < shape.stride && y < y'
    ensures Index(shape, x, y) < Index(shape, x', y')
  {
    var rest := y' - y - 1;
    assert rest * shape.stride >= 0;
    assert y' * shape.stride == y * shape.stride + shape.stride + rest * shape.stride;
  }

  /** A row of pixels written at a place. */
  function RowWritten(cells: seq<Pixel>, at: nat, row: seq<Pixel>): (r: seq<Pixel>)
    ensures |r| == |cells|
  {
    if at + |row| <= |cells| then cells[..at] + row + cells[at + |row|..] else cells
  }

  lemma RowWrittenAt(cells: seq<Pixel>, at: nat, row: seq<Pixel>, i: nat)
    requires at + |row| <= |cells| && i < |cells|
    ensures RowWritten(cells, at, row)[i] == if at <= i < at + |row| then row[i - at] else cells[i]
  {
  }

  /** Rows written one below the other from pixel `x` of row `y` on. */
  function RowsWritten(cells: seq<Pixel>, shape: Shape, x: nat, y: nat, rows: seq<seq<Pixel>>): (r: seq<Pixel>)
    ensures |r| == |cells|
  {
    if rows == [] then cells
    else
      var n := |rows| - 1;
      RowWritten(RowsWritten(cells, shape, x, y, rows[..n]), Index(shape, x, y + n), rows[n])
  }

  /** The rows are of one width and stay inside the picture. */
  predicate RowsFit(shape: Shape, x: nat, y: nat, w: nat, rows: seq<seq<Pixel>>) {
    x + w <= shape.width && y + |rows| <= shape.height && forall k | 0 <= k < |rows| :: |rows[k]| == w
  }

  predicate InRows(x: nat, y: nat, w: nat, h: nat, a: nat, b: nat) {
    x <= a < x + w && y <= b < y + h
  }

  /** Exactly the pixels of the rows change, to what the rows hold; nothing between the end of a row
      and the start of the next, and nothing past the picture. */
  lemma {:induction false} RowsWrittenAt(cells: seq<Pixel>, shape: Shape, x: nat, y: nat, w: nat,
      rows: seq<seq<Pixel>>, a: nat, b: nat)
    requires WellShaped(shape, |cells|) && RowsFit(shape, x, y, w, rows) && a < shape.stride && b < shape.height
    ensures Index(shape, a, b) < |cells|
    ensures RowsWritten(cells, shape, x, y, rows)[Index(shape, a, b)]
      == if InRows(x, y, w, |rows|, a, b) then rows[b - y][a - x] else cells[Index(shape, a, b)]
  {
    hide Index, WellShaped;
    IndexFits(shape, |cells|, a, b);
    if rows != [] {
      var n := |rows| - 1;
      var front := rows[..n];
      assert RowsFit(shape, x, y, w, front);
      RowsWrittenAt(cells, shape, x, y, w, front, a, b);
      LastRowAt(RowsWritten(cells, shape, x, y, front), shape, x, y + n, rows[n], a, b);
    }
  }

  lemma LastRowAt(cells: seq<Pixel>, shape: Shape, x: nat, y: nat, row: seq<Pixel>, a: nat, b: nat)
    requires WellShaped(shape, |cells|) && x + |row| <= shape.width && y < shape.height && a < shape.stride
        && b < shape.height
    ensures Index(shape, a, b) < |cells|
    ensures RowWritten(cells, Index(shape, x, y), row)[Index(shape, a, b)]
      == if x <= a < x + |row| && b == y then row[a - x] else cells[Index(shape, a, b)]
  {
    IndexFits(shape, |cells|, a, b);
    var at := Index(shape, x, y);
    if row != [] {
      IndexFits(shape, |cells|, x + |row| - 1, y);
      RowWrittenAt(cells, at, row, Index(shape, a, b));
      if b < y {
        IndexApart(shape, a, b, x, y);
      } else if b > y {
        IndexApart(shape, x + |row| - 1, y, a, b);
      }
    } else if at <= |cells| {
      assert RowWritten(cells, at, row) == cells;
    }
  }

  lemma {:induction false} PastThePicture(cells: seq<Pixel>, shape: Shape, x: nat, y: nat, w: nat,
      rows: seq<seq<Pixel>>, i: nat)
    requires WellShaped(shape, |cells|) && RowsFit(shape, x, y, w, rows)
    requires shape.height * shape.stride <= i < |cells|
    ensures RowsWritten(cells, shape, x, y, rows)[i] == cells[i]
  {
    hide Index;
    if rows != [] {
      var n := |rows| - 1;
      var front := rows[..n];
      assert RowsFit(shape, x, y, w, front);
      PastThePicture(cells, shape, x, y, w, front, i);
      var before := RowsWritten(cells, shape, x, y, front);
      var at := Index(shape, x, y + n);
      if at + w <= |cells| {
        RowWrittenAt(before, at, rows[n], i);
        if w > 0 {
          IndexFits(shape, |cells|, x + w - 1, y + n);
          assert at + w - 1 < shape.height * shape.stride by {
            IndexStep(shape, x, y + n, w - 1);
          }
        }
      }
    }
  }

  lemma IndexStep(shape: Shape, x: nat, y: nat, k: nat)
    ensures Index(shape, x + k, y) == Index(shape, x, y) + k
  {
  }
}
