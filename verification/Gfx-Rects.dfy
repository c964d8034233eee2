/** Rectangles as the pixels they contain. */
module Rects {
  import opened Words

  datatype Rect = Rect(x: U32, y: U32, w: U32, h: U32)

  const EMPTY: Rect := Rect(0, 0, 0, 0)

  function SaturatingAdd(a: U32, b: U32): (r: U32) {
    if a + b > U32_MAX then U32_MAX else a + b
  }

  predicate IsEmpty(r: Rect) {
    r.w == 0 || r.h == 0
  }

  /** One past the greatest column, or `U32_MAX` where that is less. */
  function Right(r: Rect): (n: U32) {
    SaturatingAdd(r.x, r.w)
  }

  function Bottom(r: Rect): (n: U32) {
    SaturatingAdd(r.y, r.h)
  }

  predicate Contains(r: Rect, x: nat, y: nat) {
    r.x <= x < Right(r) && r.y <= y < Bottom(r)
  }

  function Max(a: U32, b: U32): (m: U32) {
    if a > b then a else b
  }

  function Min(a: U32, b: U32): (m: U32) {
    if a < b then a else b
  }

  function Intersect(a: Rect, b: Rect): (r: Rect) {
    if IsEmpty(a) || IsEmpty(b) then EMPTY
    else
      var x, y := Max(a.x, b.x), Max(a.y, b.y);
      var right, bottom := Min(Right(a), Right(b)), Min(Bottom(a), Bottom(b));
      if right <= x || bottom <= y then EMPTY else Rect(x, y, right - x, bottom - y)
  }

  function Union(a: Rect, b: Rect): (r: Rect) {
    if IsEmpty(a) then b
    else if IsEmpty(b) then a
    else
      var x, y := Min(a.x, b.x), Min(a.y, b.y);
      Rect(x, y, Max(Right(a), Right(b)) - x, Max(Bottom(a), Bottom(b)) - y)
  }

  predicate Overlaps(a: Rect, b: Rect) {
    !IsEmpty(Intersect(a, b))
  }

  function ClipTo(r: Rect, width: U32, height: U32): (c: Rect) {
    Intersect(r, Rect(0, 0, width, height))
  }

  /** The intersection has exactly the pixels of both. */
  lemma IntersectIsBoth(a: Rect, b: Rect, x: nat, y: nat)
    ensures Contains(Intersect(a, b), x, y) <==> Contains(a, x, y) && Contains(b, x, y)
  {
  }

  /** Rectangles overlap when they share a pixel, and only then. */
  lemma OverlapsIsShared(a: Rect, b: Rect)
    ensures Overlaps(a, b) <==> exists x: nat, y: nat :: Contains(a, x, y) && Contains(b, x, y)
  {
    if Overlaps(a, b) {
      var r := Intersect(a, b);
      assert Contains(a, r.x, r.y) && Contains(b, r.x, r.y);
    }
  }

  /** `a` is empty, or no edge of it is outside `b`. */
  predicate Inside(a: Rect, b: Rect) {
    IsEmpty(a) || (b.x <= a.x && b.y <= a.y && Right(a) <= Right(b) && Bottom(a) <= Bottom(b))
  }

  /** A clipped rectangle lies inside the surface, and its ends are where its size says. */
  lemma ClipFits(r: Rect, width: U32, height: U32)
    ensures var c := ClipTo(r, width, height);
      && c.x + c.w <= width && c.y + c.h <= height && Right(c) == c.x + c.w && Bottom(c) == c.y + c.h
      && Inside(c, Rect(0, 0, width, height))
  {
  }

  /** Clipping takes away exactly the pixels the surface does not have. */
  lemma ClipKeeps(r: Rect, width: U32, height: U32, x: nat, y: nat)
    ensures Contains(ClipTo(r, width, height), x, y) <==> Contains(r, x, y) && x < width && y < height
  {
    IntersectIsBoth(r, Rect(0, 0, width, height), x, y);
  }

  /** The union is the smallest rectangle both are inside of. */
  lemma UnionIsLeast(a: Rect, b: Rect, c: Rect)
    ensures Inside(a, Union(a, b)) && Inside(b, Union(a, b))
    ensures Inside(a, c) && Inside(b, c) ==> Inside(Union(a, b), c)
  {
  }

  /** The union covers both, whatever they are. */
  lemma UnionCovers(a: Rect, b: Rect, x: nat, y: nat)
    requires Contains(a, x, y) || Contains(b, x, y)
    ensures Contains(Union(a, b), x, y)
  {
  }
}
