/** The damage set. */
module DamageSpec {
  import opened Wrappers
  import opened Rects

  const CAPACITY: nat := 16

  /** The rectangle that encloses all of them. */
  function Bounds(held: seq<Rect>): (r: Rect) {
    if held == [] then EMPTY else Union(Bounds(held[..|held| - 1]), held[|held| - 1])
  }

  /** The least index from `from` on, `slot` excepted, at which `rect` is overlapped. */
  function Overlapping(held: seq<Rect>, rect: Rect, slot: nat, from: nat): (i: Option<nat>)
    requires from <= |held|
    ensures i.Some? ==> from <= i.value < |held| && i.value != slot && Overlaps(held[i.value], rect)
    ensures i.Some? ==> forall j | from <= j < i.value && j != slot :: !Overlaps(held[j], rect)
    ensures i.None? ==> forall j | from <= j < |held| && j != slot :: !Overlaps(held[j], rect)
    decreases |held| - from
  {
    if from == |held| then None
    else if from != slot && Overlaps(held[from], rect) then Some(from)
    else Overlapping(held, rect, slot, from + 1)
  }

  function Without(held: seq<Rect>, i: nat): (r: seq<Rect>)
    requires i < |held|
    ensures |r| == |held| - 1
  {
    held[..i] + held[i + 1..]
  }

  /** The one at `slot` becomes `merged`, which takes in every other it overlaps. */
  function Absorb(held: seq<Rect>, slot: nat, merged: Rect): (r: seq<Rect>)
    requires slot < |held|
    decreases |held|
  {
    var i := Overlapping(held, merged, slot, 0);
    if i.None? then held[slot := merged]
    else Absorb(Without(held, i.value), if i.value < slot then slot - 1 else slot, Union(merged, held[i.value]))
  }

  /** The set after `rect` changed. */
  function Pushed(held: seq<Rect>, rect: Rect): (r: seq<Rect>) {
    if IsEmpty(rect) then held
    else
      var first := Overlapping(held, rect, |held|, 0);
      if first.Some? then Absorb(held, first.value, Union(held[first.value], rect))
      else if |held| < CAPACITY then held + [rect]
      else
        var all := Union(Bounds(held), rect);
        if IsEmpty(all) then [] else [all]
  }

  // ---------- what the set keeps ----------

  ghost predicate Apart(held: seq<Rect>) {
    forall i, j | 0 <= i < j < |held| :: !Overlaps(held[i], held[j])
  }

  ghost predicate Covers(held: seq<Rect>, x: nat, y: nat) {
    exists i | 0 <= i < |held| :: Contains(held[i], x, y)
  }

  ghost predicate AllInside(held: seq<Rect>, box: Rect) {
    forall i | 0 <= i < |held| :: Inside(held[i], box)
  }

  lemma OverlapsIsMutual(a: Rect, b: Rect)
    ensures Overlaps(a, b) == Overlaps(b, a)
  {
  }

  lemma {:induction false} BoundsHolds(held: seq<Rect>, x: nat, y: nat, box: Rect)
    ensures Covers(held, x, y) ==> Contains(Bounds(held), x, y)
    ensures AllInside(held, box) ==> Inside(Bounds(held), box)
  {
    hide Union, Contains, Inside;
    if held != [] {
      var n := |held| - 1;
      var front := held[..n];
      BoundsHolds(front, x, y, box);
      if Covers(held, x, y) {
        var i :| 0 <= i < |held| && Contains(held[i], x, y);
        if i < n {
          assert front[i] == held[i];
          assert Covers(front, x, y);
        }
        UnionCovers(Bounds(front), held[n], x, y);
      }
      if AllInside(held, box) {
        assert AllInside(front, box);
        UnionIsLeast(Bounds(front), held[n], box);
      }
    } else {
      EmptyIsInside(box);
    }
  }

  lemma EmptyIsInside(box: Rect)
    ensures Inside(EMPTY, box)
  {
  }

  /** Absorbing keeps rectangles apart. */
  lemma {:induction false} AbsorbApart(held: seq<Rect>, slot: nat, merged: Rect)
    requires slot < |held| && Apart(held)
    ensures Apart(Absorb(held, slot, merged)) && |Absorb(held, slot, merged)| <= |held|
    decreases |held|
  {
    hide Overlaps, Union;
    var i := Overlapping(held, merged, slot, 0);
    if i.None? {
      var r := held[slot := merged];
      forall j, k | 0 <= j < k < |r| ensures !Overlaps(r[j], r[k]) {
        OverlapsIsMutual(r[j], r[k]);
      }
    } else {
      var rest := Without(held, i.value);
      forall j, k | 0 <= j < k < |rest| ensures !Overlaps(rest[j], rest[k]) {
        var j', k' := if j < i.value then j else j + 1, if k < i.value then k else k + 1;
        assert rest[j] == held[j'] && rest[k] == held[k'];
      }
      AbsorbApart(rest, if i.value < slot then slot - 1 else slot, Union(merged, held[i.value]));
    }
  }

  /** Absorbing loses no pixel of `merged` or of the others. */
  lemma {:induction false} AbsorbCovers(held: seq<Rect>, slot: nat, merged: Rect, x: nat, y: nat)
    requires slot < |held|
    requires Contains(merged, x, y) || exists j | 0 <= j < |held| :: j != slot && Contains(held[j], x, y)
    ensures Covers(Absorb(held, slot, merged), x, y)
    decreases |held|
  {
    hide Overlaps, Union, Contains;
    var i := Overlapping(held, merged, slot, 0);
    if i.None? {
      var r := held[slot := merged];
      if Contains(merged, x, y) {
        assert Contains(r[slot], x, y);
      } else {
        var j :| 0 <= j < |held| && j != slot && Contains(held[j], x, y);
        assert r[j] == held[j];
      }
    } else {
      var rest, slot' := Without(held, i.value), if i.value < slot then slot - 1 else slot;
      var union := Union(merged, held[i.value]);
      if Contains(merged, x, y) || Contains(held[i.value], x, y) {
        UnionCovers(merged, held[i.value], x, y);
      } else {
        var j :| 0 <= j < |held| && j != slot && Contains(held[j], x, y);
        var k := if j < i.value then j else j - 1;
        assert rest[k] == held[j] && k != slot';
      }
      AbsorbCovers(rest, slot', union, x, y);
    }
  }

  /** Absorbing stays inside any box the rectangles are inside of. */
  lemma {:induction false} AbsorbInside(held: seq<Rect>, slot: nat, merged: Rect, box: Rect)
    requires slot < |held| && AllInside(held, box) && Inside(merged, box)
    ensures AllInside(Absorb(held, slot, merged), box)
    decreases |held|
  {
    hide Overlaps, Union, Inside;
    var i := Overlapping(held, merged, slot, 0);
    if i.Some? {
      var rest := Without(held, i.value);
      forall j | 0 <= j < |rest| ensures Inside(rest[j], box) {
        assert rest[j] == held[if j < i.value then j else j + 1];
      }
      UnionIsLeast(merged, held[i.value], box);
      AbsorbInside(rest, if i.value < slot then slot - 1 else slot, Union(merged, held[i.value]), box);
    }
  }

  /** What a push keeps: no two rectangles overlap, no more than the capacity, and every box all of it
      is inside of. */
  lemma PushKeeps(held: seq<Rect>, rect: Rect, box: Rect)
    requires Apart(held) && |held| <= CAPACITY
    ensures Apart(Pushed(held, rect)) && |Pushed(held, rect)| <= CAPACITY
    ensures AllInside(held, box) && Inside(rect, box) ==> AllInside(Pushed(held, rect), box)
  {
    hide Overlaps, Union, Inside, Absorb, Bounds;
    if !IsEmpty(rect) {
      var first := Overlapping(held, rect, |held|, 0);
      if first.Some? {
        AbsorbApart(held, first.value, Union(held[first.value], rect));
        if AllInside(held, box) && Inside(rect, box) {
          UnionIsLeast(held[first.value], rect, box);
          AbsorbInside(held, first.value, Union(held[first.value], rect), box);
        }
      } else {
        BoundsHolds(held, 0, 0, box);
        UnionIsLeast(Bounds(held), rect, box);
      }
    }
  }

  /** What a push covers: all that was covered, and the rectangle. */
  lemma PushCovers(held: seq<Rect>, rect: Rect, x: nat, y: nat)
    requires Covers(held, x, y) || Contains(rect, x, y)
    ensures Covers(Pushed(held, rect), x, y)
  {
    hide Overlaps, Union, Absorb, Bounds;
    if !IsEmpty(rect) {
      var first := Overlapping(held, rect, |held|, 0);
      if first.Some? {
        var slot := first.value;
        if Contains(held[slot], x, y) || Contains(rect, x, y) {
          UnionCovers(held[slot], rect, x, y);
        }
        AbsorbCovers(held, slot, Union(held[slot], rect), x, y);
      } else if |held| < CAPACITY {
        var r := held + [rect];
        if Covers(held, x, y) {
          var i :| 0 <= i < |held| && Contains(held[i], x, y);
          assert r[i] == held[i];
        } else {
          assert r[|held|] == rect;
        }
      } else {
        BoundsHolds(held, x, y, EMPTY);
        UnionCovers(Bounds(held), rect, x, y);
        assert Contains([Union(Bounds(held), rect)][0], x, y);
      }
    }
  }

  // ---------- any number of pushes ----------

  /** The set after pushing each in turn since it was cleared. */
  function Damaged(pushes: seq<Rect>): (held: seq<Rect>) {
    if pushes == [] then [] else Pushed(Damaged(pushes[..|pushes| - 1]), pushes[|pushes| - 1])
  }

  /** Whatever was pushed: no two rectangles of the set overlap, there are no more than its capacity,
      and it stays inside every box all the pushed ones are inside of. */
  lemma {:induction false} DamageKeeps(pushes: seq<Rect>, box: Rect)
    ensures Apart(Damaged(pushes)) && |Damaged(pushes)| <= CAPACITY
    ensures AllInside(pushes, box) ==> AllInside(Damaged(pushes), box)
  {
    hide Pushed, Apart;
    if pushes == [] {
      NoneApart();
    } else {
      var front := pushes[..|pushes| - 1];
      DamageKeeps(front, box);
      PushKeeps(Damaged(front), pushes[|pushes| - 1], box);
    }
  }

  lemma NoneApart()
    ensures Apart([])
  {
  }

  /** Every pixel of every pushed rectangle is covered, and only pixels of the box around them are. */
  lemma {:induction false} DamageCovers(pushes: seq<Rect>, x: nat, y: nat)
    ensures Covers(pushes, x, y) ==> Covers(Damaged(pushes), x, y)
    ensures Covers(Damaged(pushes), x, y) ==> Contains(Bounds(pushes), x, y)
  {
    hide Pushed, Contains, Union, Inside, Follows, Bounds;
    if Covers(Damaged(pushes), x, y) {
      var m := DamageFollows(pushes);
      FollowsCovers(Damaged(pushes), Bounds(pushes), m, x, y);
    }
    if pushes != [] && Covers(pushes, x, y) {
      var n := |pushes| - 1;
      var front := pushes[..n];
      var i :| 0 <= i < |pushes| && Contains(pushes[i], x, y);
      if i < n {
        assert front[i] == pushes[i];
        assert Covers(front, x, y);
        DamageCovers(front, x, y);
      }
      PushCovers(Damaged(front), pushes[n], x, y);
    }
  }

  // ---------- rectangles at the end of the coordinates ----------

  /** There is a pixel in it. A rectangle whose end saturates may have a size and none. */
  predicate HasPixel(r: Rect) {
    r.x < Right(r) && r.y < Bottom(r)
  }

  /** How a set stands to the box around what was pushed: the first `m` have an empty union, so that no union
      of the set reaches them, and all others are inside the box. A box without a pixel is the union of the set. */
  ghost predicate Follows(held: seq<Rect>, box: Rect, m: nat) {
    && m <= |held| && IsEmpty(Bounds(held[..m]))
    && (forall i | m <= i < |held| :: Inside(held[i], box))
    && (!HasPixel(box) ==> Bounds(held) == box || (IsEmpty(box) && IsEmpty(Bounds(held))))
  }

  lemma {:induction false} DamageFollows(pushes: seq<Rect>) returns (m: nat)
    ensures Follows(Damaged(pushes), Bounds(pushes), m)
  {
    hide Pushed, Union, Inside, Follows;
    if pushes == [] {
      m := 0;
      NothingFollows();
    } else {
      var n := |pushes| - 1;
      m := DamageFollows(pushes[..n]);
      m := PushFollows(Damaged(pushes[..n]), Bounds(pushes[..n]), m, pushes[n]);
    }
  }

  lemma NothingFollows()
    ensures Follows([], EMPTY, 0)
  {
  }

  /** What is covered is in the box. */
  lemma {:induction false} FollowsCovers(held: seq<Rect>, box: Rect, m: nat, x: nat, y: nat)
    requires Follows(held, box, m) && Covers(held, x, y)
    ensures Contains(box, x, y)
  {
    hide Bounds;
    var i :| 0 <= i < |held| && Contains(held[i], x, y);
    if i < m {
      NoPixelBelow(held, m, i);
    }
  }

  /** Rectangles with an empty union have no pixels. */
  lemma {:induction false} NoPixelBelow(held: seq<Rect>, m: nat, i: nat)
    requires m <= |held| && IsEmpty(Bounds(held[..m])) && i < m
    ensures !HasPixel(held[i])
  {
    hide Bounds;
    if HasPixel(held[i]) {
      var r := held[i];
      assert Contains(held[..m][i], r.x, r.y);
      BoundsHolds(held[..m], r.x, r.y, EMPTY);
    }
  }

  lemma NoOverlapWithout(a: Rect, b: Rect)
    requires !HasPixel(a) || !HasPixel(b)
    ensures !Overlaps(a, b) && !Overlaps(b, a)
  {
  }

  lemma {:induction false} BoundsGrow(held: seq<Rect>, rect: Rect)
    ensures Bounds(held + [rect]) == Union(Bounds(held), rect)
  {
    assert (held + [rect])[..|held|] == held;
  }

  /** The union of the set is inside the box. */
  lemma {:induction false} FollowsBounds(held: seq<Rect>, box: Rect, m: nat)
    requires m <= |held| && IsEmpty(Bounds(held[..m])) && forall i | m <= i < |held| :: Inside(held[i], box)
    ensures Inside(Bounds(held), box)
    decreases |held|
  {
    hide Union;
    if m == |held| {
      assert held[..m] == held;
    } else {
      var n := |held| - 1;
      var front := held[..n];
      assert front[..m] == held[..m];
      FollowsBounds(front, box, m);
      UnionIsLeast(Bounds(front), held[n], box);
    }
  }

  lemma PushFollows(held: seq<Rect>, box: Rect, m: nat, rect: Rect) returns (m': nat)
    requires Follows(held, box, m)
    ensures Follows(Pushed(held, rect), Union(box, rect), m')
  {
    hide Pushed, Union, Inside;
    if HasPixel(box) {
      m' := PixelFollows(held, box, m, rect);
    } else {
      m' := BareFollows(held, box, m, rect);
    }
  }

  lemma BoxGrows(a: Rect, box: Rect, rect: Rect)
    requires Inside(a, box) && !IsEmpty(box)
    ensures !IsEmpty(Union(box, rect)) || !HasPixel(box)
    ensures HasPixel(box) ==> HasPixel(Union(box, rect))
    ensures Inside(a, Union(box, rect)) && Inside(rect, Union(box, rect))
  {
  }

  /** A push when the box has a pixel. */
  lemma {:induction false} PixelFollows(held: seq<Rect>, box: Rect, m: nat, rect: Rect) returns (m': nat)
    requires Follows(held, box, m) && HasPixel(box)
    ensures Follows(Pushed(held, rect), Union(box, rect), m')
  {
    hide Union, Inside, Absorb, Bounds, Overlaps;
    var box' := Union(box, rect);
    forall i | m <= i < |held| ensures Inside(held[i], box') {
      BoxGrows(held[i], box, rect);
    }
    EmptyIsInside(box);
    BoxGrows(EMPTY, box, rect);
    m' := m;
    if !IsEmpty(rect) {
      var first := Overlapping(held, rect, |held|, 0);
      if first.Some? {
        var slot := first.value;
        if slot < m {
          NoPixelBelow(held, m, slot);
          NoOverlapWithout(held[slot], rect);
        }
        UnionIsLeast(held[slot], rect, box');
        AbsorbBehind(held, slot, Union(held[slot], rect), box', m);
      } else if |held| < CAPACITY {
        assert (held + [rect])[..m] == held[..m];
      } else {
        FollowsBounds(held, box', m);
        UnionIsLeast(Bounds(held), rect, box');
        m' := 0;
        NoneIsEmpty(Pushed(held, rect));
      }
    }
  }

  lemma NoneIsEmpty(held: seq<Rect>)
    ensures held[..0] == [] && IsEmpty(Bounds(held[..0]))
  {
  }

  /** Absorbing takes none of the first `m`, which have no pixels, and stays inside the box behind them. */
  lemma {:induction false} AbsorbBehind(held: seq<Rect>, slot: nat, merged: Rect, box: Rect, m: nat)
    requires m <= slot < |held| && IsEmpty(Bounds(held[..m])) && Inside(merged, box)
    requires forall i | m <= i < |held| :: Inside(held[i], box)
    ensures var r := Absorb(held, slot, merged);
      m <= |r| && r[..m] == held[..m] && forall i | m <= i < |r| :: Inside(r[i], box)
    decreases |held|
  {
    hide Overlaps, Union, Inside, Bounds;
    var i := Overlapping(held, merged, slot, 0);
    if i.Some? {
      if i.value < m {
        NoPixelBelow(held, m, i.value);
        NoOverlapWithout(held[i.value], merged);
      }
      var rest := Without(held, i.value);
      assert rest[..m] == held[..m];
      forall j | m <= j < |rest| ensures Inside(rest[j], box) {
        assert rest[j] == held[if j < i.value then j else j + 1];
      }
      UnionIsLeast(merged, held[i.value], box);
      AbsorbBehind(rest, if i.value < slot then slot - 1 else slot, Union(merged, held[i.value]), box, m);
    }
  }

  /** A push when the box has no pixel: the set has none either. */
  lemma {:induction false} BareFollows(held: seq<Rect>, box: Rect, m: nat, rect: Rect) returns (m': nat)
    requires Follows(held, box, m) && !HasPixel(box)
    ensures Follows(Pushed(held, rect), Union(box, rect), m')
  {
    hide Inside, Absorb, Bounds, Overlaps;
    var box' := Union(box, rect);
    assert held[..|held|] == held;
    if IsEmpty(rect) {
      m' := if IsEmpty(box) then |held| else m;
    } else {
      forall i | 0 <= i < |held| ensures !Overlaps(held[i], rect) {
        BareOverlaps(held, box, m, i, rect);
      }
      BoundsGrow(held, rect);
      if |held| < CAPACITY {
        var r := held + [rect];
        assert r[..|held|] == held && r[..m] == held[..m] && r[..|r|] == r;
        m' := if IsEmpty(box') then |r| else if IsEmpty(box) then |held| else m;
        BareInside(held, box, m, rect, m');
      } else {
        m' := 0;
        NoneIsEmpty(Pushed(held, rect));
        BoundsGrow([], box');
        assert [] + [box'] == [box'];
        UnionIsLeast(box, rect, EMPTY);
        InsideItself(box');
      }
    }
  }

  lemma InsideItself(r: Rect)
    ensures Inside(r, r) && Union(EMPTY, r) == r && Bounds([]) == EMPTY
  {
  }

  lemma BareOverlaps(held: seq<Rect>, box: Rect, m: nat, i: nat, rect: Rect)
    requires Follows(held, box, m) && !HasPixel(box) && i < |held|
    ensures !Overlaps(held[i], rect)
  {
    hide Bounds, Overlaps;
    if HasPixel(held[i]) {
      var r := held[i];
      assert Contains(r, r.x, r.y);
      FollowsCovers(held, box, m, r.x, r.y);
    } else {
      NoOverlapWithout(held[i], rect);
    }
  }

  lemma BareInside(held: seq<Rect>, box: Rect, m: nat, rect: Rect, m': nat)
    requires Follows(held, box, m) && !IsEmpty(rect)
    requires var box' := Union(box, rect);
      m' == if IsEmpty(box') then |held| + 1 else if IsEmpty(box) then |held| else m
    ensures forall i | m' <= i < |held + [rect]| :: Inside((held + [rect])[i], Union(box, rect))
  {
    hide Bounds, Inside, Union;
    UnionIsLeast(box, rect, EMPTY);
    if !IsEmpty(Union(box, rect)) && !IsEmpty(box) {
      forall i | m <= i < |held| ensures Inside(held[i], Union(box, rect)) {
        BoxGrows(held[i], box, rect);
      }
    }
  }
}
