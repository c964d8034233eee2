/** Damage in place: the sequence of `DamageSpec` in the front of an array. */
module DamageSets {
  import opened Wrappers
  import opened Rects
  import opened DamageSpec

  class Damage {
    const rects: array<Rect>
    var len: nat

    ghost predicate Valid()
      reads this, rects
    {
      rects.Length == CAPACITY && len <= CAPACITY
    }

    /** The front of the array, as a sequence. */
    ghost function Held(): (held: seq<Rect>)
      requires Valid()
      reads this, rects
    {
      rects[..len]
    }

    constructor ()
      ensures Valid() && fresh(rects) && Held() == []
    {
      rects := new Rect[CAPACITY](_ => EMPTY);
      len := 0;
    }

    /** Holds no rectangle afterwards. */
    method Clear()
      requires Valid()
      modifies this, rects
      ensures Valid() && Held() == []
    {
      forall i | 0 <= i < rects.Length {
        rects[i] := EMPTY;
      }
      len := 0;
    }

    /** Computes `Bounds`. */
    method Enclosing() returns (r: Rect)
      requires Valid()
      ensures r == Bounds(Held())
    {
      r := EMPTY;
      ghost var held := Held();
      for i := 0 to len
        invariant r == Bounds(held[..i])
      {
        assert held[..i + 1][..i] == held[..i];
        r := Union(r, rects[i]);
      }
      assert held[..len] == held;
    }

    /** Computes `Overlapping`. */
    method FindOverlapping(rect: Rect, slot: nat) returns (found: Option<nat>)
      requires Valid()
      ensures found == Overlapping(Held(), rect, slot, 0)
    {
      ghost var held := Held();
      var i := 0;
      while i < len
        invariant i <= len && Overlapping(held, rect, slot, i) == Overlapping(held, rect, slot, 0)
      {
        if i != slot && Overlaps(rects[i], rect) {
          return Some(i);
        }
        i := i + 1;
      }
      found := None;
    }

    /** Closes the gap at `index`. */
    method Remove(index: nat)
      requires Valid() && index < len
      modifies this, rects
      ensures Valid() && len == old(len) - 1 && Held() == Without(old(Held()), index)
    {
      ghost var held := Held();
      var i := index;
      while i + 1 < len
        invariant len == old(len) && index <= i < len
        invariant rects[..i] == held[..index] + held[index + 1..i + 1]
        invariant rects[i + 1..len] == held[i + 1..]
      {
        var next := rects[i + 1];
        assert next == held[i + 1];
        assert rects[i + 2..len] == held[i + 2..] by {
          assert rects[i + 2..len] == rects[i + 1..len][1..];
        }
        ghost var done := rects[..i];
        rects[i] := next;
        assert rects[..i + 1] == done + [next];
        i := i + 1;
      }
      rects[i] := EMPTY;
      len := len - 1;
    }

    /** The set afterwards is `Pushed`. */
    method Push(rect: Rect)
      requires Valid()
      modifies this, rects
      ensures Valid() && Held() == Pushed(old(Held()), rect)
      decreases len
    {
      hide Absorb;
      ghost var held := Held();
      if IsEmpty(rect) {
        return;
      }
      var first := FindOverlapping(rect, len);
      if first.Some? {
        Merge(first.value, Union(rects[first.value], rect));
        return;
      }
      if len < CAPACITY {
        rects[len] := rect;
        len := len + 1;
        assert Held() == held + [rect];
        return;
      }
      var bounds := Enclosing();
      bounds := Union(bounds, rect);
      Clear();
      Push(bounds);
      assert Pushed([], bounds) == if IsEmpty(bounds) then [] else [bounds];
    }

    /** The held rectangle at `at` becomes `union`, which takes in every other it overlaps. */
    method Merge(at: nat, union: Rect)
      requires Valid() && at < len
      modifies this, rects
      ensures Valid() && Held() == Absorb(old(Held()), at, union)
    {
      hide Overlaps, Rects.Union, Overlapping;
      var slot: nat, merged := at, union;
      var next := FindOverlapping(merged, slot);
      while next.Some?
        invariant Valid() && slot < len && next == Overlapping(Held(), merged, slot, 0)
        invariant Absorb(Held(), slot, merged) == Absorb(old(Held()), at, union)
        decreases len
      {
        var index := next.value;
        merged := Union(merged, rects[index]);
        Remove(index);
        if index < slot {
          slot := slot - 1;
        }
        next := FindOverlapping(merged, slot);
      }
      ghost var held := Held();
      rects[slot] := merged;
      assert Held() == held[slot := merged];
    }
  }
}
