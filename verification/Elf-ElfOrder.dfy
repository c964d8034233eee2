/** Sorting the segments in place, and comparing only neighbours that hold memory. */
module ElfOrder {

  import opened Wrappers
  import opened ElfSegments

  type Slots = seq<Option<Segment>>

  predicate Filled(slots: Slots, count: nat) {
    count <= |slots| && forall i :: 0 <= i < count ==> slots[i].Some?
  }

  /** The segments in the first slots. */
  function Held(slots: Slots, count: nat): (segments: seq<Segment>)
    requires Filled(slots, count)
    ensures |segments| == count && forall i :: 0 <= i < count ==> segments[i] == slots[i].value
  {
    seq(count, i requires 0 <= i < count => slots[i].value)
  }

  function Swapped(s: seq<Segment>, i: nat, j: nat): (t: seq<Segment>)
    requires i < |s| && j < |s|
  {
    s[i := s[j]][j := s[i]]
  }

  lemma SwapKeeps(s: seq<Segment>, i: nat, j: nat)
    requires i < |s| && j < |s|
    ensures multiset(Swapped(s, i, j)) == multiset(s)
  {
  }

  /** The first segments are sorted but for the one on its way down. */
  ghost predicate Sinking(h: seq<Segment>, position: nat, index: nat) {
    && position <= index < |h|
    && (forall i, j :: 0 <= i <= j <= index && i != position && j != position ==> h[i].vaddr <= h[j].vaddr)
    && (forall j :: position < j <= index ==> h[position].vaddr <= h[j].vaddr)
  }

  lemma {:induction false} SinkStarts(h: seq<Segment>, index: nat)
    requires index < |h| && Sorted(h[..index])
    ensures Sinking(h, index, index)
  {
    assert forall i :: 0 <= i < index ==> h[..index][i] == h[i];
  }

  lemma {:induction false} SinkSteps(h: seq<Segment>, position: nat, index: nat)
    requires Sinking(h, position, index) && position > 0 && h[position].vaddr < h[position - 1].vaddr
    ensures Sinking(Swapped(h, position - 1, position), position - 1, index)
  {
  }

  lemma {:induction false} SinkEnds(h: seq<Segment>, position: nat, index: nat)
    requires Sinking(h, position, index) && (position > 0 ==> h[position - 1].vaddr <= h[position].vaddr)
    ensures Sorted(h[..index + 1])
  {
  }

  /** Swaps the segments of two slots. */
  method Exchange(slots: array<Option<Segment>>, count: nat, i: nat, j: nat)
    requires Filled(slots[..], count) && i < count && j < count
    modifies slots
    ensures Filled(slots[..], count) && slots[count..] == old(slots[count..])
    ensures Held(slots[..], count) == Swapped(old(Held(slots[..], count)), i, j)
  {
    var left, right := slots[i], slots[j];
    slots[i] := right;
    slots[j] := left;
  }

  /** Takes the segment of a slot down to its place among those before it. */
  method Sink(slots: array<Option<Segment>>, count: nat, index: nat)
    requires Filled(slots[..], count) && 0 < index < count
    requires Sorted(Held(slots[..], count)[..index])
    modifies slots
    ensures Filled(slots[..], count) && slots[count..] == old(slots[count..])
    ensures Sorted(Held(slots[..], count)[..index + 1])
    ensures multiset(Held(slots[..], count)) == multiset(old(Held(slots[..], count)))
  {
    hide Sinking, Sorted, Swapped;
    var position := index;
    SinkStarts(Held(slots[..], count), index);
    while position > 0
      invariant 0 <= position <= index
      invariant Filled(slots[..], count) && slots[count..] == old(slots[count..])
      invariant Sinking(Held(slots[..], count), position, index)
      invariant multiset(Held(slots[..], count)) == multiset(old(Held(slots[..], count)))
    {
      var previous := position - 1;
      if slots[previous].value.vaddr <= slots[position].value.vaddr {
        break;
      }
      SinkSteps(Held(slots[..], count), position, index);
      SwapKeeps(Held(slots[..], count), previous, position);
      Exchange(slots, count, previous, position);
      position := previous;
    }
    SinkEnds(Held(slots[..], count), position, index);
  }

  /** Insertion sort by address. */
  method SortByVaddr(slots: array<Option<Segment>>, count: nat)
    requires Filled(slots[..], count)
    modifies slots
    ensures Filled(slots[..], count) && slots[count..] == old(slots[count..])
    ensures Sorted(Held(slots[..], count))
    ensures multiset(Held(slots[..], count)) == multiset(old(Held(slots[..], count)))
  {
    var index := 1;
    while index < count
      invariant 1 <= index && (index <= count || count == 0)
      invariant Filled(slots[..], count) && slots[count..] == old(slots[count..])
      invariant count > 0 ==> Sorted(Held(slots[..], count)[..index])
      invariant multiset(Held(slots[..], count)) == multiset(old(Held(slots[..], count)))
    {
      Sink(slots, count, index);
      index := index + 1;
    }
    assert count > 0 ==> Held(slots[..], count)[..count] == Held(slots[..], count);
  }

  /** Every segment up to one that holds memory ends where that one does, or before. */
  ghost predicate Reaches(h: seq<Segment>, i: nat, last: nat) {
    && last < i <= |h|
    && h[last].memSize != 0
    && (forall k :: 0 <= k < i && h[k].memSize != 0 ==> h[k].vaddr + h[k].memSize <= h[last].vaddr + h[last].memSize)
  }

  lemma SharedIsNotApart(h: seq<Segment>, k: nat, i: nat)
    requires k < i < |h| && Overlaps(h[k], h[i])
    ensures !Apart(h)
  {
    OverlapsIsShared(h[k], h[i]);
  }

  /** A segment that starts behind the memory of those before it, or holds none, is apart from them. */
  lemma {:induction false} OneMoreApart(h: seq<Segment>, i: nat)
    requires i < |h| && Apart(h[..i])
    requires h[i].memSize != 0 ==>
               forall k :: 0 <= k < i && h[k].memSize != 0 ==> h[k].vaddr + h[k].memSize <= h[i].vaddr
    ensures Apart(h[..i + 1])
  {
    var more := h[..i + 1];
    forall k, l, address | 0 <= k < l < |more| && Covers(more[k], address) ensures !Covers(more[l], address) {
      assert more[k] == h[..i][k];
      if l < i {
        assert more[l] == h[..i][l];
      }
    }
  }

  /** Compares each segment that holds memory with the one before it that does. */
  method CheckOverlaps(slots: array<Option<Segment>>, count: nat) returns (apart: bool)
    requires Filled(slots[..], count) && Sorted(Held(slots[..], count))
    ensures apart <==> Apart(Held(slots[..], count))
  {
    ghost var h := Held(slots[..], count);
    var lastNonempty: Option<Segment> := None;
    ghost var last: nat := 0;
    for i := 0 to count
      invariant lastNonempty.None? ==> forall k :: 0 <= k < i ==> h[k].memSize == 0
      invariant lastNonempty.Some? ==> Reaches(h, i, last) && lastNonempty.value == h[last]
      invariant Apart(h[..i])
    {
      var segment := slots[i].value;
      if segment.memSize != 0 {
        if lastNonempty.Some? && Overlaps(lastNonempty.value, segment) {
          SharedIsNotApart(h, last, i);
          return false;
        }
        lastNonempty := Some(segment);
        last := i;
      }
      OneMoreApart(h, i);
    }
    assert h[..count] == h;
    return true;
  }
}
