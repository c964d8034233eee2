/** What the rectangles of a damage set are made of. */
module DamageClusters {
  import opened Wrappers
  import opened Rects
  import opened DamageSpec

  /** Pushed rectangles that were joined, two at a time. */
  datatype Cluster = One(rect: Rect) | Join(a: Cluster, b: Cluster)

  /** The rectangle around all of it. */
  function Box(c: Cluster): (r: Rect) {
    match c
    case One(rect) => rect
    case Join(a, b) => Union(Box(a), Box(b))
  }

  /** What was joined overlapped. */
  predicate Linked(c: Cluster) {
    c.Join? ==> Linked(c.a) && Linked(c.b) && Overlaps(Box(c.a), Box(c.b))
  }

  function Leaves(c: Cluster): (m: multiset<Rect>) {
    match c
    case One(rect) => multiset{rect}
    case Join(a, b) => Leaves(a) + Leaves(b)
  }

  function AllLeaves(clusters: seq<Cluster>): (m: multiset<Rect>) {
    if clusters == [] then multiset{}
    else AllLeaves(clusters[..|clusters| - 1]) + Leaves(clusters[|clusters| - 1])
  }

  function Drop(clusters: seq<Cluster>, i: nat): (r: seq<Cluster>)
    requires i < |clusters|
    ensures |r| == |clusters| - 1
  {
    clusters[..i] + clusters[i + 1..]
  }

  lemma LeavesLast(clusters: seq<Cluster>, c: Cluster)
    ensures AllLeaves(clusters + [c]) == AllLeaves(clusters) + Leaves(c)
  {
    assert (clusters + [c])[..|clusters|] == clusters;
  }

  lemma {:induction false} LeavesWithout(clusters: seq<Cluster>, i: nat)
    requires i < |clusters|
    ensures AllLeaves(clusters) == AllLeaves(Drop(clusters, i)) + Leaves(clusters[i])
  {
    hide AllLeaves, Leaves;
    var n := |clusters| - 1;
    var front, last := clusters[..n], clusters[n];
    assert clusters == front + [last];
    LeavesLast(front, last);
    if i == n {
      assert Drop(clusters, i) == front;
    } else {
      LeavesWithout(front, i);
      assert Drop(clusters, i) == Drop(front, i) + [last];
      LeavesLast(Drop(front, i), last);
    }
  }

  lemma LeavesWith(clusters: seq<Cluster>, slot: nat, c: Cluster)
    requires slot < |clusters|
    ensures AllLeaves(clusters[slot := c]) == AllLeaves(Drop(clusters, slot)) + Leaves(c)
  {
    hide AllLeaves, Leaves;
    LeavesWithout(clusters[slot := c], slot);
    assert Drop(clusters[slot := c], slot) == Drop(clusters, slot);
  }

  /** Two are left out, whichever goes first. */
  lemma LeavesWithoutTwo(clusters: seq<Cluster>, slot: nat, k: nat)
    requires slot < |clusters| && k < |clusters| && slot != k
    ensures var slot' := if k < slot then slot - 1 else slot;
      AllLeaves(Drop(clusters, slot)) == AllLeaves(Drop(Drop(clusters, k), slot')) + Leaves(clusters[k])
  {
    hide AllLeaves, Leaves;
    var slot', k' := if k < slot then slot - 1 else slot, if k < slot then k else k - 1;
    LeavesWithout(Drop(clusters, slot), k');
    assert Drop(Drop(clusters, slot), k') == Drop(Drop(clusters, k), slot');
    assert Drop(clusters, slot)[k'] == clusters[k];
  }

  /** The set, rectangle by rectangle. */
  ghost predicate Makes(clusters: seq<Cluster>, held: seq<Rect>) {
    |clusters| == |held| && forall i | 0 <= i < |held| :: Box(clusters[i]) == held[i] && Linked(clusters[i])
  }

  /** Absorbing only joins what overlaps, and loses nothing. */
  lemma {:induction false} AbsorbLinked(held: seq<Rect>, slot: nat, clusters: seq<Cluster>, c: Cluster)
    returns (r: seq<Cluster>)
    requires slot < |held| && Makes(clusters, held) && Linked(c)
    ensures Makes(r, Absorb(held, slot, Box(c)))
    ensures AllLeaves(r) == AllLeaves(Drop(clusters, slot)) + Leaves(c)
    decreases |held|
  {
    hide Overlaps, Union, AllLeaves, Drop, Without;
    var merged := Box(c);
    var i := Overlapping(held, merged, slot, 0);
    if i.None? {
      r := clusters[slot := c];
      LeavesWith(clusters, slot, c);
    } else {
      var k := i.value;
      MakesWithout(clusters, held, k);
      OverlapsIsMutual(held[k], merged);
      r := AbsorbLinked(Without(held, k), if k < slot then slot - 1 else slot, Drop(clusters, k), Join(c, clusters[k]));
      LeavesWithoutTwo(clusters, slot, k);
    }
  }

  lemma MakesWithout(clusters: seq<Cluster>, held: seq<Rect>, k: nat)
    requires Makes(clusters, held) && k < |held|
    ensures Makes(Drop(clusters, k), Without(held, k))
  {
    hide Box, Linked;
    var rest := Drop(clusters, k);
    forall j | 0 <= j < |rest| ensures Box(rest[j]) == Without(held, k)[j] && Linked(rest[j]) {
      assert rest[j] == clusters[if j < k then j else j + 1];
    }
  }

  /** There is no room for a rectangle that nothing overlaps. */
  predicate Spills(held: seq<Rect>, rect: Rect) {
    !IsEmpty(rect) && |held| >= CAPACITY && forall i | 0 <= i < |held| :: !Overlaps(held[i], rect)
  }

  lemma PushLinked(held: seq<Rect>, rect: Rect, clusters: seq<Cluster>) returns (r: seq<Cluster>)
    requires Makes(clusters, held) && !Spills(held, rect)
    ensures Makes(r, Pushed(held, rect))
    ensures AllLeaves(r) == AllLeaves(clusters) + if IsEmpty(rect) then multiset{} else multiset{rect}
  {
    hide Overlaps, Union, Absorb, AllLeaves;
    r := clusters;
    if !IsEmpty(rect) {
      var first := Overlapping(held, rect, |held|, 0);
      if first.Some? {
        var slot := first.value;
        r := AbsorbLinked(held, slot, clusters, Join(clusters[slot], One(rect)));
        LeavesWithout(clusters, slot);
      } else {
        r := clusters + [One(rect)];
        LeavesWithout(r, |clusters|);
        assert Drop(r, |clusters|) == clusters;
      }
    }
  }

  /** No push found the set full of rectangles that it does not overlap. */
  predicate Roomy(pushes: seq<Rect>) {
    pushes == [] || (
      var n := |pushes| - 1;
      Roomy(pushes[..n]) && !Spills(Damaged(pushes[..n]), pushes[n]))
  }

  /** The pushed rectangles that are not empty. */
  function Changed(pushes: seq<Rect>): (m: multiset<Rect>) {
    if pushes == [] then multiset{}
    else
      var last := pushes[|pushes| - 1];
      Changed(pushes[..|pushes| - 1]) + if IsEmpty(last) then multiset{} else multiset{last}
  }

  /** While there is room, each rectangle of the set is the box around pushed ones that overlaps joined,
      and every pushed one that is not empty is in one of them. */
  lemma {:induction false} DamageLinked(pushes: seq<Rect>) returns (clusters: seq<Cluster>)
    requires Roomy(pushes)
    ensures Makes(clusters, Damaged(pushes)) && AllLeaves(clusters) == Changed(pushes)
  {
    hide Pushed, Spills, Makes;
    if pushes == [] {
      clusters := [];
      NoClusters();
    } else {
      var n := |pushes| - 1;
      var before := DamageLinked(pushes[..n]);
      clusters := PushLinked(Damaged(pushes[..n]), pushes[n], before);
    }
  }

  lemma NoClusters()
    ensures Makes([], [])
  {
  }

  /** Rectangles that do not overlap, no more than the capacity, are kept as they are. */
  lemma {:induction false} ApartIsKept(pushes: seq<Rect>)
    requires Apart(pushes) && |pushes| <= CAPACITY && forall i | 0 <= i < |pushes| :: !IsEmpty(pushes[i])
    ensures Damaged(pushes) == pushes
  {
    hide Overlaps, Union, Absorb, Bounds;
    if pushes != [] {
      var n := |pushes| - 1;
      ApartIsKept(pushes[..n]);
      assert pushes == pushes[..n] + [pushes[n]];
    }
  }

  /** A push that spills leaves one rectangle, the box around everything. */
  lemma SpillsToOne(held: seq<Rect>, rect: Rect)
    requires Spills(held, rect)
    ensures Bounds(Pushed(held, rect)) == Bounds(held + [rect]) || IsEmpty(Bounds(held + [rect]))
    ensures |Pushed(held, rect)| == if IsEmpty(Bounds(held + [rect])) then 0 else 1
  {
    hide Overlaps, Union, Absorb;
    BoundsGrow(held, rect);
    var all := Bounds(held + [rect]);
    BoundsGrow([], all);
    assert [] + [all] == [all];
    InsideItself(all);
  }
}
