/** What marking keeps true while it goes. */
module Marking {
  import opened HeapGraph

  type Pending = map<Handle, seq<Handle>>

  /** Only marks differ. */
  ghost predicate SameNodes(x: seq<Entry>, y: seq<Entry>) {
    |x| == |y| && forall i | 0 <= i < |x| :: x[i].generation == y[i].generation && x[i].node == y[i].node
  }

  /** `done` is what is marked. */
  ghost predicate Marks(entries: seq<Entry>, done: set<Handle>) {
    forall h :: h in done <==> MarkedAt(entries, h)
  }

  predicate Waits(pending: Pending, k: Handle, v: Handle) {
    k in pending && v in pending[k]
  }

  /** The target is marked or will be looked at, or it waits for its key. */
  ghost predicate Met(e: Edge, done: set<Handle>, work: seq<Handle>, pending: Pending) {
    e.target in done || e.target in work || (e.Ephemeron? && Waits(pending, e.key, e.target))
  }

  /** Every edge of a node that has been marked is met, but for those of `open`. */
  ghost predicate Covered(was: seq<Entry>, seen: set<Handle>, done: set<Handle>, work: seq<Handle>, pending: Pending,
      open: set<Handle>) {
    forall h, e | h in done && h !in seen && h !in open && EdgeFrom(was, h, e) :: Met(e, done, work, pending)
  }

  /** Everything marked or queued is in `s`; what waits is, once its key is. */
  ghost predicate Within(done: set<Handle>, work: seq<Handle>, pending: Pending, s: iset<Handle>) {
    && (forall h | h in done :: h in s)
    && (forall h | h in work :: h in s)
    && (forall k, v | k in s && Waits(pending, k, v) :: v in s)
  }

  /** Nothing is marked or queued that is not in every closed set. */
  ghost predicate Justified(was: seq<Entry>, seen: set<Handle>, roots: seq<Handle>, done: set<Handle>,
      work: seq<Handle>, pending: Pending) {
    forall s: iset<Handle> | Closed(was, seen, roots, s) :: Within(done, work, pending, s)
  }

  /** Nothing met is lost between two states. */
  ghost predicate Carries(done: set<Handle>, work: seq<Handle>, pending: Pending, work': seq<Handle>,
      pending': Pending) {
    && (forall h | h in work :: h in done || h in work')
    && (forall k, v | Waits(pending, k, v) :: v in work' || Waits(pending', k, v))
  }

  lemma CoveredStays(was: seq<Entry>, seen: set<Handle>, done: set<Handle>, work: seq<Handle>, pending: Pending,
      open: set<Handle>, work': seq<Handle>, pending': Pending)
    requires Covered(was, seen, done, work, pending, open) && Carries(done, work, pending, work', pending')
    ensures Covered(was, seen, done, work', pending', open)
  {
    hide EdgeFrom;
    forall h, e | h in done && h !in seen && h !in open && EdgeFrom(was, h, e)
      ensures Met(e, done, work', pending')
    {
      assert Met(e, done, work, pending);
    }
  }

  /** When nothing is left to look at, what is marked is the least closed set. */
  lemma AllMarked(was: seq<Entry>, seen: set<Handle>, roots: seq<Handle>, done: set<Handle>, pending: Pending)
    requires Covered(was, seen, done, [], pending, {}) && Justified(was, seen, roots, done, [], pending)
    requires forall h | h in seen :: h in done
    requires forall h | h in roots :: h in done
    requires forall k | k in pending :: k !in done
    ensures Least(was, seen, roots, done)
  {
    hide EdgeFrom;
    var s := iset h | h in done;
    forall h, e | h in s && h !in seen && EdgeFrom(was, h, e) && (e.Strong? || e.key in s)
      ensures e.target in s
    {
      assert Met(e, done, [], pending);
    }
  }

  /** One more value waits. */
  function Wait(pending: Pending, k: Handle, v: Handle): (r: Pending) {
    pending[k := (if k in pending then pending[k] else []) + [v]]
  }

  lemma WaitAdds(pending: Pending, k: Handle, v: Handle)
    ensures forall j, x :: Waits(Wait(pending, k, v), j, x) <==> Waits(pending, j, x) || (j == k && x == v)
  {
  }
}
