/** Steps of marking, on the values they change. */
module MarkSteps {
  import opened Wrappers
  import opened HeapGraph
  import opened Marking

  /** Marking a node that was queued: what waited for it is queued, and its own edges are open. */
  lemma Released(was: seq<Entry>, seen: set<Handle>, roots: seq<Handle>, done: set<Handle>, work: seq<Handle>,
      pending: Pending, h: Handle)
    requires Covered(was, seen, done, work + [h], pending, {})
    requires Justified(was, seen, roots, done, work + [h], pending)
    ensures var work' := work + (if h in pending then pending[h] else []);
      Covered(was, seen, done + {h}, work', pending - {h}, {h}) &&
      Justified(was, seen, roots, done + {h}, work', pending - {h})
  {
    hide EdgeFrom, Closed;
    var values := if h in pending then pending[h] else [];
    var work', done', pending' := work + values, done + {h}, pending - {h};
    forall g, e | g in done' && g !in seen && g !in {h} && EdgeFrom(was, g, e)
      ensures Met(e, done', work', pending')
    {
      assert Met(e, done, work + [h], pending);
    }
    forall s: iset<Handle> | Closed(was, seen, roots, s)
      ensures Within(done', work', pending', s)
    {
      assert Within(done, work + [h], pending, s);
      assert h in work + [h];
      forall x | x in work' ensures x in s {
        if x in values {
          assert Waits(pending, h, x);
        } else {
          assert x in work + [h];
        }
      }
      forall k, v | k in s && Waits(pending', k, v) ensures v in s {
        assert Waits(pending, k, v);
      }
    }
  }

  /** What is new is there because of an edge of `h`, or because a key that is marked was waited for. */
  ghost predicate Grows(was: seq<Entry>, h: Handle, done: set<Handle>, work: seq<Handle>, pending: Pending,
      work': seq<Handle>, pending': Pending) {
    && (forall x | x in work' :: x in work || EdgeFrom(was, h, Strong(x)) || Woken(done, pending, x))
    && (forall k, v | Waits(pending', k, v) :: Waits(pending, k, v) || EdgeFrom(was, h, Ephemeron(k, v)))
  }

  ghost predicate Woken(done: set<Handle>, pending: Pending, x: Handle) {
    exists k :: k in done && Waits(pending, k, x)
  }

  lemma JustifiedGrows(was: seq<Entry>, seen: set<Handle>, roots: seq<Handle>, h: Handle, done: set<Handle>,
      work: seq<Handle>, pending: Pending, work': seq<Handle>, pending': Pending)
    requires h in done && h !in seen && Justified(was, seen, roots, done, work, pending)
    requires Grows(was, h, done, work, pending, work', pending')
    ensures Justified(was, seen, roots, done, work', pending')
  {
    hide EdgeFrom;
    forall s: iset<Handle> | Closed(was, seen, roots, s)
      ensures Within(done, work', pending', s)
    {
      assert Within(done, work, pending, s);
      forall x | x in work' ensures x in s {
        if x !in work && !EdgeFrom(was, h, Strong(x)) {
          var k :| k in done && Waits(pending, k, x);
        }
      }
      forall k, v | k in s && Waits(pending', k, v) ensures v in s {
        if !Waits(pending, k, v) {
          assert EdgeFrom(was, h, Ephemeron(k, v));
        }
      }
    }
  }

  /** One step: nothing met is lost, and nothing unjustified is new. */
  lemma Stepped(was: seq<Entry>, seen: set<Handle>, roots: seq<Handle>, h: Handle, done: set<Handle>,
      work: seq<Handle>, pending: Pending, work': seq<Handle>, pending': Pending)
    requires h in done && h !in seen
    requires Covered(was, seen, done, work, pending, {h}) && Justified(was, seen, roots, done, work, pending)
    requires Carries(done, work, pending, work', pending') && Grows(was, h, done, work, pending, work', pending')
    ensures Covered(was, seen, done, work', pending', {h}) && Justified(was, seen, roots, done, work', pending')
  {
    hide EdgeFrom, Covered, Justified, Carries, Grows;
    CoveredStays(was, seen, done, work, pending, {h}, work', pending');
    JustifiedGrows(was, seen, roots, h, done, work, pending, work', pending');
  }

  /** With its own edges met, a node is no longer open. */
  lemma Closes(was: seq<Entry>, seen: set<Handle>, done: set<Handle>, work: seq<Handle>, pending: Pending, h: Handle)
    requires Covered(was, seen, done, work, pending, {h})
    requires forall e | EdgeFrom(was, h, e) :: Met(e, done, work, pending)
    ensures Covered(was, seen, done, work, pending, {})
  {
    hide EdgeFrom, Met;
  }

  lemma WeakEdgeNext(weak: seq<WeakEntry>, i: nat, e: Edge)
    requires i < |weak|
    ensures WeakEdge(weak[..i + 1], e) <==> WeakEdge(weak[..i], e) || IsEdge(weak[i], e)
  {
    hide IsEdge;
    var x, y := weak[..i], weak[..i + 1];
    if WeakEdge(y, e) {
      var j :| 0 <= j < |y| && IsEdge(y[j], e);
      if j < i {
        assert x[j] == y[j];
      }
    }
    if WeakEdge(x, e) {
      var j :| 0 <= j < |x| && IsEdge(x[j], e);
      assert y[j] == x[j];
    }
    if IsEdge(weak[i], e) {
      assert y[i] == weak[i];
    }
  }

  /** What sweeping the weak maps will cost. */
  function MapsCost(was: seq<Entry>, maps: seq<Handle>): (n: nat) {
    if maps == [] then 0 else MapsCost(was, maps[..|maps| - 1]) + WeakSize(was, maps[|maps| - 1])
  }

  predicate HasWeak(was: seq<Entry>, h: Handle) {
    var node := Get(was, h);
    node.Some? && node.value.Object? && node.value.weak.Some?
  }

  function WeakSize(was: seq<Entry>, h: Handle): (n: nat) {
    if HasWeak(was, h) then |Get(was, h).value.weak.value| else 0
  }
}
