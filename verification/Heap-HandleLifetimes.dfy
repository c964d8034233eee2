/** What becomes of handles over any run of allocations, writes and collections. */
module HandleLifetimes {
  import opened Wrappers
  import opened HeapGraph

  /** The slots and which of them are free. */
  datatype Slots = Slots(entries: seq<Entry>, free: seq<nat>)

  datatype Status = Unissued | Live | Expired

  /** Free slots are distinct and empty. */
  ghost predicate Valid(s: Slots) {
    && (forall i | 0 <= i < |s.free| :: s.free[i] < |s.entries| && s.entries[s.free[i]].node.None?)
    && (forall i, j | 0 <= i < j < |s.free| :: s.free[i] != s.free[j])
  }

  /** A handle has not been given out, or names a node, or names one no longer. An empty slot that
      is not free has used up its generations. */
  ghost function StatusOf(s: Slots, h: Handle): (r: Status) {
    if h.index >= |s.entries| || h.generation > s.entries[h.index].generation then Unissued
    else if h.generation < s.entries[h.index].generation then Expired
    else if s.entries[h.index].node.Some? then Live
    else if h.index in s.free then Unissued
    else Expired
  }

  lemma LiveResolves(s: Slots, h: Handle)
    ensures StatusOf(s, h) == Live <==> Get(s.entries, h).Some?
  {
  }

  /** Nothing changed for any handle but `h`. */
  ghost predicate OthersStay(s: Slots, t: Slots, h: Handle) {
    forall g | g != h :: StatusOf(t, g) == StatusOf(s, g) && Get(t.entries, g) == Get(s.entries, g)
  }

  /** A collection may have taken weak associations from a node, and nothing else. */
  ghost predicate Thinned(a: Node, b: Node) {
    || a == b
    || (a.Object? && a.weak.Some? && b.Object? && b.weak.Some? && b == a.(weak := b.weak)
        && forall w | w in b.weak.value :: w in a.weak.value)
  }

  lemma ThinnedTransitive(a: Node, b: Node, c: Node)
    requires Thinned(a, b) && Thinned(b, c)
    ensures Thinned(a, c)
  {
  }

  lemma SweptIsThinned(node: Node, kept: set<Handle>)
    ensures Thinned(node, Swept(node, kept))
  {
    if node.Object? && node.weak.Some? {
      forall w | w in SweptWeak(node.weak.value, kept) ensures w in node.weak.value {
        SweptWeakHolds(node.weak.value, kept, w);
      }
    }
  }

  datatype Event = Issue(handle: Handle, node: Node) | Write(handle: Handle, node: Node) | Collection

  /** What each event does to handles. */
  ghost predicate Step(s: Slots, e: Event, t: Slots) {
    match e
    case Issue(h, node) =>
      StatusOf(s, h) == Unissued && StatusOf(t, h) == Live && Get(t.entries, h) == Some(node) && OthersStay(s, t, h)
    case Write(h, node) =>
      StatusOf(s, h) == Live && StatusOf(t, h) == Live && Get(t.entries, h) == Some(node) && OthersStay(s, t, h)
    case Collection => forall h :: Survives(s, t, h)
  }

  /** A collection ends some nodes, and thins those it keeps. */
  ghost predicate Survives(s: Slots, t: Slots, h: Handle) {
    if StatusOf(s, h) == Live then
      StatusOf(t, h) == Expired ||
      (StatusOf(t, h) == Live && Thinned(Get(s.entries, h).value, Get(t.entries, h).value))
    else StatusOf(t, h) == StatusOf(s, h)
  }

  /** A run: what happened between each state and the next. */
  ghost predicate Run(states: seq<Slots>, events: seq<Event>) {
    && |states| == |events| + 1
    && forall i | 0 <= i < |events| :: Step(states[i], events[i], states[i + 1])
  }

  /** A handle that was given out names its node until it expires, and does not come back. */
  lemma {:induction false} Ages(states: seq<Slots>, events: seq<Event>, i: nat, j: nat, h: Handle)
    requires Run(states, events) && i <= j < |states|
    ensures StatusOf(states[i], h) == Expired ==> StatusOf(states[j], h) == Expired
    ensures StatusOf(states[i], h) == Live ==> StatusOf(states[j], h) != Unissued
    ensures StatusOf(states[j], h) == Unissued ==> StatusOf(states[i], h) == Unissued
    decreases j
  {
    hide StatusOf;
    if i < j {
      var k := j - 1;
      Ages(states, events, i, k, h);
      assert Step(states[k], events[k], states[k + 1]);
      assert events[k].Collection? ==> Survives(states[k], states[k + 1], h);
    }
  }

  /** No handle is given out twice. */
  lemma IssuedOnce(states: seq<Slots>, events: seq<Event>, i: nat, j: nat)
    requires Run(states, events) && i < j < |events| && events[i].Issue? && events[j].Issue?
    ensures events[i].handle != events[j].handle
  {
    hide StatusOf;
    assert Step(states[i], events[i], states[i + 1]);
    assert Step(states[j], events[j], states[j + 1]);
    Ages(states, events, i + 1, j, events[i].handle);
  }

  /** Until it expires, a handle resolves to the node it was given out for, as last written. */
  lemma {:induction false} ResolvesToItsNode(states: seq<Slots>, events: seq<Event>, i: nat, j: nat)
    requires Run(states, events) && i < j < |states| && !events[i].Collection?
    requires forall k | i < k < j :: events[k].Write? ==> events[k].handle != events[i].handle
    requires StatusOf(states[j], events[i].handle) == Live
    ensures Get(states[j].entries, events[i].handle).Some?
    ensures Thinned(events[i].node, Get(states[j].entries, events[i].handle).value)
    decreases j
  {
    hide StatusOf, Get, Thinned;
    var h, k := events[i].handle, j - 1;
    assert Step(states[k], events[k], states[k + 1]);
    LiveResolves(states[j], h);
    if k > i {
      LiveResolves(states[k], h);
      if events[k].Issue? && events[k].handle == h {
        assert Step(states[i], events[i], states[i + 1]);
        Ages(states, events, i + 1, k, h);
        assert false;
      }
      if events[k].Collection? {
        assert Survives(states[k], states[j], h);
      }
      ResolvesToItsNode(states, events, i, k);
      if events[k].Collection? {
        ThinnedTransitive(events[i].node, Get(states[k].entries, h).value, Get(states[j].entries, h).value);
      }
    } else {
      ThinnedSelf(events[i].node);
    }
  }

  lemma ThinnedSelf(a: Node)
    ensures Thinned(a, a)
  {
  }
}
