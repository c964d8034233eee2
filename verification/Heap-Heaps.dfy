/** The heap: slots, the free ones, and the work list of a collection. */
module Heaps {
  import opened Wrappers
  import opened HeapGraph
  import opened Marking
  import opened MarkSteps
  import opened HeapCost
  import opened HandleLifetimes

  class Heap {
    var entries: seq<Entry>
    var free: seq<nat>
    var work: seq<Handle>

    constructor ()
      ensures entries == [] && free == [] && work == []
    {
      entries, free, work := [], [], [];
    }

    ghost function State(): (s: Slots)
      reads this
    {
      Slots(entries, free)
    }

    /** Gives a node a slot: the one freed last, or a new one up to the limit. */
    method Allocate(node: Node, limit: nat) returns (r: Result<Handle, Error>)
      requires Valid(State())
      modifies this`entries, this`free
      ensures Valid(State())
      ensures r.Ok? <==> old(free) != [] || old(|entries|) < limit
      ensures r.Ok? ==> Step(old(State()), Issue(r.value, node), State())
      ensures r.Ok? && old(free) == [] ==> |entries| == old(|entries|) + 1
      ensures r.Ok? && old(free) != [] ==> |entries| == old(|entries|) && free == old(free)[..old(|free|) - 1]
      ensures r.Err? ==> r == Err(Limit) && State() == old(State())
    {
      if free != [] {
        var index := free[|free| - 1];
        free := free[..|free| - 1];
        entries := entries[index := entries[index].(node := Some(node))];
        return Ok(Handle(index, entries[index].generation));
      }
      if |entries| >= limit {
        return Err(Limit);
      }
      entries := entries + [Entry(0, false, Some(node))];
      r := Ok(Handle(|entries| - 1, 0));
    }

    /** The node a handle resolves to. */
    function Lookup(h: Handle): (r: Result<Node, Error>)
      reads this
      ensures r.Ok? <==> StatusOf(State(), h) == Live
    {
      var node := Get(entries, h);
      if node.Some? then Ok(node.value) else Err(InvalidBytecode)
    }

    /** Writes the node a handle resolves to. */
    method Update(h: Handle, node: Node) returns (r: Result<(), Error>)
      requires Valid(State())
      modifies this`entries
      ensures Valid(State())
      ensures r.Ok? <==> old(Lookup(h)).Ok?
      ensures r.Ok? ==> Step(old(State()), Write(h, node), State())
      ensures r.Err? ==> r == Err(InvalidBytecode) && State() == old(State())
    {
      if Get(entries, h).None? {
        return Err(InvalidBytecode);
      }
      entries := entries[h.index := entries[h.index].(node := Some(node))];
      r := Ok(());
    }

    /** Registers the associations of a weak map that became live: a value whose key is built in is
        queued, any other waits for its key. */
    method Register(weak: seq<WeakEntry>, pending: Pending, fuel: nat)
      returns (r: Result<nat, Error>, more: Pending)
      modifies this`work
      ensures r.Err? ==> r == Err(Limit) && fuel < |weak|
      ensures r.Ok? ==> fuel == r.value + |weak|
      ensures r.Ok? ==> old(work) <= work && forall k, v | Waits(pending, k, v) :: Waits(more, k, v)
      ensures r.Ok? ==> forall x | x in work :: x in old(work) || WeakEdge(weak, Strong(x))
      ensures r.Ok? ==>
        forall k, v | Waits(more, k, v) :: Waits(pending, k, v) || WeakEdge(weak, Ephemeron(k, v))
      ensures r.Ok? ==> forall e | WeakEdge(weak, e) :: Met(e, {}, work, more)
      ensures r.Ok? ==> forall k | k in more :: k in pending || KeyOf(weak, k)
      ensures r.Ok? ==> |work| == old(|work|) + Fired(weak, {})
      ensures r.Ok? ==> forall k :: Held(more, k) == Held(pending, k) + Waiting(weak, k)
    {
      hide IsEdge, Fired, Waiting;
      NothingFires();
      more := pending;
      for i := 0 to |weak|
        invariant i <= fuel && old(work) <= work
        invariant forall k, v | Waits(pending, k, v) :: Waits(more, k, v)
        invariant forall x | x in work :: x in old(work) || WeakEdge(weak[..i], Strong(x))
        invariant forall k, v | Waits(more, k, v) :: Waits(pending, k, v) || WeakEdge(weak[..i], Ephemeron(k, v))
        invariant forall e | WeakEdge(weak[..i], e) :: Met(e, {}, work, more)
        invariant forall k | k in more :: k in pending || KeyOf(weak[..i], k)
        invariant |work| == old(|work|) + Fired(weak[..i], {})
        invariant forall k :: Held(more, k) == Held(pending, k) + Waiting(weak[..i], k)
      {
        if fuel - i < 1 {
          return Err(Limit), more;
        }
        forall e ensures WeakEdge(weak[..i + 1], e) <==> WeakEdge(weak[..i], e) || IsEdge(weak[i], e) {
          WeakEdgeNext(weak, i, e);
        }
        ghost var w, j := weak[i], i + 1;
        forall k ensures KeyOf(weak[..j], k) <==> KeyOf(weak[..i], k) || (w.key.Heap? && w.key.handle == k) {
          KeyOfNext(weak, i, k);
        }
        FiredNext(weak, {}, i);
        forall k ensures Waiting(weak[..j], k) == Waiting(weak[..i], k) + WaitingOne(w, k) {
          WaitingNext(weak, k, i);
        }
        more := RegisterOne(weak[i], more);
      }
      assert weak[..|weak|] == weak;
      r := Ok(fuel - |weak|);
    }

    method RegisterOne(w: WeakEntry, pending: Pending) returns (more: Pending)
      modifies this`work
      ensures old(work) <= work && forall k, v | Waits(pending, k, v) :: Waits(more, k, v)
      ensures forall x | x in work :: x in old(work) || IsEdge(w, Strong(x))
      ensures forall k, v | Waits(more, k, v) :: Waits(pending, k, v) || IsEdge(w, Ephemeron(k, v))
      ensures forall e | IsEdge(w, e) :: Met(e, {}, work, more)
      ensures forall k | k in more :: k in pending || (w.key.Heap? && w.key.handle == k)
      ensures |work| == old(|work|) + if Fires(w, {}) then 1 else 0
      ensures forall k :: Held(more, k) == Held(pending, k) + WaitingOne(w, k)
    {
      more := pending;
      if w.value.Some? {
        match w.key
        case Native(_) =>
          work := work + [w.value.value];
        case Heap(k, _) =>
          more := Wait(more, k, w.value.value);
          WaitAdds(pending, k, w.value.value);
      }
    }

    /** Queues what waits for keys of a map that are marked already. */
    method Activate(weak: seq<WeakEntry>, pending: Pending, ghost done: set<Handle>) returns (more: Pending)
      requires Marks(entries, done)
      modifies this`work
      ensures old(work) <= work && forall k | k in more :: k in pending && more[k] == pending[k]
      ensures forall k, v | Waits(pending, k, v) :: v in work || Waits(more, k, v)
      ensures forall k | k in more && MarkedAt(entries, k) :: !KeyOf(weak, k)
      ensures forall x | x in work :: x in old(work) || exists k :: MarkedAt(entries, k) && Waits(pending, k, x)
      ensures forall k | k !in done :: Held(more, k) == Held(pending, k)
      ensures (forall k | k in done :: Held(pending, k) == Waiting(weak, k)) ==>
        |work| + Fired(weak, {}) == old(|work|) + Fired(weak, done)
    {
      hide MarkedAt, Fired, Waiting;
      more := pending;
      ghost var keys: set<Handle> := {};
      for i := 0 to |weak|
        invariant old(work) <= work && forall k | k in more :: k in pending && more[k] == pending[k]
        invariant forall k, v | Waits(pending, k, v) :: v in work || Waits(more, k, v)
        invariant forall k | k in more && MarkedAt(entries, k) :: !KeyOf(weak[..i], k)
        invariant forall x | x in work :: x in old(work) || exists k :: MarkedAt(entries, k) && Waits(pending, k, x)
        invariant keys <= done && forall k | k in done && k !in keys :: Held(more, k) == Held(pending, k)
        invariant forall k | k !in done :: Held(more, k) == Held(pending, k)
        invariant forall k | k in done && KeyOf(weak[..i], k) :: k in keys
        invariant forall k | k in keys :: k !in more
        invariant (forall k | k in done :: Held(pending, k) == Waiting(weak, k)) ==>
          |work| + Fired(weak, {}) == old(|work|) + Fired(weak, keys)
      {
        var key := weak[i].key;
        forall k ensures KeyOf(weak[..i + 1], k) <==> KeyOf(weak[..i], k) || (key.Heap? && key.handle == k) {
          KeyOfNext(weak, i, k);
        }
        if key.Heap? && key.handle in done && key.handle !in keys {
          FiredAdds(weak, keys, key.handle);
          keys := keys + {key.handle};
        }
        if key.Heap? && MarkedAt(entries, key.handle) && key.handle in more {
          forall x | x in more[key.handle] ensures Waits(pending, key.handle, x) {
          }
          work := work + more[key.handle];
          more := more - {key.handle};
        }
      }
      assert weak[..|weak|] == weak;
      FiredSame(weak, keys, done);
    }

    /** Queues the dependents of a signal that somebody still waits for. */
    method TraceAbortDependents(dependents: seq<Handle>, fuel: nat) returns (r: Result<nat, Error>)
      modifies this`work
      ensures r.Err? ==> r == Err(Limit) && fuel < |dependents| + Listening(entries, dependents)
      ensures r.Ok? ==> fuel == r.value + |dependents| + Listening(entries, dependents)
      ensures r.Ok? ==> old(work) <= work && |work| == old(|work|) + AwaitedIn(entries, dependents)
      ensures r.Ok? ==> forall d | d in dependents && Awaited(entries, d) :: d in work
      ensures r.Ok? ==> forall x | x in work :: x in old(work) || (x in dependents && Awaited(entries, x))
    {
      hide Awaited, Listeners;
      if fuel < |dependents| {
        return Err(Limit);
      }
      var left: nat := fuel - |dependents|;
      var live: seq<Handle> := [];
      for i := 0 to |dependents|
        invariant unchanged(this) && |live| == AwaitedIn(entries, dependents[..i])
        invariant fuel == left + |dependents| + Listening(entries, dependents[..i])
        invariant forall d | d in dependents[..i] && Awaited(entries, d) :: d in live
        invariant forall x | x in live :: x in dependents[..i] && Awaited(entries, x)
      {
        var d := dependents[i];
        assert dependents[..i + 1][..i] == dependents[..i];
        ListeningGrows(entries, dependents, i + 1);
        if left < Listeners(entries, d) {
          return Err(Limit);
        }
        left := left - Listeners(entries, d);
        if Awaited(entries, d) {
          live := live + [d];
        }
      }
      assert dependents[..|dependents|] == dependents;
      work := work + live;
      r := Ok(left);
    }

    /** Registers the associations of a map that became live and activates those whose key is. */
    method FollowWeak(h: Handle, weak: seq<WeakEntry>, pending: Pending, fuel: nat, ghost was: seq<Entry>,
        ghost seen: set<Handle>, ghost roots: seq<Handle>, ghost done: set<Handle>)
      returns (r: Result<nat, Error>, more: Pending)
      requires Marks(entries, done) && h in done && h !in seen
      requires forall e | WeakEdge(weak, e) :: EdgeFrom(was, h, e)
      requires Covered(was, seen, done, work, pending, {h}) && Justified(was, seen, roots, done, work, pending)
      requires forall k | k in pending :: k !in done
      modifies this`work
      ensures r.Err? ==> r == Err(Limit) && fuel < |weak|
      ensures r.Ok? ==> old(work) <= work && forall k | k in more :: k !in done
      ensures r.Ok? ==> Covered(was, seen, done, work, more, {h}) && Justified(was, seen, roots, done, work, more)
      ensures r.Ok? ==> forall e | WeakEdge(weak, e) :: Met(e, done, work, more)
      ensures r.Ok? ==> fuel == r.value + |weak| && |work| == old(|work|) + Fired(weak, done)
      ensures r.Ok? ==> forall k | k !in done :: Held(more, k) == Held(pending, k) + Waiting(weak, k)
    {
      hide Fired, Waiting, EdgeFrom, Covered, Justified, WeakEdge;
      r, more := Register(weak, pending, fuel);
      if r.Err? {
        return;
      }
      Stepped(was, seen, roots, h, done, old(work), pending, work, more);
      ghost var between, waits := work, more;
      more := Activate(weak, more, done);
      Stepped(was, seen, roots, h, done, between, waits, work, more);
      forall e | WeakEdge(weak, e) ensures Met(e, done, work, more) {
        assert Met(e, {}, between, waits);
      }
    }

    /** Follows everything a marked node holds. */
    method Follow(h: Handle, node: Node, pending: Pending, fuel: nat, ghost was: seq<Entry>, ghost seen: set<Handle>,
        ghost roots: seq<Handle>, ghost done: set<Handle>)
      returns (r: Result<nat, Error>, more: Pending)
      requires SameNodes(was, entries) && Marks(entries, done) && h in done && h !in seen
      requires Get(was, h) == Some(node)
      requires Covered(was, seen, done, work, pending, {h}) && Justified(was, seen, roots, done, work, pending)
      requires forall k | k in pending :: k !in done
      modifies this`work
      ensures r.Err? ==> r == Err(Limit) && fuel < Cost(was, node, done)
      ensures r.Ok? ==> old(work) <= work && forall k | k in more :: k !in done
      ensures r.Ok? ==> Covered(was, seen, done, work, more, {}) && Justified(was, seen, roots, done, work, more)
      ensures r.Ok? ==> r.value <= fuel
      ensures r.Ok? ==> |work| + (fuel - r.value) + WeakSize(was, h) == old(|work|) + Cost(was, node, done)
      ensures r.Ok? ==> forall k | k !in done :: Held(more, k) == Held(pending, k) + WaitingIn(node, k)
    {
      hide Fired, Waiting, Held, AwaitedIn, Covered, Justified, WeakEdge, Awaited, Listening;
      more := pending;
      work := work + node.children;
      ghost var first := work;
      Stepped(was, seen, roots, h, done, old(work), pending, work, more);
      var left: nat := fuel;
      if node.Object? && node.weak.Some? {
        r, more := FollowWeak(h, node.weak.value, more, left, was, seen, roots, done);
        if r.Err? {
          return;
        }
        left := r.value;
      }
      ghost var before := work;
      if node.Object? && node.signal.Some? {
        var dependents := node.signal.value.dependents;
        SameListening(was, entries, dependents);
        r := TraceAbortDependents(dependents, left);
        if r.Err? {
          return;
        }
        left := r.value;
        Stepped(was, seen, roots, h, done, before, more, work, more);
      }
      forall e | EdgeFrom(was, h, e) ensures Met(e, done, work, more) {
        assert NodeEdge(was, node, e);
        if node.Object? && node.weak.Some? && WeakEdge(node.weak.value, e) {
          assert Met(e, done, before, more);
        } else if e.target in node.children {
          InPrefix(e.target, first, work);
        }
      }
      Closes(was, seen, done, work, more, h);
      r := Ok(left);
    }

    /** Marks a node that was queued, and follows what it holds. */
    method Visit(h: Handle, pending: Pending, maps: seq<Handle>, fuel: nat, ghost was: seq<Entry>,
        ghost seen: set<Handle>, ghost roots: seq<Handle>, ghost done: set<Handle>)
      returns (r: Result<nat, Error>, more: Pending, all: seq<Handle>)
      requires SameNodes(was, entries) && Marks(entries, done) && seen <= done
      requires Names(entries, h) && h !in done
      requires Covered(was, seen, done, work + [h], pending, {})
      requires Justified(was, seen, roots, done, work + [h], pending)
      requires forall k | k in pending :: k !in done
      modifies this`entries, this`work
      ensures SameNodes(was, entries)
      ensures r == Err(InvalidBytecode) ==> Get(was, h).None?
      ensures r == Err(Limit) ==> Get(was, h).Some? && fuel < Cost(was, Get(was, h).value, done + {h})
      ensures r.Ok? ==> Get(was, h).Some? && Marks(entries, done + {h})
      ensures r.Ok? ==> Covered(was, seen, done + {h}, work, more, {})
      ensures r.Ok? ==> Justified(was, seen, roots, done + {h}, work, more)
      ensures r.Ok? ==> forall k | k in more :: k !in done + {h}
      ensures r.Ok? ==> old(work) <= work
      ensures r.Ok? ==> all == (if HasWeak(was, h) then maps + [h] else maps) && r.value <= fuel
      ensures r.Ok? ==> (|work| + MapsCost(was, all) + (fuel - r.value)
        == old(|work|) + MapsCost(was, maps) + Held(pending, h) + Cost(was, Get(was, h).value, done + {h}))
      ensures r.Ok? ==>
        forall k | k !in done + {h} :: Held(more, k) == Held(pending, k) + WaitingIn(Get(was, h).value, k)
    {
      hide EdgeFrom, Covered, Justified, Cost, WaitingIn, MapsCost, WeakSize, Held;
      more, all := pending, maps;
      var entry := entries[h.index];
      entries := entries[h.index := entry.(marked := true)];
      Released(was, seen, roots, done, work, pending, h);
      if h in more {
        work := work + more[h];
      }
      more := more - {h};
      HeldWithout(pending, h);
      assert h !in pending ==> more == pending && old(work) + [] == work;
      if entry.node.None? {
        return Err(InvalidBytecode), more, all;
      }
      var node := entry.node.value;
      if node.Object? && node.weak.Some? {
        all := all + [h];
      }
      MapsCostNext(was, maps, h);
      r, more := Follow(h, node, more, fuel, was, seen, roots, done + {h});
    }

    /** Marks everything the queued handles make live. */
    method Mark(fuel: nat, ghost seen: set<Handle>)
      returns (r: Result<nat, Error>, maps: seq<Handle>, ghost done: set<Handle>)
      requires Marks(entries, seen)
      modifies this`entries, this`work
      ensures SameNodes(old(entries), entries)
      ensures r == Err(InvalidBytecode) ==> Broken(old(entries), seen, old(work))
      ensures r == Err(Limit) ==> Reached(old(entries), seen, old(work), done)
      ensures r == Err(Limit) ==> fuel < MarkCost(old(entries), seen, old(work), done)
      ensures r.Ok? ==> work == [] && Marks(entries, done) && Least(old(entries), seen, old(work), done)
      ensures r.Ok? ==> seen <= done && forall h | h in done && h !in seen :: Get(old(entries), h).Some?
      ensures r.Ok? ==> forall h :: h in maps <==> h in done && h !in seen && HasWeak(old(entries), h)
      ensures r.Ok? ==> forall i, j | 0 <= i < j < |maps| :: maps[i] != maps[j]
      ensures r.Ok? ==> fuel + MapsCost(old(entries), maps) == r.value + MarkCost(old(entries), seen, old(work), done)
    {
      hide EdgeFrom, Covered, HasWeak, Closed, Held, Cost, MarkCost, WaitingIn, Reached, Counted;
      ghost var was, roots := entries, work;
      var pending: Pending := map[];
      var left: nat := fuel;
      maps, done := [], seen;
      Start(was, seen, roots);
      while work != []
        invariant SameNodes(was, entries) && Marks(entries, done) && seen <= done && left <= fuel
        invariant Covered(was, seen, done, work, pending, {}) && Justified(was, seen, roots, done, work, pending)
        invariant forall k | k in pending :: k !in done
        invariant forall x | x in roots :: x in done || x in work
        invariant forall h | h in done && h !in seen :: Get(was, h).Some?
        invariant forall h :: h in maps <==> h in done && h !in seen && HasWeak(was, h)
        invariant forall i, j | 0 <= i < j < |maps| :: maps[i] != maps[j]
        invariant |work| + MapsCost(was, maps) + (fuel - left) == MarkCost(was, seen, roots, done)
        invariant Counted(was, seen, done, pending)
        decreases left
      {
        var h := work[|work| - 1];
        ghost var queued := work;
        work := work[..|work| - 1];
        assert work + [h] == queued;
        if left < 1 {
          SoFar(was, seen, roots, done, queued, pending);
          return Err(Limit), maps, done;
        }
        left := left - 1;
        if !Names(entries, h) {
          Unresolved(was, seen, roots, done, queued, pending, h);
          return Err(InvalidBytecode), maps, done;
        }
        if entries[h.index].marked {
          Skipped(was, seen, roots, done, work, pending, h);
          continue;
        }
        var visited;
        ghost var waits := pending;
        visited, pending, maps := Visit(h, pending, maps, left, was, seen, roots, done);
        if visited.Err? {
          if visited.error == InvalidBytecode {
            Unresolved(was, seen, roots, done, queued, waits, h);
          } else {
            CountsOne(was, seen, roots, done, h, waits);
            SoFar(was, seen, roots, done, queued, waits);
            done := done + {h};
          }
          return visited, maps, done;
        }
        CountsOne(was, seen, roots, done, h, waits);
        CountsOn(was, seen, done, h, waits, pending);
        done := done + {h};
        left := visited.value;
      }
      AllMarked(was, seen, roots, done, pending);
      r := Ok(left);
    }

    /** The associations of a map whose key is not on the heap or is marked. */
    method LiveEntries(weak: seq<WeakEntry>, ghost done: set<Handle>) returns (live: seq<WeakEntry>)
      requires Marks(entries, done)
      ensures live == SweptWeak(weak, done)
    {
      hide MarkedAt;
      live := [];
      for i := 0 to |weak|
        invariant live + SweptWeak(weak[i..], done) == SweptWeak(weak, done)
      {
        assert weak[i..][0] == weak[i] && weak[i..][1..] == weak[i + 1..];
        if !weak[i].key.Heap? || MarkedAt(entries, weak[i].key.handle) {
          live := live + [weak[i]];
        }
      }
    }

    /** Takes from every map that was found live the associations whose key died. */
    method SweepWeakmaps(maps: seq<Handle>, fuel: nat, ghost was: seq<Entry>, ghost done: set<Handle>)
      returns (r: Result<nat, Error>)
      requires SameNodes(was, entries) && Marks(entries, done)
      requires forall i | 0 <= i < |maps| :: HasWeak(was, maps[i])
      requires forall i, j | 0 <= i < j < |maps| :: maps[i] != maps[j]
      modifies this`entries
      ensures r.Err? ==> r == Err(Limit) && fuel < MapsCost(was, maps)
      ensures r.Ok? ==> fuel == r.value + MapsCost(was, maps)
      ensures r.Ok? ==> MapsSwept(old(entries), maps, done, entries)
      ensures r.Err? ==> exists n | 0 <= n <= |maps| :: MapsSwept(old(entries), maps[..n], done, entries)
    {
      hide SweptWeak, Marks, MapsSwept, MapsCost, SameNodes;
      var left: nat := fuel;
      NothingSwept(was, entries, done);
      for i := 0 to |maps|
        invariant fuel == left + MapsCost(was, maps[..i])
        invariant Marks(entries, done) && MapsSwept(old(entries), maps[..i], done, entries)
      {
        var h, j := maps[i], i + 1;
        assert HasWeak(was, h) && maps[..j][..i] == maps[..i] && maps[..j][i] == h;
        StillThere(was, old(entries), maps, i, done, entries);
        var entry := entries[h.index];
        var weak := entry.node.value.weak.value;
        MapsCostNext(was, maps[..i], h);
        assert maps[..j] == maps[..i] + [h];
        MapsCostGrows(was, maps, j);
        if left < |weak| {
          return Err(Limit);
        }
        left := left - |weak|;
        var live := LiveEntries(weak, done);
        SameMarks(entries, h.index, Some(entry.node.value.(weak := Some(live))), done);
        SweptNext(old(entries), maps, i, done, entries);
        entries := entries[h.index := entry.(node := Some(entry.node.value.(weak := Some(live))))];
      }
      assert maps[..|maps|] == maps;
      r := Ok(left);
    }

    /** Clears marks and empties the slots that have none. */
    method Sweep()
      modifies this`entries, this`free
      ensures |entries| == old(|entries|)
      ensures forall i | 0 <= i < |entries| :: entries[i] == Reclaimed(old(entries)[i])
      ensures free == old(free) + Freed(old(entries), old(|entries|))
    {
      for i := 0 to |entries|
        invariant |entries| == old(|entries|)
        invariant forall k | 0 <= k < i :: entries[k] == Reclaimed(old(entries)[k])
        invariant forall k | i <= k < |entries| :: entries[k] == old(entries)[k]
        invariant free == old(free) + Freed(old(entries), i)
      {
        var entry := entries[i];
        if entry.marked {
          entries := entries[i := entry.(marked := false)];
        } else if entry.node.Some? {
          entry := entry.(node := None);
          if entry.generation < LAST_GENERATION {
            entry := entry.(generation := entry.generation + 1);
            free := free + [i];
          }
          entries := entries[i := entry];
        }
      }
    }

    /** Collects: what is kept is the least closed set, everything else is gone. With no broken
        reference there is one answer for every amount of fuel. */
    method Collect(fuel: nat) returns (r: Result<nat, Error>, ghost kept: set<Handle>)
      requires Valid(State())
      modifies this
      ensures Valid(State()) && Step(old(State()), Collection, State())
      ensures r.Ok? ==> work == [] && Least(old(entries), old(Seen(entries)), old(work), kept)
      ensures r.Ok? ==> forall h | h in kept && h !in old(Seen(entries)) :: Get(old(entries), h).Some?
      ensures r.Ok? ==> After(old(entries), old(Seen(entries)), kept, entries)
      ensures r.Ok? ==> !Broken(old(entries), old(Seen(entries)), old(work))
      ensures r == Err(InvalidBytecode) ==> Broken(old(entries), old(Seen(entries)), old(work))
      ensures r == Err(Limit) ==> fuel < Enough(old(entries), old(work))
      ensures r.Ok? ==> kept == Kept(old(entries), old(Seen(entries)), old(work))
      ensures !Broken(old(entries), old(Seen(entries)), old(work)) ==>
        r == Paid(fuel, FullCost(old(entries), old(Seen(entries)), old(work)))
    {
      hide MarkCost, Kept, Reached, Valid, Least, Broken, After, Enough, MapsSwept, MapsCost, Freed, Reclaimed,
        StatusOf, Survives, HasWeak, SameNodes, Marks;
      ghost var was, seen := entries, Seen(entries);
      SeenMarks(entries);
      var maps;
      r, maps, kept := Mark(fuel, seen);
      ghost var marks := entries;
      Unfinished(was, marks, free, [], {}, marks);
      if r.Err? {
        if r.error == Limit {
          Shortage(was, seen, old(work), kept);
        }
        return;
      }
      NotBroken(was, seen, old(work), kept);
      KeptIsLeast(was, seen, old(work), kept);
      Shortage(was, seen, old(work), kept);
      r := SweepWeakmaps(maps, r.value, was, kept);
      ghost var swept := entries;
      if r.Err? {
        ghost var n :| 0 <= n <= |maps| && MapsSwept(marks, maps[..n], kept, swept);
        Unfinished(was, marks, free, maps[..n], kept, swept);
        return;
      }
      Unfinished(was, marks, free, maps, kept, swept);
      if r.value < |entries| {
        return Err(Limit), kept;
      }
      r := Ok(r.value - |entries|);
      ghost var unfree := free;
      Sweep();
      Finished(swept, unfree, entries);
      Both(Slots(was, unfree), Slots(swept, unfree), State());
      Outcome(was, seen, kept, marks, maps, swept, entries);
    }
  }

  lemma NothingFires()
    ensures Fired([], {}) == 0 && forall k :: Waiting([], k) == 0
  {
  }

  function WaitingOne(w: WeakEntry, k: Handle): (n: nat) {
    if w.value.Some? && w.key.Heap? && w.key.handle == k then 1 else 0
  }

  predicate KeyOf(weak: seq<WeakEntry>, k: Handle) {
    exists i | 0 <= i < |weak| :: weak[i].key.Heap? && weak[i].key.handle == k
  }

  lemma KeyOfNext(weak: seq<WeakEntry>, i: nat, k: Handle)
    requires i < |weak|
    ensures KeyOf(weak[..i + 1], k) <==> KeyOf(weak[..i], k) || (weak[i].key.Heap? && weak[i].key.handle == k)
  {
    var x, y := weak[..i], weak[..i + 1];
    forall j | 0 <= j < i ensures x[j] == y[j] {
    }
    assert y[i] == weak[i];
  }

  lemma {:induction false} ListeningGrows(entries: seq<Entry>, dependents: seq<Handle>, i: nat)
    requires i <= |dependents|
    ensures Listening(entries, dependents[..i]) <= Listening(entries, dependents)
    decreases |dependents|
  {
    hide Listeners;
    if i < |dependents| {
      var n := |dependents| - 1;
      assert dependents[..n][..i] == dependents[..i];
      ListeningGrows(entries, dependents[..n], i);
    } else {
      assert dependents[..i] == dependents;
    }
  }

  lemma {:induction false} SameListening(x: seq<Entry>, y: seq<Entry>, dependents: seq<Handle>)
    requires SameNodes(x, y)
    ensures Listening(x, dependents) == Listening(y, dependents)
    ensures AwaitedIn(x, dependents) == AwaitedIn(y, dependents)
    ensures forall d | d in dependents :: Awaited(x, d) == Awaited(y, d)
  {
    if dependents != [] {
      SameListening(x, y, dependents[..|dependents| - 1]);
    }
  }

  /** Some handle that every closed set holds does not resolve. */
  ghost predicate Broken(was: seq<Entry>, seen: set<Handle>, roots: seq<Handle>) {
    exists h :: Get(was, h).None? && h !in seen && Needed(was, seen, roots, h)
  }

  ghost predicate Needed(was: seq<Entry>, seen: set<Handle>, roots: seq<Handle>, h: Handle) {
    forall s: iset<Handle> | Closed(was, seen, roots, s) :: h in s
  }

  lemma NotBroken(was: seq<Entry>, seen: set<Handle>, roots: seq<Handle>, kept: set<Handle>)
    requires Least(was, seen, roots, kept)
    requires forall h | h in kept && h !in seen :: Get(was, h).Some?
    ensures !Broken(was, seen, roots)
  {
    hide Closed, Get;
    forall h | Get(was, h).None? && h !in seen ensures !Needed(was, seen, roots, h) {
      var s := iset g | g in kept;
      assert Closed(was, seen, roots, s) && h !in s;
    }
  }

  /** The handles of all slots. */
  ghost function Slotted(was: seq<Entry>): (s: set<Handle>) {
    set i | 0 <= i < |was| :: Handle(i, was[i].generation)
  }

  /** What every closed set holds. */
  ghost function Kept(was: seq<Entry>, seen: set<Handle>, roots: seq<Handle>): (s: set<Handle>) {
    set h | h in seen + Slotted(was) && Needed(was, seen, roots, h)
  }

  /** What a collection of the heap costs. */
  ghost function FullCost(was: seq<Entry>, seen: set<Handle>, roots: seq<Handle>): (c: nat) {
    CollectionCost(was, seen, roots, Kept(was, seen, roots))
  }

  /** The fuel that is left after a cost. */
  function Paid(fuel: nat, cost: nat): (r: Result<nat, Error>) {
    if fuel < cost then Err(Limit) else Ok(fuel - cost)
  }

  /** Without a broken reference every handle that is needed is that of a slot. */
  lemma NeededIsKept(was: seq<Entry>, seen: set<Handle>, roots: seq<Handle>, h: Handle)
    requires !Broken(was, seen, roots) && Needed(was, seen, roots, h)
    ensures h in Kept(was, seen, roots)
  {
    hide Needed;
    if h !in seen {
      assert Get(was, h).Some?;
      assert h == Handle(h.index, was[h.index].generation);
    }
  }

  /** Without a broken reference there is a least closed set. */
  lemma LeastExists(was: seq<Entry>, seen: set<Handle>, roots: seq<Handle>)
    requires !Broken(was, seen, roots)
    ensures Least(was, seen, roots, Kept(was, seen, roots))
  {
    hide EdgeFrom, Broken, Kept;
    var kept := Kept(was, seen, roots);
    forall h | h in seen || h in roots ensures h in kept {
      NeededIsKept(was, seen, roots, h);
    }
    forall h | h in kept ensures Needed(was, seen, roots, h) {
      KeptIsNeeded(was, seen, roots, h);
    }
    var s := iset h | h in kept;
    forall h, e | h in s && h !in seen && EdgeFrom(was, h, e) && (e.Strong? || e.key in s)
      ensures e.target in s
    {
      assert Needed(was, seen, roots, e.target);
      NeededIsKept(was, seen, roots, e.target);
    }
  }

  lemma KeptIsNeeded(was: seq<Entry>, seen: set<Handle>, roots: seq<Handle>, h: Handle)
    requires h in Kept(was, seen, roots)
    ensures Needed(was, seen, roots, h)
  {
    hide Needed;
  }

  /** The least closed set is what every closed set holds. */
  lemma KeptIsLeast(was: seq<Entry>, seen: set<Handle>, roots: seq<Handle>, kept: set<Handle>)
    requires Least(was, seen, roots, kept) && !Broken(was, seen, roots)
    ensures kept == Kept(was, seen, roots) && Reached(was, seen, roots, kept)
  {
    hide Broken, Kept, Closed;
    LeastExists(was, seen, roots);
    LeastIsOne(was, seen, roots, kept, Kept(was, seen, roots));
  }

  /** What has been counted is no more than what a collection costs in the end. */
  lemma Shortage(was: seq<Entry>, seen: set<Handle>, roots: seq<Handle>, done: set<Handle>)
    requires Marks(was, seen) && Reached(was, seen, roots, done)
    ensures MarkCost(was, seen, roots, done) + |was| <= Enough(was, roots)
    ensures !Broken(was, seen, roots) ==>
      MarkCost(was, seen, roots, done) <= MarkCost(was, seen, roots, Kept(was, seen, roots))
  {
    hide Broken, Kept, Needed, Marks;
    CostsBounded(was, seen, done, |was|);
    if !Broken(was, seen, roots) {
      forall h | h in done ensures h in Kept(was, seen, roots) {
        NeededIsKept(was, seen, roots, h);
      }
      CostsGrow(was, seen, done, Kept(was, seen, roots), |was|);
    }
  }

  /** There is only one least closed set. */
  lemma LeastIsOne(was: seq<Entry>, seen: set<Handle>, roots: seq<Handle>, kept: set<Handle>, other: set<Handle>)
    requires Least(was, seen, roots, kept) && Least(was, seen, roots, other)
    ensures kept == other
  {
    hide Closed;
    var x, y := iset h | h in kept, iset h | h in other;
    assert Closed(was, seen, roots, x) && Closed(was, seen, roots, y);
    forall h ensures h in kept <==> h in other {
      assert h in x <==> h in kept;
      assert h in y <==> h in other;
    }
  }

  lemma Unresolved(was: seq<Entry>, seen: set<Handle>, roots: seq<Handle>, done: set<Handle>, work: seq<Handle>,
      pending: Pending, h: Handle)
    requires Justified(was, seen, roots, done, work, pending) && h in work
    requires Get(was, h).None? && h !in seen
    ensures Broken(was, seen, roots)
  {
    hide Closed;
    assert Needed(was, seen, roots, h);
  }

  lemma Start(was: seq<Entry>, seen: set<Handle>, roots: seq<Handle>)
    ensures Covered(was, seen, seen, roots, map[], {}) && Justified(was, seen, roots, seen, roots, map[])
    ensures MarkCost(was, seen, roots, seen) == |roots|
    ensures Counted(was, seen, seen, map[])
  {
    forall k ensures WaitingFor(was, seen, seen, k, |was|) == 0 && Costs(was, seen, seen, |was|) == 0 {
      NoCosts(was, seen, k, |was|);
    }
    NoCosts(was, seen, Handle(0, 0), |was|);
  }

  /** As many values wait for a key that is not marked as the nodes kept have for it. */
  ghost predicate Counted(was: seq<Entry>, seen: set<Handle>, done: set<Handle>, pending: Pending) {
    forall k | k !in done :: Held(pending, k) == WaitingFor(was, seen, done, k, |was|)
  }

  /** A node more that is kept is paid for with what it costs and with what waited for it. */
  lemma CountsOne(was: seq<Entry>, seen: set<Handle>, roots: seq<Handle>, done: set<Handle>, h: Handle,
      pending: Pending)
    requires Counted(was, seen, done, pending) && Get(was, h).Some? && h !in done && seen <= done
    ensures MarkCost(was, seen, roots, done + {h})
      == MarkCost(was, seen, roots, done) + Held(pending, h) + Cost(was, Get(was, h).value, done + {h})
  {
    hide Held, WaitingFor, Costs, Cost;
    CostsAdd(was, seen, done, h, |was|);
  }

  lemma CountsOn(was: seq<Entry>, seen: set<Handle>, done: set<Handle>, h: Handle, pending: Pending, more: Pending)
    requires Counted(was, seen, done, pending) && Get(was, h).Some? && h !in done && seen <= done
    requires forall k | k !in done + {h} :: Held(more, k) == Held(pending, k) + WaitingIn(Get(was, h).value, k)
    ensures Counted(was, seen, done + {h}, more)
  {
    hide Held, WaitingFor, WaitingIn;
    forall k | k !in done + {h} ensures Held(more, k) == WaitingFor(was, seen, done + {h}, k, |was|) {
      WaitingForAdds(was, seen, done, h, k, |was|);
    }
  }

  /** Nothing is counted that a collection does not keep. */
  ghost predicate Reached(was: seq<Entry>, seen: set<Handle>, roots: seq<Handle>, done: set<Handle>) {
    forall h | h in done :: Needed(was, seen, roots, h)
  }

  lemma SoFar(was: seq<Entry>, seen: set<Handle>, roots: seq<Handle>, done: set<Handle>, work: seq<Handle>,
      pending: Pending)
    requires Justified(was, seen, roots, done, work, pending)
    ensures Reached(was, seen, roots, done) && forall h | h in work :: Reached(was, seen, roots, done + {h})
  {
    hide Closed;
  }

  lemma Skipped(was: seq<Entry>, seen: set<Handle>, roots: seq<Handle>, done: set<Handle>, work: seq<Handle>,
      pending: Pending, h: Handle)
    requires h in done && Covered(was, seen, done, work + [h], pending, {})
    requires Justified(was, seen, roots, done, work + [h], pending)
    ensures Covered(was, seen, done, work, pending, {}) && Justified(was, seen, roots, done, work, pending)
  {
    hide EdgeFrom, Closed, Covered;
    CoveredStays(was, seen, done, work + [h], pending, {}, work, pending);
    forall s: iset<Handle> | Closed(was, seen, roots, s) ensures Within(done, work, pending, s) {
      assert Within(done, work + [h], pending, s);
      forall x | x in work ensures x in s {
        assert x in work + [h];
      }
    }
  }

  lemma InPrefix(x: Handle, front: seq<Handle>, whole: seq<Handle>)
    requires x in front && front <= whole
    ensures x in whole
  {
    var i :| 0 <= i < |front| && front[i] == x;
    assert whole[i] == x;
  }

  /** The maps that were swept, and nothing else, have changed. */
  ghost predicate MapsSwept(was: seq<Entry>, maps: seq<Handle>, done: set<Handle>, now: seq<Entry>) {
    |now| == |was| && forall i | 0 <= i < |was| :: now[i] == MapSwept(was[i], i, maps, done)
  }

  ghost function MapSwept(entry: Entry, i: nat, maps: seq<Handle>, done: set<Handle>): (r: Entry) {
    if Handle(i, entry.generation) in maps && entry.node.Some?
    then entry.(node := Some(Swept(entry.node.value, done))) else entry
  }

  lemma NothingSwept(was: seq<Entry>, entries: seq<Entry>, done: set<Handle>)
    ensures MapsSwept(entries, [], done, entries) && MapsCost(was, []) == 0
  {
  }

  /** A map that was not swept yet is as it was. */
  lemma StillThere(was: seq<Entry>, first: seq<Entry>, maps: seq<Handle>, i: nat, done: set<Handle>, now: seq<Entry>)
    requires SameNodes(was, first) && i < |maps| && HasWeak(was, maps[i]) && MapsSwept(first, maps[..i], done, now)
    requires forall i, j | 0 <= i < j < |maps| :: maps[i] != maps[j]
    ensures var h := maps[i];
      && h.index < |now| == |first| && first[h.index].generation == h.generation && now[h.index] == first[h.index]
      && now[h.index].node == was[h.index].node
      && |now[h.index].node.value.weak.value| == WeakSize(was, h)
  {
    hide Swept;
    var h := maps[i];
    assert h !in maps[..i];
    assert now[h.index] == MapSwept(first[h.index], h.index, maps[..i], done);
  }

  lemma SweptNext(was: seq<Entry>, maps: seq<Handle>, i: nat, done: set<Handle>, now: seq<Entry>)
    requires i < |maps| && MapsSwept(was, maps[..i], done, now)
    requires var h := maps[i];
      && h.index < |was| && was[h.index].generation == h.generation && was[h.index].node.Some?
      && now[h.index] == was[h.index]
    ensures var h := maps[i];
      MapsSwept(was, maps[..i + 1], done,
        now[h.index := now[h.index].(node := Some(Swept(now[h.index].node.value, done)))])
  {
    hide Swept;
    var h := maps[i];
    var next := now[h.index := now[h.index].(node := Some(Swept(now[h.index].node.value, done)))];
    forall k | 0 <= k < |was| ensures next[k] == MapSwept(was[k], k, maps[..i + 1], done) {
      assert now[k] == MapSwept(was[k], k, maps[..i], done);
      var g := Handle(k, was[k].generation);
      assert maps[..i + 1] == maps[..i] + [h];
      assert g in maps[..i + 1] <==> g in maps[..i] || g == h;
    }
  }

  lemma SameMarks(entries: seq<Entry>, i: nat, node: Option<Node>, done: set<Handle>)
    requires i < |entries| && Marks(entries, done)
    ensures Marks(entries[i := entries[i].(node := node)], done)
  {
  }

  lemma {:induction false} MapsCostGrows(was: seq<Entry>, maps: seq<Handle>, i: nat)
    requires i <= |maps|
    ensures MapsCost(was, maps[..i]) <= MapsCost(was, maps)
    decreases |maps|
  {
    hide WeakSize;
    if i < |maps| {
      var n := |maps| - 1;
      assert maps[..n][..i] == maps[..i];
      MapsCostGrows(was, maps[..n], i);
    } else {
      assert maps[..i] == maps;
    }
  }

  lemma MapsCostNext(was: seq<Entry>, maps: seq<Handle>, h: Handle)
    ensures MapsCost(was, maps + [h]) == MapsCost(was, maps) + WeakSize(was, h)
    ensures !HasWeak(was, h) ==> WeakSize(was, h) == 0
  {
    assert (maps + [h])[..|maps|] == maps;
  }

  lemma HeldWithout(pending: Pending, h: Handle)
    ensures Held(pending, h) == if h in pending then |pending[h]| else 0
    ensures forall k | k != h :: Held(pending - {h}, k) == Held(pending, k)
  {
  }

  /** What sweeping makes of a slot. */
  function Reclaimed(entry: Entry): (r: Entry) {
    if entry.marked then entry.(marked := false)
    else if entry.node.Some? then
      Entry(if entry.generation < LAST_GENERATION then entry.generation + 1 else entry.generation, false, None)
    else entry
  }

  /** The slots sweeping makes free, in order. */
  function Freed(entries: seq<Entry>, n: nat): (r: seq<nat>)
    requires n <= |entries|
  {
    if n == 0 then []
    else Freed(entries, n - 1) + if Frees(entries[n - 1]) then [n - 1] else []
  }

  predicate Frees(entry: Entry) {
    !entry.marked && entry.node.Some? && entry.generation < LAST_GENERATION
  }

  /** The handles of marked slots. */
  ghost function Seen(entries: seq<Entry>): (s: set<Handle>) {
    set i | 0 <= i < |entries| && entries[i].marked :: Handle(i, entries[i].generation)
  }

  lemma SeenMarks(entries: seq<Entry>)
    ensures Marks(entries, Seen(entries))
  {
    forall h ensures h in Seen(entries) <==> MarkedAt(entries, h) {
      if MarkedAt(entries, h) {
        assert entries[h.index].marked && h == Handle(h.index, entries[h.index].generation);
      }
    }
  }

  /** The heap after a collection: kept nodes lose the associations whose key died, every other
      node is gone and its slot has a new generation while there is one; no mark is left. */
  ghost predicate After(was: seq<Entry>, seen: set<Handle>, kept: set<Handle>, now: seq<Entry>) {
    |now| == |was| && forall i | 0 <= i < |was| :: now[i] == EntryAfter(was[i], i, seen, kept)
  }

  ghost function EntryAfter(entry: Entry, i: nat, seen: set<Handle>, kept: set<Handle>): (r: Entry) {
    var h := Handle(i, entry.generation);
    if h in seen then entry.(marked := false)
    else if h in kept && entry.node.Some? then
      Entry(entry.generation, false, Some(Swept(entry.node.value, kept)))
    else if entry.node.Some? then
      Entry(if entry.generation < LAST_GENERATION then entry.generation + 1 else entry.generation, false, None)
    else entry
  }

  /** Before slots are emptied a collection has only set marks and thinned maps. */
  lemma Unfinished(was: seq<Entry>, marks: seq<Entry>, free: seq<nat>, maps: seq<Handle>, done: set<Handle>,
      now: seq<Entry>)
    requires SameNodes(was, marks) && Valid(Slots(was, free))
    requires MapsSwept(marks, maps, done, now) || now == marks
    ensures |now| == |was|
    ensures Valid(Slots(now, free)) && Step(Slots(was, free), Collection, Slots(now, free))
  {
    hide Thinned, Swept;
    var s, t := Slots(was, free), Slots(now, free);
    forall h ensures Survives(s, t, h) {
      if StatusOf(s, h) == Live {
        SweptIsThinned(Get(was, h).value, done);
        ThinnedSelf(Get(was, h).value);
      }
    }
  }

  lemma {:induction false} FreedHolds(entries: seq<Entry>, n: nat)
    requires n <= |entries|
    ensures forall i :: i in Freed(entries, n) <==> 0 <= i < n && Frees(entries[i])
    ensures forall i, j | 0 <= i < j < |Freed(entries, n)| :: Freed(entries, n)[i] != Freed(entries, n)[j]
  {
    hide Frees;
    if n > 0 {
      FreedHolds(entries, n - 1);
    }
  }

  lemma FinishedFree(was: seq<Entry>, free: seq<nat>, now: seq<Entry>)
    requires Valid(Slots(was, free)) && |now| == |was|
    requires forall i | 0 <= i < |now| :: now[i] == Reclaimed(was[i])
    ensures Valid(Slots(now, free + Freed(was, |was|)))
  {
    hide Freed;
    var freed := Freed(was, |was|);
    FreedHolds(was, |was|);
    var all := free + freed;
    forall i | 0 <= i < |all| ensures all[i] < |now| && now[all[i]].node.None? {
      assert i >= |free| ==> all[i] in freed;
    }
    forall i, j | 0 <= i < j < |all| ensures all[i] != all[j] {
      if i < |free| <= j {
        assert all[j] in freed;
        assert was[free[i]].node.None?;
      } else if |free| <= i {
        assert all[i] == freed[i - |free|] && all[j] == freed[j - |free|];
      }
    }
  }

  lemma Finished(was: seq<Entry>, free: seq<nat>, now: seq<Entry>)
    requires Valid(Slots(was, free)) && |now| == |was|
    requires forall i | 0 <= i < |now| :: now[i] == Reclaimed(was[i])
    ensures var t := Slots(now, free + Freed(was, |was|));
      Valid(t) && Step(Slots(was, free), Collection, t)
  {
    hide Freed;
    FinishedFree(was, free, now);
    FreedHolds(was, |was|);
    var s, t := Slots(was, free), Slots(now, free + Freed(was, |was|));
    forall h ensures Survives(s, t, h) {
      if h.index < |was| {
        assert now[h.index] == Reclaimed(was[h.index]);
        assert h.index in t.free <==> h.index in free || Frees(was[h.index]);
        if h.index in free {
          var i :| 0 <= i < |free| && free[i] == h.index;
        }
      }
    }
  }

  lemma Both(s: Slots, t: Slots, u: Slots)
    requires Step(s, Collection, t) && Step(t, Collection, u)
    ensures Step(s, Collection, u)
  {
    hide StatusOf, Thinned;
    forall h ensures Survives(s, u, h) {
      assert Survives(s, t, h) && Survives(t, u, h);
      if StatusOf(u, h) == Live {
        LiveResolves(s, h);
        LiveResolves(t, h);
        LiveResolves(u, h);
        ThinnedTransitive(Get(s.entries, h).value, Get(t.entries, h).value, Get(u.entries, h).value);
      }
    }
  }

  lemma Outcome(was: seq<Entry>, seen: set<Handle>, kept: set<Handle>, marks: seq<Entry>, maps: seq<Handle>,
      swept: seq<Entry>, now: seq<Entry>)
    requires SameNodes(was, marks) && Marks(marks, kept) && Marks(was, seen)
    requires forall h :: h in maps <==> h in kept && h !in seen && HasWeak(was, h)
    requires MapsSwept(marks, maps, kept, swept) && |now| == |was|
    requires forall h | h in seen :: h in kept
    requires forall h | h in kept && h !in seen :: Get(was, h).Some?
    requires forall i | 0 <= i < |now| :: now[i] == Reclaimed(swept[i])
    ensures After(was, seen, kept, now)
  {
    forall i | 0 <= i < |was| ensures now[i] == EntryAfter(was[i], i, seen, kept) {
      var h := Handle(i, was[i].generation);
      assert h in kept <==> MarkedAt(marks, h);
      assert h in seen <==> MarkedAt(was, h);
      assert swept[i] == MapSwept(marks[i], i, maps, kept);
    }
  }
}
