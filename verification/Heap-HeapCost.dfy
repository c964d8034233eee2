/** What a collection costs, from the heap and what is kept of it. */
module HeapCost {
  import opened Wrappers
  import opened HeapGraph
  import opened Marking

  /** The value of the association is queued once the keys are live. */
  predicate Fires(w: WeakEntry, keys: set<Handle>) {
    w.value.Some? && (w.key.Heap? ==> w.key.handle in keys)
  }

  /** How many values of a map are queued once the keys are live. */
  function Fired(weak: seq<WeakEntry>, keys: set<Handle>): (n: nat)
    ensures n <= |weak|
  {
    if weak == [] then 0
    else Fired(weak[..|weak| - 1], keys) + if Fires(weak[|weak| - 1], keys) then 1 else 0
  }

  /** How many values of a map wait for one key. */
  function Waiting(weak: seq<WeakEntry>, k: Handle): (n: nat) {
    if weak == [] then 0
    else
      var w := weak[|weak| - 1];
      Waiting(weak[..|weak| - 1], k) + if w.value.Some? && w.key.Heap? && w.key.handle == k then 1 else 0
  }

  function WaitingIn(node: Node, k: Handle): (n: nat) {
    if node.Object? && node.weak.Some? then Waiting(node.weak.value, k) else 0
  }

  /** How many values wait for a key. */
  function Held(pending: Pending, k: Handle): (n: nat) {
    if k in pending then |pending[k]| else 0
  }

  /** How many of the dependents somebody waits for. */
  function AwaitedIn(entries: seq<Entry>, dependents: seq<Handle>): (n: nat)
    ensures n <= |dependents|
  {
    if dependents == [] then 0
    else AwaitedIn(entries, dependents[..|dependents| - 1])
         + if Awaited(entries, dependents[|dependents| - 1]) then 1 else 0
  }

  function SignalCost(entries: seq<Entry>, dependents: seq<Handle>): (n: nat) {
    |dependents| + Listening(entries, dependents) + AwaitedIn(entries, dependents)
  }

  /** What a node that is kept costs: a unit for every handle it queues, one for an association that
      is registered and one that it is swept, one for a dependent and for each of its listeners. */
  function Cost(entries: seq<Entry>, node: Node, keys: set<Handle>): (n: nat) {
    |node.children|
    + (if node.Object? && node.weak.Some? then 2 * |node.weak.value| + Fired(node.weak.value, keys) else 0)
    + (if node.Object? && node.signal.Some? then SignalCost(entries, node.signal.value.dependents) else 0)
  }

  /** The slot holds a node that is kept and was not marked before. */
  predicate Fresh(was: seq<Entry>, seen: set<Handle>, kept: set<Handle>, i: nat)
    requires i < |was|
  {
    var h := Handle(i, was[i].generation);
    h in kept && h !in seen && was[i].node.Some?
  }

  /** What the nodes kept among the first `n` slots cost. */
  function Costs(was: seq<Entry>, seen: set<Handle>, kept: set<Handle>, n: nat): (c: nat)
    requires n <= |was|
  {
    if n == 0 then 0
    else
      Costs(was, seen, kept, n - 1)
      + if Fresh(was, seen, kept, n - 1) then Cost(was, was[n - 1].node.value, kept) else 0
  }

  /** What marking and sweeping the maps costs: one unit for each root besides. */
  function MarkCost(was: seq<Entry>, seen: set<Handle>, roots: seq<Handle>, kept: set<Handle>): (c: nat) {
    |roots| + Costs(was, seen, kept, |was|)
  }

  /** What a collection costs: one unit for each slot besides. */
  function CollectionCost(was: seq<Entry>, seen: set<Handle>, roots: seq<Handle>, kept: set<Handle>): (c: nat) {
    MarkCost(was, seen, roots, kept) + |was|
  }

  /** How many values wait for a key in the nodes kept. */
  function WaitingFor(was: seq<Entry>, seen: set<Handle>, kept: set<Handle>, k: Handle, n: nat): (c: nat)
    requires n <= |was|
  {
    if n == 0 then 0
    else
      WaitingFor(was, seen, kept, k, n - 1)
      + if Fresh(was, seen, kept, n - 1) then WaitingIn(was[n - 1].node.value, k) else 0
  }

  // ---------- one more key, one more node ----------

  lemma {:induction false} FiredAdds(weak: seq<WeakEntry>, keys: set<Handle>, k: Handle)
    requires k !in keys
    ensures Fired(weak, keys + {k}) == Fired(weak, keys) + Waiting(weak, k)
  {
    if weak != [] {
      FiredAdds(weak[..|weak| - 1], keys, k);
    }
  }

  lemma {:induction false} FiredGrows(weak: seq<WeakEntry>, keys: set<Handle>, more: set<Handle>)
    requires keys <= more
    ensures Fired(weak, keys) <= Fired(weak, more)
  {
    if weak != [] {
      FiredGrows(weak[..|weak| - 1], keys, more);
    }
  }

  /** Only the map's own keys matter. */
  lemma {:induction false} FiredSame(weak: seq<WeakEntry>, keys: set<Handle>, other: set<Handle>)
    requires forall i | 0 <= i < |weak| && weak[i].key.Heap? ::
      weak[i].key.handle in keys <==> weak[i].key.handle in other
    ensures Fired(weak, keys) == Fired(weak, other)
  {
    if weak != [] {
      FiredSame(weak[..|weak| - 1], keys, other);
    }
  }

  lemma {:induction false} FiredNext(weak: seq<WeakEntry>, keys: set<Handle>, i: nat)
    requires i < |weak|
    ensures Fired(weak[..i + 1], keys) == Fired(weak[..i], keys) + if Fires(weak[i], keys) then 1 else 0
  {
    assert weak[..i + 1][..i] == weak[..i];
  }

  lemma {:induction false} WaitingNext(weak: seq<WeakEntry>, k: Handle, i: nat)
    requires i < |weak|
    ensures Waiting(weak[..i + 1], k)
      == Waiting(weak[..i], k)
        + if weak[i].value.Some? && weak[i].key.Heap? && weak[i].key.handle == k then 1 else 0
  {
    assert weak[..i + 1][..i] == weak[..i];
  }

  lemma CostAdds(was: seq<Entry>, node: Node, keys: set<Handle>, k: Handle)
    requires k !in keys
    ensures Cost(was, node, keys + {k}) == Cost(was, node, keys) + WaitingIn(node, k)
  {
    hide Fired, Waiting, SignalCost;
    if node.Object? && node.weak.Some? {
      FiredAdds(node.weak.value, keys, k);
    }
  }

  lemma CostGrows(was: seq<Entry>, node: Node, keys: set<Handle>, more: set<Handle>)
    requires keys <= more
    ensures Cost(was, node, keys) <= Cost(was, node, more)
  {
    hide Fired, SignalCost;
    if node.Object? && node.weak.Some? {
      FiredGrows(node.weak.value, keys, more);
    }
  }

  /** A node more that is kept is paid for, and so is every value that waited for it. */
  lemma {:induction false} CostsAdd(was: seq<Entry>, seen: set<Handle>, kept: set<Handle>, h: Handle, n: nat)
    requires n <= |was| && Get(was, h).Some? && h !in kept && h !in seen
    ensures Costs(was, seen, kept + {h}, n)
      == Costs(was, seen, kept, n) + WaitingFor(was, seen, kept, h, n)
        + if h.index < n then Cost(was, Get(was, h).value, kept + {h}) else 0
    decreases n
  {
    hide Cost, WaitingIn;
    if n > 0 {
      CostsAdd(was, seen, kept, h, n - 1);
      if was[n - 1].node.Some? {
        CostAdds(was, was[n - 1].node.value, kept, h);
      }
    }
  }

  lemma {:induction false} WaitingForAdds(was: seq<Entry>, seen: set<Handle>, kept: set<Handle>, h: Handle, k: Handle,
      n: nat)
    requires n <= |was| && Get(was, h).Some? && h !in kept && h !in seen
    ensures WaitingFor(was, seen, kept + {h}, k, n)
      == WaitingFor(was, seen, kept, k, n) + if h.index < n then WaitingIn(Get(was, h).value, k) else 0
    decreases n
  {
    hide WaitingIn;
    if n > 0 {
      WaitingForAdds(was, seen, kept, h, k, n - 1);
    }
  }

  lemma {:induction false} CostsGrow(was: seq<Entry>, seen: set<Handle>, kept: set<Handle>, more: set<Handle>, n: nat)
    requires n <= |was| && kept <= more
    ensures Costs(was, seen, kept, n) <= Costs(was, seen, more, n)
  {
    hide Cost;
    if n > 0 {
      CostsGrow(was, seen, kept, more, n - 1);
      if was[n - 1].node.Some? {
        CostGrows(was, was[n - 1].node.value, kept, more);
      }
    }
  }

  /** Nothing is marked yet. */
  lemma {:induction false} NoCosts(was: seq<Entry>, seen: set<Handle>, k: Handle, n: nat)
    requires n <= |was|
    ensures Costs(was, seen, seen, n) == 0 && WaitingFor(was, seen, seen, k, n) == 0
  {
    if n > 0 {
      NoCosts(was, seen, k, n - 1);
    }
  }

  /** Whatever is kept, it costs no more than `Enough`. */
  lemma {:induction false} CostsBounded(was: seq<Entry>, seen: set<Handle>, kept: set<Handle>, n: nat)
    requires n <= |was| && Marks(was, seen)
    ensures Costs(was, seen, kept, n) <= Unmarked(was, was, n)
  {
    hide Fired, Listening, AwaitedIn;
    if n > 0 {
      CostsBounded(was, seen, kept, n - 1);
      var h := Handle(n - 1, was[n - 1].generation);
      assert h in seen <==> MarkedAt(was, h);
    }
  }
}
