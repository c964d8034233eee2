/** Handles, nodes, and what a node keeps alive. */
module HeapGraph {
  import opened Wrappers

  datatype Error = InvalidBytecode | Limit

  /** The last generation a slot can have: a 64-bit count. */
  const LAST_GENERATION: nat := 0xFFFF_FFFF_FFFF_FFFF

  datatype Handle = Handle(index: nat, generation: nat)

  /** A weak map's keys: identities of heap nodes, and built-in functions, which never die. */
  datatype Key = Heap(handle: Handle, reject: bool) | Native(builtin: nat)

  /** One association; the value matters only where it is on the heap. */
  datatype WeakEntry = WeakEntry(key: Key, value: Option<Handle>)

  datatype Signal = Signal(aborted: bool, removals: bool, dependents: seq<Handle>)

  /** A node by what a collection sees of it: what it holds strongly, and for an object the types
      of its listeners, its weak associations and its abort signal. */
  datatype Node =
    | Plain(children: seq<Handle>)
    | Object(children: seq<Handle>, listeners: seq<seq<nat>>, weak: Option<seq<WeakEntry>>, signal: Option<Signal>)

  datatype Entry = Entry(generation: nat, marked: bool, node: Option<Node>)

  /** The event type `abort`, in UTF-16 units. */
  const ABORT: seq<nat> := [97, 98, 111, 114, 116]

  /** The slot a handle names, whatever it holds. */
  predicate Names(entries: seq<Entry>, h: Handle) {
    h.index < |entries| && entries[h.index].generation == h.generation
  }

  /** The node a handle resolves to. */
  function Get(entries: seq<Entry>, h: Handle): (node: Option<Node>) {
    if Names(entries, h) then entries[h.index].node else None
  }

  predicate MarkedAt(entries: seq<Entry>, h: Handle) {
    Names(entries, h) && entries[h.index].marked
  }

  /** A dependent signal somebody still waits for: it is not aborted, and aborting it would be
      noticed. */
  predicate Awaited(entries: seq<Entry>, d: Handle) {
    var node := Get(entries, d);
    && node.Some? && node.value.Object? && node.value.signal.Some?
    && !node.value.signal.value.aborted
    && (node.value.signal.value.removals || ABORT in node.value.listeners)
  }

  /** The type of a listener, as a string. */
  ghost predicate Spells(units: seq<nat>, word: string) {
    |units| == |word| && forall j | 0 <= j < |word| :: units[j] == word[j] as int
  }

  /** Somebody waits for a signal that is not aborted and has a removal, or a listener for `abort`; for no
      other dependent does anybody. */
  lemma AwaitedMeans(entries: seq<Entry>, d: Handle, node: Node, signal: Signal)
    requires Get(entries, d) == Some(node)
    ensures node.Plain? || node.signal.None? ==> !Awaited(entries, d)
    ensures node.Object? && node.signal == Some(signal) ==>
      (Awaited(entries, d) <==>
        && !signal.aborted
        && (signal.removals || exists i | 0 <= i < |node.listeners| :: Spells(node.listeners[i], "abort")))
  {
    assert Spells(ABORT, "abort");
    if node.Object? {
      forall i | 0 <= i < |node.listeners| ensures Spells(node.listeners[i], "abort") <==> node.listeners[i] == ABORT {
      }
      if ABORT in node.listeners {
        var i :| 0 <= i < |node.listeners| && node.listeners[i] == ABORT;
        assert Spells(node.listeners[i], "abort");
      }
    }
  }

  /** All listeners of the dependents that are objects. */
  function Heard(entries: seq<Entry>, dependents: seq<Handle>): (all: seq<seq<nat>>) {
    if dependents == [] then []
    else
      var node := Get(entries, dependents[0]);
      (match node
       case Some(Object(_, listeners, _, _)) => listeners
       case _ => []) + Heard(entries, dependents[1..])
  }

  lemma {:induction false} ListeningIsHeard(entries: seq<Entry>, front: seq<Handle>, back: seq<Handle>)
    ensures Listening(entries, front + back) == Listening(entries, front) + |Heard(entries, back)|
    decreases |back|
  {
    if back == [] {
      assert front + back == front;
    } else {
      var more := front + [back[0]];
      assert front + back == more + back[1..];
      assert more[..|front|] == front;
      ListeningIsHeard(entries, more, back[1..]);
    }
  }

  /** What makes a node live: another live node, or a live node together with a live key. */
  datatype Edge = Strong(target: Handle) | Ephemeron(key: Handle, target: Handle)

  predicate WeakEdge(weak: seq<WeakEntry>, e: Edge) {
    exists i | 0 <= i < |weak| :: IsEdge(weak[i], e)
  }

  /** The edge a weak association is: a built-in key is always live. */
  predicate IsEdge(w: WeakEntry, e: Edge) {
    && w.value == Some(e.target)
    && match w.key
       case Heap(k, _) => e.Ephemeron? && e.key == k
       case Native(_) => e.Strong?
  }

  predicate NodeEdge(entries: seq<Entry>, node: Node, e: Edge) {
    || (e.Strong? && e.target in node.children)
    || (node.Object? && node.weak.Some? && WeakEdge(node.weak.value, e))
    || (node.Object? && node.signal.Some? && e.Strong?
        && e.target in node.signal.value.dependents && Awaited(entries, e.target))
  }

  predicate EdgeFrom(entries: seq<Entry>, h: Handle, e: Edge) {
    Get(entries, h).Some? && NodeEdge(entries, Get(entries, h).value, e)
  }

  /** A set of handles that holds the roots and everything its members make live. Members of
      `seen` were marked before, and are not looked into again. */
  ghost predicate Closed(entries: seq<Entry>, seen: set<Handle>, roots: seq<Handle>, s: iset<Handle>) {
    && (forall h | h in seen :: h in s)
    && (forall h | h in roots :: h in s)
    && (forall h, e | h in s && h !in seen && EdgeFrom(entries, h, e) ::
          e.Strong? || e.key in s ==> e.target in s)
  }

  /** The least closed set. */
  ghost predicate Least(entries: seq<Entry>, seen: set<Handle>, roots: seq<Handle>, kept: set<Handle>) {
    && Closed(entries, seen, roots, iset h | h in kept)
    && (forall s: iset<Handle> | Closed(entries, seen, roots, s) :: forall h | h in kept :: h in s)
  }

  /** What is left of a node after a collection: its associations with keys that died are gone. */
  function Swept(node: Node, kept: set<Handle>): (r: Node) {
    if node.Object? && node.weak.Some? then node.(weak := Some(SweptWeak(node.weak.value, kept))) else node
  }

  function SweptWeak(weak: seq<WeakEntry>, kept: set<Handle>): (r: seq<WeakEntry>) {
    if weak == [] then []
    else
      var rest := SweptWeak(weak[1..], kept);
      if weak[0].key.Heap? && weak[0].key.handle !in kept then rest else [weak[0]] + rest
  }

  /** Exactly the associations whose key is on the heap and died are gone. */
  lemma {:induction false} SweptWeakHolds(weak: seq<WeakEntry>, kept: set<Handle>, w: WeakEntry)
    ensures w in SweptWeak(weak, kept) <==> w in weak && (w.key.Heap? ==> w.key.handle in kept)
  {
    if weak != [] {
      SweptWeakHolds(weak[1..], kept, w);
    }
  }

  // ---------- how much work a collection is ----------

  /** What following a node can cost: every edge is followed at most once, a weak association is
      also registered and swept, a dependent is also looked at with its listeners. */
  function Weight(entries: seq<Entry>, node: Node): (n: nat) {
    |node.children|
    + (if node.Object? && node.weak.Some? then 3 * |node.weak.value| else 0)
    + (if node.Object? && node.signal.Some?
       then 2 * |node.signal.value.dependents| + Listening(entries, node.signal.value.dependents) else 0)
  }

  /** How many listeners the dependents have. */
  function Listening(entries: seq<Entry>, dependents: seq<Handle>): (n: nat) {
    if dependents == [] then 0
    else Listening(entries, dependents[..|dependents| - 1]) + Listeners(entries, dependents[|dependents| - 1])
  }

  function Listeners(entries: seq<Entry>, d: Handle): (n: nat) {
    var node := Get(entries, d);
    if node.Some? && node.value.Object? then |node.value.listeners| else 0
  }

  function Share(entries: seq<Entry>, entry: Entry): (w: nat) {
    if !entry.marked && entry.node.Some? then Weight(entries, entry.node.value) else 0
  }

  /** The weight of every unmarked node among the first `n` slots. */
  function Unmarked(entries: seq<Entry>, marks: seq<Entry>, n: nat): (w: nat)
    requires n <= |marks|
  {
    if n == 0 then 0
    else Unmarked(entries, marks, n - 1) + Share(entries, marks[n - 1])
  }

  /** Fuel that is enough whatever the heap looks like. */
  function Enough(entries: seq<Entry>, roots: seq<Handle>): (n: nat) {
    |roots| + Unmarked(entries, entries, |entries|) + |entries|
  }
}
