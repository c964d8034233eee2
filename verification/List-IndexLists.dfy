/** A list over links the caller owns. */
module IndexLists {
  import opened Wrappers
  import opened Words
  import opened ListSpec

  datatype CollectionError = Index(node: nat) | AlreadyLinked(node: nat) | NotLinked(node: nat) | ListId

  class IndexList {
    const id: nat
    var head: nat
    var tail: nat
    var len: nat

    /** The header and the links hold the list `s`. A node is an index other than `NONE`. */
    ghost predicate Holds(links: seq<Link>, s: seq<nat>)
      reads this
    {
      && id != NONE && Listed(links, id, s)
      && head == First(s) && tail == Last(s) && len == |s|
    }

    /** An empty list. The links hold it where no node is marked as its own. */
    constructor (id: nat)
      requires id != NONE
      ensures this.id == id && head == NONE && tail == NONE && len == 0
      ensures forall links: seq<Link> | (forall i | 0 <= i < |links| :: links[i].owner != id) ::
        Holds(links, [])
    {
      this.id := id;
      head, tail, len := NONE, NONE, 0;
    }

    /** The empty sequence, under any number but `NONE`. */
    static method New(id: nat) returns (r: Result<IndexList, CollectionError>)
      ensures r.Err? <==> id == NONE
      ensures r.Err? ==> r == Err(ListId)
      ensures r.Ok? ==> r.value.id == id && r.value.head == NONE && r.value.tail == NONE && r.value.len == 0
    {
      if id == NONE {
        return Err(ListId);
      }
      var list := new IndexList(id);
      r := Ok(list);
    }

    /** Whether `node` can be put into a list, and why not. */
    static function Claim(links: seq<Link>, node: nat): (r: Result<(), CollectionError>)
      ensures r.Ok? <==> node < |links| && links[node].owner == NONE
      ensures r.Err? ==> r == Err(if node < |links| then AlreadyLinked(node) else Index(node))
    {
      if node >= |links| then Err(Index(node))
      else if links[node].owner != NONE then Err(AlreadyLinked(node))
      else Ok(())
    }

    /** Nothing is a list any more: a node was taken that no list can have. */
    ghost predicate Broken(links: seq<Link>)
      reads this
    {
      forall s: seq<nat> :: !Holds(links, s)
    }

    /** The sequence with `node` before it, or an error and nothing changed. */
    method PushFront(links: array<Link>, node: U32, ghost s: seq<nat>) returns (r: Result<(), CollectionError>)
      requires Holds(links[..], s)
      modifies this, links
      ensures r == old(Claim(links[..], node))
      ensures r.Ok? && node != NONE ==> Holds(links[..], [node] + s) && OthersKept(old(links[..]), links[..], id)
      ensures r.Ok? && node == NONE ==> Broken(links[..]) && len == (|s| + 1) % 0x1_0000_0000 && head == NONE
      ensures r.Err? ==> unchanged(this) && links[..] == old(links[..])
    {
      hide Listed, OthersKept;
      ghost var before := links[..];
      r := Claim(links[..], node);
      if r.Err? {
        return;
      }
      if node != NONE {
        SpliceLists(before, id, s, node, 0);
        RoomForOne(before, id, s, node);
      }
      NeighboursFit(before, id, s, 0);
      assert Inserted(s, 0, node) == [node] + s;
      var oldHead := head;
      links[node] := Link(NONE, oldHead, id);
      if oldHead == NONE {
        tail := node;
      } else {
        links[oldHead] := links[oldHead].(prev := node);
      }
      head := node;
      len := (len + 1) % 0x1_0000_0000;
      if node == NONE {
        NoneBreaks(this, links[..]);
      } else {
        assert links[..] == Spliced(before, id, node, Before(s, 0), Behind(s, 0));
      }
    }

    /** The sequence with `node` after it, or an error and nothing changed. */
    method PushBack(links: array<Link>, node: U32, ghost s: seq<nat>) returns (r: Result<(), CollectionError>)
      requires Holds(links[..], s)
      modifies this, links
      ensures r == old(Claim(links[..], node))
      ensures r.Ok? && node != NONE ==> Holds(links[..], s + [node]) && OthersKept(old(links[..]), links[..], id)
      ensures r.Ok? && node == NONE ==> Broken(links[..]) && len == (|s| + 1) % 0x1_0000_0000 && tail == NONE
      ensures r.Err? ==> unchanged(this) && links[..] == old(links[..])
    {
      hide Listed, OthersKept;
      ghost var before := links[..];
      r := Claim(links[..], node);
      if r.Err? {
        return;
      }
      if node != NONE {
        SpliceLists(before, id, s, node, |s|);
        RoomForOne(before, id, s, node);
      }
      NeighboursFit(before, id, s, |s|);
      assert Inserted(s, |s|, node) == s + [node];
      var oldTail := tail;
      links[node] := Link(oldTail, NONE, id);
      if oldTail == NONE {
        head := node;
      } else {
        links[oldTail] := links[oldTail].(next := node);
      }
      tail := node;
      len := (len + 1) % 0x1_0000_0000;
      if node == NONE {
        NoneBreaks(this, links[..]);
      } else {
        assert links[..] == Spliced(before, id, node, Before(s, |s|), Behind(s, |s|));
      }
    }

    /** Why `node` cannot be put behind `after`, if it cannot. */
    function InsertError(links: seq<Link>, node: nat, after: Option<nat>): (e: Option<CollectionError>) {
      var claim := Claim(links, node);
      if claim.Err? then Some(claim.error)
      else if after.None? then None
      else if after.value >= |links| then Some(Index(after.value))
      else if links[after.value].owner != id then Some(NotLinked(after.value))
      else None
    }

    /** The sequence with `node` at `k`: behind `after`, or first when there is no `after`. */
    method InsertAfter(links: array<Link>, node: U32, after: Option<U32>, ghost s: seq<nat>)
      returns (r: Result<(), CollectionError>, ghost k: nat)
      requires Holds(links[..], s)
      modifies this, links
      ensures old(InsertError(links[..], node, after)).None? <==> r.Ok?
      ensures r.Err? ==> Some(r.error) == old(InsertError(links[..], node, after))
      ensures r.Ok? ==> k <= |s| && (if after.None? then k == 0 else k > 0 && s[k - 1] == after.value)
      ensures r.Ok? && node != NONE ==>
        Holds(links[..], Inserted(s, k, node)) && OthersKept(old(links[..]), links[..], id)
      ensures r.Ok? && node == NONE ==> Broken(links[..])
      ensures r.Err? ==> unchanged(this) && links[..] == old(links[..])
    {
      hide Listed, OthersKept;
      k := 0;
      ghost var before := links[..];
      if after.None? {
        r := PushFront(links, node, s);
        assert Inserted(s, 0, node) == [node] + s;
        return;
      }
      r := Claim(links[..], node);
      if r.Err? {
        return;
      }
      if after.value >= links.Length {
        return Err(Index(after.value)), k;
      }
      var previous := links[after.value];
      if previous.owner != id {
        return Err(NotLinked(after.value)), k;
      }
      ghost var j := Place(before, id, s, after.value);
      k := j + 1;
      var next := previous.next;
      if next == NONE {
        AtEnd(before, id, s, j);
        r := PushBack(links, node, s);
        assert Inserted(s, k, node) == s + [node];
        return;
      }
      Splice(links, node, after.value, next, s, k);
      r := Ok(());
    }

    /** Puts a free node between the neighbours of place `k`, which is at neither end. */
    method Splice(links: array<Link>, node: U32, prev: nat, next: nat, ghost s: seq<nat>, ghost k: nat)
      requires Holds(links[..], s) && Claim(links[..], node).Ok?
      requires 0 < k < |s| && prev == s[k - 1] && next == s[k]
      modifies this`len, links
      ensures node != NONE ==> Holds(links[..], Inserted(s, k, node)) && OthersKept(old(links[..]), links[..], id)
      ensures node == NONE ==> Broken(links[..])
    {
      hide Listed, OthersKept;
      ghost var before := links[..];
      if node != NONE {
        SpliceLists(before, id, s, node, k);
        RoomForOne(before, id, s, node);
      }
      NeighboursFit(before, id, s, k);
      NotInside(before, id, s, node);
      links[node] := Link(prev, next, id);
      links[prev] := links[prev].(next := node);
      links[next] := links[next].(prev := node);
      len := (len + 1) % 0x1_0000_0000;
      if node == NONE {
        NoneBreaks(this, links[..]);
      } else {
        assert links[..] == Spliced(before, id, node, prev, next);
      }
    }

    /** Why `node` cannot be taken out, if it cannot. */
    function UnlinkError(links: seq<Link>, node: nat): (e: Option<CollectionError>)
      reads this
    {
      if node >= |links| then Some(Index(node))
      else if len == 0 || links[node].owner != id then Some(NotLinked(node))
      else None
    }

    /** The sequence without `node`, which stood at `k`. */
    method Unlink(links: array<Link>, node: nat, ghost s: seq<nat>)
      returns (r: Result<(), CollectionError>, ghost k: nat)
      requires Holds(links[..], s)
      modifies this, links
      ensures r.Ok? <==> node in s
      ensures r.Err? ==> Some(r.error) == old(UnlinkError(links[..], node))
      ensures r.Ok? ==> k < |s| && s[k] == node
      ensures r.Ok? ==> Holds(links[..], Removed(s, k)) && OthersKept(old(links[..]), links[..], id)
      ensures r.Err? ==> unchanged(this) && links[..] == old(links[..])
    {
      hide Listed, OthersKept;
      k := 0;
      ghost var before := links[..];
      if node >= links.Length {
        NotBeyond(before, id, s, node);
        return Err(Index(node)), k;
      }
      var link := links[node];
      if len == 0 {
        return Err(NotLinked(node)), k;
      }
      if link.owner != id {
        NotInside(before, id, s, node);
        return Err(NotLinked(node)), k;
      }
      k := Place(before, id, s, node);
      CutLists(before, id, s, k);
      CutNeighbours(before, id, s, k);
      if link.prev == NONE {
        head := link.next;
      } else {
        links[link.prev] := links[link.prev].(next := link.next);
      }
      if link.next == NONE {
        tail := link.prev;
      } else {
        links[link.next] := links[link.next].(prev := link.prev);
      }
      links[node] := Link(NONE, NONE, NONE);
      len := len - 1;
      assert links[..] == Cut(before, node, Before(s, k), Behind(s, k + 1));
      r := Ok(());
    }

    /** The first node and the sequence without it, or nothing of an empty one. */
    method PopFront(links: array<Link>, ghost s: seq<nat>) returns (node: Option<nat>)
      requires Holds(links[..], s)
      modifies this, links
      ensures node == if s == [] then None else Some(s[0])
      ensures s != [] ==> Holds(links[..], s[1..]) && OthersKept(old(links[..]), links[..], id)
      ensures s == [] ==> unchanged(this) && links[..] == old(links[..])
    {
      if head == NONE {
        NodesAreNodes(links[..], id, s);
        return None;
      }
      NodesAreNodes(links[..], id, s);
      var first := head;
      var r;
      ghost var k;
      r, k := Unlink(links, first, s);
      assert Removed(s, 0) == s[1..];
      node := Some(first);
    }

    /** The last node and the sequence without it, or nothing of an empty one. */
    method PopBack(links: array<Link>, ghost s: seq<nat>) returns (node: Option<nat>)
      requires Holds(links[..], s)
      modifies this, links
      ensures node == if s == [] then None else Some(s[|s| - 1])
      ensures s != [] ==> Holds(links[..], s[..|s| - 1]) && OthersKept(old(links[..]), links[..], id)
      ensures s == [] ==> unchanged(this) && links[..] == old(links[..])
    {
      NodesAreNodes(links[..], id, s);
      if tail == NONE {
        return None;
      }
      var last := tail;
      var r;
      ghost var k;
      r, k := Unlink(links, last, s);
      assert Removed(s, |s| - 1) == s[..|s| - 1];
      node := Some(last);
    }

    /** Membership in the sequence. */
    method Contains(links: seq<Link>, node: nat, ghost s: seq<nat>) returns (found: bool)
      requires Holds(links, s)
      ensures found <==> node in s
    {
      found := node < |links| && links[node].owner == id;
      if node >= |links| {
        NotBeyond(links, id, s, node);
      } else if links[node].owner != id {
        NotInside(links, id, s, node);
      }
    }
  }

  /** Follows `next` from the head on, `left` more times at most. */
  class Iter {
    const links: seq<Link>
    var at: nat
    var left: nat

    constructor (list: IndexList, links: seq<Link>)
      ensures this.links == links && at == list.head && left == list.len
    {
      this.links := links;
      at, left := list.head, list.len;
    }

    /** The walk stands before node `k` of the list. */
    ghost predicate Stands(id: nat, s: seq<nat>, k: nat)
      reads this
    {
      k <= |s| && Listed(links, id, s) && at == Behind(s, k) && left == |s| - k
    }

    /** The next node. Whatever the links are, the walk gets shorter. */
    method Next(ghost id: nat, ghost s: seq<nat>, ghost k: nat) returns (node: Option<nat>)
      modifies this
      ensures node.Some? ==> left == old(left) - 1
      ensures old(Stands(id, s, k)) ==> node == if k == |s| then None else Some(s[k])
      ensures old(Stands(id, s, k)) && k < |s| ==> Stands(id, s, k + 1)
    {
      if left == 0 || at == NONE {
        if Stands(id, s, k) {
          NodesAreNodes(links, id, s);
        }
        return None;
      }
      var found := at;
      if Stands(id, s, k) {
        assert Linked(links, id, s, k);
      }
      if found >= |links| {
        return None;
      }
      at := links[found].next;
      left := left - 1;
      node := Some(found);
    }
  }

  /** A walk from the head yields the list. */
  method Walk(list: IndexList, links: seq<Link>, ghost s: seq<nat>) returns (nodes: seq<nat>)
    requires list.Holds(links, s)
    ensures nodes == s
  {
    var iter := new Iter(list, links);
    nodes := [];
    var node := iter.Next(list.id, s, 0);
    while node.Some?
      invariant fresh(iter) && iter.links == links && |nodes| <= |s| && nodes == s[..|nodes|]
      invariant node == if |nodes| == |s| then None else Some(s[|nodes|])
      invariant |nodes| < |s| ==> iter.Stands(list.id, s, |nodes| + 1)
      decreases |s| - |nodes|
    {
      nodes := nodes + [node.value];
      node := iter.Next(list.id, s, |nodes|);
    }
  }

  // ---------- where nodes are ----------

  lemma NoneBreaks(list: IndexList, links: seq<Link>)
    requires NONE < |links| && links[NONE].owner == list.id
    ensures list.Broken(links)
  {
    forall s: seq<nat> ensures !list.Holds(links, s) {
      MarkedNone(links, list.id, s);
    }
  }

  /** Nodes are indices of links, below `NONE`. */
  lemma NodesAreNodes(links: seq<Link>, id: nat, s: seq<nat>)
    requires Listed(links, id, s)
    ensures forall k | 0 <= k < |s| :: s[k] < |links| && s[k] < NONE
  {
    forall k | 0 <= k < |s| ensures s[k] < |links| && s[k] < NONE {
      assert Linked(links, id, s, k);
    }
  }

  lemma NotBeyond(links: seq<Link>, id: nat, s: seq<nat>, node: nat)
    requires Listed(links, id, s) && node >= |links|
    ensures node !in s
  {
    forall k | 0 <= k < |s| ensures s[k] != node {
      assert Linked(links, id, s, k);
    }
  }

  /** A list that does not have every node can have one more without its length running over. */
  lemma RoomForOne(links: seq<Link>, id: nat, s: seq<nat>, node: U32)
    requires Listed(links, id, s) && node < |links| && node != NONE && links[node].owner == NONE && id != NONE
    ensures |s| + 1 <= NONE
  {
    NotInside(links, id, s, node);
    NodesAreNodes(links, id, s);
    InsertedDistinct(s, 0, node);
    FewNodes(Inserted(s, 0, node), NONE);
  }

  lemma NeighboursFit(links: seq<Link>, id: nat, s: seq<nat>, k: nat)
    requires Listed(links, id, s) && k <= |s|
    ensures k > 0 ==> Before(s, k) < |links| && Before(s, k) < NONE
    ensures k < |s| ==> Behind(s, k) < |links| && Behind(s, k) < NONE
    ensures s != [] ==> s[0] < |links| && s[0] < NONE && s[|s| - 1] < |links| && s[|s| - 1] < NONE
  {
    NodesAreNodes(links, id, s);
  }

  /** Where a node of the list is. */
  lemma Place(links: seq<Link>, id: nat, s: seq<nat>, node: nat) returns (k: nat)
    requires Listed(links, id, s) && node < |links| && links[node].owner == id
    ensures k < |s| && s[k] == node && links[node] == LinkOf(id, s, k)
  {
    k :| 0 <= k < |s| && s[k] == node;
    assert Linked(links, id, s, k);
  }

  lemma AtEnd(links: seq<Link>, id: nat, s: seq<nat>, k: nat)
    requires Listed(links, id, s) && k < |s| && LinkOf(id, s, k).next == NONE
    ensures k == |s| - 1
  {
    NodesAreNodes(links, id, s);
  }

  lemma CutNeighbours(links: seq<Link>, id: nat, s: seq<nat>, k: nat)
    requires Listed(links, id, s) && k < |s|
    ensures LinkOf(id, s, k) == Link(Before(s, k), Behind(s, k + 1), id)
    ensures Before(s, k) == NONE <==> k == 0
    ensures Behind(s, k + 1) == NONE <==> k == |s| - 1
    ensures k > 0 ==> Before(s, k) < |links|
    ensures k < |s| - 1 ==> Behind(s, k + 1) < |links|
    ensures s[k] != Before(s, k) && s[k] != Behind(s, k + 1)
  {
    NodesAreNodes(links, id, s);
  }
}
