/** Doubly linked lists that share the links their nodes are kept by. */
module ListSpec {

  /** Stands for no neighbour in `prev` and `next`, and for no list in `owner`. */
  const NONE: nat := 0xFFFF_FFFF

  datatype Link = Link(prev: nat, next: nat, owner: nat)

  ghost predicate Distinct(s: seq<nat>) {
    forall i, j | 0 <= i < j < |s| :: s[i] != s[j]
  }

  function First(s: seq<nat>): (node: nat) {
    if s == [] then NONE else s[0]
  }

  function Last(s: seq<nat>): (node: nat) {
    if s == [] then NONE else s[|s| - 1]
  }

  /** The link of node `k` of a list: it names its neighbours and its list. */
  function LinkOf(id: nat, s: seq<nat>, k: nat): (link: Link)
    requires k < |s|
  {
    Link(if k == 0 then NONE else s[k - 1], if k == |s| - 1 then NONE else s[k + 1], id)
  }

  ghost predicate Linked(links: seq<Link>, id: nat, s: seq<nat>, k: nat)
    requires k < |s|
  {
    s[k] < |links| && s[k] < NONE && links[s[k]] == LinkOf(id, s, k)
  }

  /** The links hold the list: its nodes are distinct, linked in order, and the only ones marked as
      its own. */
  ghost predicate Listed(links: seq<Link>, id: nat, s: seq<nat>) {
    && Distinct(s) && (forall k | 0 <= k < |s| :: Linked(links, id, s, k))
    && (forall i | 0 <= i < |links| && links[i].owner == id :: i in s)
  }

  /** Nothing but this list's nodes, and nodes of no list, changed; and no node went to another list. */
  ghost predicate OthersKept(links: seq<Link>, links': seq<Link>, id: nat) {
    |links'| == |links| && forall i | 0 <= i < |links| :: LinkKept(links[i], links'[i], id)
  }

  predicate LinkKept(x: Link, y: Link, id: nat) {
    if x.owner == id || x.owner == NONE then y.owner == id || y.owner == NONE else y == x
  }

  /** Then every other list is what it was. */
  lemma OtherListsKept(links: seq<Link>, links': seq<Link>, id: nat, other: nat, s: seq<nat>)
    requires OthersKept(links, links', id) && other != id && other != NONE && id != NONE && Listed(links, other, s)
    ensures Listed(links', other, s)
  {
    forall k | 0 <= k < |s| ensures Linked(links', other, s, k) {
      assert Linked(links, other, s, k);
      assert LinkKept(links[s[k]], links'[s[k]], id);
    }
    forall i | 0 <= i < |links'| && links'[i].owner == other ensures i in s {
      assert LinkKept(links[i], links'[i], id);
    }
  }

  /** A node is in one list at most. */
  lemma ListsAreApart(links: seq<Link>, id: nat, s: seq<nat>, other: nat, t: seq<nat>, node: nat)
    requires Listed(links, id, s) && Listed(links, other, t) && id != other
    ensures !(node in s && node in t)
  {
    if i :| 0 <= i < |s| && s[i] == node {
      assert Linked(links, id, s, i);
      forall j | 0 <= j < |t| ensures t[j] != node {
        assert Linked(links, other, t, j);
      }
    }
  }

  /** The index that stands for no neighbour is in no list, so links that mark it hold none. */
  lemma MarkedNone(links: seq<Link>, id: nat, s: seq<nat>)
    requires NONE < |links| && links[NONE].owner == id
    ensures !Listed(links, id, s)
  {
    if forall k | 0 <= k < |s| :: Linked(links, id, s, k) {
      forall k | 0 <= k < |s| ensures s[k] != NONE {
        assert Linked(links, id, s, k);
      }
      assert NONE !in s;
    }
  }

  /** A list has no more nodes than there are links. */
  lemma {:induction false} FewNodes(s: seq<nat>, n: nat)
    requires Distinct(s) && forall k | 0 <= k < |s| :: s[k] < n
    ensures |s| <= n
    decreases n
  {
    if s != [] {
      assert s[0] < n;
      if k :| 0 <= k < |s| && s[k] == n - 1 {
        FewNodes(s[..k] + s[k + 1..], n - 1);
      } else {
        FewNodes(s, n - 1);
      }
    }
  }

  /** Nodes of other owners are not in the sequence. */
  lemma NotInside(links: seq<Link>, id: nat, s: seq<nat>, node: nat)
    requires Listed(links, id, s) && node < |links| && links[node].owner != id
    ensures node !in s
  {
    forall k | 0 <= k < |s| ensures s[k] != node {
      assert Linked(links, id, s, k);
    }
  }

  // ---------- links before and after each operation ----------

  function SetPrev(links: seq<Link>, node: nat, prev: nat): (r: seq<Link>)
    ensures |r| == |links|
  {
    if node < |links| && node != NONE then links[node := links[node].(prev := prev)] else links
  }

  function SetNext(links: seq<Link>, node: nat, next: nat): (r: seq<Link>)
    ensures |r| == |links|
  {
    if node < |links| && node != NONE then links[node := links[node].(next := next)] else links
  }

  /** The links after a node was put between two neighbours, where there are any. */
  function Spliced(links: seq<Link>, id: nat, node: nat, prev: nat, next: nat): (r: seq<Link>)
    requires node < |links|
    ensures |r| == |links|
  {
    var written := links[node := Link(prev, next, id)];
    SetPrev(SetNext(written, prev, node), next, node)
  }

  /** A link after that, by which of the three it is. */
  function SplicedLink(link: Link, i: nat, id: nat, node: nat, prev: nat, next: nat): (r: Link) {
    if i == node then Link(prev, next, id)
    else if i == NONE then link
    else link.(next := if i == prev then node else link.next, prev := if i == next then node else link.prev)
  }

  lemma SplicedAt(links: seq<Link>, id: nat, node: nat, prev: nat, next: nat)
    requires node < |links| && node != prev && node != next
    ensures forall i | 0 <= i < |links| ::
      Spliced(links, id, node, prev, next)[i] == SplicedLink(links[i], i, id, node, prev, next)
  {
  }

  /** A node put at place `k` of a list. */
  function Inserted(s: seq<nat>, k: nat, node: nat): (t: seq<nat>)
    requires k <= |s|
    ensures |t| == |s| + 1
    ensures forall i | 0 <= i < |t| :: t[i] == if i < k then s[i] else if i == k then node else s[i - 1]
  {
    s[..k] + [node] + s[k..]
  }

  /** The neighbours of place `k`. */
  function Before(s: seq<nat>, k: nat): (node: nat)
    requires k <= |s|
  {
    if k == 0 then NONE else s[k - 1]
  }

  function Behind(s: seq<nat>, k: nat): (node: nat)
    requires k <= |s|
  {
    if k == |s| then NONE else s[k]
  }

  lemma SpliceLists(links: seq<Link>, id: nat, s: seq<nat>, node: nat, k: nat)
    requires Listed(links, id, s) && id != NONE && node < |links| && node < NONE && links[node].owner == NONE
        && k <= |s|
    ensures var r := Spliced(links, id, node, Before(s, k), Behind(s, k));
      Listed(r, id, Inserted(s, k, node)) && OthersKept(links, r, id)
  {
    hide Spliced;
    var prev, next := Before(s, k), Behind(s, k);
    var r, t := Spliced(links, id, node, prev, next), Inserted(s, k, node);
    NotInside(links, id, s, node);
    assert node != prev && node != next;
    SplicedAt(links, id, node, prev, next);
    forall i | 0 <= i < |t| ensures Linked(r, id, t, i) {
      SpliceLinked(links, r, id, s, node, k, i);
    }
    forall i | 0 <= i < |r| && r[i].owner == id ensures i in t {
      if i != node {
        var j :| 0 <= j < |s| && s[j] == i;
        assert t[if j < k then j else j + 1] == i;
      } else {
        assert t[k] == node;
      }
    }
    forall i | 0 <= i < |links| ensures LinkKept(links[i], r[i], id) {
      SpliceKeeps(links, id, s, node, k, i);
    }
    InsertedDistinct(s, k, node);
  }

  lemma InsertedDistinct(s: seq<nat>, k: nat, node: nat)
    requires Distinct(s) && node !in s && k <= |s|
    ensures Distinct(Inserted(s, k, node))
  {
  }

  lemma SpliceKeeps(links: seq<Link>, id: nat, s: seq<nat>, node: nat, k: nat, i: nat)
    requires Listed(links, id, s) && k <= |s| && i < |links| && node < |links| && links[node].owner == NONE
    ensures LinkKept(links[i], SplicedLink(links[i], i, id, node, Before(s, k), Behind(s, k)), id)
  {
    if k > 0 && i == Before(s, k) {
      assert Linked(links, id, s, k - 1);
    }
    if k < |s| && i == Behind(s, k) {
      assert Linked(links, id, s, k);
    }
  }

  lemma SpliceLinked(links: seq<Link>, r: seq<Link>, id: nat, s: seq<nat>, node: nat, k: nat, i: nat)
    requires Listed(links, id, s) && node < |links| && node < NONE && node !in s && k <= |s| && i <= |s|
        && |r| == |links|
    requires forall j | 0 <= j < |links| :: r[j] == SplicedLink(links[j], j, id, node, Before(s, k), Behind(s, k))
    ensures Linked(r, id, Inserted(s, k, node), i)
  {
    hide Listed;
    var t := Inserted(s, k, node);
    if i != k {
      var j := if i < k then i else i - 1;
      SpliceFacts(links, id, s, k, j);
      assert t[i] == s[j];
    }
  }

  lemma SpliceFacts(links: seq<Link>, id: nat, s: seq<nat>, k: nat, j: nat)
    requires Listed(links, id, s) && k <= |s| && j < |s|
    ensures s[j] < |links| && s[j] < NONE && links[s[j]] == LinkOf(id, s, j)
    ensures s[j] == Before(s, k) <==> j == k - 1
    ensures s[j] == Behind(s, k) <==> j == k
  {
    assert Linked(links, id, s, j);
  }

  // ---------- taking a node out ----------

  /** The links after a node between two neighbours was taken out. */
  function Cut(links: seq<Link>, node: nat, prev: nat, next: nat): (r: seq<Link>)
    requires node < |links|
    ensures |r| == |links|
  {
    SetPrev(SetNext(links, prev, next), next, prev)[node := Link(NONE, NONE, NONE)]
  }

  function CutLink(link: Link, i: nat, node: nat, prev: nat, next: nat): (r: Link) {
    if i == node then Link(NONE, NONE, NONE)
    else if i == NONE then link
    else link.(next := if i == prev then next else link.next, prev := if i == next then prev else link.prev)
  }

  lemma CutAt(links: seq<Link>, node: nat, prev: nat, next: nat)
    requires node < |links|
    ensures forall i | 0 <= i < |links| :: Cut(links, node, prev, next)[i] == CutLink(links[i], i, node, prev, next)
  {
  }

  function Removed(s: seq<nat>, k: nat): (t: seq<nat>)
    requires k < |s|
    ensures |t| == |s| - 1
    ensures forall i | 0 <= i < |t| :: t[i] == if i < k then s[i] else s[i + 1]
  {
    s[..k] + s[k + 1..]
  }

  /** Taking out node `k` of a list. */
  lemma CutLists(links: seq<Link>, id: nat, s: seq<nat>, k: nat)
    requires Listed(links, id, s) && id != NONE && k < |s|
    ensures s[k] < |links|
    ensures var r := Cut(links, s[k], Before(s, k), Behind(s, k + 1));
      Listed(r, id, Removed(s, k)) && OthersKept(links, r, id)
  {
    hide Cut;
    var node, prev, next := s[k], Before(s, k), Behind(s, k + 1);
    assert Linked(links, id, s, k);
    var r, t := Cut(links, node, prev, next), Removed(s, k);
    CutAt(links, node, prev, next);
    forall i | 0 <= i < |t| ensures Linked(r, id, t, i) {
      CutLinked(links, r, id, s, k, i);
    }
    forall i | 0 <= i < |r| && r[i].owner == id ensures i in t {
      var j :| 0 <= j < |s| && s[j] == i;
      assert t[if j < k then j else j - 1] == i;
    }
    forall i | 0 <= i < |links| ensures LinkKept(links[i], r[i], id) {
      if k > 0 && i == prev {
        assert Linked(links, id, s, k - 1);
      }
      if k + 1 < |s| && i == next {
        assert Linked(links, id, s, k + 1);
      }
    }
  }

  lemma CutLinked(links: seq<Link>, r: seq<Link>, id: nat, s: seq<nat>, k: nat, i: nat)
    requires Listed(links, id, s) && k < |s| && i < |s| - 1 && |r| == |links|
    requires forall j | 0 <= j < |links| :: r[j] == CutLink(links[j], j, s[k], Before(s, k), Behind(s, k + 1))
    ensures Linked(r, id, Removed(s, k), i)
  {
    hide Listed;
    var t, j := Removed(s, k), if i < k then i else i + 1;
    CutFacts(links, id, s, k, j);
    assert t[i] == s[j];
  }

  lemma CutFacts(links: seq<Link>, id: nat, s: seq<nat>, k: nat, j: nat)
    requires Listed(links, id, s) && k < |s| && j < |s|
    ensures s[j] < |links| && s[j] < NONE && links[s[j]] == LinkOf(id, s, j)
    ensures s[j] == s[k] <==> j == k
    ensures s[j] == Before(s, k) <==> j == k - 1
    ensures s[j] == Behind(s, k + 1) <==> j == k + 1
  {
    assert Linked(links, id, s, j);
  }
}
