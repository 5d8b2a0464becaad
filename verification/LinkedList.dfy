/** The hand-made doubly linked list of the client (mervbot/datatypes.h, _listnode and _linkedlist). */
module LinkedLists {

  class Node<T> {
    const item: T
    var next: Node?<T>
    var last: Node?<T>

    constructor (item: T)
      ensures this.item == item && next == null && last == null
    {
      this.item, next, last := item, null, null;
    }
  }

  ghost function Items<T>(nodes: seq<Node<T>>): (s: seq<T>)
    reads nodes
    ensures |s| == |nodes|
    ensures forall i :: 0 <= i < |nodes| ==> s[i] == nodes[i].item
  {
    seq(|nodes|, i requires 0 <= i < |nodes| reads nodes => nodes[i].item)
  }

  /** A sequence without the first occurrence of x. */
  function Without<T(==)>(s: seq<T>, x: T): (r: seq<T>) {
    if s == [] then [] else if s[0] == x then s[1..] else [s[0]] + Without(s[1..], x)
  }

  lemma {:induction false} WithoutAt<T>(s: seq<T>, x: T, k: nat)
    requires k < |s| && s[k] == x && x !in s[..k]
    ensures Without(s, x) == s[..k] + s[k + 1..]
  {
    if k > 0 {
      assert s[0] == s[..k][0];
      assert s[..k][1..] == s[1..][..k - 1];
      WithoutAt(s[1..], x, k - 1);
      assert s[..k] == [s[0]] + s[1..][..k - 1];
    }
  }

  lemma {:induction false} WithoutNone<T>(s: seq<T>, x: T)
    requires x !in s
    ensures Without(s, x) == s
  {
    if s != [] {
      WithoutNone(s[1..], x);
    }
  }

  // ---------- Chains ----------

  predicate Distinct<T>(ns: seq<Node<T>>) {
    forall i, j :: 0 <= i < j < |ns| ==> ns[i] != ns[j]
  }

  ghost predicate Chained<T>(ns: seq<Node<T>>)
    reads ns
  {
    forall i, j :: 0 <= i && i + 1 == j < |ns| ==> ns[i].next == ns[j] && ns[j].last == ns[i]
  }

  ghost predicate Ends<T>(ns: seq<Node<T>>, head: Node?<T>, tail: Node?<T>, ring: bool)
    reads ns
  {
    if ns == [] then head == null && tail == null
    else && head == ns[0] && ns[0].last == null
         && tail == ns[|ns| - 1] && ns[|ns| - 1].next == if ring then head else null
  }

  lemma ItemsAre<T>(nodes: seq<Node<T>>, items: seq<T>)
    requires |nodes| == |items| && forall i :: 0 <= i < |nodes| ==> nodes[i].item == items[i]
    ensures Items(nodes) == items
  {
  }

  /** What has become of a list of items once nodes, head and tail are relinked. */
  ghost predicate Relinked<T>(ns: seq<Node<T>>, head: Node?<T>, tail: Node?<T>, items: seq<T>, ring: bool)
    reads ns
  {
    Distinct(ns) && Chained(ns) && Ends(ns, head, tail, ring) && Items(ns) == items
  }

  /** A new node between the nodes before index k and those from k on. */
  lemma WithNode<T>(was: seq<Node<T>>, node: Node<T>, k: nat, items: seq<T>)
    requires Distinct(was) && node !in was && 0 < k < |was| && Ends(was, was[0], was[|was| - 1], false)
    requires |was| == |items| && forall i :: 0 <= i < |was| ==> was[i].item == items[i]
    requires forall i, j :: 0 <= i && i + 1 == j < |was| && j != k ==> was[i].next == was[j] && was[j].last == was[i]
    requires was[k - 1].next == node && node.last == was[k - 1] && node.next == was[k] && was[k].last == node
    ensures Relinked(was[..k] + [node] + was[k..], was[0], was[|was| - 1], items[..k] + [node.item] + items[k..],
                     false)
  {
    var r := was[..k] + [node] + was[k..];
    assert r[0] == was[0] && r[|r| - 1] == was[|was| - 1];
    ItemsAre(r, items[..k] + [node.item] + items[k..]);
  }

  lemma WithFirst<T>(was: seq<Node<T>>, node: Node<T>, items: seq<T>)
    requires Distinct(was) && Chained(was) && node !in was
    requires |was| == |items| && forall i :: 0 <= i < |was| ==> was[i].item == items[i]
    requires was != [] ==> was[|was| - 1].next == null && node.next == was[0] && was[0].last == node
    requires node.last == null && (was == [] ==> node.next == null)
    ensures Relinked([node] + was, node, if was == [] then node else was[|was| - 1], [node.item] + items, false)
  {
    ItemsAre([node] + was, [node.item] + items);
  }

  lemma WithLast<T>(was: seq<Node<T>>, node: Node<T>, items: seq<T>)
    requires Distinct(was) && Chained(was) && node !in was && node.next == null
    requires |was| == |items| && forall i :: 0 <= i < |was| ==> was[i].item == items[i]
    requires if was == [] then node.last == null
             else was[0].last == null && was[|was| - 1].next == node && node.last == was[|was| - 1]
    ensures Relinked(was + [node], if was == [] then node else was[0], node, items + [node.item], false)
  {
    ItemsAre(was + [node], items + [node.item]);
  }

  /** The nodes of a straight list or a ring after the one at index k has been passed over. */
  ghost predicate PassedOver<T>(was: seq<Node<T>>, k: nat, items: seq<T>, head: Node?<T>, tail: Node?<T>, ring: bool)
    requires k < |was|
    reads was
  {
    var n := |was|;
    && (forall i, j :: 0 <= i && i + 1 == j < n && i != k && j != k ==> was[i].next == was[j] && was[j].last == was[i])
    && (0 < k < n - 1 ==> was[k - 1].next == was[k + 1] && was[k + 1].last == was[k - 1])
    && (n == |items| && forall i :: 0 <= i < n ==> was[i].item == items[i])
    && head == (if k > 0 then was[0] else if n > 1 then was[1] else if ring then was[0] else null)
    && tail == (if k + 1 < n then was[n - 1] else if k > 0 then was[k - 1] else null)
    && (head != null ==> head.last == if ring && 0 < k == n - 1 then tail else null)
    && (tail != null ==> tail.next == if ring && k + 1 < n then was[0] else null)
  }

  lemma CutLinks<T>(was: seq<Node<T>>, k: nat, items: seq<T>, head: Node?<T>, tail: Node?<T>, ring: bool)
    requires Distinct(was) && k < |was| && PassedOver(was, k, items, head, tail, ring)
    ensures Items(was[..k] + was[k + 1..]) == items[..k] + items[k + 1..]
    ensures Distinct(was[..k] + was[k + 1..]) && Chained(was[..k] + was[k + 1..])
  {
    ItemsAre(was[..k] + was[k + 1..], items[..k] + items[k + 1..]);
  }

  /** A ring stays a ring when a node inside it is taken out. At either end the list falls apart: the new
      head leads back to the tail, or the tail still leads to the node that is gone. */
  lemma CutEnds<T>(was: seq<Node<T>>, k: nat, items: seq<T>, head: Node?<T>, tail: Node?<T>, ring: bool)
    requires Distinct(was) && k < |was| && PassedOver(was, k, items, head, tail, ring)
    ensures Ends(was[..k] + was[k + 1..], head, tail, ring) <==> (ring ==> 0 < k < |was| - 1)
    ensures ring ==> !Ends(was[..k] + was[k + 1..], head, tail, false)
  {
    var ns := was[..k] + was[k + 1..];
    if |was| > 1 {
      assert ns[0] == if k > 0 then was[0] else was[1];
      assert ns[|ns| - 1] == if k + 1 < |was| then was[|was| - 1] else was[k - 1];
    }
  }

  lemma AtFront<T>(s: seq<T>, x: T)
    ensures [x] + s == s[..0] + [x] + s[0..]
  {
  }

  lemma AtBack<T>(s: seq<T>, x: T)
    ensures s + [x] == s[..|s|] + [x] + s[|s|..]
  {
  }

  /** In a list of distinct nodes the last one is at one index only. */
  lemma LastNode<T>(ns: seq<Node<T>>, k: nat)
    requires Distinct(ns) && (ns != [] ==> k < |ns| && ns[k] == ns[|ns| - 1])
    ensures ns != [] ==> k == |ns| - 1
  {
  }

  class LinkedList<T(==)> {
    var head: Node?<T>
    var tail: Node?<T>
    var total: nat

    /** Set while the items belong to somebody else: nodes are then deleted without their items. */
    var copy: bool

    /** The nodes in order, and the items deleted so far. */
    ghost var nodes: seq<Node<T>>
    ghost var freed: seq<T>

    ghost predicate Linked(ring: bool)
      reads this, nodes
    {
      Distinct(nodes) && Chained(nodes) && Ends(nodes, head, tail, ring)
    }

    ghost predicate Valid()
      reads this, nodes
    {
      Linked(false) && total == |nodes|
    }

    /** Between beginCyclic and endCyclic the tail leads back to the head. */
    ghost predicate Cyclic()
      reads this, nodes
    {
      Linked(true) && nodes != [] && total == |nodes|
    }

    ghost function Contents(): (s: seq<T>)
      reads this, nodes
    {
      Items(nodes)
    }

    constructor ()
      ensures Valid() && nodes == [] && freed == [] && !copy
    {
      head, tail, total, copy, nodes, freed := null, null, 0, false, [], [];
    }

    /** A change of total, copy or freed leaves the nodes as they are. */
    twostate lemma SameNodes()
      requires old(Linked(false)) && nodes == old(nodes) && head == old(head) && tail == old(tail)
      requires forall i :: 0 <= i < |nodes| ==> unchanged(nodes[i])
      ensures Linked(false) && Contents() == old(Contents())
    {
      ItemsAre(nodes, old(Contents()));
    }

    /** Nor does it link or cut any. */
    twostate lemma SameLinks()
      requires nodes == old(nodes) && head == old(head) && tail == old(tail)
      requires forall i :: 0 <= i < |nodes| ==> unchanged(nodes[i])
      ensures Linked(false) == old(Linked(false)) && Linked(true) == old(Linked(true))
      ensures Contents() == old(Contents())
    {
      ItemsAre(nodes, old(Contents()));
    }

    /** Links a new node in after all others. */
    method LinkLast(node: Node<T>)
      requires Linked(false) && node !in nodes && node.next == null
      modifies `head, `tail, `nodes, nodes, node
      ensures Linked(false) && nodes == old(nodes) + [node]
      ensures Contents() == old(Contents()) + [node.item]
    {
      ghost var was, items := nodes, Contents();
      node.last := tail;
      if head == null {
        head := node;
      } else {
        tail.next := node;
      }
      tail := node;
      WithLast(was, node, items);
      nodes := was + [node];
    }

    twostate lemma SameRing()
      requires old(Cyclic()) && nodes == old(nodes) && head == old(head) && tail == old(tail) && total == old(total)
      requires forall i :: 0 <= i < |nodes| ==> unchanged(nodes[i])
      ensures Cyclic() && Contents() == old(Contents())
    {
      ItemsAre(nodes, old(Contents()));
    }

    method Append(item: T)
      requires Valid()
      modifies this, nodes
      ensures Valid() && |nodes| == |old(nodes)| + 1 && nodes == old(nodes) + [nodes[|old(nodes)|]]
      ensures fresh(nodes[|old(nodes)|]) && freed == old(freed) && copy == old(copy)
      ensures Contents() == old(Contents()) + [item]
    {
      var node := new Node<T>(item);
      SameNodes();
      LinkLast(node);
      label Joined:
      total := total + 1;
      SameNodes@Joined();
    }

    method JoinFirst(node: Node<T>, ghost items: seq<T>)
      requires Linked(false) && node !in nodes && node.last == null && items == Contents()
      modifies `head, `tail, nodes, node
      ensures Relinked([node] + nodes, head, tail, [node.item] + items, false)
    {
      node.next := head;
      if tail == null {
        tail := node;
      } else {
        head.last := node;
      }
      head := node;
      WithFirst(nodes, node, items);
    }

    /** Links a new node in before all others. */
    method LinkFirst(node: Node<T>)
      requires Linked(false) && node !in nodes && node.last == null
      modifies `head, `tail, `nodes, nodes, node
      ensures Linked(false) && nodes == [node] + old(nodes)
      ensures Contents() == [node.item] + old(Contents())
    {
      JoinFirst(node, Contents());
      nodes := [node] + nodes;
    }

    method CountFirst(node: Node<T>)
      requires Valid() && node !in nodes && node.last == null
      modifies `head, `tail, `nodes, `total, nodes, node
      ensures Valid() && nodes == [node] + old(nodes) && Contents() == [node.item] + old(Contents())
    {
      LinkFirst(node);
      label Joined:
      total := total + 1;
      SameNodes@Joined();
    }

    method Prepend(item: T)
      requires Valid()
      modifies this, nodes
      ensures Valid() && |nodes| == |old(nodes)| + 1 && nodes == [nodes[0]] + old(nodes)
      ensures fresh(nodes[0]) && freed == old(freed) && copy == old(copy)
      ensures Contents() == [item] + old(Contents())
    {
      var node := new Node<T>(item);
      SameNodes();
      CountFirst(node);
    }

    method JoinBefore(new_node: Node<T>, node: Node<T>, ghost k: nat, ghost items: seq<T>)
      requires Linked(false) && 0 < k < |nodes| && nodes[k] == node && new_node !in nodes && items == Contents()
      modifies nodes, new_node
      ensures Relinked(nodes[..k] + [new_node] + nodes[k..], head, tail,
                       items[..k] + [new_node.item] + items[k..], false)
    {
      assert node.last == nodes[k - 1];
      new_node.last := node.last;
      new_node.next := node;
      node.last.next := new_node;
      node.last := new_node;
      WithNode(nodes, new_node, k, items);
    }

    /** Links a new node in before the node at index k, which is not the first. */
    method LinkBefore(new_node: Node<T>, node: Node<T>, ghost k: nat)
      requires Linked(false) && 0 < k < |nodes| && nodes[k] == node && new_node !in nodes
      modifies `nodes, nodes, new_node
      ensures Linked(false) && nodes == old(nodes)[..k] + [new_node] + old(nodes)[k..]
      ensures Contents() == old(Contents())[..k] + [new_node.item] + old(Contents())[k..]
    {
      JoinBefore(new_node, node, k, Contents());
      nodes := nodes[..k] + [new_node] + nodes[k..];
    }

    method CountBefore(new_node: Node<T>, node: Node<T>, ghost k: nat)
      requires Valid() && 0 < k < |nodes| && nodes[k] == node && new_node !in nodes
      modifies `nodes, `total, nodes, new_node
      ensures Valid() && nodes == old(nodes)[..k] + [new_node] + old(nodes)[k..]
      ensures Contents() == old(Contents())[..k] + [new_node.item] + old(Contents())[k..]
    {
      LinkBefore(new_node, node, k);
      label Joined:
      total := total + 1;
      SameNodes@Joined();
    }

    method NewBefore(node: Node<T>, item: T, ghost k: nat)
      requires Valid() && 0 < k < |nodes| && nodes[k] == node
      modifies this, nodes
      ensures Valid() && freed == old(freed) && copy == old(copy)
      ensures |nodes| == |old(nodes)| + 1 && fresh(nodes[k])
      ensures nodes == old(nodes)[..k] + [nodes[k]] + old(nodes)[k..]
      ensures Contents() == old(Contents())[..k] + [item] + old(Contents())[k..]
    {
      var new_node := new Node<T>(item);
      SameNodes();
      CountBefore(new_node, node, k);
    }

    /** A new node after the node at index k; in an empty list there is no such node. */
    method InsertAfter(node: Node?<T>, item: T, ghost k: nat)
      requires Valid() && if node == null then nodes == [] && k == 0 else k < |nodes| && nodes[k] == node
      modifies this, nodes
      ensures Valid() && freed == old(freed) && copy == old(copy)
      ensures var at := if old(nodes) == [] then 0 else k + 1;
              && |nodes| == |old(nodes)| + 1 && fresh(nodes[at])
              && nodes == old(nodes)[..at] + [nodes[at]] + old(nodes)[at..]
              && Contents() == old(Contents())[..at] + [item] + old(Contents())[at..]
    {
      ghost var was, items := nodes, Contents();
      if node == tail {
        LastNode(was, k);
        Append(item);
        AtBack(was, nodes[|was|]);
        AtBack(items, item);
      } else {
        assert k + 1 < |was| && node.next == was[k + 1];
        NewBefore(node.next, item, k + 1);
      }
    }

    /** A new node before the node at index k. */
    method InsertBefore(node: Node?<T>, item: T, ghost k: nat)
      requires Valid() && if node == null then nodes == [] && k == 0 else k < |nodes| && nodes[k] == node
      modifies this, nodes
      ensures Valid() && freed == old(freed) && copy == old(copy)
      ensures |nodes| == |old(nodes)| + 1 && fresh(nodes[k])
      ensures nodes == old(nodes)[..k] + [nodes[k]] + old(nodes)[k..]
      ensures Contents() == old(Contents())[..k] + [item] + old(Contents())[k..]
    {
      ghost var was, items := nodes, Contents();
      if node == head {
        Prepend(item);
        AtFront(was, nodes[0]);
        AtFront(items, item);
      } else {
        NewBefore(node, item, k);
      }
    }

    /** The part of Kill that makes the list pass over a node on the way forward. */
    method PassForward(node: Node<T>, ghost k: nat, ghost ring: bool)
      requires Linked(ring) && k < |nodes| && nodes[k] == node
      modifies `tail, nodes
      ensures tail == if k + 1 < |nodes| then old(tail) else if k > 0 then nodes[k - 1] else null
      ensures k > 0 ==> nodes[k - 1].next == if k + 1 < |nodes| then nodes[k + 1] else null
      ensures forall i :: 0 <= i < |nodes| && i + 1 != k ==> nodes[i].next == old(nodes[i].next)
      ensures forall i :: 0 <= i < |nodes| ==>
                nodes[i].last == old(nodes[i].last) && nodes[i].item == old(nodes[i].item)
    {
      assert k > 0 ==> node.last == nodes[k - 1];
      assert k + 1 < |nodes| ==> node.next == nodes[k + 1];
      if tail == node {
        tail := tail.last;
        if tail != null { tail.next := null; }
      } else {
        if node.last != null { node.last.next := node.next; }
      }
    }

    /** The part of Kill that makes the list pass over a node on the way back. */
    method PassBack(node: Node<T>, ghost k: nat, ghost ring: bool)
      requires k < |nodes| && nodes[k] == node && Distinct(nodes) && head == nodes[0]
      requires node.last == (if k > 0 then nodes[k - 1] else null)
      requires node.next == (if k + 1 < |nodes| then nodes[k + 1] else if ring then head else null)
      modifies `head, nodes
      ensures head == if k > 0 then old(head) else node.next
      ensures k + 1 < |nodes| ==> nodes[k + 1].last == if k > 0 then nodes[k - 1] else null
      ensures ring && 0 < k == |nodes| - 1 ==> nodes[0].last == nodes[k - 1]
      ensures forall i :: 0 <= i < |nodes| && i != k + 1 && !(ring && i == 0 < k == |nodes| - 1) ==>
        nodes[i].last == if i == 0 == k then null else old(nodes[i].last)
      ensures forall i :: 0 <= i < |nodes| ==>
                nodes[i].next == old(nodes[i].next) && nodes[i].item == old(nodes[i].item)
    {
      if head == node {
        head := head.next;
        if head != null { head.last := null; }
      } else {
        if node.next != null { node.next.last := node.last; }
      }
    }

    /** Both parts of Kill, as they affect the links between the nodes. */
    method PassBoth(node: Node<T>, ghost k: nat, ghost ring: bool, ghost items: seq<T>)
      requires Linked(ring) && k < |nodes| && nodes[k] == node && items == Contents()
      modifies `head, `tail, nodes
      ensures PassedOver(nodes, k, items, head, tail, ring)
    {
      assert k > 0 ==> nodes[k - 1].next == node;
      PassForward(node, k, ring);
      PassBack(node, k, ring);
    }

    method PassCut(node: Node<T>, ghost k: nat, ghost ring: bool, ghost items: seq<T>, ghost ns: seq<Node<T>>)
      requires Linked(ring) && k < |nodes| && nodes[k] == node && items == Contents()
      requires ns == nodes[..k] + nodes[k + 1..]
      modifies `head, `tail, nodes
      ensures Distinct(ns) && Chained(ns) && Items(ns) == items[..k] + items[k + 1..]
      ensures Ends(ns, head, tail, ring) <==> (ring ==> 0 < k < |nodes| - 1)
      ensures ring ==> !Ends(ns, head, tail, false)
    {
      PassBoth(node, k, ring, items);
      CutEnds(nodes, k, items, head, tail, ring);
      CutLinks(nodes, k, items, head, tail, ring);
    }

    /** Both parts of Kill: the other nodes are then linked up, unless an end of a ring is cut off. */
    method PassOver(node: Node<T>, ghost k: nat, ghost ring: bool)
      requires Linked(ring) && k < |nodes| && nodes[k] == node
      modifies `head, `tail, `nodes, nodes
      ensures nodes == old(nodes)[..k] + old(nodes)[k + 1..]
      ensures Linked(ring) <==> (ring ==> 0 < k < |old(nodes)| - 1)
      ensures ring ==> !Linked(false)
      ensures Contents() == old(Contents())[..k] + old(Contents())[k + 1..]
    {
      ghost var ns := nodes[..k] + nodes[k + 1..];
      PassCut(node, k, ring, Contents(), ns);
      nodes := ns;
    }

    /** Takes the node at index k out and deletes it, with its item unless the items are only copied.
        A ring stays one exactly when the node is neither its first nor its last; otherwise it is broken. */
    method Kill(node: Node<T>, ghost k: nat)
      requires (Valid() || Cyclic()) && k < |nodes| && nodes[k] == node
      modifies this, nodes
      ensures copy == old(copy)
      ensures old(Valid()) ==> Valid()
      ensures old(Cyclic()) ==> !Valid() && (Cyclic() <==> 0 < k < |old(nodes)| - 1)
      ensures nodes == old(nodes)[..k] + old(nodes)[k + 1..]
      ensures Contents() == old(Contents())[..k] + old(Contents())[k + 1..]
      ensures freed == if copy then old(freed) else old(freed) + [old(Contents())[k]]
    {
      PassOver(node, k, !Linked(false));
      label Passed:
      if !copy { freed := freed + [node.item]; }
      total := total - 1;
      SameLinks@Passed();
    }

    /** The first node that holds an item, or null; the list may be cyclic. */
    method Find(item: T) returns (node: Node?<T>, ghost k: nat)
      requires Valid() || Cyclic()
      ensures node == null ==> item !in Contents()
      ensures node != null ==> k < |nodes| && nodes[k] == node && node.item == item && item !in Contents()[..k]
    {
      ghost var items := Contents();
      node, k := head, 0;
      while node != null
        invariant k <= |nodes| && item !in items[..k]
        invariant node == if k < |nodes| then nodes[k] else null
        decreases |nodes| - k
      {
        if node.item == item { return; }
        assert items[..k + 1] == items[..k] + [items[k]];
        assert k + 1 < |nodes| ==> nodes[0] != nodes[k + 1];
        node := node.next;
        k := k + 1;
        if node == head {
          node := null;
          break;
        }
      }
      assert items[..k] == items;
    }

    /** Deletes the first node that holds an item, at index k; k is the length of the list if there is none. */
    method KillItem(item: T) returns (ghost k: nat)
      requires Valid() || Cyclic()
      modifies this, nodes
      ensures copy == old(copy) && k <= |old(nodes)|
      ensures old(Valid()) ==> Valid()
      ensures old(Cyclic()) ==> !Valid() && (Cyclic() <==> k == |old(nodes)| || 0 < k < |old(nodes)| - 1)
      ensures nodes == if k < |old(nodes)| then old(nodes)[..k] + old(nodes)[k + 1..] else old(nodes)
      ensures Contents() == Without(old(Contents()), item)
      ensures k < |old(nodes)| <==> item in old(Contents())
      ensures k < |old(nodes)| ==> old(Contents())[k] == item && item !in old(Contents())[..k]
      ensures freed == if copy || item !in old(Contents()) then old(freed) else old(freed) + [item]
    {
      ghost var items := Contents();
      var node, at := Find(item);
      k := at;
      if node == null {
        k := |nodes|;
        WithoutNone(items, item);
      } else {
        WithoutAt(items, item, k);
        Kill(node, k);
      }
    }

    /** Takes a node out but keeps its item alive. */
    method Unlist(node: Node<T>, ghost k: nat)
      requires (Valid() || Cyclic()) && k < |nodes| && nodes[k] == node
      modifies this, nodes
      ensures !copy && freed == old(freed)
      ensures old(Valid()) ==> Valid()
      ensures old(Cyclic()) ==> !Valid() && (Cyclic() <==> 0 < k < |old(nodes)| - 1)
      ensures nodes == old(nodes)[..k] + old(nodes)[k + 1..]
      ensures Contents() == old(Contents())[..k] + old(Contents())[k + 1..]
    {
      copy := true;
      SameLinks();
      Kill(node, k);
      label Killed:
      copy := false;
      SameLinks@Killed();
    }

    method UnlistItem(item: T) returns (ghost k: nat)
      requires Valid() || Cyclic()
      modifies this, nodes
      ensures !copy && freed == old(freed) && k <= |old(nodes)|
      ensures old(Valid()) ==> Valid()
      ensures old(Cyclic()) ==> !Valid() && (Cyclic() <==> k == |old(nodes)| || 0 < k < |old(nodes)| - 1)
      ensures Contents() == Without(old(Contents()), item)
      ensures k < |old(nodes)| ==> old(Contents())[k] == item && item !in old(Contents())[..k]
      ensures k == |old(nodes)| ==> item !in old(Contents())
    {
      copy := true;
      SameLinks();
      k := KillItem(item);
      label Killed:
      copy := false;
      SameLinks@Killed();
    }

    /** The walk over the nodes that deletes them. */
    method FreeNodes(ghost items: seq<T>)
      requires (Valid() || Cyclic()) && items == Contents()
      modifies `freed
      ensures freed == if copy then old(freed) else old(freed) + items
    {
      var parse := head;
      ghost var k := 0;
      while parse != null
        invariant 0 <= k <= |nodes|
        invariant parse == if k < |nodes| then nodes[k] else null
        invariant freed == if copy then old(freed) else old(freed) + items[..k]
        decreases |nodes| - k
      {
        var node := parse;
        assert k + 1 < |nodes| ==> nodes[0] != nodes[k + 1];
        parse := parse.next;
        if !copy { freed := freed + [node.item]; }
        k := k + 1;
        if parse == head { break; }
      }
      assert items[..k] == items;
    }

    /** Deletes all nodes, of a cyclic list too, each item once unless the items are only copied. */
    method Clear()
      requires Valid() || Cyclic()
      modifies this
      ensures Valid() && nodes == [] && copy == old(copy)
      ensures freed == if copy then old(freed) else old(freed) + old(Contents())
    {
      if head != null {
        FreeNodes(Contents());
        total := 0;
        head := null;
      }
      tail := null;
      nodes := [];
    }

    method BeginCyclic()
      requires Valid() && nodes != []
      modifies tail
      ensures Cyclic() && Contents() == old(Contents())
    {
      ghost var items := Contents();
      tail.next := head;
      ItemsAre(nodes, items);
    }

    method EndCyclic()
      requires Cyclic()
      modifies tail
      ensures Valid() && Contents() == old(Contents())
    {
      ghost var items := Contents();
      tail.next := null;
      ItemsAre(nodes, items);
    }
  }
}
