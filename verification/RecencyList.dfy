/**
 * The doubly linked list of strings that the cache shard and the rate limiter keep in recency
 * order. As in the standard library's implementation, the nodes form a ring through a sentinel:
 * the sentinel's successor is the front of the list and its predecessor the back. A client keeps
 * a reference to its node (the iterator), so erasing and splicing never search.
 */
module RecencyLists {
  import opened Sequences

  class Node {
    const key: string
    var prev: Node
    var next: Node

    constructor (key: string)
      ensures this.key == key && prev == this && next == this
    {
      this.key := key;
      prev, next := this, this;
    }
  }

  class RecencyList {
    const sentinel: Node
    ghost var ring: seq<Node>  // the sentinel, then the list's nodes from front to back

    ghost predicate Valid()
      reads this, ring
    {
      && |ring| > 0
      && ring[0] == sentinel
      && Distinct(ring)
      && (forall i {:trigger ring[i].next} :: 0 <= i < |ring| - 1 ==> ring[i].next == ring[i + 1])
      && ring[|ring| - 1].next == sentinel
      && (forall i {:trigger ring[i].prev} :: 1 <= i < |ring| ==> ring[i].prev == ring[i - 1])
      && sentinel.prev == ring[|ring| - 1]
    }

    /** The nodes that carry an element, front to back. */
    ghost function Nodes(): seq<Node>
      requires |ring| > 0
      reads this
    {
      ring[1..]
    }

    constructor ()
      ensures Valid() && fresh(ring) && Nodes() == []
    {
      var s := new Node("");
      sentinel := s;
      ring := [s];
    }

    method IsEmpty() returns (empty: bool)
      requires Valid()
      ensures empty <==> Nodes() == []
    {
      empty := sentinel.next == sentinel;
      assert |ring| > 1 ==> ring[0].next == ring[1] != ring[0];
    }

    method Back() returns (n: Node)
      requires Valid() && Nodes() != []
      ensures n == Nodes()[|Nodes()| - 1]
    {
      n := sentinel.prev;
    }

    method PushFront(key: string) returns (n: Node)
      requires Valid()
      modifies this`ring, ring
      ensures Valid() && fresh(n) && n.key == key
      ensures Nodes() == [n] + old(Nodes())
      ensures forall m :: m in ring ==> m == n || m in old(ring)
    {
      n := new Node(key);
      LinkFront(n);
    }

    /** Links the detached node `n` in directly behind the sentinel. */
    method LinkFront(n: Node)
      requires Valid() && n !in ring
      modifies this`ring, ring, n
      ensures Valid()
      ensures ring == [old(ring)[0], n] + old(ring)[1..]
    {
      n.prev := sentinel;
      n.next := sentinel.next;
      sentinel.next.prev := n;
      sentinel.next := n;
      ghost var was := ring;
      ring := [was[0], n] + was[1..];
      assert forall i {:trigger ring[i]} :: 2 <= i < |ring| ==> ring[i] == was[i - 1];
    }

    /** Unlinks `n`, found through the caller's reference; `k` is where it stood in the ring. */
    method Unlink(n: Node, ghost k: nat)
      requires Valid() && 1 <= k < |ring| && ring[k] == n
      modifies this`ring, ring
      ensures Valid()
      ensures ring == RemoveAt(old(ring), k)
    {
      n.prev.next := n.next;
      n.next.prev := n.prev;
      ghost var was := ring;
      ring := RemoveAt(was, k);
      assert forall i {:trigger ring[i]} :: 0 <= i < |ring| ==> ring[i] == if i < k then was[i] else was[i + 1];
    }

    method Erase(n: Node, ghost k: nat)
      requires Valid() && k < |Nodes()| && Nodes()[k] == n
      modifies this`ring, ring
      ensures Valid() && forall m :: m in ring ==> m in old(ring)
      ensures Nodes() == RemoveAt(old(Nodes()), k)
    {
      ghost var was := ring;
      Unlink(n, k + 1);
      assert ring[1..] == RemoveAt(was[1..], k);
    }

    /** `splice(begin(), list, n)`. */
    method MoveToFront(n: Node, ghost k: nat)
      requires Valid() && k < |Nodes()| && Nodes()[k] == n
      modifies this`ring, ring
      ensures Valid() && forall m :: m in ring ==> m in old(ring)
      ensures Nodes() == ToFront(old(Nodes()), k)
    {
      ghost var was := ring;
      Unlink(n, k + 1);
      assert ring[1..] == RemoveAt(was[1..], k);
      LinkFront(n);
      assert ring[1..] == [n] + RemoveAt(was[1..], k);
    }
  }
}
