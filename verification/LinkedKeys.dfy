/**
 * How a recency list and a hash map point into each other: the map holds, for each key, a
 * reference to the key's own node, and the list holds exactly the nodes so referred to.
 */
module LinkedKeys {
  import opened Sequences
  import opened RecencyLists

  ghost predicate Linked(nodes: seq<Node>, refs: map<string, Node>) {
    && Distinct(nodes)
    && (forall i :: 0 <= i < |nodes| ==> nodes[i].key in refs && refs[nodes[i].key] == nodes[i])
    && (forall k :: k in refs ==> refs[k].key == k && refs[k] in nodes)
  }

  lemma KeysAreDistinct(nodes: seq<Node>, refs: map<string, Node>)
    requires Linked(nodes, refs)
    ensures forall i, j :: 0 <= i < j < |nodes| ==> nodes[i].key != nodes[j].key
  {}

  lemma EraseLinked(nodes: seq<Node>, refs: map<string, Node>, i: nat)
    requires Linked(nodes, refs) && i < |nodes|
    ensures Linked(RemoveAt(nodes, i), refs - {nodes[i].key})
  {
    hide RemoveAt;
    RemoveAtProperties(nodes, i);
  }

  lemma ToFrontLinked(nodes: seq<Node>, refs: map<string, Node>, i: nat)
    requires Linked(nodes, refs) && i < |nodes|
    ensures Linked(ToFront(nodes, i), refs)
  {
    hide RemoveAt, ToFront;
    ToFrontProperties(nodes, i);
  }

  lemma PushLinked(nodes: seq<Node>, refs: map<string, Node>, n: Node)
    requires Linked(nodes, refs) && n.key !in refs
    ensures Linked([n] + nodes, refs[n.key := n])
  {}

  /** The map has one entry for each node. */
  lemma {:induction false} LinkedSize(nodes: seq<Node>, refs: map<string, Node>)
    requires Linked(nodes, refs)
    ensures |refs| == |nodes|
  {
    if nodes == [] {
      assert refs == map[];
    } else {
      EraseLinked(nodes, refs, 0);
      LinkedSize(RemoveAt(nodes, 0), refs - {nodes[0].key});
      assert refs.Keys == (refs - {nodes[0].key}).Keys + {nodes[0].key};
      assert |refs| == |refs.Keys|;
    }
  }
}
