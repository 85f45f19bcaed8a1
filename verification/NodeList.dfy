/**
 The doubly linked list that holds every table: its pointer surgery, against the sequence of
 its nodes.
 */
module NodeList {

  class Node<T> {
    var prev: Node?<T>
    var next: Node?<T>
    const data: T

    /** node_create, with its data set by the caller. */
    constructor (data: T)
      ensures prev == null && next == null && this.data == data
    {
      this.data := data;
      prev, next := null, null;
    }
  }

  ghost function At<T>(nodes: seq<Node<T>>, i: int): Node?<T> {
    if 0 <= i < |nodes| then nodes[i] else null
  }

  /** The nodes are distinct and each points to its neighbours in the sequence. */
  ghost predicate Linked<T>(nodes: seq<Node<T>>)
    reads set n | n in nodes
  {
    && (forall i, j :: 0 <= i < j < |nodes| ==> nodes[i] != nodes[j])
    && (forall i :: 0 <= i < |nodes| ==> nodes[i].next == At(nodes, i + 1) && nodes[i].prev == At(nodes, i - 1))
  }

  /** node_push_back; the list is not empty. */
  method PushBack<T>(head: Node<T>, n: Node<T>, ghost nodes: seq<Node<T>>)
    requires Linked(nodes) && nodes != [] && head == nodes[0]
    requires n !in nodes && n.next == null && n.prev == null
    modifies (set k | k == |nodes| - 1 :: nodes[k])`next, n`prev
    ensures Linked(nodes + [n])
  {
    hide At;
    var cur := head;
    ghost var k := 0;
    AtIn(nodes, 1);
    while cur.next != null
      invariant k < |nodes| && cur == nodes[k] && Linked(nodes)
      invariant cur.next == null <==> k == |nodes| - 1
      decreases |nodes| - k
    {
      AtIn(nodes, k + 1);
      cur := cur.next;
      k := k + 1;
      AtIn(nodes, k + 1);
      assert nodes[k].next == At(nodes, k + 1);
    }
    cur.next := n;
    n.prev := cur;
    Extended(nodes, n);
  }

  lemma AtIn<T>(nodes: seq<Node<T>>, k: int)
    ensures At(nodes, k) == if 0 <= k < |nodes| then nodes[k] else null
  {
  }

  lemma Extended<T>(nodes: seq<Node<T>>, n: Node<T>)
    requires nodes != [] && n !in nodes && n.next == null && n.prev == nodes[|nodes| - 1]
    requires forall i, j :: 0 <= i < j < |nodes| ==> nodes[i] != nodes[j]
    requires forall i :: 0 <= i < |nodes| ==> nodes[i].prev == At(nodes, i - 1)
    requires forall i :: 0 <= i < |nodes| ==> nodes[i].next == if i == |nodes| - 1 then n else At(nodes, i + 1)
    ensures Linked(nodes + [n])
  {
    hide At;
    var all := nodes + [n];
    forall i | 0 <= i < |all| ensures all[i].next == At(all, i + 1) && all[i].prev == At(all, i - 1) {
      AtIn(all, i + 1);
      AtIn(all, i - 1);
      AtIn(nodes, i + 1);
      AtIn(nodes, i - 1);
    }
  }

  ghost function Without<T>(nodes: seq<Node<T>>, i: nat): seq<Node<T>>
    requires i < |nodes|
  {
    nodes[..i] + nodes[i + 1..]
  }

  /** The neighbours of node `i` point past it; the other pointers are those of a list. */
  ghost predicate Bypassed<T>(nodes: seq<Node<T>>, i: nat)
    reads set n | n in nodes
  {
    && (forall j, k :: 0 <= j < k < |nodes| ==> nodes[j] != nodes[k])
    && (forall k :: 0 <= k < |nodes| && k != i ==>
          && nodes[k].next == At(nodes, if k + 1 == i then k + 2 else k + 1)
          && nodes[k].prev == At(nodes, if k - 1 == i then k - 2 else k - 1))
  }

  lemma BypassedIsLinked<T>(nodes: seq<Node<T>>, i: nat)
    requires i < |nodes| && Bypassed(nodes, i)
    ensures Linked(Without(nodes, i))
  {
    hide Without, At;
    var rest := Without(nodes, i);
    forall j, k | 0 <= j < k < |rest| ensures rest[j] != rest[k] {
      AtWithout(nodes, i, j);
      AtWithout(nodes, i, k);
    }
    forall k | 0 <= k < |rest|
      ensures rest[k].next == At(rest, k + 1) && rest[k].prev == At(rest, k - 1)
    {
      AtWithout(nodes, i, k);
      AtWithout(nodes, i, k + 1);
      AtWithout(nodes, i, k - 1);
    }
  }

  lemma AtWithout<T>(nodes: seq<Node<T>>, i: nat, k: int)
    requires i < |nodes| && -1 <= k
    ensures var rest, j := Without(nodes, i), if k < i then k else k + 1;
            && |rest| == |nodes| - 1 && At(rest, k) == At(nodes, j)
            && (0 <= k < |rest| ==> rest[k] == nodes[j])
  {
  }

  /** node_remove; the new head is null exactly when the list has become empty. */
  method Remove<T>(head: Node<T>, n: Node<T>, ghost nodes: seq<Node<T>>, ghost i: nat) returns (head': Node?<T>)
    requires Linked(nodes) && i < |nodes| && n == nodes[i] && head == nodes[0]
    modifies set k | 0 <= k < |nodes| :: nodes[k]
    ensures Linked(Without(nodes, i))
    ensures head' == At(Without(nodes, i), 0)
  {
    hide Without, At;
    AtIn(nodes, i + 1);
    AtIn(nodes, i - 1);
    AtIn(nodes, 1);
    head' := head;
    if n.next == null && n.prev == null {
      head' := null;
    } else if n.prev == null {
      head' := n.next;
      head'.prev := null;
    } else if n.next == null {
      n.prev.next := null;
    } else {
      n.prev.next := n.next;
      n.next.prev := n.prev;
    }
    assert Bypassed(nodes, i);
    BypassedIsLinked(nodes, i);
    FirstWithout(nodes, i);
  }

  lemma FirstWithout<T>(nodes: seq<Node<T>>, i: nat)
    requires i < |nodes|
    ensures At(Without(nodes, i), 0) == if i == 0 then At(nodes, 1) else nodes[0]
  {
  }

  /** node_length. */
  method Length<T>(head: Node?<T>, ghost nodes: seq<Node<T>>) returns (len: nat)
    requires Linked(nodes) && head == At(nodes, 0)
    ensures len == |nodes|
  {
    len := 0;
    var walker := head;
    while walker != null
      invariant len <= |nodes| && walker == At(nodes, len)
      decreases |nodes| - len
    {
      len := len + 1;
      walker := walker.next;
    }
  }
}
