// The linked first-in-first-out queue that int_queue.c and job_queue.c both implement.
module LinkedQueues {

  class Node<T> {
    var value: T
    var next: Node?<T>

    constructor (value: T)
      ensures this.value == value && next == null
    {
      this.value := value;
      next := null;
    }
  }

  class Queue<T> {
    var head: Node?<T>
    var tail: Node?<T>
    var size: nat
    ghost var nodes: seq<Node<T>>  // the nodes from head on
    ghost var contents: seq<T>     // and what they hold

    ghost function NodeAt(i: nat): Node?<T>
      reads this
    {
      if i < |nodes| then nodes[i] else null
    }

    /** The nodes are chained from head on, and the chain ends. */
    ghost predicate Linked()
      reads this, nodes
    {
      && head == (if nodes == [] then null else nodes[0])
      && (forall i, j :: 0 <= i < j < |nodes| ==> nodes[i] != nodes[j])
      && (forall i {:trigger nodes[i].next} :: 0 <= i < |nodes| ==> nodes[i].next == NodeAt(i + 1))
      && |contents| == |nodes|
      && (forall i :: 0 <= i < |nodes| ==> nodes[i].value == contents[i])
    }

    /** Head, tail and size agree with the chain. */
    ghost predicate Valid()
      reads this, nodes
    {
      && Linked()
      && size == |nodes|
      && tail == (if nodes == [] then null else nodes[|nodes| - 1])
    }

    constructor ()
      ensures Valid() && contents == [] && nodes == []
    {
      head, tail, size, nodes, contents := null, null, 0, [], [];
    }

    method Enqueue(value: T)
      requires Valid()
      modifies this, nodes
      ensures Valid() && contents == old(contents) + [value]
      ensures |nodes| == |old(nodes)| + 1 && nodes[..|nodes| - 1] == old(nodes) && fresh(nodes[|nodes| - 1])
    {
      var node := new Node(value);
      if size == 0 {
        head, tail := node, node;
      } else {
        tail.next := node;
        tail := tail.next;
      }
      size := size + 1;
      nodes, contents := nodes + [node], contents + [value];
    }

    /** On an empty queue the result is `empty`: 0 for slots, a job without fields for jobs. */
    method Dequeue(empty: T) returns (value: T)
      requires Valid()
      modifies this
      ensures Valid()
      ensures old(contents) == [] ==> value == empty && contents == [] && nodes == old(nodes)
      ensures old(contents) != [] ==> old(contents) == [value] + contents && nodes == old(nodes)[1..]
    {
      if size == 0 {
        return empty;
      }
      assert nodes[0].next == NodeAt(1);
      value := head.value;
      head := head.next;
      size := size - 1;
      if size == 0 {
        tail := null;
      }
      nodes, contents := nodes[1..], contents[1..];
    }

    /** The chain after the first node's successor was moved behind position m. */
    ghost method Cut(m: nat)
      requires m < |nodes| == |contents| && head == nodes[0]
      requires forall i, j :: 0 <= i < j < |nodes| ==> nodes[i] != nodes[j]
      requires nodes[0].next == NodeAt(m + 1)
      requires forall i {:trigger nodes[i].next} :: 1 <= i < |nodes| ==> nodes[i].next == NodeAt(i + 1)
      requires forall i :: 0 <= i < |nodes| ==> nodes[i].value == contents[i]
      modifies this`nodes, this`contents
      ensures Linked()
      ensures nodes == [old(nodes)[0]] + old(nodes)[m + 1..]
      ensures contents == [old(contents)[0]] + old(contents)[m + 1..]
      ensures |nodes| == |old(nodes)| - m
      ensures nodes[|nodes| - 1] == old(nodes)[if m == |old(nodes)| - 1 then 0 else |old(nodes)| - 1]
    {
      ghost var rest := [nodes[0]] + nodes[m + 1..];
      ghost var held := [contents[0]] + contents[m + 1..];
      forall j {:trigger rest[j].next} | 0 < j < |rest|
        ensures rest[j] == nodes[m + j] && rest[j].value == held[j]
        ensures rest[j].next == if j + 1 < |rest| then rest[j + 1] else null
      {
        assert nodes[m + j].next == NodeAt(m + j + 1);
      }
      assert rest[0].next == if 1 < |rest| then rest[1] else null;
      assert forall i, j :: 0 <= i < j < |rest| ==> rest[i] != rest[j];
      nodes, contents := rest, held;
    }
  }
}
