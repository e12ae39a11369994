/** The linked queue of websocket/queue.js. */
module LinkedQueue {
  import opened Options

  class Item<T> {
    var data: T
    var next: Item?<T>

    constructor (data: T, next: Item?<T>)
      ensures this.data == data && this.next == next
    {
      this.data, this.next := data, next;
    }
  }

  class Queue<T> {
    var head: Item?<T>
    var tail: Item?<T>
    var length: int
    /** The items reachable from head, in order. */
    ghost var nodes: seq<Item<T>>

    ghost predicate Valid()
      reads this, nodes
    {
      && (nodes == [] ==> head == null && tail == null)
      && (nodes != [] ==> head == nodes[0] && tail == nodes[|nodes| - 1] && nodes[|nodes| - 1].next == null)
      && (forall i :: 0 <= i < |nodes| - 1 ==> nodes[i].next == nodes[i + 1])
      && (forall i, j :: 0 <= i < j < |nodes| ==> nodes[i] != nodes[j])
    }

    ghost function Contents(): (s: seq<T>)
      reads this, nodes
      ensures |s| == |nodes|
    {
      seq(|nodes|, i requires 0 <= i < |nodes| reads this, nodes => nodes[i].data)
    }

    /** The length field tells the truth. */
    ghost predicate Counted()
      reads this
    {
      length == |nodes|
    }

    constructor ()
      ensures Valid() && Counted() && Contents() == [] && nodes == []
    {
      head, tail, length := null, null, 0;
      nodes := [];
    }

    method Push(data: T)
      requires Valid()
      modifies this, nodes
      ensures Valid() && Contents() == old(Contents()) + [data]
      ensures length == old(length) + 1 && |nodes| == |old(nodes)| + 1
      ensures nodes[..|old(nodes)|] == old(nodes) && fresh(nodes[|old(nodes)|])
    {
      var prev := tail;
      var item := new Item(data, null);
      tail := item;
      if prev != null {
        prev.next := item;
      } else {
        head := item;
      }
      length := length + 1;
      nodes := nodes + [item];
      assert Contents() == old(Contents()) + [data];
    }

    /** On an empty queue there is nothing to return, and yet the length goes down: the count stays true
        exactly when something was removed. */
    method Pop() returns (data: Option<T>)
      requires Valid()
      modifies this
      ensures Valid()
      ensures old(nodes) == [] ==> data == None && nodes == []
      ensures old(nodes) != [] ==> data == Some(old(Contents())[0]) && nodes == old(nodes)[1..]
                                   && Contents() == old(Contents())[1..]
      ensures length == old(length) - 1
      ensures old(Counted()) ==> (Counted() <==> old(nodes) != [])
    {
      if head == null {
        data := None;
      } else {
        data := Some(head.data);
        head := head.next;
        nodes := nodes[1..];
      }
      if head == null {
        tail := null;
      }
      length := length - 1;
      assert old(nodes) != [] ==> Contents() == old(Contents())[1..];
    }

    method Unshift(data: T)
      requires Valid()
      modifies this
      ensures Valid() && Contents() == [data] + old(Contents())
      ensures length == old(length) + 1
      ensures |nodes| == |old(nodes)| + 1 && nodes[1..] == old(nodes) && fresh(nodes[0])
    {
      var item := new Item(data, head);
      head := item;
      if tail == null {
        tail := head;
      }
      length := length + 1;
      nodes := [item] + nodes;
      assert Contents() == [data] + old(Contents());
    }

    /** `toArray`, which walks the links the way `forEach` does. */
    method ToArray() returns (elements: seq<T>)
      requires Valid()
      ensures elements == Contents()
    {
      elements := [];
      var item := head;
      while item != null
        invariant |elements| <= |nodes|
        invariant item == if |elements| < |nodes| then nodes[|elements|] else null
        invariant elements == Contents()[..|elements|]
        decreases |nodes| - |elements|
      {
        elements := elements + [item.data];
        item := item.next;
      }
    }

    static method FromArray(elements: seq<T>) returns (q: Queue<T>)
      ensures fresh(q) && q.Valid() && q.Counted() && q.Contents() == elements
    {
      q := new Queue();
      for i := 0 to |elements|
        invariant fresh(q) && fresh(q.nodes) && q.Valid() && q.Counted() && q.Contents() == elements[..i]
      {
        q.Push(elements[i]);
      }
    }
  }
}
