/** The linked queue that mutexes, conditions and FIFOs share (queueADT.c). */
module Queue {
  import opened Sync

  class Node<T> {
    var elem: T
    var next: Node?<T>

    constructor (elem: T)
      ensures this.elem == elem && next == null
    {
      this.elem := elem;
      next := null;
    }
  }

  class LinkedQueue<T> {
    var first: Node?<T>
    var last: Node?<T>
    /** The nodes from `first` on. */
    ghost var spine: seq<Node<T>>

    ghost function Repr(): set<object>
      reads this
    {
      {this} + set k | 0 <= k < |spine| :: spine[k]
    }

    ghost predicate Valid()
      reads this, Repr()
    {
      && (spine == [] ==> first == null && last == null)
      && (spine != [] ==> first == spine[0] && last == spine[|spine| - 1] && spine[|spine| - 1].next == null)
      && (forall k :: 0 <= k < |spine| - 1 ==> spine[k].next == spine[k + 1])
      && (forall j, k :: 0 <= j < k < |spine| ==> spine[j] != spine[k])
    }

    ghost function Contents(): seq<T>
      reads this, Repr()
    {
      seq(|spine|, k requires 0 <= k < |spine| reads this, Repr() => spine[k].elem)
    }

    constructor ()
      ensures Valid() && Contents() == [] && fresh(Repr())
    {
      first, last, spine := null, null, [];
    }

    method IsEmpty() returns (empty: bool)
      requires Valid()
      ensures empty <==> Contents() == []
    {
      empty := first == null;
    }

    method Peek() returns (elem: Option<T>)
      requires Valid()
      ensures elem == if Contents() == [] then None else Some(Contents()[0])
    {
      if first == null { return None; }
      elem := Some(first.elem);
    }

    method Enqueue(elem: T)
      requires Valid()
      modifies Repr()
      ensures Valid() && fresh(Repr() - old(Repr()))
      ensures Contents() == old(Contents()) + [elem]
    {
      var node := new Node(elem);
      if first == null {
        first := node;
        last := node;
      } else {
        last.next := node;
        last := node;
      }
      spine := spine + [node];
    }

    method Dequeue() returns (elem: Option<T>)
      requires Valid()
      modifies Repr()
      ensures Valid() && Repr() <= old(Repr())
      ensures if old(Contents()) == [] then elem == None && Contents() == []
              else elem == Some(old(Contents())[0]) && Contents() == old(Contents())[1..]
    {
      if first == null { return None; }
      elem := Some(first.elem);
      first := first.next;
      if first == null {
        last := null;
      }
      spine := spine[1..];
    }
  }
}
