/** The linked FIFO: front, rear and size over nodes on the heap. Items are pointers, so an item
    may be NULL (None); NULL items are the sentinels of the shutdown protocols. */
module Queue {
  import opened Basics

  class QueueNode<X> {
    var data: Option<X>
    var next: QueueNode?<X>
    ghost var ticket: nat  // number of items enqueued before this one

    constructor (data: Option<X>, ghost ticket: nat)
      ensures this.data == data && this.next == null && this.ticket == ticket
    {
      this.data, this.next, this.ticket := data, null, ticket;
    }
  }

  class Queue<X> {
    var front: QueueNode?<X>
    var rear: QueueNode?<X>
    var size: nat

    ghost var spine: seq<QueueNode<X>>
    ghost var items: seq<Option<X>>
    ghost var served: nat  // number of items dequeued so far

    /** front, rear and size describe one NULL-terminated list of distinct nodes. */
    ghost predicate Valid()
      reads this, spine
    {
      && size == |spine| == |items|
      && front == (if spine == [] then null else spine[0])
      && rear == (if spine == [] then null else spine[|spine| - 1])
      && forall j :: 0 <= j < |spine| ==> InPlace(j)
    }

    ghost predicate InPlace(j: nat)
      requires j < |spine| == |items|
      reads this, spine
    {
      && spine[j].next == (if j + 1 < |spine| then spine[j + 1] else null)
      && spine[j].data == items[j]
      && spine[j].ticket == served + j
    }

    constructor ()
      ensures Valid() && items == []
    {
      front, rear, size := null, null, 0;
      spine, items, served := [], [], 0;
    }

    method Enqueue(data: Option<X>)
      requires Valid()
      modifies this, spine
      ensures Valid() && items == old(items) + [data]
      ensures forall n :: n in spine && n !in old(spine) ==> fresh(n)
    {
      assert spine != [] ==> InPlace(|spine| - 1);
      var node := new QueueNode(data, served + size);
      if rear != null {
        rear.next := node;
      } else {
        front := node;
      }
      rear := node;
      size := size + 1;
      spine, items := spine + [node], items + [data];
      forall j | 0 <= j < |spine| - 1 ensures InPlace(j) {
        assert old(InPlace(j));
      }
    }

    /** NULL on the empty queue, and also when the first item is NULL. */
    method Dequeue() returns (data: Option<X>)
      requires Valid()
      modifies this
      ensures Valid()
      ensures old(items) == [] ==> data == None && items == []
      ensures old(items) != [] ==> old(items) == [data] + items
      ensures forall n :: n in spine ==> n in old(spine)
    {
      if front == null {
        return None;
      }
      assert InPlace(0);
      data := front.data;
      front := front.next;
      if front == null {
        rear := null;
      }
      size := size - 1;
      spine, items, served := spine[1..], items[1..], served + 1;
      forall j | 0 <= j < |spine| ensures InPlace(j) {
        assert old(InPlace(j + 1));
      }
    }

    method Peek() returns (data: Option<X>)
      requires Valid()
      ensures data == if items == [] then None else items[0]
    {
      assert spine != [] ==> InPlace(0);
      data := if front == null then None else front.data;
    }

    /** queue_destroy: the destructor gets every remaining non-NULL item once, in order. */
    method Destroy() returns (freed: seq<X>)
      requires Valid()
      ensures freed == Present(items)
    {
      freed := [];
      var cur := front;
      ghost var j := 0;
      assert items[0..] == items;
      while cur != null
        invariant j <= |spine| && cur == if j < |spine| then spine[j] else null
        invariant freed + Present(items[j..]) == Present(items)
        decreases |spine| - j
      {
        assert InPlace(j) && items[j..][1..] == items[j + 1..];
        if cur.data.Some? {
          freed := freed + [cur.data.value];
        }
        cur := cur.next;
        j := j + 1;
      }
      assert items[j..] == [];
    }
  }

  /** The non-NULL items. */
  function Present<X>(items: seq<Option<X>>): seq<X> {
    if items == [] then [] else (if items[0].Some? then [items[0].value] else []) + Present(items[1..])
  }

  lemma {:induction false} PresentAppend<X>(a: seq<Option<X>>, b: seq<Option<X>>)
    ensures Present(a + b) == Present(a) + Present(b)
  {
    if a == [] {
      assert a + b == b;
    } else {
      PresentAppend(a[1..], b);
      assert (a + b)[1..] == a[1..] + b && (a + b)[0] == a[0];
      Associative(if a[0].Some? then [a[0].value] else [], Present(a[1..]), Present(b));
    }
  }
}
