/** A FIFO queue on a chain of singly-linked nodes. Elements are enqueued at `top` (the
    newest node) and dequeued at `bottom` (the oldest); iteration walks from `bottom`
    along `next`. The library ships two copies of this class that differ only in the
    error an empty queue raises: NoSuchElement in one and EmptyCollection in the other.
    `QueueVariant` selects which. */
module Queues {
  import opened Errors
  import AbstractCollection

  datatype QueueVariant = NoSuchElementVariant | EmptyCollectionVariant

  /** The error `dequeue` and `peek` raise on an empty queue: one of the two
      collection-level kinds, NoSuchElement exactly in the NoSuchElement variant. */
  function EmptyAccessError(v: QueueVariant): (e: Error)
    ensures e == NoSuchElement || e == EmptyCollection
    ensures e == NoSuchElement <==> v == NoSuchElementVariant
  {
    match v
    case NoSuchElementVariant => NoSuchElement
    case EmptyCollectionVariant => EmptyCollection
  }

  class SLLNode<E> {
    const data: E
    var next: SLLNode?<E>

    constructor (data: E)
      ensures this.data == data && next == null
    {
      this.data := data;
      next := null;
    }
  }

  class SLLQueue<E> {
    // public view
    ghost var Contents: seq<E>            // oldest first
    ghost var Nodes: seq<SLLNode<E>>      // the chain from bottom, oldest first
    ghost var Repr: set<object>

    // implementation
    var top: SLLNode?<E>
    var bottom: SLLNode?<E>
    var count: nat
    const variant: QueueVariant

    /** The chain invariant. `count == 0` exactly when `bottom` is null; otherwise
        `bottom` reaches `top` in `count - 1` links and `top` ends the chain. Nothing is
        said about `top` in an empty queue: dequeuing the last element leaves it pointing
        at the removed node. */
    ghost predicate Valid()
      reads this, Repr
    {
      && this in Repr
      && (forall i :: 0 <= i < |Nodes| ==> Nodes[i] in Repr)
      && count == |Nodes| == |Contents|
      && (count == 0 <==> bottom == null)
      && (count > 0 ==> bottom == Nodes[0] && top == Nodes[count - 1] && Nodes[count - 1].next == null)
      && (forall i :: 0 <= i < count - 1 ==> Nodes[i].next == Nodes[i + 1])
      && (forall i :: 0 <= i < count ==> Nodes[i].data == Contents[i])
      && (forall i, j :: 0 <= i < j < count ==> Nodes[i] != Nodes[j])
    }

    /** The node k links after n, or null once the chain has ended. */
    ghost function Follow(n: SLLNode?<E>, k: nat): SLLNode?<E>
      reads *
    {
      if k == 0 || n == null then n else Follow(n.next, k - 1)
    }

    /** Following k links from the i-th node of the chain. */
    lemma {:induction false} FollowChain(i: nat, k: nat)
      requires Valid() && i + k <= count
      ensures Follow(if i < count then Nodes[i] else null, k) == if i + k < count then Nodes[i + k] else null
      decreases k
    {
      if k > 0 {
        assert Nodes[i].next == if i + 1 < count then Nodes[i + 1] else null;
        FollowChain(i + 1, k - 1);
      }
    }

    /** Reachability: a non-empty queue's `bottom` reaches `top` in `count - 1` links, and
        one more link reaches null. */
    lemma BottomReachesTop()
      requires Valid()
      ensures count > 0 ==> Follow(bottom, count - 1) == top && Follow(bottom, count) == null
    {
      if count > 0 {
        FollowChain(0, count - 1);
        FollowChain(0, count);
      }
    }

    /** `new SLLQueue()`: an empty queue raising the variant's error on empty access. */
    constructor (variant: QueueVariant)
      ensures Valid() && fresh(Repr)
      ensures Contents == [] && this.variant == variant
    {
      top, bottom, count := null, null, 0;
      this.variant := variant;
      Contents, Nodes := [], [];
      Repr := {this};
    }

    /** `count`: the number of elements. */
    function Count(): (n: nat)
      reads this, Repr
      requires Valid()
      ensures n == |Contents|
    {
      count
    }

    /** `isEmpty`, as the shared collection behaviour defines it from `count`. */
    predicate IsEmpty()
      reads this, Repr
      requires Valid()
      ensures IsEmpty() <==> Contents == []
    {
      AbstractCollection.IsEmpty(count)
    }

    /** The iterator: walks from `bottom` along `next` until null, yielding each node's
        element, oldest to newest. */
    method Iterate() returns (elements: seq<E>)
      requires Valid()
      ensures elements == Contents
    {
      elements := [];
      var cur := bottom;
      ghost var i := 0;
      while cur != null
        invariant 0 <= i <= count
        invariant i < count ==> cur == Nodes[i]
        invariant i == count ==> cur == null
        invariant elements == Contents[..i]
        decreases count - i
      {
        var curElement := cur;
        cur := cur.next;
        elements := elements + [curElement.data];
        i := i + 1;
      }
    }

    /** `toArray()`: a new array holding the elements in iteration (FIFO) order. */
    method ToArray() returns (arr: array<E>)
      requires Valid()
      ensures fresh(arr) && arr[..] == Contents
    {
      var elements := Iterate();
      arr := AbstractCollection.ToArray(count, elements);
    }

    /** `clear()`. */
    method Clear()
      requires Valid()
      modifies this
      ensures Valid() && fresh(Repr - old(Repr))
      ensures Contents == []
    {
      top, bottom, count := null, null, 0;
      Contents, Nodes := [], [];
    }

    /** `enqueue(element)`: never fails; the element becomes the newest. The source's
        `#assertNode(#top)` check cannot fire, because a non-empty queue has a top node. */
    method Enqueue(element: E) returns (r: Outcome)
      requires Valid()
      modifies Repr
      ensures Valid() && fresh(Repr - old(Repr))
      ensures r == Pass
      ensures Contents == old(Contents) + [element]
    {
      var newNode := new SLLNode(element);
      if IsEmpty() {
        top := newNode;
        bottom := newNode;
      } else {
        if top == null {
          // #assertNode(#top): the ImplementationError branch
          assert false;
          return Fail(Implementation);
        }
        top.next := newNode;
        top := top.next;
      }
      count := count + 1;
      Contents := Contents + [element];
      Nodes := Nodes + [newNode];
      Repr := Repr + {newNode};
      r := Pass;
    }

    /** `#validateQueueIsNotEmpty`: an empty queue fails with the variant's error. */
    method ValidateQueueIsNotEmpty() returns (r: Outcome)
      requires Valid()
      ensures r.Fail? <==> Contents == []
      ensures r.Fail? ==> r.error == EmptyAccessError(variant)
    {
      if IsEmpty() {
        match variant
        case EmptyCollectionVariant =>
          var thrown := AbstractCollection.ThrowEmptyCollectionError<E>();
          r := Fail(thrown.error);
        case NoSuchElementVariant =>
          // `throwNoSuchElementError`, which the shared base class does not define
          r := Fail(NoSuchElement);
      } else {
        r := Pass;
      }
    }

    /** `dequeue()`: removes and returns the oldest element. `#assertNode(#bottom)` cannot
        fire, because a non-empty queue has a bottom node. */
    method Dequeue() returns (r: Result<E>)
      requires Valid()
      modifies Repr
      ensures Valid() && fresh(Repr - old(Repr))
      ensures old(Contents) == [] ==> r == Failure(EmptyAccessError(variant)) && Contents == old(Contents)
      ensures old(Contents) != [] ==> r == Success(old(Contents)[0]) && Contents == old(Contents)[1..]
    {
      var check := ValidateQueueIsNotEmpty();
      if check.Fail? {
        return Failure(check.error);
      }
      if bottom == null {
        // #assertNode(#bottom): the ImplementationError branch
        assert false;
        return AbstractCollection.ThrowImplementationError();
      }
      assert bottom.next == if count == 1 then null else Nodes[1];
      var bottomElement := bottom.data;
      bottom := bottom.next;
      count := count - 1;
      Contents := Contents[1..];
      Nodes := Nodes[1..];
      r := Success(bottomElement);
    }

    /** `peek()`: the oldest element, without removing it. */
    method Peek() returns (r: Result<E>)
      requires Valid()
      ensures Contents == [] ==> r == Failure(EmptyAccessError(variant))
      ensures Contents != [] ==> r == Success(Contents[0])
    {
      var check := ValidateQueueIsNotEmpty();
      if check.Fail? {
        return Failure(check.error);
      }
      if bottom == null {
        // #assertNode(#bottom): the ImplementationError branch
        assert false;
        return AbstractCollection.ThrowImplementationError();
      }
      r := Success(bottom.data);
    }
  }
}
