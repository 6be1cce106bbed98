/** The linked list of pending requests kept by the LA8 master. */
module RequestQueue {
  import opened Banker
  import opened Sequences

  class ReqNode {
    const request: Request
    var next: ReqNode?

    constructor (request: Request)
      ensures this.request == request && next == null
    {
      this.request := request;
      next := null;
    }
  }

  function Requests(nodes: seq<ReqNode>): (requests: seq<Request>)
    ensures |requests| == |nodes|
    ensures forall i | 0 <= i < |nodes| :: requests[i] == nodes[i].request
  {
    seq(|nodes|, i requires 0 <= i < |nodes| => nodes[i].request)
  }

  /** Index of the first request of the thread, or the length if there is none. */
  function FirstIndex(requests: seq<Request>, thread: nat): (k: nat)
    ensures k <= |requests|
    ensures k < |requests| ==> requests[k].thread == thread
    ensures forall i | 0 <= i < k :: requests[i].thread != thread
  {
    if requests == [] then 0
    else if requests[0].thread == thread then 0
    else
      var k := FirstIndex(requests[1..], thread);
      assert forall i | 0 < i < k + 1 :: requests[i] == requests[1..][i - 1];
      k + 1
  }

  /** The sequence without the element at k; a k past the end removes nothing. */
  function Drop<T>(s: seq<T>, k: nat): seq<T>
    requires k <= |s|
  {
    if k < |s| then Without(s, k) else s
  }

  lemma OnlyRequestIsFirst(requests: seq<Request>, i: nat)
    requires i < |requests|
    requires forall k, l | 0 <= k < l < |requests| :: requests[k].thread != requests[l].thread
    ensures FirstIndex(requests, requests[i].thread) == i
  {
  }

  lemma RequestsWithout(nodes: seq<ReqNode>, k: nat)
    requires k < |nodes|
    ensures Requests(Without(nodes, k)) == Without(Requests(nodes), k)
  {
  }

  class Queue {
    var front: ReqNode?
    var rear: ReqNode?
    var size: nat
    ghost var nodes: seq<ReqNode>     // the chain from front to rear
    ghost var repr: set<ReqNode>      // every node the queue has ever owned

    ghost predicate Valid()
      reads this, repr
    {
      && size == |nodes|
      && (forall i | 0 <= i < |nodes| :: nodes[i] in repr)
      && (forall i, k | 0 <= i < k < |nodes| :: nodes[i] != nodes[k])
      && (forall i {:trigger nodes[i].next} | 0 <= i < |nodes| - 1 :: nodes[i].next == nodes[i + 1])
      && (if nodes == [] then front == null && rear == null
          else front == nodes[0] && rear == nodes[|nodes| - 1] && rear.next == null)
    }

    ghost function Contents(): (requests: seq<Request>)
      reads this
      ensures |requests| == |nodes|
    {
      Requests(nodes)
    }

    constructor ()
      ensures Valid() && nodes == [] && Contents() == [] && repr == {}
    {
      front, rear, size, nodes, repr := null, null, 0, [], {};
    }

    method Enqueue(request: Request)
      requires Valid()
      modifies this, repr
      ensures Valid() && Contents() == old(Contents()) + [request]
      ensures fresh(repr - old(repr))
    {
      var temp := new ReqNode(request);
      if rear == null {
        front, rear := temp, temp;
      } else {
        rear.next := temp;
        rear := temp;
      }
      nodes, repr := nodes + [temp], repr + {temp};
      size := size + 1;
    }

    /** Takes the node at k > 0 out of the chain, given its predecessor. */
    method Unlink(curr: ReqNode, prev: ReqNode, ghost k: nat)
      requires Valid() && 0 < k < |nodes| && curr == nodes[k] && prev == nodes[k - 1]
      modifies this, repr
      ensures Valid() && nodes == Drop(old(nodes), k) && repr == old(repr)
    {
      prev.next := curr.next;
      if curr.next == null {
        rear := prev;
      }
      nodes := Drop(nodes, k);
      size := size - 1;
    }

    method UnlinkFront()
      requires Valid() && nodes != []
      modifies this
      ensures Valid() && nodes == Drop(old(nodes), 0) && repr == old(repr)
    {
      front := front.next;
      if front == null {
        rear := null;
      }
      nodes := Drop(nodes, 0);
      size := size - 1;
    }

    /** Unlinks the first request of the thread; a queue without one is left alone. */
    method RemoveRequest(thread: nat)
      requires Valid()
      modifies this, repr
      ensures Valid() && repr == old(repr)
      ensures nodes == Drop(old(nodes), FirstIndex(old(Contents()), thread))
    {
      if front == null {
        return;
      }
      if front.request.thread == thread {
        UnlinkFront();
        return;
      }
      var curr, prev := front, null;
      ghost var k := 0;
      while curr != null && curr.request.thread != thread
        invariant 0 <= k <= |nodes| && curr == if k < |nodes| then nodes[k] else null
        invariant k > 0 ==> prev == nodes[k - 1]
        invariant forall i | 0 <= i < k :: nodes[i].request.thread != thread
        decreases |nodes| - k
      {
        prev := curr;
        curr := curr.next;
        k := k + 1;
      }
      assert k == FirstIndex(Contents(), thread);
      if curr != null {
        Unlink(curr, prev, k);
      }
    }
  }
}
