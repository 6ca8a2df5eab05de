/** The pool's queue of accepted sockets: a singly linked list with a tail pointer. */
module ThreadPool {

  /** An accepted connection.  Descriptor numbers are reused by the system; a `Sock` is not. */
  type Sock = nat

  /** What one pass of `thread_pool_pop` decides while it holds the mutex. */
  datatype PopResult = Wait | Stop | Got(sock: Sock)

  /** The state that the mutex guards. */
  datatype Queue = Queue(items: seq<Sock>, shutdown: bool)
  {
    /** The critical section of `thread_pool_push`. */
    function Push(s: Sock): Queue {
      if shutdown then this else this.(items := items + [s])
    }

    /** The critical section of `thread_pool_pop`: the wait-loop test, then the removal. */
    function PopTest(): PopResult {
      if shutdown then Stop else if items == [] then Wait else Got(items[0])
    }

    function Pop(): Queue {
      if PopTest().Got? then this.(items := items[1..]) else this
    }
  }

  class Node {
    var socket: Sock
    var next: Node?

    constructor (socket: Sock)
      ensures this.socket == socket && next == null
    {
      this.socket := socket;
      next := null;
    }
  }

  /** The sockets stored along a chain of nodes. */
  ghost function Sockets(nodes: seq<Node>): (s: seq<Sock>)
    reads nodes
    ensures |s| == |nodes|
    ensures forall i :: 0 <= i < |nodes| ==> s[i] == nodes[i].socket
  {
    if nodes == [] then [] else [nodes[0].socket] + Sockets(nodes[1..])
  }

  lemma SocketsAppend(nodes: seq<Node>, before: seq<Sock>, socket: Sock)
    requires |nodes| == |before| + 1 && nodes[|before|].socket == socket
    requires forall i :: 0 <= i < |before| ==> nodes[i].socket == before[i]
    ensures Sockets(nodes) == before + [socket]
  {
    hide Sockets;
  }

  class Pool {
    var head: Node?
    var tail: Node?
    var size: int
    var shutdown: bool
    ghost var nodes: seq<Node>

    /** The chain from `head` is exactly `nodes`: acyclic, ending at `tail`, of length `size`. */
    ghost predicate Valid()
      reads this, nodes
    {
      && size == |nodes|
      && (head == null <==> nodes == [])
      && (tail == null <==> nodes == [])
      && (nodes != [] ==> head == nodes[0] && tail == nodes[|nodes| - 1] && tail.next == null)
      && (forall i, j :: 0 <= i < j < |nodes| ==> nodes[i] != nodes[j])
      && (forall i :: 0 <= i < |nodes| - 1 ==> nodes[i].next == nodes[i + 1])
    }

    ghost function View(): Queue
      reads this, nodes
    {
      Queue(Sockets(nodes), shutdown)
    }

    constructor ()
      ensures Valid() && View() == Queue([], false) && nodes == []
    {
      head, tail, size, shutdown := null, null, 0, false;
      nodes := [];
    }

    /** Returns whether the socket was closed instead of queued (no memory, or shutting down). */
    method Push(socket: Sock, mallocOk: bool) returns (closed: bool)
      requires Valid()
      modifies this, nodes
      ensures Valid()
      ensures closed <==> !mallocOk || old(shutdown)
      ensures View() == if closed then old(View()) else old(View()).Push(socket)
      ensures closed ==> nodes == old(nodes)
      ensures !closed ==>
                |nodes| == |old(nodes)| + 1 && nodes[..|old(nodes)|] == old(nodes) && fresh(nodes[|old(nodes)|])
    {
      hide Sockets;
      if !mallocOk {
        return true;
      }
      var node := new Node(socket);
      if shutdown {
        return true;
      }
      ghost var before := Sockets(nodes);
      if tail == null {
        head, tail := node, node;
      } else {
        tail.next := node;
        tail := node;
      }
      size := size + 1;
      nodes := nodes + [node];
      SocketsAppend(nodes, before, socket);
      return false;
    }

    /** One evaluation of the wait loop, and the removal when it is left with a socket. */
    method Pop() returns (r: PopResult)
      requires Valid()
      modifies this
      ensures Valid()
      ensures r == old(View()).PopTest() && View() == old(View()).Pop()
      ensures nodes == if r.Got? then old(nodes)[1..] else old(nodes)
    {
      if head == null && !shutdown {
        return Wait;
      }
      if shutdown {
        return Stop;
      }
      ghost var before := Sockets(nodes);
      var node := head;
      head := head.next;
      if head == null {
        tail := null;
      }
      size := size - 1;
      assert |nodes| > 1 ==> nodes[0].next == nodes[1];
      nodes := nodes[1..];
      assert Sockets(nodes) == before[1..];
      return Got(node.socket);
    }

    method Shutdown()
      requires Valid()
      modifies this`shutdown
      ensures Valid() && View() == old(View()).(shutdown := true) && nodes == old(nodes)
    {
      shutdown := true;
    }
  }
}
