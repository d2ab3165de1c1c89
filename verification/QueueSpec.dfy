/** The packet queue of ffplay.c as a value: what each critical section does to it. */
module QueueSpec {

  /** `FlushPkt` is the static flush marker; `hasData` is false for the end-of-stream packet.
      `tag` stands for the contents. */
  datatype Packet = FlushPkt | Packet(hasData: bool, size: nat, tag: nat)

  datatype Node = Node(pkt: Packet, serial: nat)

  datatype Queue = Queue(nodes: seq<Node>, serial: nat, abort: bool)

  const NEW_QUEUE := Queue([], 0, true)

  /** packet_queue_put_private: refused while the queue is aborted; a marker starts a new serial. */
  function Put(q: Queue, pkt: Packet): Queue {
    if q.abort then q
    else
      var serial := if pkt.FlushPkt? then q.serial + 1 else q.serial;
      q.(serial := serial, nodes := q.nodes + [Node(pkt, serial)])
  }

  function Flush(q: Queue): Queue { q.(nodes := []) }

  function Abort(q: Queue): Queue { q.(abort := true) }

  function Start(q: Queue): Queue { Put(q.(abort := false), FlushPkt) }

  /** packet_queue_get on a queue that is neither aborted nor empty. */
  function Rest(q: Queue): Queue
    requires q.nodes != []
  {
    q.(nodes := q.nodes[1..])
  }

  /** The serial before node `j`, when `before` is the serial of the last node taken out. */
  function Previous(before: nat, nodes: seq<Node>, j: nat): nat
    requires j <= |nodes|
  {
    if j == 0 then before else nodes[j - 1].serial
  }

  /** Serials never decrease from head to tail, and they rise at the flush markers and only there. */
  ghost predicate Chain(before: nat, nodes: seq<Node>) {
    forall j: nat :: j < |nodes| ==> InPlace(before, nodes, j)
  }

  predicate InPlace(before: nat, nodes: seq<Node>, j: nat)
    requires j < |nodes|
  {
    Follows(Previous(before, nodes, j), nodes[j])
  }

  predicate Follows(serial: nat, n: Node) { serial <= n.serial && (n.pkt.FlushPkt? <==> serial < n.serial) }

  /** The serial of the last packet put into the queue that is still there, or was taken out last. */
  function Latest(before: nat, nodes: seq<Node>): nat { Previous(before, nodes, |nodes|) }

  lemma {:induction false} ChainBounds(before: nat, nodes: seq<Node>, j: nat)
    requires Chain(before, nodes) && j <= |nodes|
    ensures before <= Previous(before, nodes, j) <= Latest(before, nodes)
    decreases |nodes|
  {
    if nodes != [] {
      var init := nodes[..|nodes| - 1];
      forall k: nat | k < |init| ensures InPlace(before, init, k) {
        assert InPlace(before, nodes, k);
      }
      assert InPlace(before, nodes, |init|);
      ChainBounds(before, init, if j < |nodes| then j else j - 1);
    }
  }

  /** Putting a packet into a started queue keeps the chain; a marker is newer than everything before it. */
  lemma PutChain(before: nat, q: Queue, pkt: Packet)
    requires Chain(before, q.nodes) && !q.abort
    requires if pkt.FlushPkt? then Latest(before, q.nodes) <= q.serial else Latest(before, q.nodes) == q.serial
    ensures Chain(before, Put(q, pkt).nodes)
    ensures Latest(before, Put(q, pkt).nodes) == Put(q, pkt).serial
  {
    ChainGrows(before, q.nodes, Node(pkt, Put(q, pkt).serial));
  }

  lemma ChainGrows(before: nat, nodes: seq<Node>, n: Node)
    requires Chain(before, nodes) && Follows(Latest(before, nodes), n)
    ensures Chain(before, nodes + [n]) && Latest(before, nodes + [n]) == n.serial
  {
    var more := nodes + [n];
    forall j: nat | j < |more| ensures InPlace(before, more, j) {
      assert j < |nodes| ==> InPlace(before, nodes, j);
    }
  }

  /** Taking the head out leaves a chain that starts at its serial. */
  lemma RestChain(before: nat, q: Queue)
    requires Chain(before, q.nodes) && q.nodes != []
    ensures Chain(q.nodes[0].serial, Rest(q).nodes)
    ensures Latest(q.nodes[0].serial, Rest(q).nodes) == Latest(before, q.nodes)
    ensures q.nodes[0].pkt.Packet? ==> q.nodes[0].serial == before
    ensures q.nodes[0].pkt.FlushPkt? ==> q.nodes[0].serial > before
  {
    var rest := Rest(q).nodes;
    assert InPlace(before, q.nodes, 0);
    forall j: nat | j < |rest| ensures InPlace(q.nodes[0].serial, rest, j) {
      assert InPlace(before, q.nodes, j + 1);
    }
  }

  // ---- any sequence of operations, by any threads ---------------------------------------------

  datatype Op = DoPut(pkt: Packet) | DoFlush | DoAbort | DoStart | DoGet

  function Apply(q: Queue, op: Op): Queue {
    match op
    case DoPut(pkt) => Put(q, pkt)
    case DoFlush => Flush(q)
    case DoAbort => Abort(q)
    case DoStart => Start(q)
    case DoGet => if q.abort || q.nodes == [] then q else Rest(q)
  }

  function ApplyAll(q: Queue, ops: seq<Op>): Queue {
    if ops == [] then q else Apply(ApplyAll(q, ops[..|ops| - 1]), ops[|ops| - 1])
  }

  /** No serial exceeds the queue's, none is followed by a smaller one, and a marker is newer than
      every packet before it. */
  predicate Ordered(q: Queue) {
    && (forall i :: 0 <= i < |q.nodes| ==> q.nodes[i].serial <= q.serial)
    && (forall i, j :: 0 <= i < j < |q.nodes| ==> q.nodes[i].serial <= q.nodes[j].serial)
    && (forall i, j :: 0 <= i < j < |q.nodes| && q.nodes[j].pkt.FlushPkt? ==> q.nodes[i].serial < q.nodes[j].serial)
  }

  lemma ApplyKeepsOrder(q: Queue, op: Op)
    requires Ordered(q)
    ensures Ordered(Apply(q, op))
  {
  }

  lemma {:induction false} OperationsKeepOrder(ops: seq<Op>)
    ensures Ordered(ApplyAll(NEW_QUEUE, ops))
  {
    if ops != [] {
      OperationsKeepOrder(ops[..|ops| - 1]);
      ApplyKeepsOrder(ApplyAll(NEW_QUEUE, ops[..|ops| - 1]), ops[|ops| - 1]);
    }
  }
}
