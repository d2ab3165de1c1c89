/** The linked packet queue of ffplay.c. The methods are the bodies of its critical sections;
    each refines the operation of the same name on `QueueSpec.Queue`. */
module PacketQueues {
  import opened QueueSpec

  /** sizeof(MyAVPacketList), which the queue adds to the size of every packet. */
  const NODE_SIZE: nat := 96

  class PacketList {
    var pkt: Packet
    var serial: nat
    var next: PacketList?

    constructor (pkt: Packet, serial: nat)
      ensures this.pkt == pkt && this.serial == serial && next == null
    {
      this.pkt, this.serial, next := pkt, serial, null;
    }
  }

  function PacketSize(pkt: Packet): nat {
    match pkt
    case FlushPkt => 0
    case Packet(_, size, _) => size
  }

  /** What the queue's `size` should be. */
  function TotalSize(nodes: seq<Node>): nat {
    if nodes == [] then 0 else PacketSize(nodes[0].pkt) + NODE_SIZE + TotalSize(nodes[1..])
  }

  lemma {:induction false} TotalSizeAppend(nodes: seq<Node>, n: Node)
    ensures TotalSize(nodes + [n]) == TotalSize(nodes) + PacketSize(n.pkt) + NODE_SIZE
  {
    if nodes == [] {
      assert nodes + [n] == [n];
    } else {
      assert (nodes + [n])[1..] == nodes[1..] + [n];
      TotalSizeAppend(nodes[1..], n);
    }
  }

  /** The three returns of packet_queue_get; on an empty queue a blocking caller sleeps and tries again. */
  datatype GetResult = AbortedQueue | EmptyQueue | Got(pkt: Packet, serial: nat)

  ghost function NodesOf(list: seq<PacketList>): (r: seq<Node>)
    reads list
    ensures |r| == |list|
  {
    seq(|list|, i requires 0 <= i < |list| reads list => Node(list[i].pkt, list[i].serial))
  }

  class PacketQueue {
    var firstPkt: PacketList?
    var lastPkt: PacketList?
    var nbPackets: int
    var size: int
    var abortRequest: bool
    var serial: nat
    ghost var list: seq<PacketList>

    ghost predicate Linked()
      reads this, list
    {
      && (forall i, j :: 0 <= i < j < |list| ==> list[i] != list[j])
      && (forall i, j :: 0 <= i < |list| && j == i + 1 && j < |list| ==> list[i].next == list[j])
      && (if list == [] then firstPkt == null && lastPkt == null
          else firstPkt == list[0] && lastPkt == list[|list| - 1] && list[|list| - 1].next == null)
    }

    ghost function Nodes(): (r: seq<Node>)
      reads this`list, list
      ensures |r| == |list|
    {
      NodesOf(list)
    }

    ghost function Model(): Queue
      reads this, list
    {
      Queue(Nodes(), serial, abortRequest)
    }

    ghost predicate Valid()
      reads this, list
    {
      Linked() && nbPackets == |list| && size == TotalSize(Nodes())
    }

    constructor Init()
      ensures Valid() && Model() == NEW_QUEUE
    {
      firstPkt, lastPkt, nbPackets, size, abortRequest, serial, list := null, null, 0, 0, true, 0, [];
    }

    method PutPrivate(pkt: Packet) returns (ok: bool)
      requires Valid()
      modifies this, lastPkt
      ensures Valid() && ok == !old(abortRequest)
      ensures Model() == Put(old(Model()), pkt)
      ensures fresh(set n | n in list && n !in old(list))
    {
      if abortRequest {
        return false;
      }
      if pkt.FlushPkt? {
        serial := serial + 1;
      }
      var pkt1 := new PacketList(pkt, serial);
      ghost var before := Nodes();
      Link(pkt1);
      Count(before, Node(pkt, serial));
      ok := true;
    }

    /** The books after a node has been added to those of `before`. */
    method Count(ghost before: seq<Node>, n: Node)
      requires Linked() && nbPackets + 1 == |list| && Nodes() == before + [n] && size == TotalSize(before)
      modifies this`nbPackets, this`size
      ensures Valid() && Nodes() == before + [n]
    {
      nbPackets := nbPackets + 1;
      size := size + PacketSize(n.pkt) + NODE_SIZE;
      TotalSizeAppend(before, n);
    }

    /** The new node becomes the tail. */
    method Link(pkt1: PacketList)
      requires Linked() && pkt1 !in list && pkt1.next == null
      modifies this`firstPkt, this`lastPkt, this`list, if lastPkt == null then {} else {lastPkt}
      ensures Linked() && list == old(list) + [pkt1]
      ensures Nodes() == old(Nodes()) + [Node(pkt1.pkt, pkt1.serial)]
      ensures pkt1.pkt == old(pkt1.pkt) && pkt1.serial == old(pkt1.serial)
    {
      if lastPkt == null {
        firstPkt := pkt1;
      } else {
        lastPkt.next := pkt1;
      }
      lastPkt := pkt1;
      list := list + [pkt1];
    }

    /** packet_queue_flush; `dropped` are the packets it unreferences on its walk. */
    method FlushAll() returns (dropped: seq<Packet>)
      requires Valid()
      modifies this
      ensures Valid() && Model() == Flush(old(Model()))
      ensures |dropped| == |old(Nodes())| && forall i :: 0 <= i < |dropped| ==> dropped[i] == old(Nodes())[i].pkt
    {
      dropped := [];
      var pkt := firstPkt;
      while pkt != null
        invariant |dropped| <= |list|
        invariant pkt == if |dropped| < |list| then list[|dropped|] else null
        invariant forall i :: 0 <= i < |dropped| ==> dropped[i] == Nodes()[i].pkt
        decreases |list| - |dropped|
      {
        var pkt1 := pkt.next;
        dropped := dropped + [pkt.pkt];
        pkt := pkt1;
      }
      lastPkt := null;
      firstPkt := null;
      nbPackets := 0;
      size := 0;
      list := [];
    }

    method RequestAbort()
      requires Valid()
      modifies this`abortRequest
      ensures Valid() && Model() == Abort(old(Model()))
    {
      abortRequest := true;
      assert Nodes() == old(Nodes());
    }

    method StartQueue()
      requires Valid()
      modifies this, lastPkt
      ensures Valid() && Model() == Start(old(Model()))
    {
      abortRequest := false;
      assert Nodes() == old(Nodes());
      var _ := PutPrivate(FlushPkt);
    }

    /** One turn of packet_queue_get's loop. */
    method Get() returns (r: GetResult)
      requires Valid()
      modifies this
      ensures Valid()
      ensures r.AbortedQueue? <==> old(abortRequest)
      ensures r.EmptyQueue? <==> !old(abortRequest) && old(Model()).nodes == []
      ensures r.Got? ==> Model() == Rest(old(Model())) && Node(r.pkt, r.serial) == old(Model()).nodes[0]
      ensures !r.Got? ==> Model() == old(Model())
    {
      if abortRequest {
        return AbortedQueue;
      }
      var pkt1 := firstPkt;
      if pkt1 == null {
        return EmptyQueue;
      }
      firstPkt := pkt1.next;
      if firstPkt == null {
        lastPkt := null;
      }
      nbPackets := nbPackets - 1;
      size := size - (PacketSize(pkt1.pkt) + NODE_SIZE);
      r := Got(pkt1.pkt, pkt1.serial);
      list := list[1..];
      assert forall i :: 0 <= i < |list| ==> list[i] == old(list)[i + 1];
      assert Nodes() == old(Nodes())[1..];
    }
  }
}
