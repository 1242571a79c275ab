/**
 * Receive buffers (code/TCPLIB/PACKET.CPP): the free stack, the buffer the packet driver is copying
 * into, and the ring of packets waiting to be processed.  First as values, then as the arrays and
 * indices that the interrupt routine and the foreground share.
 */
module PacketBuffers {
  import opened Machine
  import opened Circular

  /** PACKET_BUFFERS */
  const BUFFERS: nat := 10
  /** PACKET_BUFFER_LEN */
  const BUFFER_LEN: nat := 1514

  /** A packet in the ring: its buffer and its length. */
  datatype Arrived = Arrived(buffer: nat, len: U16)

  /** `arrived` and `processed` record the whole history of the ring. */
  datatype Pool = Pool(free: seq<nat>, copying: Option<nat>, ring: seq<Arrived>,
                       arrived: seq<Arrived>, processed: seq<Arrived>)

  /** First upcall of the packet driver: a buffer for a packet of `len` bytes, or none. */
  function Offer(p: Pool, len: U16): (Pool, Option<nat>) {
    if len > BUFFER_LEN || p.free == [] then (p, None)
    else
      var id := p.free[|p.free| - 1];
      (p.(free := p.free[..|p.free| - 1], copying := Some(id)), Some(id))
  }

  /** Second upcall: the packet is in the buffer handed out before. */
  function Copied(p: Pool, len: U16): Pool
    requires p.copying.Some?
  {
    var a := Arrived(p.copying.value, len);
    p.(copying := None, ring := p.ring + [a], arrived := p.arrived + [a])
  }

  /** The dequeue of Packet_process_internal. */
  function Take(p: Pool): (Pool, Arrived)
    requires p.ring != []
  {
    (p.(ring := p.ring[1..], processed := p.processed + [p.ring[0]]), p.ring[0])
  }

  /** Buffer_free for a buffer of this pool. */
  function Release(p: Pool, id: nat): Pool { p.(free := p.free + [id]) }

  /** Number of packets between two ring indices. */
  function Between(first: nat, next: nat): (n: nat)
    requires first <= BUFFERS && next <= BUFFERS
    ensures n <= BUFFERS && Slot(first, n, BUFFERS + 1) == next
  {
    if first <= next then next - first else next + (BUFFERS + 1) - first
  }

  class BufferPool {
    const ring: array<nat>
    const lens: array<U16>
    var first: nat
    var next: nat
    const freeStack: array<nat>
    var freeIndex: nat
    var packetBeingCopied: nat
    ghost var copying: bool
    ghost var arrived: seq<Arrived>
    ghost var processed: seq<Arrived>

    ghost predicate Valid()
      reads this
    {
      && ring.Length == BUFFERS + 1 && lens.Length == BUFFERS + 1 && first <= BUFFERS && next <= BUFFERS
      && freeStack.Length == BUFFERS && freeIndex <= BUFFERS
      && freeStack != ring
    }

    /** The waiting packets, oldest first. */
    ghost function Waiting(): (s: seq<Arrived>)
      reads this, ring, lens
      requires Valid()
      ensures |s| == Between(first, next)
    {
      Cyclic(Pairs(ring[..], lens[..]), first, Between(first, next))
    }

    ghost function Abs(): Pool
      reads this, ring, lens, freeStack
      requires Valid()
    {
      Pool(freeStack[..freeIndex], if copying then Some(packetBeingCopied) else None, Waiting(), arrived, processed)
    }

    /** Buffer_init: every buffer is on the stack, but the stack pretends to be empty. */
    constructor ()
      ensures Valid() && Abs() == Pool([], None, [], [], []) && fresh(ring) && fresh(lens) && fresh(freeStack)
      ensures freeStack[..] == seq(BUFFERS, i => i)
    {
      var r := new nat[BUFFERS + 1];
      ring := r;
      lens := new U16[BUFFERS + 1];
      var stack := new nat[BUFFERS](i => i);
      freeStack := stack;
      first, next, freeIndex, packetBeingCopied := 0, 0, 0, 0;
      copying, arrived, processed := false, [], [];
      new;
      assert freeStack[..] == seq(BUFFERS, i => i);
    }

    method StartReceiving()
      requires Valid()
      modifies this`freeIndex
      ensures Valid()
      ensures Abs() == old(Abs()).(free := freeStack[..])
    {
      freeIndex := BUFFERS;
    }

    /** receiver with AX = 0. */
    method ReceiverOffer(len: U16) returns (id: Option<nat>)
      requires Valid() && !copying
      modifies this`freeIndex, this`packetBeingCopied, this`copying
      ensures Valid()
      ensures (Abs(), id) == Offer(old(Abs()), len)
    {
      if len > BUFFER_LEN || freeIndex == 0 { return None; }
      assert freeStack[..freeIndex][..freeIndex - 1] == freeStack[..freeIndex - 1];
      freeIndex := freeIndex - 1;
      packetBeingCopied := freeStack[freeIndex];
      copying := true;
      return Some(packetBeingCopied);
    }

    /** receiver with AX = 1.  The ring has a slot to spare; Ownership shows that it always does. */
    method ReceiverCopied(len: U16)
      requires Valid() && copying && |Waiting()| < BUFFERS
      modifies this`next, this`copying, this`arrived, ring, lens
      ensures Valid()
      ensures Abs() == Copied(old(Abs()), len)
    {
      var a := Arrived(packetBeingCopied, len);
      CyclicPut(Pairs(ring[..], lens[..]), first, Between(first, next), a);
      assert Pairs(ring[..], lens[..])[next := a] == Pairs(ring[..][next := a.buffer], lens[..][next := len]);
      ring[next] := packetBeingCopied;
      lens[next] := len;
      next := next + 1;
      if next == BUFFERS + 1 { next := 0; }
      copying := false;
      arrived := arrived + [a];
    }

    /** The test PACKET_PROCESS_SINGLE makes before it processes a packet. */
    method HasWork() returns (some: bool)
      requires Valid()
      ensures some <==> Waiting() != []
    {
      some := first != next;
    }

    /** The part of Packet_process_internal that runs with interrupts disabled. */
    method TakeNext() returns (packet: nat, len: U16)
      requires Valid() && Waiting() != []
      modifies this`first, this`processed
      ensures Valid()
      ensures (Abs(), Arrived(packet, len)) == Take(old(Abs()))
    {
      CyclicDrop(Pairs(ring[..], lens[..]), first, Between(first, next), 1);
      packet, len := ring[first], lens[first];
      first := first + 1;
      if first == BUFFERS + 1 { first := 0; }
      processed := processed + [Arrived(packet, len)];
    }

    /** Buffer_free for a buffer that is not a BigPacket. */
    method BufferFree(id: nat)
      requires Valid() && freeIndex < BUFFERS
      modifies this`freeIndex, freeStack
      ensures Valid()
      ensures Abs() == Release(old(Abs()), id)
    {
      freeStack[freeIndex] := id;
      freeIndex := freeIndex + 1;
    }
  }

  ghost function Pairs(bs: seq<nat>, ls: seq<U16>): (s: seq<Arrived>)
    requires |bs| == |ls|
    ensures |s| == |bs|
  {
    seq(|bs|, i requires 0 <= i < |bs| => Arrived(bs[i], ls[i]))
  }
}
