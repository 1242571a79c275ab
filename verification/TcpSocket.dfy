/**
 * The TCP engine as the code has it: one socket object whose methods update fields, rings, the
 * transmit buffer pool and the receive ring in place.  Every method is proved to compute the
 * function of the same name in TcpModel, on every state in which the pool is conserved.
 *
 * A TcpBuffer is named by its index in `bufs`; the last one is connectPacket.  `history` is ghost.
 */
module TcpSockets {
  import opened Machine
  import opened Counting
  import opened Circular
  import opened RingBuffers
  import opened ReceiveRings
  import opened TcpModel
  import opened TcpPool

  /** The packet rings have 2 to this power slots. */
  const LOG_RING: nat := 2

  lemma WrapSmall(x: U32)
    ensures Wrap32(x) == x
  {
  }

  /** Sequence numbers taken by SYN or FIN in the packet about to be sent. */
  ghost function Control(s: State, forceAck: bool): nat {
    if AddsSyn(s) || AddsFin(s, forceAck) then 1 else 0
  }

  ghost function MssOption(s: State): Option<U16> {
    if AddsSyn(s) then Some(if s.r.size != 0 then Min(s.r.size, s.t.mss) else s.t.mss) else None
  }

  ghost function Marked(s: State, forceAck: bool): History {
    s.h.(synSent := s.h.synSent || AddsSyn(s), fins := s.h.fins + (if AddsFin(s, forceAck) then 1 else 0))
  }

  // ---------------------------------------------------------------- room on the free stack

  lemma ReturnFits(q: Queues, held: set<nat>, id: nat)
    requires Conserved(q, held) && (id in q.outgoing || id in q.sent)
    ensures id < Conn(q) ==> |q.free| < Conn(q)
  {
    if id < Conn(q) {
      forall y: nat | y < Conn(q) ensures Occ(q.free, y) <= 1 {
        assert Places(q, held, y) == 1;
      }
      if id in q.outgoing {
        var i :| 0 <= i < |q.outgoing| && q.outgoing[i] == id;
        OccIn(q.outgoing, i);
      } else {
        var i :| 0 <= i < |q.sent| && q.sent[i] == id;
        OccIn(q.sent, i);
      }
      assert Places(q, held, id) == 1;
      FreeFits(q.free, Conn(q), id);
    }
  }

  lemma NamedOf(q: Queues, held: set<nat>)
    requires Conserved(q, held)
    ensures Named(q)
  {
  }

  lemma RingSlots()
    ensures Pow2(LOG_RING) == RING
  {
  }

  lemma FreshNamed(iss: U32, pool: nat, mss: U16, rcvSize: U16)
    ensures Named(Fresh(iss, pool, mss, rcvSize).q)
  {
  }

  lemma NamedPool(s: State)
    requires PoolInv(s)
    ensures Named(s.q)
    ensures forall i :: 0 <= i < |s.q.outgoing| ==> s.q.outgoing[i] < |s.q.bufs|
    ensures forall i :: 0 <= i < |s.q.sent| ==> s.q.sent[i] < |s.q.bufs|
  {
  }

  lemma PopSentIs(s: State)
    requires Named(s.q) && s.q.sent != []
    ensures var id := s.q.sent[0];
            PopSent(s) ==
              s.(q := Return(s.q.(sent := s.q.sent[1..], pendingSent := Wrap16(s.q.pendingSent - 1)), id),
                 h := s.h.(una := s.h.una + |s.q.bufs[id].data|))
  {
  }

  lemma AfterSendIs(s: State, id: nat, b: Buffer)
    requires Named(s.q) && s.q.outgoing != [] && id == s.q.outgoing[0]
    ensures var q1 := s.q.(bufs := s.q.bufs[id := b.(attempts := b.attempts + 1)],
                           outgoing := s.q.outgoing[1..], pendingOutgoing := Wrap16(s.q.pendingOutgoing - 1));
            AfterSend(s, id, b) ==
              s.(q := if b.ackOnly then Return(q1, id)
                      else q1.(sent := q1.sent + [id], pendingSent := Wrap16(q1.pendingSent + 1)))
  {
    hide Return, Wrap16;
  }

  lemma PoolReturnFits(s: State, id: nat)
    requires PoolInv(s) && (id in s.q.outgoing || id in s.q.sent)
    ensures id < Conn(s.q) ==> |s.q.free| < Conn(s.q)
  {
    ReturnFits(s.q, s.h.held, id);
  }

  // ---------------------------------------------------------------- one turn of a loop

  /** Giving buffers back does not look at the counters. */
  lemma {:induction false} ReturnAllCounters(q: Queues, ids: seq<nat>, out: U16, sent: U16)
    requires Named(q)
    ensures ReturnAll(q.(pendingOutgoing := out, pendingSent := sent), ids) ==
              ReturnAll(q, ids).(pendingOutgoing := out, pendingSent := sent)
    decreases |ids|
  {
    if ids != [] { ReturnAllCounters(Return(q, ids[0]), ids[1..], out, sent); }
  }

  /** clearQueues adjusts each counter after its loop. */
  lemma ClearedQueues(s: State, q1: Queues, q2: Queues, q3: Queues)
    requires Named(s.q) && Named(q2)
    requires q1 == ReturnAll(s.q.(outgoing := []), s.q.outgoing)
    requires q2 == q1.(pendingOutgoing := Wrap16(s.q.pendingOutgoing - |s.q.outgoing|))
    requires q3 == ReturnAll(q2.(sent := []), s.q.sent).(pendingSent := Wrap16(s.q.pendingSent - |s.q.sent|))
    ensures q3 == ClearQueues(s).q
  {
    hide Wrap16;
    var out: U16 := Wrap16(s.q.pendingOutgoing - |s.q.outgoing|);
    var left: U16 := Wrap16(s.q.pendingSent - |s.q.sent|);
    ReturnAllCounters(s.q.(outgoing := []), s.q.outgoing, out, s.q.pendingSent);
    ReturnAllKeeps(s.q.(outgoing := []), s.q.outgoing);
    assert q2 == ReturnAll(s.q.(outgoing := [], pendingOutgoing := out), s.q.outgoing);
    ReturnAllCounters(q2.(sent := []), s.q.sent, out, left);
    ReturnAllKeeps(q2.(sent := []), s.q.sent);
    assert q2.(sent := []).(pendingOutgoing := out, pendingSent := left) == q2.(sent := [], pendingSent := left);
    assert q3 == ReturnAll(q2.(sent := [], pendingSent := left), s.q.sent);
  }

  lemma RemoveSentStep(s: State, target: U32)
    requires Named(s.q)
    ensures s.q.sent == [] ==> RemoveSent(s, target) == s.(t := s.t.(oldest := s.t.seqNum))
    ensures s.q.sent != [] ==>
              var b := s.q.bufs[s.q.sent[0]];
              RemoveSent(s, target) ==
                if b.last < target || (b.last > target && target < s.t.oldest && b.last >= s.t.oldest)
                then RemoveSent(PopSent(s), target)
                else s.(t := s.t.(oldest := b.header.num))
  {
  }

  lemma DriveLoopStep(s: State, probeDue: bool, arp: bool)
    requires Named(s.q)
    ensures s.q.outgoing == [] || |s.q.sent| >= RING ==> DriveLoop(s, probeDue, arp) == s
    ensures s.q.outgoing != [] && |s.q.sent| < RING ==>
              var id := s.q.outgoing[0];
              var f := SendPacket(s, s.q.bufs[id], false, false, arp);
              f.s.q == s.q &&
              DriveLoop(s, probeDue, arp) ==
                if |s.q.bufs[id].data| > s.t.remoteWindow then (if probeDue then PureAck(s, true, arp) else s)
                else if f.pending then f.s.(q := s.q.(bufs := s.q.bufs[id := f.b]))
                else DriveLoop(AfterSend(f.s, id, f.b), probeDue, arp)
  {
    hide AfterSend;
  }

  lemma NotedPool(s: State, seg: Segment)
    requires PoolInv(s)
    ensures PoolInv(Noted(s, seg))
  {
    SamePool(s, Noted(s, seg));
  }

  lemma AdvanceRest(s: State, seg: Segment, current: bool, arp: bool)
    requires Named(s.q) && s.t.phase != SynRecved
    ensures Advance(s, seg, current, arp).q == s.q && Advance(s, seg, current, arp).r == s.r
  {
    hide Wrap32;
  }

  lemma NotedRest(s: State, seg: Segment)
    ensures Noted(s, seg).q == s.q && Noted(s, seg).r == s.r
  {
  }

  lemma TakeDataPool(s: State, p: Packet)
    requires PoolInv(s)
    ensures PoolInv(TakeData(s, p).s)
  {
    SamePool(s, TakeData(s, p).s);
  }

  lemma {:induction false} RemoveSentTcb(s: State, target: U32)
    requires Named(s.q)
    ensures RemoveSent(s, target).t == s.t.(oldest := RemoveSent(s, target).t.oldest)
    decreases |s.q.sent|
  {
    if s.q.sent != [] && Removable(s.q.bufs[s.q.sent[0]].last, target, s.t.oldest) { RemoveSentTcb(PopSent(s), target); }
  }

  lemma FilledPool(s: State, s': State)
    requires PoolInv(s) && |s'.q.bufs| == |s.q.bufs|
    requires s'.q == s.q.(bufs := s'.q.bufs) && s'.h == s.h
    ensures PoolInv(s')
  {
    hide Conserved;
    SamePlaces(s.q, s'.q, s.h.held);
  }

  lemma EnqueueTcb(s: State, id: nat)
    requires Named(s.q) && id < |s.q.bufs|
    ensures Enqueue(s, id).0.t == s.t && |Enqueue(s, id).0.q.bufs| == |s.q.bufs|
  {
  }

  ghost function Queued(s: State, id: nat, data: seq<Byte>): State
    requires Named(s.q) && id < |s.q.bufs|
  {
    Enqueue(s.(q := s.q.(bufs := s.q.bufs[id := s.q.bufs[id].(data := data)])), id).0
  }

  lemma HeldNamed(s: State, id: nat)
    requires PoolInv(s) && id in s.h.held
    ensures Named(s.q) && id < |s.q.bufs|
  {
  }

  lemma SendLoopStep(s: State, rest: seq<Byte>)
    requires Named(s.q) && s.t.phase == Established && !Spins(s, rest)
    ensures !SendGoes(s, rest) ==> SendLoop(s, rest) == (s, rest)
    ensures SendGoes(s, rest) ==>
              var n := Min(SendSize(s.t), |rest|);
              var (s1, got) := GetBuffer(s);
              && got.Some? && Named(s1.q) && got.value < |s1.q.bufs|
              && SendTurn(s, rest) == (Queued(s1, got.value, rest[..n]), rest[n..])
              && SendLoop(s, rest) == SendLoop(SendTurn(s, rest).0, SendTurn(s, rest).1)
    ensures GetBuffer(s).1.None? <==> s.q.free == []
    ensures GetBuffer(s).1.None? ==> GetBuffer(s).0 == s
    ensures GetBuffer(s).0.t == s.t
  {
    hide Enqueue, Spins;
  }

  lemma SendStops(s: State, rest: seq<Byte>)
    requires PoolInv(s)
    ensures SendGoes(s, rest) <==> rest != [] && |s.q.outgoing| != RING && s.q.free != []
  {
    hide Conserved;
  }

  // ---------------------------------------------------------------- what sendPacket writes

  /** The three kinds of packet sendPacket builds. */
  lemma ControlSyn(s: State, hasData: bool, forceAck: bool)
    requires s.t.phase == SynRecved || s.t.phase == SynSent
    ensures CodeBits(s, hasData, forceAck) == ACK_BITS.(syn := true, ack := s.t.phase == SynRecved)
    ensures AddsSyn(s) && Control(s, forceAck) == 1 && PhaseAfterSend(s, forceAck) == s.t.phase
    ensures Marked(s, forceAck) == s.h.(synSent := true)
  {
  }

  lemma ControlFin(s: State, hasData: bool)
    requires IsSendFin(s.t.phase) && |s.q.outgoing| == 1
    ensures CodeBits(s, hasData, false) == ACK_BITS.(fin := true)
    ensures !AddsSyn(s) && Control(s, false) == 1
    ensures PhaseAfterSend(s, false) == if s.t.phase == SendFin2 then LastAck else FinWait1
    ensures Marked(s, false) == s.h.(fins := s.h.fins + 1)
  {
  }

  lemma ControlPlain(s: State, hasData: bool, forceAck: bool)
    requires s.t.phase != SynRecved && s.t.phase != SynSent
    requires IsSendFin(s.t.phase) ==> forceAck || |s.q.outgoing| != 1
    ensures CodeBits(s, hasData, forceAck) == ACK_BITS.(psh := s.t.phase == Established && hasData)
    ensures !AddsSyn(s) && Control(s, forceAck) == 0 && PhaseAfterSend(s, forceAck) == s.t.phase
    ensures Marked(s, forceAck) == s.h
  {
  }

  /** sendPacket on a packet not filled in before, part by part. */
  lemma SendPacketIs(s: State, b: Buffer, forceAck: bool, forceProbe: bool, arp: bool, header: Segment, s': State, b': Buffer)
    requires !b.pendingArp && header == Header(s, b.data, forceAck, forceProbe)
    requires var seq2 := Wrap32(s.t.seqNum + |b.data| + Control(s, forceAck));
             && s'.t == s.t.(seqNum := seq2, phase := PhaseAfterSend(s, forceAck),
                             remoteWindow := if |b.data| <= s.t.remoteWindow then s.t.remoteWindow - |b.data| else 0)
             && b' == b.(header := header, last := Wrap32(seq2 - 1), pendingArp := !s.t.macCached && !arp,
                         ackOnly := b.ackOnly || (|b.data| == 0 && header.bits == ACK_BITS))
    requires s'.q == s.q && s'.r == s.r
    requires var h1 := Marked(s, forceAck).(violations := s.h.violations + (if |b.data| <= s.t.remoteWindow then 0 else 1));
             s'.h == if !s.t.macCached && !arp then h1 else Emit(h1, header)
    ensures Filled(s', b', !s.t.macCached && !arp) == SendPacket(s, b, forceAck, forceProbe, arp)
  {
    hide Wrap32, Header, PhaseAfterSend, AddsFin, AddsSyn;
  }

  /** The three packet rings, empty. */
  method NewRings() returns (outgoing: RingBuffer<nat>, sent: RingBuffer<nat>, incoming: RingBuffer<Packet>)
    ensures fresh(outgoing) && fresh(sent) && fresh(incoming)
    ensures fresh(outgoing.ring) && fresh(sent.ring) && fresh(incoming.ring)
    ensures outgoing != sent && outgoing.ring != sent.ring
    ensures outgoing.Valid() && sent.Valid() && incoming.Valid()
    ensures outgoing.ring.Length == RING && sent.ring.Length == RING && incoming.ring.Length == RING
    ensures outgoing.Contents() == [] && sent.Contents() == [] && incoming.Contents() == []
  {
    hide Pow2, Cyclic, Slot;
    RingSlots();
    outgoing := new RingBuffer(LOG_RING);
    sent := new RingBuffer(LOG_RING);
    incoming := new RingBuffer(LOG_RING);
  }

  /** Blank buffers, and a stack of the names of all but the last. */
  method NewPool(pool: nat) returns (bufs: array<Buffer>, stack: array<nat>)
    ensures fresh(bufs) && fresh(stack) && bufs.Length == pool + 1 && stack.Length == pool
    ensures bufs[..] == seq(pool + 1, _ => Blank()) && stack[..] == seq(pool, i => i)
  {
    bufs := new Buffer[pool + 1](_ => Blank());
    stack := new nat[pool](i => i);
  }

  class TcpSocket {
    var tcb: Tcb

    const outgoing: RingBuffer<nat>
    const sent: RingBuffer<nat>
    const incoming: RingBuffer<Packet>

    const bufs: array<Buffer>
    const xmitBuffers: array<nat>
    var freeXmitBuffers: nat
    var pendingSent: U16
    var pendingOutgoing: U16

    const rcv: ReceiveRing
    var haveRcvBuffer: bool

    ghost var history: History

    /** Everything the socket's methods may change. */
    ghost function Repr(): set<object> {
      {this, outgoing, outgoing.ring, sent, sent.ring, incoming, incoming.ring, bufs, xmitBuffers, rcv, rcv.buffer}
    }

    ghost predicate Separate() {
      && outgoing != sent
      && outgoing.ring != sent.ring && outgoing.ring != xmitBuffers && sent.ring != xmitBuffers
    }

    ghost predicate Valid()
      reads this`freeXmitBuffers, this`pendingSent, this`pendingOutgoing
      reads Repr() - {this}
    {
      && Separate()
      && outgoing.Valid() && sent.Valid() && incoming.Valid() && rcv.Valid()
      && outgoing.ring.Length == RING && sent.ring.Length == RING && incoming.ring.Length == RING
      && xmitBuffers.Length + 1 == bufs.Length && freeXmitBuffers <= xmitBuffers.Length
      && Named(Q())
    }

    ghost function T(): Tcb reads this`tcb { tcb }

    ghost function Q(): Queues
      reads this`freeXmitBuffers, this`pendingSent, this`pendingOutgoing
      reads outgoing, outgoing.ring, sent, sent.ring, bufs, xmitBuffers
      requires outgoing.Valid() && sent.Valid() && freeXmitBuffers <= xmitBuffers.Length
    {
      Queues(bufs[..], xmitBuffers[..freeXmitBuffers], outgoing.Contents(), sent.Contents(), pendingSent, pendingOutgoing)
    }

    ghost function R(): Receiver
      reads this`haveRcvBuffer, incoming, incoming.ring, rcv, rcv.buffer
      requires incoming.Valid() && rcv.Valid()
    {
      Receiver(rcv.size, haveRcvBuffer, rcv.Contents(), incoming.Contents())
    }

    /** The state of the machine in TcpModel that this object stands for. */
    ghost function Abs(): State
      reads Repr()
      requires Valid()
    {
      State(T(), Q(), R(), history)
    }

    /** reinit and setRecvBuffer, over a new pool of `pool` transmit buffers; `iss` is the random start. */
    constructor (iss: U32, pool: nat, mss: U16, recvBufferSize: U16, haveMemory: bool)
      ensures Valid() && fresh(Repr())
      ensures Abs() == Fresh(iss, pool, mss, rcv.size)
      ensures rcv.size == if MIN_SIZE <= recvBufferSize <= MAX_SIZE && haveMemory then recvBufferSize else 0
    {
      hide Cyclic, Slot, Blank, Named, Pow2, RingBuffer.Valid, RingBuffer.Contents, ReceiveRing.Valid, ReceiveRing.Contents;
      tcb := Tcb(Closed, iss, 0, iss, 0, 0, mss, false, 0, 0, false, false, 0);
      var queue, waiting, packets := NewRings();
      outgoing, sent, incoming := queue, waiting, packets;
      var all, stack := NewPool(pool);
      bufs, xmitBuffers := all, stack;
      freeXmitBuffers := pool;
      pendingSent, pendingOutgoing := 0, 0;
      var ring := new ReceiveRing(recvBufferSize, haveMemory);
      rcv := ring;
      haveRcvBuffer := ring.size != 0;
      history := Fresh(iss, 0, 0, 0).h;
      new;
      FreshNamed(iss, pool, mss, rcv.size);
      assert xmitBuffers[..freeXmitBuffers] == xmitBuffers[..];
    }

    // -------------------------------------------------------------- buffer pool

    method GetXmitBuf() returns (id: Option<nat>)
      requires Valid()
      modifies this`freeXmitBuffers, this`history
      ensures Valid()
      ensures (Abs(), id) == GetBuffer(old(Abs()))
    {
      if freeXmitBuffers == 0 { return None; }
      assert xmitBuffers[..freeXmitBuffers][..freeXmitBuffers - 1] == xmitBuffers[..freeXmitBuffers - 1];
      freeXmitBuffers := freeXmitBuffers - 1;
      id := Some(xmitBuffers[freeXmitBuffers]);
      history := history.(held := history.held + {id.value});
    }

    method ReturnXmitBuf(id: nat)
      requires Valid() && id < bufs.Length
      requires id < bufs.Length - 1 ==> freeXmitBuffers < xmitBuffers.Length
      modifies this`freeXmitBuffers, xmitBuffers
      ensures Valid()
      ensures Abs() == old(Abs()).(q := Return(old(Q()), id))
    {
      if id < bufs.Length - 1 {
        xmitBuffers[freeXmitBuffers] := id;
        freeXmitBuffers := freeXmitBuffers + 1;
      }
    }

    /** Fill in a buffer's fields. */
    method SetBuffer(id: nat, b: Buffer)
      requires Valid() && id < bufs.Length
      modifies bufs
      ensures Valid()
      ensures Abs() == old(Abs()).(q := old(Q()).(bufs := old(bufs[..])[id := b]))
    {
      bufs[id] := b;
    }

    // -------------------------------------------------------------- sending

    /** The part of sendPacket that depends on the state: code bits, SYN and FIN, the MSS option. */
    method AddControl(ghost s: State, len: nat, forceAck: bool) returns (bits: Bits, mssOption: Option<U16>)
      requires s.t == tcb.(seqNum := s.t.seqNum) && s.h == history
      requires |s.q.outgoing| == outgoing.entries && s.r.size == rcv.size
      modifies this`tcb, this`history
      ensures bits == CodeBits(s, len != 0, forceAck) && mssOption == MssOption(s)
      ensures tcb == s.t.(seqNum := Wrap32(old(tcb.seqNum) + Control(s, forceAck)), phase := PhaseAfterSend(s, forceAck))
      ensures history == Marked(s, forceAck)
    {
      hide Wrap32, CodeBits, PhaseAfterSend, Control, Marked, AddsFin, AddsSyn;
      bits := ACK_BITS;
      mssOption := None;
      if tcb.phase != Established {
        if tcb.phase == SynRecved || tcb.phase == SynSent {
          bits, mssOption := AddSyn(s, len, forceAck);
        } else if IsSendFin(tcb.phase) && !forceAck && outgoing.entries == 1 {
          bits := AddFin(s, len);
        } else {
          ControlPlain(s, len != 0, forceAck);
          WrapSmall(tcb.seqNum);
        }
      } else {
        ControlPlain(s, len != 0, forceAck);
        WrapSmall(tcb.seqNum);
        if len != 0 { bits := bits.(psh := true); }
      }
    }

    /** Our SYN, with the largest segment we can take. */
    method AddSyn(ghost s: State, len: nat, forceAck: bool) returns (bits: Bits, mssOption: Option<U16>)
      requires s.t == tcb.(seqNum := s.t.seqNum) && s.h == history && s.r.size == rcv.size
      requires tcb.phase == SynRecved || tcb.phase == SynSent
      modifies this`tcb, this`history
      ensures bits == CodeBits(s, len != 0, forceAck) && mssOption == MssOption(s)
      ensures tcb == s.t.(seqNum := Wrap32(old(tcb.seqNum) + Control(s, forceAck)), phase := PhaseAfterSend(s, forceAck))
      ensures history == Marked(s, forceAck)
    {
      hide Wrap32, CodeBits, PhaseAfterSend, Control, Marked, AddsFin, AddsSyn;
      ControlSyn(s, len != 0, forceAck);
      bits := ACK_BITS.(syn := true, ack := tcb.phase == SynRecved);
      tcb := tcb.(seqNum := Wrap32(tcb.seqNum + 1));
      history := history.(synSent := true);
      var mss := tcb.mss;
      if rcv.size != 0 && rcv.size < mss { mss := rcv.size; }
      mssOption := Some(mss);
    }

    /** Our FIN, on the last packet queued. */
    method AddFin(ghost s: State, len: nat) returns (bits: Bits)
      requires s.t == tcb.(seqNum := s.t.seqNum) && s.h == history
      requires IsSendFin(tcb.phase) && |s.q.outgoing| == 1
      modifies this`tcb, this`history
      ensures bits == CodeBits(s, len != 0, false) && MssOption(s) == None
      ensures tcb == s.t.(seqNum := Wrap32(old(tcb.seqNum) + Control(s, false)), phase := PhaseAfterSend(s, false))
      ensures history == Marked(s, false)
    {
      hide Wrap32, CodeBits, PhaseAfterSend, Control, Marked, AddsFin, AddsSyn;
      ControlFin(s, len != 0);
      bits := ACK_BITS.(fin := true);
      tcb := tcb.(seqNum := Wrap32(tcb.seqNum + 1));
      history := history.(fins := history.fins + 1);
      tcb := tcb.(phase := if tcb.phase == SendFin2 then LastAck else FinWait1);
    }

    method ComputeWindow(ghost s: State) returns (window: U16)
      requires Valid() && s.r == R() && s.t.mss == tcb.mss && s.t.smallWindow == tcb.smallWindow
      ensures window == AdvertisedWindow(s.t, s.r)
    {
      window := if rcv.size != 0 then Wrap16(rcv.size - rcv.entries) else Wrap16(4 * tcb.mss);
      if tcb.smallWindow {
        window := window / 2;
        if window > tcb.mss { window := tcb.mss; }
      }
    }

    /** Adjust what we think is left of the remote window. */
    method Spend(len: nat)
      modifies this`tcb, this`history
      ensures tcb == old(tcb).(remoteWindow := if len <= old(tcb.remoteWindow) then old(tcb.remoteWindow) - len else 0)
      ensures history ==
                old(history).(violations := old(history.violations) + (if len <= old(tcb.remoteWindow) then 0 else 1))
    {
      if len <= tcb.remoteWindow {
        tcb := tcb.(remoteWindow := tcb.remoteWindow - len);
      } else {
        history := history.(violations := history.violations + 1);
        tcb := tcb.(remoteWindow := 0);
      }
    }

    /** A packet filled in before: only the hardware address was missing. */
    method RetryArp(b: Buffer, arp: bool) returns (b': Buffer, pending: bool)
      requires Valid() && b.pendingArp
      modifies this`tcb, this`history
      ensures Valid()
      ensures forall force: bool, probe: bool :: Filled(Abs(), b', pending) == TcpModel.SendPacket(old(Abs()), b, force, probe, arp)
    {
      pending := !arp;
      b' := b.(pendingArp := pending);
      if !pending {
        tcb := tcb.(macCached := true);
        history := Emit(history, b.header);
      }
    }

    /** The sequence number of the packet, and those its data and its SYN or FIN take. */
    method Sequence(ghost s: State, len: nat, forceAck: bool, forceProbe: bool)
      returns (num: U32, bits: Bits, mssOption: Option<U16>)
      requires s.t == tcb && s.h == history && |s.q.outgoing| == outgoing.entries && s.r.size == rcv.size
      modifies this`tcb, this`history
      ensures num == if forceProbe then Wrap32(Wrap32(s.t.seqNum + len) - 1) else s.t.seqNum
      ensures bits == CodeBits(s, len != 0, forceAck) && mssOption == MssOption(s)
      ensures tcb == s.t.(seqNum := Wrap32(s.t.seqNum + len + Control(s, forceAck)), phase := PhaseAfterSend(s, forceAck))
      ensures history == Marked(s, forceAck)
    {
      hide Wrap32, CodeBits, PhaseAfterSend, Control, MssOption, Marked;
      WrapAdd(tcb.seqNum + len, Control(s, forceAck));
      num := tcb.seqNum;
      tcb := tcb.(seqNum := Wrap32(tcb.seqNum + len));
      if forceProbe { num := Wrap32(tcb.seqNum - 1); }
      bits, mssOption := AddControl(s, len, forceAck);
    }

    /** The middle of sendPacket: the TCP header, and the sequence and window bookkeeping. */
    method FillHeader(b: Buffer, forceAck: bool, forceProbe: bool) returns (header: Segment)
      requires Valid()
      modifies this`tcb, this`history
      ensures Valid()
      ensures var s := old(Abs());
              && header == Header(s, b.data, forceAck, forceProbe)
              && tcb == s.t.(seqNum := Wrap32(s.t.seqNum + |b.data| + Control(s, forceAck)),
                             phase := PhaseAfterSend(s, forceAck),
                             remoteWindow := (if |b.data| <= s.t.remoteWindow then s.t.remoteWindow - |b.data| else 0))
              && history == Marked(s, forceAck).(violations := s.h.violations + (if |b.data| <= s.t.remoteWindow then 0 else 1))
    {
      hide Wrap32, Wrap16, CodeBits, AdvertisedWindow, PhaseAfterSend, AddsFin, AddsSyn, Control, Named,
           RingBuffer.Contents, RingBuffer.Valid, ReceiveRing.Valid, ReceiveRing.Contents, Repr, Separate;
      ghost var s := Abs();
      var num, bits, mssOption := Sequence(s, |b.data|, forceAck, forceProbe);
      var window := ComputeWindow(s);
      Spend(|b.data|);
      header := Segment(num, tcb.ackNum, bits, window, mssOption, b.data);
    }

    /** sendPacket for the buffer `b`, which is handed back as sent. */
    method SendPacket(b: Buffer, forceAck: bool, forceProbe: bool, arp: bool) returns (b': Buffer, pending: bool)
      requires Valid()
      modifies this`tcb, this`history
      ensures Valid()
      ensures Filled(Abs(), b', pending) == TcpModel.SendPacket(old(Abs()), b, forceAck, forceProbe, arp)
    {
      hide Wrap32, Wrap16, Header, PhaseAfterSend, Control, Marked, TcpModel.SendPacket, Named,
           RingBuffer.Contents, RingBuffer.Valid, ReceiveRing.Valid, ReceiveRing.Contents;
      if b.pendingArp {
        b', pending := RetryArp(b, arp);
        return;
      }
      ghost var s := Abs();
      var header := FillHeader(b, forceAck, forceProbe);
      pending := !tcb.macCached && !arp;
      b' := b.(header := header, last := Wrap32(tcb.seqNum - 1), pendingArp := pending,
               ackOnly := b.ackOnly || (|b.data| == 0 && header.bits == ACK_BITS));
      if !pending { history := Emit(history, b'.header); }
      SendPacketIs(s, b, forceAck, forceProbe, arp, header, Abs(), b');
    }

    /** sendPureAck: a packet on the stack, sent at once or lost. */
    method SendPureAck(forceProbe: bool, arp: bool)
      requires Valid()
      modifies this`tcb, this`history
      ensures Valid()
      ensures Abs() == PureAck(old(Abs()), forceProbe, arp)
    {
      if tcb.phase != Established { return; }
      var ackPacket, pending := SendPacket(Blank(), true, forceProbe, arp);
    }

    method SendResetPacket(seg: Segment, arp: bool)
      requires Valid()
      modifies this`history
      ensures Valid()
      ensures Abs() == Reset(old(Abs()), seg, arp)
    {
      hide Wrap32, Named, RingBuffer.Contents, RingBuffer.Valid, ReceiveRing.Valid, ReceiveRing.Contents;
      WrapAdd(seg.num + |seg.data|, 1);
      if seg.bits.rst { return; }
      var num := if seg.bits.ack then seg.ack else 0;
      var ack: U32 := Wrap32(seg.num + |seg.data|);
      if seg.bits.syn { ack := Wrap32(ack + 1); }
      if arp {
        history := Emit(history, Segment(num, ack, ACK_BITS.(rst := true), 0, None, []));
      }
    }

    // -------------------------------------------------------------- enqueue

    /** enqueue's optimisation: a lone queued ack gives way to the packet that comes after it. */
    method ReplaceAck()
      requires Valid() && PoolInv(Abs())
      modifies this`freeXmitBuffers, this`history, outgoing, xmitBuffers
      ensures Valid()
      ensures Abs() == DropQueuedAck(old(Abs()))
    {
      hide PoolInv, Return, Named, RingBuffer.Contents, RingBuffer.Valid, ReceiveRing.Contents, ReceiveRing.Valid;
      ghost var s := Abs();
      NamedPool(s);
      if outgoing.entries == 1 && tcb.phase == Established {
        var p := outgoing.Peek();
        var id := p.value;
        if |bufs[id].data| == 0 {
          PoolReturnFits(s, id);
          TakeOutgoing();
          ReturnXmitBuf(id);
          history := history.(replaced := history.replaced + 1);
        }
      }
    }

    /** Take the head off `outgoing`. */
    method TakeOutgoing()
      requires Valid() && outgoing.Contents() != []
      modifies outgoing
      ensures Valid()
      ensures Abs() == old(Abs()).(q := old(Q()).(outgoing := old(Q()).outgoing[1..]))
    {
      hide Slot, Cyclic, RingBuffer.Contents;
      var _ := outgoing.Dequeue();
    }

    /** Reset the buffer's bookkeeping and put it on the outgoing ring. */
    method AppendBuffer(id: nat) returns (rc: int)
      requires Valid() && id < bufs.Length
      modifies this`history, this`pendingOutgoing, outgoing, outgoing.ring, bufs
      ensures Valid()
      ensures (Abs(), rc) == Append(old(Abs()), id)
    {
      hide Wrap16, Slot, Cyclic;
      bufs[id] := bufs[id].(attempts := 0, pendingArp := false, ackOnly := false);
      rc := outgoing.Enqueue(id);
      if rc == 0 {
        pendingOutgoing := Wrap16(pendingOutgoing + 1);
        history := history.(accepted := history.accepted + bufs[id].data, held := history.held - {id});
      }
    }

    method Enqueue(id: nat) returns (rc: int)
      requires Valid() && PoolInv(Abs()) && id < bufs.Length
      modifies this`freeXmitBuffers, this`history, this`pendingOutgoing, outgoing, outgoing.ring, xmitBuffers, bufs
      ensures Valid()
      ensures (Abs(), rc) == TcpModel.Enqueue(old(Abs()), id)
    {
      hide Append, DropQueuedAck, PoolInv, RingBuffer.Contents;
      if tcb.phase == Closed || tcb.phase == Closing || (tcb.phase == TimeWait && id != bufs.Length - 1) { return RC_BAD; }
      if |bufs[id].data| > tcb.maxEnqueue { return RC_TOO_MUCH_DATA; }
      ReplaceAck();
      rc := AppendBuffer(id);
    }

    /** Queue connectPacket with no data in it. */
    method EnqueueConnectPacket()
      requires Valid() && PoolInv(Abs())
      modifies this`freeXmitBuffers, this`history, this`pendingOutgoing, outgoing, outgoing.ring, xmitBuffers, bufs
      ensures Valid()
      ensures Abs() == EnqueueConnect(old(Abs()))
    {
      var c := bufs.Length - 1;
      SamePlaces(Q(), Q().(bufs := bufs[..][c := bufs[c].(data := [])]), history.held);
      bufs[c] := bufs[c].(data := []);
      var _ := Enqueue(c);
    }

    // -------------------------------------------------------------- teardown

    /** Dequeue everything from `outgoing` and give it back to the pool. */
    method DrainOutgoing()
      requires Valid() && Conserved(Q(), history.held)
      modifies this`freeXmitBuffers, xmitBuffers, outgoing
      ensures Valid() && Conserved(Q(), history.held)
      ensures Q() == ReturnAll(old(Q()).(outgoing := []), old(outgoing.Contents()))
      ensures Abs() == old(Abs()).(q := Q())
    {
      hide Places, Slot, Cyclic, Conserved;
      while outgoing.entries != 0
        invariant Valid() && Conserved(Q(), history.held)
        invariant ReturnAll(Q().(outgoing := []), outgoing.Contents()) ==
                  ReturnAll(old(Q()).(outgoing := []), old(outgoing.Contents()))
        invariant Q() == old(Q()).(free := Q().free, outgoing := Q().outgoing)
        decreases outgoing.entries
      {
        ghost var q := Q();
        NamedOf(q, history.held);
        ReturnFits(q, history.held, q.outgoing[0]);
        RetireOutgoing(q, history.held, q.(outgoing := q.outgoing[1..]));
        var item := outgoing.Dequeue();
        ReturnXmitBuf(item.value);
        assert Q() == Return(q.(outgoing := q.outgoing[1..]), item.value);
        assert Q().(outgoing := []) == Return(q.(outgoing := []), item.value);
      }
      assert Q().(outgoing := []) == Q();
    }

    /** Dequeue everything from `sent` and give it back to the pool. */
    method DrainSent()
      requires Valid() && Conserved(Q(), history.held)
      modifies this`freeXmitBuffers, xmitBuffers, sent
      ensures Valid() && Conserved(Q(), history.held)
      ensures Q() == ReturnAll(old(Q()).(sent := []), old(sent.Contents()))
      ensures Abs() == old(Abs()).(q := Q())
    {
      hide Places, Slot, Cyclic, Conserved;
      while sent.entries != 0
        invariant Valid() && Conserved(Q(), history.held)
        invariant ReturnAll(Q().(sent := []), sent.Contents()) ==
                  ReturnAll(old(Q()).(sent := []), old(sent.Contents()))
        invariant Q() == old(Q()).(free := Q().free, sent := Q().sent)
        decreases sent.entries
      {
        ghost var q := Q();
        NamedOf(q, history.held);
        ReturnFits(q, history.held, q.sent[0]);
        RetireSent(q, history.held, q.(sent := q.sent[1..]));
        var item := sent.Dequeue();
        ReturnXmitBuf(item.value);
        assert Q() == Return(q.(sent := q.sent[1..]), item.value);
        assert Q().(sent := []) == Return(q.(sent := []), item.value);
      }
      assert Q().(sent := []) == Q();
    }

    /** Buffer_free on the packets still queued for the user. */
    method DrainIncoming()
      requires Valid()
      modifies this`history, incoming
      ensures Valid()
      ensures var s := old(Abs());
              Abs() == s.(r := s.r.(incoming := []), h := s.h.(freed := s.h.freed + s.r.incoming))
    {
      hide Slot, Cyclic, Named, RingBuffer.Contents, RingBuffer.Valid, ReceiveRing.Contents, ReceiveRing.Valid;
      while incoming.entries != 0
        invariant Valid() && T() == old(T()) && Q() == old(Q())
        invariant R() == old(R()).(incoming := R().incoming)
        invariant history == old(history).(freed := history.freed)
        invariant history.freed + incoming.Contents() == old(history.freed) + old(incoming.Contents())
        decreases incoming.entries
      {
        var packet := incoming.Dequeue();
        history := history.(freed := history.freed + [packet.value]);
      }
    }

    method ClearQueues()
      requires Valid() && PoolInv(Abs())
      modifies this`freeXmitBuffers, this`pendingOutgoing, this`pendingSent, this`history
      modifies xmitBuffers, outgoing, sent, incoming
      ensures Valid()
      ensures Abs() == TcpModel.ClearQueues(old(Abs()))
    {
      hide Conserved, ReturnAll, Slot, Cyclic, Wrap16, RingBuffer.Contents, RingBuffer.Valid, Named;
      ghost var s := Abs();
      var tmp := outgoing.entries;
      DrainOutgoing();
      ghost var q1 := Q();
      pendingOutgoing := Wrap16(pendingOutgoing - tmp);
      SamePlaces(q1, Q(), history.held);
      ghost var q2 := Q();
      tmp := sent.entries;
      DrainSent();
      pendingSent := Wrap16(pendingSent - tmp);
      ClearedQueues(s, q1, q2, Q());
      DrainIncoming();
    }

    method Destroy()
      requires Valid() && PoolInv(Abs())
      modifies this`freeXmitBuffers, this`pendingOutgoing, this`pendingSent, this`history, this`tcb, this`haveRcvBuffer
      modifies xmitBuffers, outgoing, sent, incoming
      ensures Valid()
      ensures Abs() == TcpModel.Destroy(old(Abs()))
    {
      hide TcpModel.ClearQueues, PoolInv;
      ClearQueues();
      tcb := tcb.(phase := Closed);
      haveRcvBuffer := false;
      history := history.(aborted := true);
    }

    method CloseLocal()
      requires Valid() && PoolInv(Abs())
      modifies Repr()
      ensures Valid()
      ensures Abs() == TcpModel.CloseLocal(old(Abs()))
    {
      hide EnqueueConnect;
      var sendPacket := false;
      match tcb.phase {
        case Closed | TimeWait | SynSent => tcb := tcb.(phase := Closed);
        case SynRecved => tcb := tcb.(phase := SendFin3); sendPacket := true;
        case Established => tcb := tcb.(phase := SendFin1); sendPacket := true;
        case CloseWait => tcb := tcb.(phase := SendFin2); sendPacket := true;
        case _ =>
      }
      if sendPacket && outgoing.entries == 0 {
        SamePool(old(Abs()), Abs());
        EnqueueConnectPacket();
      }
    }

    /** connect2: the SYN is connectPacket. */
    method Connect() returns (rc: int)
      requires Valid() && PoolInv(Abs())
      modifies Repr()
      ensures Valid()
      ensures Abs() == TcpModel.Connect(old(Abs()))
      ensures rc == if old(tcb.phase) == Closed then RC_GOOD else RC_BAD
    {
      hide EnqueueConnect;
      if tcb.phase != Closed { return RC_BAD; }
      tcb := tcb.(phase := SynSent);
      SamePool(old(Abs()), Abs());
      EnqueueConnectPacket();
      return RC_GOOD;
    }

    // -------------------------------------------------------------- acknowledgements and the clock

    method RemoveSentPackets(target: U32)
      requires Valid() && PoolInv(Abs())
      modifies this`freeXmitBuffers, this`pendingSent, this`history, this`tcb, xmitBuffers, sent
      ensures Valid()
      ensures Abs() == RemoveSent(old(Abs()), target)
    {
      hide Slot, Cyclic, Wrap16, PoolInv, RemoveSent, PopSent, RingBuffer.Contents, ReceiveRing.Valid;
      while true
        invariant Valid() && PoolInv(Abs())
        invariant RemoveSent(Abs(), target) == RemoveSent(old(Abs()), target)
        decreases sent.entries
      {
        ghost var s := Abs();
        RemoveSentStep(s, target);
        var p := sent.Peek();
        if p.None? {
          tcb := tcb.(oldest := tcb.seqNum);
          return;
        }
        var last := bufs[p.value].last;
        if last < target || (last > target && target < tcb.oldest && last >= tcb.oldest) {
          PopSentKeeps(s);
          RemoveOldest();
        } else {
          tcb := tcb.(oldest := bufs[p.value].header.num);
          return;
        }
      }
    }

    method RemoveOldest()
      requires Valid() && PoolInv(Abs()) && sent.Contents() != []
      modifies this`freeXmitBuffers, this`pendingSent, this`history, xmitBuffers, sent
      ensures Valid()
      ensures Abs() == PopSent(old(Abs()))
    {
      hide Wrap16, PoolInv, Return, Named, PopSent, RingBuffer.Contents, RingBuffer.Valid, ReceiveRing.Contents, ReceiveRing.Valid;
      ghost var s := Abs();
      PoolReturnFits(s, s.q.sent[0]);
      NamedPool(s);
      var id := LeaveSent();
      ReturnXmitBuf(id);
      history := history.(una := history.una + |bufs[id].data|);
      PopSentIs(s);
    }

    /** Take the oldest packet off `sent`. */
    method LeaveSent() returns (id: nat)
      requires Valid() && sent.Contents() != []
      modifies this`pendingSent, sent
      ensures Valid() && id == old(Q()).sent[0]
      ensures Abs() == old(Abs()).(q := old(Q()).(sent := old(Q()).sent[1..], pendingSent := Wrap16(old(pendingSent) - 1)))
    {
      hide Slot, Cyclic, Wrap16, RingBuffer.Contents;
      var p := sent.Dequeue();
      pendingSent := Wrap16(pendingSent - 1);
      id := p.value;
    }

    /** A packet has just been sent for the first time. */
    method FirstSent(id: nat, b: Buffer)
      requires Valid() && PoolInv(Abs()) && outgoing.Contents() != [] && id == outgoing.Contents()[0]
      requires |sent.Contents()| < RING
      modifies this`freeXmitBuffers, this`pendingSent, this`pendingOutgoing, xmitBuffers, outgoing, sent, sent.ring, bufs
      ensures Valid()
      ensures Abs() == AfterSend(old(Abs()), id, b)
    {
      hide Wrap16, PoolInv, AfterSend, Return, Named, RingBuffer.Contents, RingBuffer.Valid, ReceiveRing.Contents, ReceiveRing.Valid;
      ghost var s := Abs();
      PoolReturnFits(s, id);
      NamedPool(s);
      LeaveOutgoing(id, b.(attempts := b.attempts + 1));
      if !b.ackOnly { TrackSent(id); } else { ReturnXmitBuf(id); }
      AfterSendIs(s, id, b);
    }

    /** Note that the head of `outgoing` was sent as `b`, and take it off. */
    method LeaveOutgoing(id: nat, b: Buffer)
      requires Valid() && outgoing.Contents() != [] && id == outgoing.Contents()[0]
      modifies this`pendingOutgoing, outgoing, bufs
      ensures Valid() && outgoing.Contents() == old(Q()).outgoing[1..]
      ensures Abs() == old(Abs()).(q := old(Q()).(bufs := old(Q()).bufs[id := b], outgoing := old(Q()).outgoing[1..],
                                                  pendingOutgoing := Wrap16(old(pendingOutgoing) - 1)))
    {
      hide Slot, Cyclic, Wrap16, RingBuffer.Contents;
      bufs[id] := b;
      TakeOutgoing();
      pendingOutgoing := Wrap16(pendingOutgoing - 1);
    }

    /** Put a packet on `sent`, where it stays until it is acknowledged. */
    method TrackSent(id: nat)
      requires Valid() && id < bufs.Length && |sent.Contents()| < RING
      modifies this`pendingSent, sent, sent.ring
      ensures Valid()
      ensures Abs() == old(Abs()).(q := old(Q()).(sent := old(Q()).sent + [id], pendingSent := Wrap16(old(pendingSent) + 1)))
    {
      hide Slot, Cyclic, Wrap16, RingBuffer.Contents;
      var _ := sent.Enqueue(id);
      pendingSent := Wrap16(pendingSent + 1);
    }

    /** The loop of drivePackets2 over the packets waiting to be sent. */
    method DriveOutgoing(probeDue: bool, arp: bool)
      requires Valid() && PoolInv(Abs())
      modifies Repr()
      ensures Valid()
      ensures Abs() == DriveLoop(old(Abs()), probeDue, arp)
    {
      hide Places, Slot, Cyclic, Wrap16, PoolInv, DriveLoop, TcpModel.SendPacket, AfterSend, PureAck,
           RingBuffer.Contents;
      while outgoing.entries != 0 && sent.entries < RING
        invariant Valid() && PoolInv(Abs())
        invariant DriveLoop(Abs(), probeDue, arp) == DriveLoop(old(Abs()), probeDue, arp)
        decreases outgoing.entries
      {
        ghost var s := Abs();
        DriveLoopStep(s, probeDue, arp);
        var p := outgoing.Peek();
        var id := p.value;
        if |bufs[id].data| > tcb.remoteWindow {
          if probeDue { SendPureAck(true, arp); }
          return;
        }
        var b, pending := SendPacket(bufs[id], false, false, arp);
        SendPacketFrame(s, s.q.bufs[id], false, false, arp);
        if pending {
          SetBuffer(id, b);
          return;
        }
        SamePool(s, Abs());
        AfterSendKeeps(Abs(), id, b);
        FirstSent(id, b);
      }
      DriveLoopStep(Abs(), probeDue, arp);
    }

    method ResendPacket(id: nat)
      requires Valid() && id < bufs.Length
      modifies this`history, bufs
      ensures Valid()
      ensures var s := old(Abs());
              var b := s.q.bufs[id];
              Abs() == s.(q := s.q.(bufs := s.q.bufs[id := b.(attempts := b.attempts + 1)]),
                          h := Emit(s.h, b.header.(data := b.data)))
    {
      history := Emit(history, bufs[id].header.(data := bufs[id].data));
      bufs[id] := bufs[id].(attempts := bufs[id].attempts + 1);
    }

    /** drivePackets2; `overdue` and `probeDue` are what the clock says. */
    method DrivePackets(overdue: bool, probeDue: bool, arp: bool)
      requires Valid() && PoolInv(Abs())
      modifies Repr()
      ensures Valid()
      ensures Abs() == Drive(old(Abs()), overdue, probeDue, arp)
    {
      hide TcpModel.Destroy, DriveLoop, PoolInv, Slot, Cyclic, RingBuffer.Contents, ReceiveRing.Contents, ReceiveRing.Valid;
      var p := sent.Peek();
      if p.Some? && overdue {
        var id := p.value;
        if bufs[id].attempts > RETRANS_COUNT {
          Destroy();
          tcb := tcb.(closeReason := 4);
        } else {
          ResendPacket(id);
        }
        return;
      }
      DriveOutgoing(probeDue, arp);
    }

    // -------------------------------------------------------------- packets from the peer

    /** Buffer_free on a packet. */
    method FreePacket(p: Packet)
      requires Valid()
      modifies this`history
      ensures Valid()
      ensures Abs() == Freed(old(Abs()), p)
    {
      history := history.(freed := history.freed + [p]);
    }

    /** Take over the window of a packet; `ack` is only for the record. */
    method AdoptWindow(ghost ack: U32, window: U16)
      requires Valid()
      modifies this`tcb, this`history
      ensures Valid()
      ensures Abs() == Adopt(old(Abs()), ack, window)
    {
      hide Data, Named;
      ghost var s := Abs();
      tcb := tcb.(remoteWindow := window);
      history := Adopt(s, ack, window).h;
    }

    /** processPacketData */
    method ProcessPacketData(p: Packet) returns (freePacket: bool, playDead: bool)
      requires Valid() && |p.seg.data| < TWO16
      modifies this`tcb, this`history, incoming, incoming.ring, rcv, rcv.buffer
      ensures Valid()
      ensures Taken(Abs(), freePacket, playDead) == TakeData(old(Abs()), p)
    {
      hide Slot, Cyclic, Wrap32, Named;
      freePacket, playDead := true, false;
      if tcb.disableReads {
        tcb := tcb.(ackNum := Wrap32(tcb.ackNum + |p.seg.data|));
      } else if !haveRcvBuffer {
        if incoming.entries < RING {
          tcb := tcb.(ackNum := Wrap32(tcb.ackNum + |p.seg.data|));
          history := history.(delivered := history.delivered + p.seg.data);
          var _ := incoming.Enqueue(p);
          freePacket := false;
        } else {
          playDead := true;
        }
      } else {
        var good := rcv.AddToRcvBuf(p.seg.data);
        if good {
          tcb := tcb.(ackNum := Wrap32(tcb.ackNum + |p.seg.data|));
          history := history.(delivered := history.delivered + p.seg.data);
        } else {
          playDead := true;
        }
      }
    }

    /** Count a good packet; a long enough streak lifts the window restriction. */
    method NotePacket(ghost s: State, seg: Segment)
      requires s.t == tcb && s.h == history
      modifies this`tcb, this`history
      ensures tcb == Noted(s, seg).t && history == Noted(s, seg).h
    {
      if tcb.goodPackets < 255 { tcb := tcb.(goodPackets := tcb.goodPackets + 1); }
      tcb := tcb.(seqErrs := 0);
      if tcb.goodPackets > 50 { tcb := tcb.(smallWindow := false); }
      history := history.(finAcked := history.finAcked || (history.fins > 0 && seg.ack == tcb.seqNum));
    }

    /** The bookkeeping of an acceptable packet before its data is looked at. */
    method CreditPacket(seg: Segment)
      requires Valid() && PoolInv(Abs())
      modifies this`freeXmitBuffers, this`pendingSent, this`history, this`tcb, xmitBuffers, sent
      ensures Valid()
      ensures Abs() == Credit(old(Abs()), seg)
    {
      hide RemoveSent, PoolInv, Adopt, Noted, Slot, Cyclic, Named, RingBuffer.Contents;
      ghost var s := Abs();
      NotedPool(s, seg);
      NotePacket(s, seg);
      NotedRest(s, seg);
      if sent.entries != 0 { RemoveSentPackets(seg.ack); }
      if sent.entries == 0 { AdoptWindow(seg.ack, seg.window); }
    }

    /** The switch of process2; `generate` says whether it asks for a packet. */
    method ChangeState(seg: Segment, current: bool, arp: bool) returns (generate: bool)
      requires Valid() && PoolInv(Abs())
      modifies Repr()
      ensures Valid()
      ensures Abs() == Advance(old(Abs()), seg, current, arp)
      ensures generate == AcksFin(old(tcb.phase), seg)
    {
      hide Advance, PoolInv, Named, Slot, Cyclic, RingBuffer.Contents, ReceiveRing.Contents;
      ghost var s := Abs();
      if tcb.phase == SynRecved {
        FinishOpen(seg, current, arp);
        generate := false;
      } else {
        AdvanceRest(s, seg, current, arp);
        generate := SwitchPhase(s, seg, current, arp);
      }
    }

    /** Its cases but SYN_RECVED touch only the state, ackNum and the record of the peer's FIN. */
    method SwitchPhase(ghost s: State, seg: Segment, current: bool, ghost arp: bool) returns (generate: bool)
      requires s.t == tcb && s.h == history && Named(s.q) && tcb.phase != SynRecved
      modifies this`tcb, this`history
      ensures tcb == Advance(s, seg, current, arp).t && history == Advance(s, seg, current, arp).h
      ensures generate == AcksFin(s.t.phase, seg)
    {
      hide Wrap32, Named;
      generate := false;
      match tcb.phase {
        case Established =>
          if seg.bits.fin {
            CountPeerFin();
            tcb := tcb.(phase := CloseWait);
            generate := true;
          }
        case SendFin1 =>
          if seg.bits.fin {
            CountPeerFin();
            tcb := tcb.(phase := SendFin2);
          }
        case LastAck =>
          tcb := tcb.(phase := Closed);
        case FinWait1 =>
          if seg.bits.fin {
            CountPeerFin();
            tcb := tcb.(phase := if current then TimeWait else Closing);
            generate := true;
          } else if current {
            tcb := tcb.(phase := FinWait2);
          }
        case FinWait2 =>
          if seg.bits.fin {
            CountPeerFin();
            tcb := tcb.(phase := TimeWait);
            generate := true;
          }
        case Closing =>
          if current { tcb := tcb.(phase := TimeWait); }
        case _ =>
      }
    }

    /** SYN_RECVED: up if our SYN-ACK is acknowledged, otherwise a reset. */
    method FinishOpen(seg: Segment, current: bool, arp: bool)
      requires Valid() && PoolInv(Abs()) && tcb.phase == SynRecved
      modifies Repr()
      ensures Valid()
      ensures Abs() == Advance(old(Abs()), seg, current, arp)
    {
      hide TcpModel.ClearQueues, Reset, Adopt, Wrap32, Slot, Cyclic, Named, PoolInv, RingBuffer.Contents,
           RingBuffer.Valid, ReceiveRing.Contents, ReceiveRing.Valid, Q;
      if current {
        tcb := tcb.(phase := Established);
        AdoptWindow(seg.ack, seg.window);
      } else {
        ClearQueues();
        SendResetPacket(seg, arp);
      }
    }

    method CountPeerFin()
      modifies this`tcb, this`history
      ensures tcb == old(tcb).(ackNum := Wrap32(old(tcb.ackNum) + 1))
      ensures history == old(history).(finsRcvd := old(history.finsRcvd) + 1)
    {
      tcb := tcb.(ackNum := Wrap32(tcb.ackNum + 1));
      history := history.(finsRcvd := history.finsRcvd + 1);
    }

    /** process2 for a packet whose sequence and ack numbers are both acceptable. */
    method ProcessAcceptable(p: Packet, arp: bool)
      requires Valid() && PoolInv(Abs()) && |p.seg.data| < TWO16
      modifies Repr()
      ensures Valid()
      ensures Abs() == Accept(old(Abs()), p, arp)
    {
      hide Credit, TakeData, Advance, EnqueueConnect, PoolInv, AcksFin, Slot, Cyclic, Named, RingBuffer.Contents,
           RingBuffer.Valid, ReceiveRing.Contents, ReceiveRing.Valid;
      ghost var s := Abs();
      var current := p.seg.ack == tcb.seqNum;
      var freePacket, generate := true, false;
      CreditKeeps(s, p.seg);
      CreditPacket(p.seg);
      ghost var s1 := Abs();
      if |p.seg.data| != 0 {
        var playDead;
        freePacket, playDead := ProcessPacketData(p);
        TakeDataPool(s1, p);
        if playDead {
          FreePacket(p);
          return;
        }
        generate := outgoing.entries == 0;
      }
      ghost var s2 := Abs();
      AdvanceKeeps(s2, p.seg, current, arp);
      var acksFin := ChangeState(p.seg, current, arp);
      if generate || acksFin { EnqueueConnectPacket(); }
      if freePacket { FreePacket(p); }
    }

    /** process2 in SYN_SENT. */
    method ProcessSynSent(p: Packet, arp: bool)
      requires Valid() && PoolInv(Abs()) && tcb.phase == SynSent
      modifies Repr()
      ensures Valid()
      ensures Abs() == ReceiveSynSent(old(Abs()), p, arp)
    {
      hide TcpModel.Destroy, OpenComplete, SimultaneousOpen, EnqueueConnect, Reset, PoolInv, Slot, Cyclic, Named;
      var seg := p.seg;
      var current := seg.bits.ack && seg.ack == tcb.seqNum;
      if seg.bits.rst {
        if current {
          Destroy();
          tcb := tcb.(closeReason := 1);
        }
      } else if seg.bits.syn {
        if seg.bits.ack {
          if current {
            OpenCompleteKeeps(Abs(), seg);
            CompleteOpen(seg);
            EnqueueConnectPacket();
          } else {
            SendResetPacket(seg, arp);
          }
        } else {
          OpenSimultaneously(seg);
        }
      } else {
        SendResetPacket(seg, arp);
      }
      FreePacket(p);
    }

    method CompleteOpen(seg: Segment)
      requires Valid() && PoolInv(Abs())
      modifies Repr()
      ensures Valid()
      ensures Abs() == OpenComplete(old(Abs()), seg)
    {
      hide RemoveSent, Adopt, Wrap32, PoolInv, Slot, Cyclic, Named;
      RemoveSentTcb(Abs(), seg.ack);
      RemoveSentPackets(seg.ack);
      tcb := tcb.(phase := Established, ackNum := Wrap32(seg.num + 1));
      SetMaxEnqueueSize(seg);
      AdoptWindow(seg.ack, seg.window);
    }

    /** setMaxEnqueueSize */
    method SetMaxEnqueueSize(seg: Segment)
      modifies this`tcb
      ensures tcb == old(tcb).(maxEnqueue := MaxEnqueueFor(old(tcb), seg))
    {
      var remoteMss := ReadMss(seg);
      var size := remoteMss;
      if tcb.mss < size { size := tcb.mss; }
      tcb := tcb.(maxEnqueue := size);
    }

    method OpenSimultaneously(seg: Segment)
      requires Valid() && PoolInv(Abs())
      modifies Repr()
      ensures Valid()
      ensures Abs() == SimultaneousOpen(old(Abs()), seg)
    {
      hide TcpModel.ClearQueues, EnqueueConnect, Wrap32, PoolInv, Slot, Cyclic, Named, RingBuffer.Valid, RingBuffer.Contents,
           ReceiveRing.Valid, ReceiveRing.Contents;
      ghost var s := Abs();
      BackOneNumber(seg);
      SamePool(s, Abs());
      ClearQueuesKeeps(Abs());
      ClearQueues();
      EnqueueConnectPacket();
    }

    /** The peer's SYN is taken, ours will be sent again with the same number. */
    method BackOneNumber(seg: Segment)
      modifies this`tcb, this`history
      ensures tcb == old(tcb).(phase := SynRecved, ackNum := Wrap32(seg.num + 1),
                               maxEnqueue := MaxEnqueueFor(old(tcb), seg), seqNum := Wrap32(old(tcb.seqNum) - 1))
      ensures history == old(history).(iss := tcb.seqNum, synSent := false)
    {
      hide Wrap32;
      tcb := tcb.(phase := SynRecved, ackNum := Wrap32(seg.num + 1));
      SetMaxEnqueueSize(seg);
      tcb := tcb.(seqNum := Wrap32(tcb.seqNum - 1));
      history := history.(iss := tcb.seqNum, synSent := false);
    }

    method CountSeqError()
      requires Valid()
      modifies this`tcb
      ensures Valid()
      ensures Abs() == SeqError(old(Abs()))
    {
      tcb := tcb.(goodPackets := 0);
      if tcb.seqErrs < 255 { tcb := tcb.(seqErrs := tcb.seqErrs + 1); }
      if tcb.seqErrs > 4 { tcb := tcb.(smallWindow := true); }
    }

    /** process2 once the peer's sequence numbers are known. */
    method ProcessSynchronized(p: Packet, arp: bool)
      requires Valid() && PoolInv(Abs()) && |p.seg.data| < TWO16
      modifies Repr()
      ensures Valid()
      ensures Abs() == ReceiveSynchronized(old(Abs()), p, arp)
    {
      hide TcpModel.Destroy, Accept, PureAck, SeqError, PoolInv, Slot, Cyclic, Named, Wrap32, RingBuffer.Valid;
      var seg := p.seg;
      var ackProper := false;
      if seg.bits.ack {
        if tcb.oldest < tcb.seqNum {
          ackProper := seg.ack >= tcb.oldest && seg.ack <= tcb.seqNum;
        } else {
          ackProper := seg.ack >= tcb.oldest || seg.ack <= tcb.seqNum;
        }
      }
      var seqProper := seg.num == tcb.ackNum;
      if tcb.phase == SynRecved && (seg.num == tcb.ackNum || seg.num == Wrap32(tcb.ackNum - 1)) { seqProper := true; }

      if seg.bits.rst {
        if seqProper {
          Destroy();
          tcb := tcb.(closeReason := 1);
        }
        FreePacket(p);
      } else if ackProper && seqProper {
        ProcessAcceptable(p, arp);
      } else {
        SendPureAck(false, arp);
        CountSeqError();
        FreePacket(p);
      }
    }

    /** A packet addressed to this socket: the routing of process, then process2. */
    method Process(p: Packet, arp: bool)
      requires Valid() && PoolInv(Abs()) && |p.seg.data| < TWO16
      modifies Repr()
      ensures Valid()
      ensures Abs() == Receive(old(Abs()), p, arp)
    {
      hide Reset, ReceiveSynSent, ReceiveSynchronized, PoolInv;
      if tcb.phase == Closed || tcb.phase == TimeWait {
        SendResetPacket(p.seg, arp);
        FreePacket(p);
      } else if tcb.phase == SynSent {
        ProcessSynSent(p, arp);
      } else {
        ProcessSynchronized(p, arp);
      }
    }

    // -------------------------------------------------------------- the user's calls

    method SuggestedSendSize() returns (n: U16)
      ensures n == SendSize(tcb)
    {
      n := if tcb.maxEnqueue < tcb.remoteWindow then tcb.maxEnqueue else tcb.remoteWindow;
    }

    /** Copy data into a buffer the caller holds and queue it. */
    method FillAndEnqueue(id: nat, data: seq<Byte>)
      requires Valid() && PoolInv(Abs()) && id in history.held
      modifies Repr()
      ensures Valid() && PoolInv(Abs()) && tcb == old(tcb)
      ensures Abs() == Queued(old(Abs()), id, data)
    {
      hide PoolInv, TcpModel.Enqueue, Slot, Cyclic, RingBuffer.Contents;
      HeldNamed(Abs(), id);
      ghost var s := Abs();
      SetBuffer(id, bufs[id].(data := data));
      FilledPool(s, Abs());
      EnqueueKeeps(Abs(), id);
      EnqueueTcb(Abs(), id);
      var _ := Enqueue(id);
    }

    /** One turn of the loop of send: nothing if no buffer is free. */
    method SendNext(userBuf: seq<Byte>, bytesSent: nat) returns (n: Option<nat>)
      requires Valid() && PoolInv(Abs()) && bytesSent < |userBuf| < TWO16 && outgoing.entries != RING
      requires tcb.phase == Established && !Spins(Abs(), userBuf[bytesSent..])
      modifies Repr()
      ensures Valid() && PoolInv(Abs()) && tcb == old(tcb)
      ensures n.None? <==> old(Q()).free == []
      ensures n.None? ==> Abs() == old(Abs())
      ensures n.Some? ==>
                && bytesSent + n.value <= |userBuf| && SendGoes(old(Abs()), userBuf[bytesSent..])
                && (Abs(), userBuf[bytesSent + n.value..]) == SendTurn(old(Abs()), userBuf[bytesSent..])
    {
      hide SendLoop, Spins, SendTurn, PoolInv, GetBuffer, Queued, Named, RingBuffer.Contents,
           ReceiveRing.Contents, RingBuffer.Valid, ReceiveRing.Valid;
      ghost var s, rest := Abs(), userBuf[bytesSent..];
      SendLoopStep(s, rest);
      SendStops(s, rest);
      GetBufferKeeps(s);
      var tmp := GetXmitBuf();
      if tmp.None? { return None; }
      var cpyLen := SuggestedSendSize();
      if |userBuf| - bytesSent < cpyLen { cpyLen := |userBuf| - bytesSent; }
      assert rest[..cpyLen] == userBuf[bytesSent..bytesSent + cpyLen];
      FillAndEnqueue(tmp.value, userBuf[bytesSent..bytesSent + cpyLen]);
      assert rest[cpyLen..] == userBuf[bytesSent + cpyLen..];
      return Some(cpyLen);
    }

    /** send, from every state in which its loop ends. */
    method Send(userBuf: seq<Byte>) returns (rc: int)
      requires Valid() && PoolInv(Abs()) && |userBuf| < TWO16
      requires tcb.phase == Established && tcb.remoteWindow != 0 ==> !Spins(Abs(), userBuf)
      modifies Repr()
      ensures Valid()
      ensures (Abs(), rc) == TcpModel.Send(old(Abs()), userBuf)
    {
      hide SendLoop, Spins, SendGoes, SendTurn, PoolInv, Queued, Named, RingBuffer.Contents,
           ReceiveRing.Contents, RingBuffer.Valid, ReceiveRing.Valid;
      if tcb.phase != Established { return RC_BAD; }
      if tcb.remoteWindow == 0 { return 0; }
      var bytesSent := 0;
      assert userBuf[0..] == userBuf;
      while bytesSent < |userBuf|
        invariant Valid() && PoolInv(Abs()) && bytesSent <= |userBuf|
        invariant tcb.phase == Established && !Spins(Abs(), userBuf[bytesSent..])
        invariant SendLoop(Abs(), userBuf[bytesSent..]) == SendLoop(old(Abs()), userBuf)
        decreases |userBuf| - bytesSent, freeXmitBuffers
      {
        ghost var s, rest := Abs(), userBuf[bytesSent..];
        SendLoopStep(s, rest);
        SendStops(s, rest);
        if outgoing.entries == RING { break; }
        var n := SendNext(userBuf, bytesSent);
        if n.None? { break; }
        SendTurnShrinks(s, rest);
        bytesSent := bytesSent + n.value;
      }
      if bytesSent == |userBuf| { SendStops(Abs(), []); }
      SendLoopStep(Abs(), userBuf[bytesSent..]);
      return bytesSent;
    }

    /**
     * recv into the user's buffer.  The ring's memory is gone once destroy has run, but then the
     * socket is closed and the call is refused before it looks.
     */
    method Recv(userBuf: array<Byte>, userBufLen: U16, arp: bool) returns (rc: int)
      requires Valid() && userBufLen <= userBuf.Length && userBuf !in Repr()
      modifies Repr(), userBuf
      ensures Valid()
      ensures var (s, code, out) := TcpModel.Recv(old(Abs()), userBufLen, arp);
              Abs() == s && rc == code && userBuf[..] == out + old(userBuf[|out|..])
    {
      hide PureAck, Slot, Cyclic, Named, Wrap16, RingBuffer.Contents, ReceiveRing.Contents, RingBuffer.Valid, ReceiveRing.Valid;
      ghost var was := userBuf[..];
      var origWin := Wrap16(rcv.size - rcv.entries);
      if tcb.phase == Closed || tcb.phase == SynSent || tcb.phase == SynRecved { return RC_RECV_BAD_STATE; }
      if rcv.entries == 0 || userBufLen == 0 { return 0; }
      var n := rcv.Take(userBuf, userBufLen);
      history := history.(consumed := history.consumed + userBuf[..n]);
      if origWin == 0 { SendPureAck(false, arp); }
      return n;
    }

    /** The user takes the next raw packet and frees it. */
    method TakeIncoming() returns (packet: Option<Packet>)
      requires Valid()
      modifies this`history, incoming
      ensures Valid()
      ensures Abs() == TakePacket(old(Abs()))
      ensures packet == if old(R().incoming) == [] then None else Some(old(R().incoming[0]))
    {
      hide Slot, Cyclic, Named;
      packet := incoming.Dequeue();
      if packet.Some? {
        history := history.(consumed := history.consumed + packet.value.seg.data, freed := history.freed + [packet.value]);
      }
    }
  }
}
