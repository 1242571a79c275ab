/**
 * Where the engine departs from what its comments or RFC 793 promise.  Each lemma says for which
 * states the departure happens, usually as an if-and-only-if.
 */
module TcpLimits {
  import opened Machine
  import opened Counting
  import opened TcpModel
  import opened TcpPool
  import opened TcpStream
  import opened TcpRuns
  import opened TcpAcks
  import opened TcpReceive

  // ---------------------------------------------------------------- acks around zero

  function Zeros(n: nat): seq<Byte> { seq(n, _ => 0) }

  /** One packet of 22 bytes on `sent`, from sixteen below zero on the sequence circle. */
  ghost function Wrapped(): State {
    var w := Segment(0xFFFF_FFF0, 1, ACK_BITS, 0, None, Zeros(22));
    State(
      Tcb(Established, 6, 1, 0xFFFF_FFF0, 1000, 1000, 1000, false, 0, 0, false, true, 0),
      Queues([Buffer(Zeros(22), w, 5, 1, false, false), Blank()], [], [], [0], 1, 0),
      Receiver(0, false, [], []),
      History(0xFFFF_FFEF, true, 0, Zeros(22), 0, 1022, 0, 0, 0, 0, {}, [], [], [], 0, false, false, []))
  }

  lemma WrappedHolds()
    ensures StreamInv(Wrapped()) && Acked(Wrapped().q.bufs, [0], 0xFFFF_FFF0, 0xFFFF_FFF0) == 0
  {
    var s := Wrapped();
    assert Places(s.q, s.h.held, 0) == 1 by {
      assert [0][..0] == [] && s.q.sent == [0];
    }
    DataSingle(s.q.bufs, 0);
    assert s.h.accepted[0..] == s.h.accepted;
    assert SentOk(s, 0) by { assert s.q.sent[..0] == []; }
  }

  /** There a duplicate ack, which acknowledges none of the 22 bytes, makes the engine forget them all. */
  lemma StraddleExample()
    ensures var s := Wrapped();
            && StreamInv(s) && Straddles(s, s.t.oldest) && Ahead(s.t.oldest, s.t.oldest) == 0
            && RemoveSent(s, s.t.oldest).q.sent == [] && RemoveSent(s, s.t.oldest).h.una == 22
  {
    WrappedHolds();
    assert PopSent(Wrapped()).q.sent == [];
  }

  // ---------------------------------------------------------------- our FIN

  /**
   * Our FIN rides on connectPacket and is still unacknowledged.  Sending whatever is queued
   * rewrites the header of that very packet, so a later retransmission carries the FIN exactly
   * if nothing was queued (or `sent` had no slot).
   */
  lemma FinHeaderOverwritten(s: State, probeDue: bool, arp: bool)
    requires Core(s) && !s.h.aborted && s.h.fins == 1
    requires s.q.sent != [] && s.q.sent[|s.q.sent| - 1] == Conn(s.q)
    requires s.q.bufs[Conn(s.q)].header.bits.fin
    ensures var s' := DriveLoop(s, probeDue, arp);
            && s'.q.sent == s.q.sent && |s'.q.bufs| == |s.q.bufs|
            && (s'.q.bufs[Conn(s.q)].header.bits.fin <==> s.q.outgoing == [] || |s.q.sent| >= RING)
  {
    hide Places, WireOk, SentOk, Data, Wrap32, Wrap16;
    OnlyAcksQueued(s);
    if s.q.outgoing != [] && |s.q.sent| < RING { AcksOverwrite(s, probeDue, arp); }
  }

  /** Nothing but connectPacket is queued, empty, and no SYN or FIN is due. */
  predicate AcksOnly(s: State) {
    && Named(s.q) && !AddsSyn(s) && !IsSendFin(s.t.phase)
    && (forall i :: 0 <= i < |s.q.outgoing| ==> s.q.outgoing[i] == Conn(s.q))
    && (s.q.outgoing != [] ==> s.q.bufs[Conn(s.q)].data == [] && !s.q.bufs[Conn(s.q)].pendingArp)
  }

  lemma OnlyAcksQueued(s: State)
    requires Core(s) && !s.h.aborted && s.h.fins == 1
    ensures AcksOnly(s)
  {
    hide Places, WireOk, SentOk, SentAll, Accounts;
    if s.q.outgoing != [] { FirstOutOk(s); }
    forall i | 0 <= i < |s.q.outgoing| ensures s.q.outgoing[i] == Conn(s.q) {
      assert OutOk(s, i);
    }
  }

  /** The loop sends such acks and leaves `sent` alone. */
  lemma {:induction false} AcksOverwrite(s: State, probeDue: bool, arp: bool)
    requires AcksOnly(s) && |s.q.sent| < RING
    ensures var s' := DriveLoop(s, probeDue, arp);
            && s'.q.sent == s.q.sent && |s'.q.bufs| == |s.q.bufs|
            && (s.q.outgoing != [] || !s.q.bufs[Conn(s.q)].header.bits.fin ==> !s'.q.bufs[Conn(s.q)].header.bits.fin)
    decreases |s.q.outgoing|
  {
    hide Wrap32, Wrap16, AdvertisedWindow;
    if s.q.outgoing != [] && (s.t.macCached || arp) { AcksOverwrite(HeadSent(s, arp), probeDue, arp); }
  }

  /**
   * The last queued packet takes the FIN along.  It reaches `sent`, where it can be sent again, if and
   * only if its ack-only mark is fresh, whatever is on `sent` before it.
   */
  lemma FinTracked(s: State, probeDue: bool, arp: bool)
    requires Named(s.q) && |s.q.outgoing| == 1 && |s.q.sent| < RING && IsSendFin(s.t.phase)
    requires var b := s.q.bufs[s.q.outgoing[0]];
             |b.data| <= s.t.remoteWindow && !b.pendingArp && (s.t.macCached || arp)
    ensures var s' := DriveLoop(s, probeDue, arp);
            var id := s.q.outgoing[0];
            && s'.h.fins == s.h.fins + 1 && s'.h.finAcked == s.h.finAcked && s'.q.outgoing == []
            && s'.t.ackNum == s.t.ackNum && s'.t.oldest == s.t.oldest
            && s'.t.seqNum == Wrap32(s.t.seqNum + |s.q.bufs[id].data| + 1)
            && (s'.q.sent == s.q.sent + [id] <==> !s.q.bufs[id].ackOnly)
            && (s'.q.sent == s.q.sent <==> s.q.bufs[id].ackOnly)
  {
    hide Wrap32, Wrap16, AdvertisedWindow;
  }

  /**
   * And the mark can be stale: with two acks queued from connectPacket the first send sets it, so
   * the FIN that rides on the second is never tracked.
   */
  lemma FinUntracked(s: State, arp: bool)
    requires Named(s.q) && s.q.outgoing == [Conn(s.q), Conn(s.q)] && s.q.sent == [] && s.t.phase == SendFin2
    requires s.q.bufs[Conn(s.q)].data == [] && !s.q.bufs[Conn(s.q)].pendingArp && (s.t.macCached || arp)
    ensures var s' := DriveLoop(s, false, arp);
            && s'.t.phase == LastAck && s'.h.fins == s.h.fins + 1 && s'.q.sent == [] && s'.q.outgoing == []
            && s'.h.finAcked == s.h.finAcked
            && s'.t.ackNum == s.t.ackNum && s'.t.oldest == s.t.oldest && s'.t.seqNum == Wrap32(s.t.seqNum + 1)
  {
    hide Wrap32, Wrap16, AdvertisedWindow;
    var s1 := HeadSent(s, arp);
    assert s1.q.outgoing == [Conn(s.q)] && s1.q.bufs[Conn(s.q)].ackOnly && s1.q.sent == [];
    assert s1.t.seqNum == s.t.seqNum by { WrapAdd(s.t.seqNum, 0); SmallSeq(s.t.seqNum); }
    assert DriveLoop(s, false, arp) == DriveLoop(s1, false, arp);
    FinTracked(s1, false, arp);
    FinLeaves(s1, arp);
  }

  lemma SmallSeq(x: U32)
    ensures Wrap32(x + 0 + 0) == x
  {
  }

  lemma FinLeaves(s: State, arp: bool)
    requires Named(s.q) && s.q.outgoing == [Conn(s.q)] && s.q.sent == [] && s.t.phase == SendFin2
    requires s.q.bufs[Conn(s.q)].data == [] && !s.q.bufs[Conn(s.q)].pendingArp && (s.t.macCached || arp)
    ensures var s' := DriveLoop(s, false, arp); s'.t.phase == LastAck && s'.q.outgoing == []
  {
    hide Wrap32, Wrap16, AdvertisedWindow;
  }

  /**
   * The peer's FIN arriving in FIN_WAIT_1, with or without data, is acknowledged exactly if the same
   * segment acknowledges ours: otherwise the socket is CLOSING by the time the ack is enqueued, and
   * enqueue refuses it.  Without room for its data the segment changes nothing.
   */
  lemma FinAckedUnlessClosing(s: State, p: Packet, arp: bool)
    requires Named(s.q) && s.t.phase == FinWait1 && p.seg.bits.fin && |s.q.outgoing| < RING
    ensures var s' := Accept(s, p, arp);
            var heard := !NoRoom(s, p.seg);
            && s'.t.phase == (if !heard then FinWait1 else if p.seg.ack == s.t.seqNum then TimeWait else Closing)
            && (s'.q.outgoing == s.q.outgoing + [Conn(s.q)] <==> heard && p.seg.ack == s.t.seqNum)
            && (s'.q.outgoing == s.q.outgoing <==> !heard || p.seg.ack != s.t.seqNum)
  {
    hide Credit, EnqueueConnect, TakeData, Wrap32, Wrap16;
    CreditFrame(s, p.seg);
    var s1 := Credit(s, p.seg);
    TakenRoom(s1, p);
    var k := if p.seg.data == [] then Taken(s1, true, false) else TakeData(s1, p);
    ConnectLate(Advance(k.s, p.seg, p.seg.ack == s.t.seqNum, arp));
  }

  /**
   * And in CLOSING no packet is answered.  One that is out of sequence, such as the peer's FIN once
   * more, only adds to the sequence errors, so that the peer may repeat it for ever.
   */
  lemma ClosingSilent(s: State, p: Packet, arp: bool)
    requires Named(s.q) && s.t.phase == Closing && s.q.outgoing == []
    ensures var s' := Receive(s, p, arp);
            && s'.h.wire == s.h.wire && (s'.t.phase == Closing ==> s'.q.outgoing == [])
            && (p.seg.num != s.t.ackNum ==> s'.q == s.q && s'.t.phase == Closing && s'.t.ackNum == s.t.ackNum)
  {
    hide Accept, Destroy, Wrap32, AckProper;
    AcceptSilent(s, p, arp);
    DestroyIs(s);
  }

  lemma AcceptSilent(s: State, p: Packet, arp: bool)
    requires Named(s.q) && s.t.phase == Closing && s.q.outgoing == []
    ensures var s' := Accept(s, p, arp);
            && s'.h.wire == s.h.wire && (s'.t.phase == Closing ==> s'.q.outgoing == []) && s'.t.phase != Closed
  {
    hide Credit, EnqueueConnect, TakeData, Wrap32, Wrap16;
    CreditFrame(s, p.seg);
    var s1 := Credit(s, p.seg);
    TakenSilent(s1, p);
    var k := if p.seg.data == [] then Taken(s1, true, false) else TakeData(s1, p);
    var s2 := Advance(k.s, p.seg, p.seg.ack == s.t.seqNum, arp);
    EnqueueConnectFrame(s2);
    if s2.t.phase == Closing { ConnectLate(s2); }
  }

  lemma TakenSilent(s: State, p: Packet)
    ensures var s' := TakeData(s, p).s; s'.t.phase == s.t.phase && s'.h.wire == s.h.wire && s'.q == s.q
  {
    hide Wrap32;
  }

  lemma TakenRoom(s: State, p: Packet)
    ensures p.seg.data != [] ==> (TakeData(s, p).playDead <==> NoRoom(s, p.seg))
    ensures TakeData(s, p).s.t.phase == s.t.phase && TakeData(s, p).s.h.finAcked == s.h.finAcked
  {
    hide Wrap32;
  }

  /** The socket's own packet is refused in CLOSING and taken in TIME_WAIT. */
  lemma ConnectLate(s: State)
    requires Named(s.q) && |s.q.outgoing| < RING && (s.t.phase == Closing || s.t.phase == TimeWait)
    ensures EnqueueConnect(s).t == s.t
    ensures EnqueueConnect(s).q.outgoing == if s.t.phase == TimeWait then s.q.outgoing + [Conn(s.q)] else s.q.outgoing
  {
    hide Wrap16;
  }

  /**
   * LAST_ACK goes to CLOSED on any acceptable packet whose data, if any, finds room.  Whether our FIN
   * is acknowledged by then depends on the packet alone: it is exactly if the packet acks all we sent.
   */
  lemma LastAckUnchecked(s: State, p: Packet, arp: bool)
    requires Named(s.q) && s.t.phase == LastAck && s.h.fins == 1 && !s.h.finAcked
    ensures var s' := Accept(s, p, arp);
            && (s'.t.phase == Closed <==> !NoRoom(s, p.seg))
            && (s'.h.finAcked <==> p.seg.ack == s.t.seqNum)
  {
    hide EnqueueConnect, Credit, TakeData, Wrap32, Wrap16;
    CreditFrame(s, p.seg);
    CreditFin(s, p.seg);
    var s1 := Credit(s, p.seg);
    TakenRoom(s1, p);
    var k := if p.seg.data == [] then Taken(s1, true, false) else TakeData(s1, p);
    var s2 := Advance(k.s, p.seg, p.seg.ack == s.t.seqNum, arp);
    EnqueueConnectFrame(s2);
    ConnectFin(s2);
  }

  lemma CreditFin(s: State, seg: Segment)
    requires Named(s.q)
    ensures Credit(s, seg).h.finAcked == Noted(s, seg).h.finAcked
  {
    hide Wrap32, Wrap16;
    RemoveSentFrame(Noted(s, seg), seg.ack);
  }

  lemma ConnectFin(s: State)
    requires Named(s.q)
    ensures EnqueueConnect(s).h.finAcked == s.h.finAcked
  {
    hide Wrap16;
  }

  /** enqueue accepts user data after our FIN has been sent, so the stream's end is not final. */
  lemma DataAfterFin(s: State, id: nat)
    requires Named(s.q) && id < |s.q.bufs| && FinSentPhase(s.t.phase)
    requires |s.q.bufs[id].data| <= s.t.maxEnqueue && |s.q.outgoing| < RING
    ensures Enqueue(s, id).1 == RC_GOOD <==> s.t.phase != Closing && (s.t.phase == TimeWait ==> id == Conn(s.q))
    ensures Enqueue(s, id).1 == RC_GOOD ==> Enqueue(s, id).0.h.accepted == s.h.accepted + s.q.bufs[id].data
  {
    hide Wrap16;
  }

  /**
   * In SYN_RECVED a segment one byte behind is accepted too, and its data delivered again: exactly if
   * it has an acceptable ack and no RST, there is room for its data, and reads have not been shut down.
   */
  lemma OneBehindAccepted(s: State, p: Packet, arp: bool)
    requires Named(s.q) && s.t.phase == SynRecved
    ensures Receive(s, p, arp).h.delivered ==
              if && (p.seg.num == s.t.ackNum || p.seg.num == Wrap32(s.t.ackNum - 1))
                 && p.seg.bits.ack && !p.seg.bits.rst && AckProper(s.t.oldest, s.t.seqNum, p.seg.ack)
                 && !NoRoom(s, p.seg) && !s.t.disableReads
              then s.h.delivered + p.seg.data
              else s.h.delivered
  {
    hide Accept, Destroy, SendPacket, Wrap32;
    AcceptDelivers(s, p, arp);
    PureAckQuiet(s, arp);
    DestroyQuiet(s);
  }

  lemma DestroyQuiet(s: State)
    requires Named(s.q)
    ensures Destroy(s).h.delivered == s.h.delivered
  {
  }

  /** Of an acceptable packet in SYN_RECVED all data is delivered, or none. */
  lemma AcceptDelivers(s: State, p: Packet, arp: bool)
    requires Named(s.q) && s.t.phase == SynRecved
    ensures Accept(s, p, arp).h.delivered ==
              if NoRoom(s, p.seg) || s.t.disableReads then s.h.delivered else s.h.delivered + p.seg.data
  {
    hide Credit, EnqueueConnect, Advance, Wrap32, Wrap16;
    CreditFrame(s, p.seg);
    var s1 := Credit(s, p.seg);
    var k := if p.seg.data == [] then Taken(s1, true, false) else TakeData(s1, p);
    AdvanceQuiet(k.s, p.seg, p.seg.ack == s.t.seqNum, arp);
    EnqueueConnectFrame(Advance(k.s, p.seg, p.seg.ack == s.t.seqNum, arp));
  }

  lemma AdvanceQuiet(s: State, seg: Segment, current: bool, arp: bool)
    requires Named(s.q)
    ensures Advance(s, seg, current, arp).h.delivered == s.h.delivered
  {
    hide ClearQueues, Wrap32, Wrap16;
    ClearQuiet(s);
  }

  lemma ClearQuiet(s: State)
    requires Named(s.q)
    ensures ClearQueues(s).h.delivered == s.h.delivered
  {
    hide ReturnAll, Wrap16;
  }

  lemma PureAckQuiet(s: State, arp: bool)
    ensures PureAck(s, false, arp).h.delivered == s.h.delivered
  {
  }

  // ---------------------------------------------------------------- send() and the send size zero

  /** The loop of send() as the code has it, for at most `n` turns. */
  ghost function Turns(s: State, rest: seq<Byte>, n: nat): (r: (State, seq<Byte>))
    requires Named(s.q)
    ensures Named(r.0.q)
    decreases n
  {
    if n == 0 || !SendGoes(s, rest) then (s, rest)
    else
      var (s1, left) := SendTurn(s, rest);
      Turns(s1, left, n - 1)
  }

  /** After `n` turns the guards of the loop let it go. */
  ghost predicate EndsAfter(s: State, rest: seq<Byte>, n: nat)
    requires Named(s.q)
  {
    var (s1, left) := Turns(s, rest, n);
    !SendGoes(s1, left)
  }

  /** A turn in a spinning state leads to a spinning state. */
  lemma StillSpins(s: State, rest: seq<Byte>)
    requires Named(s.q) && Spins(s, rest)
    ensures var (s1, left) := SendTurn(s, rest); Spins(s1, left)
  {
    hide Wrap16;
    assert rest[0..] == rest;
  }

  lemma {:induction false} SpinsForever(s: State, rest: seq<Byte>, n: nat)
    requires Named(s.q) && Spins(s, rest)
    ensures !EndsAfter(s, rest, n)
    decreases n
  {
    hide Spins, SendTurn, SendGoes;
    SpinGoes(s, rest);
    if n > 0 {
      StillSpins(s, rest);
      var (s1, left) := SendTurn(s, rest);
      SpinsForever(s1, left, n - 1);
    }
  }

  lemma SpinGoes(s: State, rest: seq<Byte>)
    requires Named(s.q) && Spins(s, rest)
    ensures SendGoes(s, rest)
  {
  }

  lemma {:induction false} LoopEnds(s: State, rest: seq<Byte>) returns (n: nat)
    requires Named(s.q) && s.t.phase == Established && !Spins(s, rest)
    ensures EndsAfter(s, rest, n) && Turns(s, rest, n) == SendLoop(s, rest)
    decreases |rest|, |s.q.free|
  {
    hide Spins, SendTurn, SendGoes;
    n := 0;
    if SendGoes(s, rest) {
      SendTurnShrinks(s, rest);
      var (s1, left) := SendTurn(s, rest);
      var m := LoopEnds(s1, left);
      n := m + 1;
    }
  }

  /**
   * The loop of send() ends if and only if the state is not a spinning one, and then in the state that
   * SendLoop gives.
   */
  lemma SendEndsUnlessSpinning(s: State, rest: seq<Byte>)
    requires Named(s.q) && s.t.phase == Established
    ensures (exists n: nat :: EndsAfter(s, rest, n)) <==> !Spins(s, rest)
    ensures !Spins(s, rest) ==> exists n: nat :: EndsAfter(s, rest, n) && Turns(s, rest, n) == SendLoop(s, rest)
  {
    hide Spins, EndsAfter, SendLoop, Turns;
    if Spins(s, rest) {
      forall n: nat | true ensures !EndsAfter(s, rest, n) { SpinsForever(s, rest, n); }
    } else {
      var n := LoopEnds(s, rest);
    }
  }

  /**
   * On every state of a run, spinning is: a send size of zero, data left, and either an empty queue with
   * two buffers free, or one empty packet queued and a buffer free, two if that packet is connectPacket.
   */
  lemma SpinsMeans(s: State, rest: seq<Byte>)
    requires PoolInv(s)
    ensures Spins(s, rest) <==>
              && s.t.phase == Established && SendSize(s.t) == 0 && rest != []
              && (|| (s.q.outgoing == [] && |s.q.free| >= 2)
                  || (|s.q.outgoing| == 1 && s.q.bufs[s.q.outgoing[0]].data == []
                      && |s.q.free| >= (if s.q.outgoing[0] == Conn(s.q) then 2 else 1)))
  {
    if |s.q.outgoing| == 1 && s.q.free != [] && s.q.outgoing[0] == s.q.free[|s.q.free| - 1] {
      var id := s.q.outgoing[0];
      assert Places(s.q, s.h.held, id) == 1;
      OccIn(s.q.outgoing, 0);
      OccIn(s.q.free, |s.q.free| - 1);
    }
  }

  /** With a send size of zero nothing of the user's data is ever queued, whether the loop ends or not. */
  lemma {:induction false} ZeroSizeSendsNothing(s: State, rest: seq<Byte>, n: nat)
    requires Named(s.q) && s.t.phase == Established && SendSize(s.t) == 0
    ensures var (s1, left) := Turns(s, rest, n);
            left == rest && s1.t == s.t && s1.h.accepted == s.h.accepted
    decreases n
  {
    hide SendTurn;
    if n > 0 && SendGoes(s, rest) {
      ZeroTurn(s, rest);
      ZeroSizeSendsNothing(SendTurn(s, rest).0, rest, n - 1);
    }
  }

  lemma ZeroTurn(s: State, rest: seq<Byte>)
    requires Named(s.q) && s.t.phase == Established && SendSize(s.t) == 0 && SendGoes(s, rest)
    ensures var (s1, left) := SendTurn(s, rest);
            left == rest && s1.t == s.t && s1.h.accepted == s.h.accepted
  {
    hide Wrap16;
    assert rest[..0] == [] && rest[0..] == rest;
  }
}
