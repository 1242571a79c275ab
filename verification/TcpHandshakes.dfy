/** Opening and closing, segment by segment, for any sequence numbers and windows. */
module TcpHandshakes {
  import opened Machine
  import opened TcpModel
  import opened TcpPool
  import opened TcpStream
  import opened TcpRuns
  import opened TcpAnswers
  import opened TcpTransfers

  const SYN := Bits(true, false, false, false, false)
  const SYN_ACK := Bits(true, true, false, false, false)
  const ACK := Bits(false, true, false, false, false)
  const FIN := Bits(false, true, false, false, true)

  /** An empty segment of the peer. */
  function Peers(num: U32, ack: U32, bits: Bits, window: U16): Packet {
    Packet(0, Segment(num, ack, bits, window, None, []))
  }

  /** Exactly one segment went out between `s` and `s'`. */
  ghost predicate OneOut(s: State, s': State, num: U32, ack: U32, bits: Bits) {
    && |s'.h.wire| == |s.h.wire| + 1 && s'.h.wire[..|s.h.wire|] == s.h.wire
    && var w := s'.h.wire[|s.h.wire|];
    && w.num == num && w.ack == ack && w.bits == bits && w.data == []
  }

  /** What every state below has: a receive buffer that is not overfull. */
  ghost predicate Sound(s: State) {
    Named(s.q) && (s.r.size == 0 || |s.r.data| <= s.r.size)
  }

  /** All we sent is acknowledged and nothing is queued; `num` and `ack` come next. */
  ghost predicate Quiet(s: State, phase: Phase, num: U32, ack: U32) {
    && Sound(s) && s.t.phase == phase && s.t.seqNum == num && s.t.oldest == num && s.t.ackNum == ack
    && s.q.outgoing == [] && s.q.sent == []
  }

  /** Our own packet is queued, empty and as enqueue leaves it. */
  ghost predicate OwnQueued(s: State, phase: Phase, num: U32, ack: U32) {
    && Sound(s) && s.t.phase == phase && s.t.seqNum == num && s.t.oldest == num && s.t.ackNum == ack
    && s.q.outgoing == [Conn(s.q)] && s.q.sent == []
    && var b := s.q.bufs[Conn(s.q)];
    && b.data == [] && !b.pendingArp && !b.ackOnly && b.attempts == 0
  }

  /** Our FIN, number `num`, is on `sent`. */
  ghost predicate FinSent(s: State, phase: Phase, num: U32, ack: U32) {
    && Sound(s) && s.t.phase == phase && s.t.seqNum == Wrap32(num + 1) && s.t.oldest == num && s.t.ackNum == ack
    && s.q.outgoing == [] && s.q.sent == [Conn(s.q)]
    && s.q.bufs[Conn(s.q)].last == num && s.q.bufs[Conn(s.q)].header.num == num
  }

  // ---------------------------------------------------------------- steps

  lemma Closes(s: State, num: U32, ack: U32)
    requires s.t.phase in {Established, CloseWait} && Quiet(s, s.t.phase, num, ack)
    ensures var s' := Step(s, UserClose, true);
            OwnQueued(s', CloseDue(s.t.phase), num, ack) && s'.h.wire == s.h.wire
  {
    hide EnqueueConnect;
    ConnectAlone(s.(t := s.t.(phase := CloseDue(s.t.phase))));
  }

  lemma FinLeaves(s: State, num: U32, ack: U32)
    requires s.t.phase in {SendFin1, SendFin2} && OwnQueued(s, s.t.phase, num, ack)
    ensures var s' := Step(s, Tick(false, false), true);
            && FinSent(s', if s.t.phase == SendFin2 then LastAck else FinWait1, num, ack) && OneOut(s, s', num, ack, FIN)
  {
    hide Step, Offers, Room;
    FirstSending(s, false, true);
    var s' := Step(s, Tick(false, false), true);
    WrapAdd(num + 1, -1);
    assert s'.q.bufs[Conn(s.q)].header.num == s'.h.wire[|s.h.wire|].num;
  }

  lemma AckLeaves(s: State, num: U32, ack: U32)
    requires s.t.phase in {Established, CloseWait, TimeWait} && OwnQueued(s, s.t.phase, num, ack)
    ensures var s' := Step(s, Tick(false, false), true);
            Quiet(s', s.t.phase, num, ack) && OneOut(s, s', num, ack, ACK)
  {
    hide Step, Wrap16, AdvertisedWindow;
    AckSent(s, num, ack);
    TickDrives(s, false, false, true);
  }

  lemma AckSent(s: State, num: U32, ack: U32)
    requires s.t.phase in {Established, CloseWait, TimeWait} && OwnQueued(s, s.t.phase, num, ack)
    ensures var s' := DriveLoop(s, false, true);
            Quiet(s', s.t.phase, num, ack) && OneOut(s, s', num, ack, ACK)
  {
    hide SendPacket, Wrap16;
    AckFilled(s, num, ack);
    SendPacketFrame(s, s.q.bufs[Conn(s.q)], false, false, true);
    var s1 := HeadSent(s, true);
    assert s1.q.outgoing == [] && DriveLoop(s, false, true) == DriveLoop(s1, false, true);
  }

  lemma AckFilled(s: State, num: U32, ack: U32)
    requires s.t.phase in {Established, CloseWait, TimeWait} && OwnQueued(s, s.t.phase, num, ack)
    ensures var f := SendPacket(s, s.q.bufs[Conn(s.q)], false, false, true);
            && !f.pending && f.b.ackOnly && f.s.t == s.t && f.s.r == s.r
            && f.s.h.wire == s.h.wire + [f.b.header]
            && f.b.header.num == num && f.b.header.ack == ack && f.b.header.bits == ACK && f.b.header.data == []
  {
    hide AdvertisedWindow;
  }

  /** The ack of our FIN takes it off `sent`. */
  lemma FinCredited(s: State, num: U32, ack: U32, seg: Segment)
    requires FinSent(s, s.t.phase, num, ack) && seg.ack == Wrap32(num + 1)
    ensures var s' := Credit(s, seg);
            Quiet(s', s.t.phase, Wrap32(num + 1), ack) && s'.h.wire == s.h.wire
  {
    hide Sent, Wrap16;
    var s1 := Noted(s, seg);
    assert s1.q.sent[0] == Conn(s.q);
    assert Removable(num, seg.ack, s1.t.oldest);
    assert PopSent(s1).q.sent == [];
    assert RemoveSent(s1, seg.ack) == RemoveSent(PopSent(s1), seg.ack);
  }

  /** Receiving an empty segment that is in order. */
  lemma EmptyAccepted(s: State, p: Packet)
    requires Named(s.q) && s.t.phase !in {Closed, SynSent, TimeWait} && InOrder(s.t, p.seg)
    requires p.seg.data == [] && !p.seg.bits.rst
    ensures var s2 := Advance(Credit(s, p.seg), p.seg, p.seg.ack == s.t.seqNum, true);
            Step(s, Arrive(p), true) == Freed(if AcksFin(s.t.phase, p.seg) then EnqueueConnect(s2) else s2, p)
  {
    hide Credit, Advance, EnqueueConnect, AckProper;
    CreditFrame(s, p.seg);
  }

  lemma FinAcked(s: State, num: U32, ack: U32, window: U16)
    requires s.t.phase in {FinWait1, LastAck, Closing} && FinSent(s, s.t.phase, num, ack)
    ensures var s' := Step(s, Arrive(Peers(ack, Wrap32(num + 1), ACK, window)), true);
            && s'.h.wire == s.h.wire && s'.q.outgoing == [] && s'.q.sent == []
            && (s.t.phase == FinWait1 ==> Quiet(s', FinWait2, Wrap32(num + 1), ack))
            && (s.t.phase == LastAck ==> s'.t.phase == Closed)
            && (s.t.phase == Closing ==> Quiet(s', TimeWait, Wrap32(num + 1), ack))
  {
    hide Credit, EnqueueConnect, Step;
    var p := Peers(ack, Wrap32(num + 1), ACK, window);
    EmptyAccepted(s, p);
    FinCredited(s, num, ack, p.seg);
  }

  /** The peer's FIN when nothing of ours is outstanding: it is acknowledged. */
  lemma FinHeard(s: State, num: U32, ack: U32, window: U16)
    requires s.t.phase in {Established, FinWait2} && Quiet(s, s.t.phase, num, ack)
    ensures var s' := Step(s, Arrive(Peers(ack, num, FIN, window)), true);
            && OwnQueued(s', if s.t.phase == Established then CloseWait else TimeWait, num, Wrap32(ack + 1))
            && s'.h.wire == s.h.wire
  {
    hide Credit, EnqueueConnect, Step;
    var p := Peers(ack, num, FIN, window);
    EmptyAccepted(s, p);
    CreditIdle(s, p.seg);
    var s2 := Advance(Credit(s, p.seg), p.seg, true, true);
    ConnectAlone(s2);
  }

  /** Both FINs cross. */
  lemma FinsCross(s: State, num: U32, ack: U32, window: U16)
    requires FinSent(s, FinWait1, num, ack)
    ensures var s' := Step(s, Arrive(Peers(ack, num, FIN, window)), true);
            FinSent(s', Closing, num, Wrap32(ack + 1)) && s'.h.wire == s.h.wire
  {
    hide Credit, EnqueueConnect, Step;
    var p := Peers(ack, num, FIN, window);
    EmptyAccepted(s, p);
    NothingAcked(s, num, ack, p.seg);
    WrapInjective(num, num + 1);
    var s2 := Advance(Credit(s, p.seg), p.seg, false, true);
    ConnectRefused(s2);
  }

  lemma NothingAcked(s: State, num: U32, ack: U32, seg: Segment)
    requires FinSent(s, FinWait1, num, ack) && seg.ack == num
    ensures FinSent(Credit(s, seg), FinWait1, num, ack) && Credit(s, seg).h.wire == s.h.wire
    ensures Credit(s, seg).q == s.q
  {
    hide Wrap16;
    WrapInjective(num, num + 1);
    assert !Removable(num, num, num);
  }

  lemma ConnectRefused(s: State)
    requires Named(s.q) && s.t.phase == Closing && s.q.outgoing == []
    ensures var s' := EnqueueConnect(s);
            && s'.t == s.t && s'.r == s.r && s'.h == s.h && s'.q.outgoing == [] && s'.q.sent == s.q.sent
            && |s'.q.bufs| == |s.q.bufs| && Named(s'.q)
            && s'.q.bufs[Conn(s.q)].last == s.q.bufs[Conn(s.q)].last
            && s'.q.bufs[Conn(s.q)].header == s.q.bufs[Conn(s.q)].header
  {
  }

  // ---------------------------------------------------------------- closing

  /** One step with ARP answering. */
  ghost function Next(s: State, e: Event): State { if Named(s.q) then Step(s, e, true) else s }

  ghost function Clock(s: State): State { Next(s, Tick(false, false)) }

  ghost function Hear(s: State, num: U32, ack: U32, bits: Bits, window: U16): State {
    Next(s, Arrive(Peers(num, ack, bits, window)))
  }

  /**
   * We close first: our FIN, the peer's ack of it, the peer's FIN, our ack of that.  Every segment carries the
   * numbers RFC 793 wants, and the socket goes through FIN_WAIT_1 and FIN_WAIT_2 to TIME_WAIT.
   */
  lemma ActiveClose(s: State, num: U32, ack: U32, w1: U16, w2: U16)
    requires Quiet(s, Established, num, ack)
    ensures var s1 := Clock(Next(s, UserClose));
            var s2 := Hear(s1, ack, Wrap32(num + 1), ACK, w1);
            var s3 := Hear(s2, ack, Wrap32(num + 1), FIN, w2);
            var s4 := Clock(s3);
            && OneOut(s, s1, num, ack, FIN) && s1.t.phase == FinWait1
            && s2.h.wire == s1.h.wire && s2.t.phase == FinWait2
            && s3.h.wire == s2.h.wire && s3.t.phase == TimeWait
            && OneOut(s3, s4, Wrap32(num + 1), Wrap32(ack + 1), ACK) && s4.t.phase == TimeWait
            && Next(s4, UserClose).t.phase == Closed
  {
    hide Step, OneOut, FinSent, OwnQueued;
    QuietNamed(s, Established, num, ack);
    Closes(s, num, ack);
    var s0 := Next(s, UserClose);
    OwnNamed(s0, SendFin1, num, ack);
    FinLeaves(s0, num, ack);
    var s1 := Clock(s0);
    SameStart(s, s0, s1, num, ack, FIN);
    SentNamed(s1, FinWait1, num, ack);
    FinAcked(s1, num, ack, w1);
    var s2 := Hear(s1, ack, Wrap32(num + 1), ACK, w1);
    QuietNamed(s2, FinWait2, Wrap32(num + 1), ack);
    FinHeard(s2, Wrap32(num + 1), ack, w2);
    var s3 := Hear(s2, ack, Wrap32(num + 1), FIN, w2);
    OwnNamed(s3, TimeWait, Wrap32(num + 1), Wrap32(ack + 1));
    AckLeaves(s3, Wrap32(num + 1), Wrap32(ack + 1));
    QuietNamed(Clock(s3), TimeWait, Wrap32(num + 1), Wrap32(ack + 1));
    CloseEnds(Clock(s3));
  }

  /**
   * close ends the connection at once in TIME_WAIT and SYN_SENT, and does nothing once it has been called or the
   * socket is closed.  In the other states a FIN becomes due, in SYN_RECVED after the SYN-ACK (SEND_FIN3), and it
   * has a packet to ride on: those that are queued, or one of its own.
   */
  lemma CloseEnds(s: State)
    requires Named(s.q)
    ensures var s' := Step(s, UserClose, true);
            && s'.h.wire == s.h.wire && s'.q.sent == s.q.sent
            && (s.t.phase in {TimeWait, SynSent} ==> s'.t.phase == Closed)
            && (s.t.phase !in {TimeWait, SynSent, SynRecved, Established, CloseWait} ==> s' == s)
            && (s.t.phase in {SynRecved, Established, CloseWait} ==>
                  && s'.t.phase == (if s.t.phase == Established then SendFin1
                                    else if s.t.phase == CloseWait then SendFin2 else SendFin3)
                  && s'.q.outgoing == (if s.q.outgoing == [] then [Conn(s.q)] else s.q.outgoing))
  {
    hide EnqueueConnect;
    if s.t.phase in {SynRecved, Established, CloseWait} && s.q.outgoing == [] {
      ConnectAlone(s.(t := s.t.(phase := CloseDue(s.t.phase))));
    }
  }

  lemma QuietNamed(s: State, phase: Phase, num: U32, ack: U32)
    requires Quiet(s, phase, num, ack)
    ensures Named(s.q) && s.t.phase == phase
  {
  }

  lemma OwnNamed(s: State, phase: Phase, num: U32, ack: U32)
    requires OwnQueued(s, phase, num, ack)
    ensures Named(s.q) && s.t.phase == phase
  {
  }

  lemma SentNamed(s: State, phase: Phase, num: U32, ack: U32)
    requires FinSent(s, phase, num, ack)
    ensures Named(s.q) && s.t.phase == phase
  {
  }

  lemma SameStart(s: State, s0: State, s1: State, num: U32, ack: U32, bits: Bits)
    requires s0.h.wire == s.h.wire && OneOut(s0, s1, num, ack, bits)
    ensures OneOut(s, s1, num, ack, bits)
  {
  }

  /** The peer closes first: our ack, and after our close our FIN; its ack ends the connection. */
  lemma PassiveClose(s: State, num: U32, ack: U32, w1: U16, w2: U16)
    requires Quiet(s, Established, num, ack)
    ensures var s1 := Hear(s, ack, num, FIN, w1);
            var s2 := Clock(s1);
            var s3 := Clock(Next(s2, UserClose));
            var s4 := Hear(s3, Wrap32(ack + 1), Wrap32(num + 1), ACK, w2);
            && s1.h.wire == s.h.wire && s1.t.phase == CloseWait
            && OneOut(s1, s2, num, Wrap32(ack + 1), ACK) && s2.t.phase == CloseWait
            && OneOut(s2, s3, num, Wrap32(ack + 1), FIN) && s3.t.phase == LastAck
            && s4.h.wire == s3.h.wire && s4.t.phase == Closed && s4.q.sent == []
  {
    hide Step, OneOut, FinSent, OwnQueued;
    QuietNamed(s, Established, num, ack);
    FinHeard(s, num, ack, w1);
    var s1 := Hear(s, ack, num, FIN, w1);
    OwnNamed(s1, CloseWait, num, Wrap32(ack + 1));
    AckLeaves(s1, num, Wrap32(ack + 1));
    var s2 := Clock(s1);
    QuietNamed(s2, CloseWait, num, Wrap32(ack + 1));
    Closes(s2, num, Wrap32(ack + 1));
    var s0 := Next(s2, UserClose);
    OwnNamed(s0, SendFin2, num, Wrap32(ack + 1));
    FinLeaves(s0, num, Wrap32(ack + 1));
    SameStart(s2, s0, Clock(s0), num, Wrap32(ack + 1), FIN);
    SentNamed(Clock(s0), LastAck, num, Wrap32(ack + 1));
    FinAcked(Clock(s0), num, Wrap32(ack + 1), w2);
  }

  /** Both close at once: CLOSING, and TIME_WAIT once our FIN is acknowledged. */
  lemma SimultaneousClose(s: State, num: U32, ack: U32, w1: U16, w2: U16)
    requires Quiet(s, Established, num, ack)
    ensures var s1 := Clock(Next(s, UserClose));
            var s2 := Hear(s1, ack, num, FIN, w1);
            var s3 := Hear(s2, Wrap32(ack + 1), Wrap32(num + 1), ACK, w2);
            && OneOut(s, s1, num, ack, FIN) && s1.t.phase == FinWait1
            && s2.t.phase == Closing && s2.t.ackNum == Wrap32(ack + 1) && s2.h.wire == s1.h.wire
            && s3.t.phase == TimeWait && s3.h.wire == s2.h.wire
  {
    hide Step, OneOut, OwnQueued;
    QuietNamed(s, Established, num, ack);
    Closes(s, num, ack);
    var s0 := Next(s, UserClose);
    OwnNamed(s0, SendFin1, num, ack);
    FinLeaves(s0, num, ack);
    var s1 := Clock(s0);
    SameStart(s, s0, s1, num, ack, FIN);
    SentNamed(s1, FinWait1, num, ack);
    FinsCross(s1, num, ack, w1);
    var s2 := Hear(s1, ack, num, FIN, w1);
    SentNamed(s2, Closing, num, Wrap32(ack + 1));
    FinAcked(s2, num, Wrap32(ack + 1), w2);
  }

  // ---------------------------------------------------------------- data arriving

  /** ACK, with PSH or not. */
  predicate PlainAck(b: Bits) { b.ack && !b.syn && !b.rst && !b.fin }

  /** Whether data of that length is taken: reads shut down, room in the buffer, or a slot for the raw packet. */
  predicate Takes(s: State, n: nat) {
    s.t.disableReads || (if s.r.live then n <= s.r.size - |s.r.data| else |s.r.incoming| < 4)
  }

  /** Data in order while ESTABLISHED: taken, and our own packet queued for the ack unless another one is waiting. */
  lemma DataHeard(s: State, p: Packet)
    requires Sound(s) && s.t.phase == Established && s.q.sent == [] && p.seg.data != []
    requires PlainAck(p.seg.bits) && p.seg.num == s.t.ackNum && p.seg.ack == s.t.seqNum && Takes(s, |p.seg.data|)
    ensures var s' := Step(s, Arrive(p), true);
            && s'.t.ackNum == Wrap32(s.t.ackNum + |p.seg.data|) && s'.t.phase == Established && s'.h.wire == s.h.wire
            && s'.q.outgoing == (if s.q.outgoing == [] then [Conn(s.q)] else s.q.outgoing)
            && s'.h.delivered == (if s.t.disableReads then s.h.delivered else s.h.delivered + p.seg.data)
            && (s.q.outgoing == [] && s.t.oldest == s.t.seqNum ==>
                  OwnQueued(s', Established, s.t.seqNum, Wrap32(s.t.ackNum + |p.seg.data|)))
  {
    hide Credit, EnqueueConnect, TakeData, Step, Takes, Wrap32;
    DataStep(s, p);
    CreditIdle(s, p.seg);
    CreditFrame(s, p.seg);
    var s1 := Credit(s, p.seg);
    DataTaken(s, s1, p);
    if s.q.outgoing == [] {
      ConnectAlone(TakeData(s1, p).s);
      EnqueueConnectFrame(TakeData(s1, p).s);
    }
  }

  lemma DataTaken(s: State, s1: State, p: Packet)
    requires Sound(s) && Takes(s, |p.seg.data|) && s1.r == s.r && s1.t.disableReads == s.t.disableReads
    ensures var k := TakeData(s1, p);
            && !k.playDead && k.s.q == s1.q && k.s.t == s1.t.(ackNum := Wrap32(s1.t.ackNum + |p.seg.data|))
            && k.s.h == s1.h.(delivered := if s.t.disableReads then s1.h.delivered else s1.h.delivered + p.seg.data)
            && k.s.r.size == s.r.size && (s.r.size == 0 || |k.s.r.data| <= s.r.size)
  {
    hide Wrap32;
  }

  lemma DataStep(s: State, p: Packet)
    requires Sound(s) && s.t.phase == Established && p.seg.data != [] && PlainAck(p.seg.bits)
    requires p.seg.num == s.t.ackNum && p.seg.ack == s.t.seqNum && Takes(s, |p.seg.data|)
    ensures Named(Credit(s, p.seg).q)
    ensures var k := TakeData(Credit(s, p.seg), p);
            var s3 := if k.s.q.outgoing == [] then EnqueueConnect(k.s) else k.s;
            Step(s, Arrive(p), true) == if k.freePacket then Freed(s3, p) else s3
  {
    hide Credit, EnqueueConnect, TakeData, Takes, Advance, Wrap32;
    CreditFrame(s, p.seg);
    var s1 := Credit(s, p.seg);
    DataTaken(s, s1, p);
    AdvanceIdle(TakeData(s1, p).s, p.seg, true);
    assert AckProper(s.t.oldest, s.t.seqNum, p.seg.ack);
  }

  /** And the next tick acknowledges it. */
  lemma DataAcknowledged(s: State, num: U32, ack: U32, p: Packet)
    requires Quiet(s, Established, num, ack) && p.seg.data != []
    requires PlainAck(p.seg.bits) && p.seg.num == ack && p.seg.ack == num && Takes(s, |p.seg.data|)
    ensures var s1 := Next(s, Arrive(p));
            var s2 := Clock(s1);
            && s1.h.delivered == (if s.t.disableReads then s.h.delivered else s.h.delivered + p.seg.data)
            && s1.h.wire == s.h.wire && OneOut(s1, s2, num, Wrap32(ack + |p.seg.data|), ACK)
            && Quiet(s2, Established, num, Wrap32(ack + |p.seg.data|))
  {
    hide Step, OneOut, OwnQueued, Takes;
    DataHeard(s, p);
    var s1 := Next(s, Arrive(p));
    OwnNamed(s1, Established, num, Wrap32(ack + |p.seg.data|));
    AckLeaves(s1, num, Wrap32(ack + |p.seg.data|));
  }

  // ---------------------------------------------------------------- data there, ack back

  /** The user's data is queued in one pool buffer. */
  ghost predicate DataQueued(s: State, num: U32, ack: U32, data: seq<Byte>) {
    && FreshHead(s) && s.t.phase == Established && s.t.seqNum == num && s.t.oldest == num && s.t.ackNum == ack
    && s.q.bufs[s.q.outgoing[0]].data == data
  }

  /** That packet is on `sent`. */
  ghost predicate DataOut(s: State, num: U32, ack: U32, n: nat) {
    && Sound(s) && s.t.phase == Established && s.t.seqNum == Wrap32(num + n) && s.t.oldest == num && s.t.ackNum == ack
    && s.q.outgoing == [] && |s.q.sent| == 1 && s.q.bufs[s.q.sent[0]].last == Wrap32(num + n - 1)
  }

  lemma OneTurn(s: State, num: U32, ack: U32, data: seq<Byte>)
    requires Quiet(s, Established, num, ack) && s.q.free != []
    requires 0 < |data| <= s.t.remoteWindow && |data| <= s.t.maxEnqueue
    ensures var s' := Step(s, UserSend(data), true);
            && DataQueued(s', num, ack, data) && s'.h.wire == s.h.wire && s'.h.accepted == s.h.accepted + data
  {
    hide Wrap16;
    var s1 := SendTurn(s, data).0;
    assert data[..|data|] == data && data[|data|..] == [];
    assert SendLoop(s, data) == SendLoop(s1, []);
  }

  lemma DataGoes(s: State, num: U32, ack: U32, data: seq<Byte>)
    requires DataQueued(s, num, ack, data) && data != []
    ensures var s' := Step(s, Tick(false, false), true);
            && DataOut(s', num, ack, |data|)
            && |s'.h.wire| == |s.h.wire| + 1 && s'.h.wire[..|s.h.wire|] == s.h.wire
            && var w := s'.h.wire[|s.h.wire|];
            w.num == num && w.ack == ack && w.data == data && PlainAck(w.bits)
  {
    hide Step, Offers, Room;
    FirstSending(s, false, true);
    WrapAdd(num + |data|, 0);
    WrapAdd(num + |data|, -1);
  }

  lemma DataCredited(s: State, num: U32, ack: U32, n: nat, window: U16)
    requires DataOut(s, num, ack, n) && 0 < n < TWO16
    ensures var s' := Step(s, Arrive(Peers(ack, Wrap32(num + n), ACK, window)), true);
            Quiet(s', Established, Wrap32(num + n), ack) && s'.t.remoteWindow == window && s'.h.wire == s.h.wire
  {
    hide Credit, EnqueueConnect, Step;
    var p := Peers(ack, Wrap32(num + n), ACK, window);
    EmptyAccepted(s, p);
    OneRemoved(s, num, ack, n, p.seg);
    AdvanceIdle(Credit(s, p.seg), p.seg, true);
  }

  lemma OneRemoved(s: State, num: U32, ack: U32, n: nat, seg: Segment)
    requires DataOut(s, num, ack, n) && 0 < n < TWO16 && seg.ack == Wrap32(num + n)
    ensures var s' := Credit(s, seg);
            Quiet(s', Established, Wrap32(num + n), ack) && s'.t.remoteWindow == seg.window && s'.h.wire == s.h.wire
  {
    hide Sent, Wrap16;
    var s1 := Noted(s, seg);
    assert Removable(Wrap32(num + n - 1), seg.ack, s1.t.oldest);
    assert PopSent(s1).q.sent == [];
    assert RemoveSent(s1, seg.ack) == RemoveSent(PopSent(s1), seg.ack);
  }

  /**
   * Two of these engines, each idle and expecting what the other will send.  The user of one sends data that
   * fits one packet; a tick there, the packet's arrival here, a tick here and the ack's arrival there: the
   * data has been delivered once, acknowledged, and both are idle again behind it.
   */
  lemma Exchange(s: State, peer: State, num: U32, ack: U32, data: seq<Byte>)
    requires Quiet(s, Established, num, ack) && Quiet(peer, Established, ack, num) && s.q.free != []
    requires 0 < |data| <= s.t.remoteWindow && |data| <= s.t.maxEnqueue
    requires Takes(peer, |data|) && !peer.t.disableReads
    ensures var s1 := Clock(Next(s, UserSend(data)));
            && |s1.h.wire| == |s.h.wire| + 1
            && var peer1 := Next(peer, Arrive(Packet(0, s1.h.wire[|s.h.wire|])));
            && peer1.h.delivered == peer.h.delivered + data
            && var peer2 := Clock(peer1);
            && |peer2.h.wire| == |peer.h.wire| + 1
            && var a := peer2.h.wire[|peer.h.wire|];
            && Quiet(peer2, Established, ack, Wrap32(num + |data|))
            && Quiet(Hear(s1, a.num, a.ack, a.bits, a.window), Established, Wrap32(num + |data|), ack)
  {
    hide Step, Takes, DataQueued, DataOut;
    QuietNamed(s, Established, num, ack);
    QuietNamed(peer, Established, ack, num);
    OneTurn(s, num, ack, data);
    var s0 := Next(s, UserSend(data));
    QueuedNamed(s0, num, ack, data);
    DataGoes(s0, num, ack, data);
    var s1 := Clock(s0);
    OutNamed(s1, num, ack, |data|);
    var w := s1.h.wire[|s.h.wire|];
    DataAcknowledged(peer, ack, num, Packet(0, w));
    var peer2 := Clock(Next(peer, Arrive(Packet(0, w))));
    DataCredited(s1, num, ack, |data|, peer2.h.wire[|peer.h.wire|].window);
  }

  lemma QueuedNamed(s: State, num: U32, ack: U32, data: seq<Byte>)
    requires DataQueued(s, num, ack, data)
    ensures Named(s.q)
  {
  }

  lemma OutNamed(s: State, num: U32, ack: U32, n: nat)
    requires DataOut(s, num, ack, n)
    ensures Named(s.q)
  {
  }

  // ---------------------------------------------------------------- opening

  /** The MSS option of our SYNs: our segment size, or the receive buffer if that is smaller. */
  predicate OffersMss(s: State, w: Segment) {
    w.mss.Some? && w.mss.value <= s.t.mss && (s.r.size != 0 ==> w.mss.value <= s.r.size)
    && (w.mss.value == s.t.mss || (s.r.size != 0 && w.mss.value == s.r.size))
  }

  /** Our SYN is out, first byte number `iss` + 1. */
  ghost predicate SynOut(s: State, iss: U32) {
    && Sound(s) && s.t.phase == SynSent && s.t.seqNum == Wrap32(iss + 1) && s.t.oldest == iss && s.t.remoteWindow == 0
    && s.q.outgoing == [] && s.q.sent == [Conn(s.q)] && s.q.bufs[Conn(s.q)].last == iss
  }

  lemma SynQueued(iss: U32, pool: nat, mss: U16, rcvSize: U16)
    ensures var s := Connect(Fresh(iss, pool, mss, rcvSize));
            && OwnQueued(s, SynSent, iss, 0) && s.t.remoteWindow == 0 && s.h.wire == []
            && s.t.mss == mss && s.r.size == rcvSize
  {
    hide Wrap16;
  }

  /** The packet with our SYN or SYN-ACK. */
  lemma SynFilled(s: State, iss: U32)
    requires s.t.phase in {SynSent, SynRecved} && OwnQueued(s, s.t.phase, iss, s.t.ackNum)
    ensures var f := SendPacket(s, s.q.bufs[Conn(s.q)], false, false, true);
            && !f.pending && !f.b.ackOnly && f.s.r == s.r && f.b.last == iss && f.b.data == []
            && f.s.t == s.t.(seqNum := Wrap32(iss + 1)) && f.s.h.wire == s.h.wire + [f.b.header]
            && f.b.header.num == iss && f.b.header.ack == s.t.ackNum && f.b.header.data == []
            && f.b.header.bits == (if s.t.phase == SynSent then SYN else SYN_ACK) && OffersMss(s, f.b.header)
  {
    hide AdvertisedWindow;
    WrapAdd(iss + 1, -1);
  }

  lemma SynLeaves(s: State, iss: U32)
    requires OwnQueued(s, SynSent, iss, s.t.ackNum) && s.t.remoteWindow == 0
    ensures var s' := Step(s, Tick(false, false), true);
            && SynOut(s', iss) && OneOut(s, s', iss, s.t.ackNum, SYN) && OffersMss(s, s'.h.wire[|s.h.wire|])
            && s'.t.mss == s.t.mss && s'.r == s.r
  {
    hide SendPacket, Wrap16, Step;
    TickDrives(s, false, false, true);
    SynFilled(s, iss);
    SendPacketFrame(s, s.q.bufs[Conn(s.q)], false, false, true);
    var s1 := HeadSent(s, true);
    assert s1.q.outgoing == [] && DriveLoop(s, false, true) == DriveLoop(s1, false, true);
  }

  /** The smaller of what the peer's option says, 536 without one, and our own segment size. */
  predicate SegmentSize(size: nat, opt: Option<U16>, mss: U16) {
    && size <= opt.GetOr(536) && size <= mss && (size == opt.GetOr(536) || size == mss)
  }

  lemma SynAcked(s: State, iss: U32, irs: U32, window: U16, opt: Option<U16>)
    requires SynOut(s, iss)
    ensures var s' := Step(s, Arrive(Packet(0, Segment(irs, Wrap32(iss + 1), SYN_ACK, window, opt, []))), true);
            && OwnQueued(s', Established, Wrap32(iss + 1), Wrap32(irs + 1)) && s'.h.wire == s.h.wire
            && s'.t.remoteWindow == window && SegmentSize(s'.t.maxEnqueue, opt, s.t.mss)
  {
    hide Sent, EnqueueConnect;
    var seg := Segment(irs, Wrap32(iss + 1), SYN_ACK, window, opt, []);
    SynRemoved(s, iss);
    ConnectAlone(OpenComplete(s, seg));
  }

  lemma SynRemoved(s: State, iss: U32)
    requires SynOut(s, iss)
    ensures var s' := RemoveSent(s, Wrap32(iss + 1));
            && s'.q.sent == [] && s'.q.outgoing == [] && s'.q.bufs == s.q.bufs && s'.r == s.r && s'.h.wire == s.h.wire
            && s'.t == s.t.(oldest := s.t.seqNum)
  {
    hide Wrap16;
    assert Removable(iss, Wrap32(iss + 1), iss);
    assert PopSent(s).q.sent == [];
    assert RemoveSent(s, Wrap32(iss + 1)) == RemoveSent(PopSent(s), Wrap32(iss + 1));
  }

  /**
   * connect: our SYN with the initial number and our segment size, the SYN-ACK, our ack.  The connection is up,
   * with the peer's window and the smaller segment size.
   */
  lemma Opens(iss: U32, pool: nat, mss: U16, rcvSize: U16, irs: U32, window: U16, opt: Option<U16>)
    ensures var s0 := Connect(Fresh(iss, pool, mss, rcvSize));
            var s1 := Clock(s0);
            var s2 := Next(s1, Arrive(Packet(0, Segment(irs, Wrap32(iss + 1), SYN_ACK, window, opt, []))));
            var s3 := Clock(s2);
            && s0.h.wire == [] && OneOut(s0, s1, iss, 0, SYN) && OffersMss(s0, s1.h.wire[0]) && s1.t.phase == SynSent
            && s2.h.wire == s1.h.wire && s2.t.phase == Established
            && s2.t.remoteWindow == window && SegmentSize(s2.t.maxEnqueue, opt, mss)
            && OneOut(s2, s3, Wrap32(iss + 1), Wrap32(irs + 1), ACK)
            && Quiet(s3, Established, Wrap32(iss + 1), Wrap32(irs + 1))
  {
    hide Step, OwnQueued, Connect, Quiet;
    SynQueued(iss, pool, mss, rcvSize);
    var s0 := Connect(Fresh(iss, pool, mss, rcvSize));
    OwnNamed(s0, SynSent, iss, 0);
    OwnAck(s0, SynSent, iss, 0);
    SynLeaves(s0, iss);
    SynAcked(Clock(s0), iss, irs, window, opt);
    var s2 := Next(Clock(s0), Arrive(Packet(0, Segment(irs, Wrap32(iss + 1), SYN_ACK, window, opt, []))));
    OwnNamed(s2, Established, Wrap32(iss + 1), Wrap32(irs + 1));
    AckLeaves(s2, Wrap32(iss + 1), Wrap32(irs + 1));
  }

  lemma OwnAck(s: State, phase: Phase, num: U32, ack: U32)
    requires OwnQueued(s, phase, num, ack)
    ensures s.t.ackNum == ack
  {
  }

  /** connect on a socket that is not closed does nothing. */
  lemma ConnectsOnce(s: State)
    requires Named(s.q)
    ensures s.t.phase != Closed ==> Connect(s) == s
    ensures s.t.phase == Closed && s.q.outgoing == [] ==>
              var s' := Connect(s); s'.t == s.t.(phase := SynSent) && s'.q.outgoing == [Conn(s.q)] && s'.h.wire == s.h.wire
  {
    hide EnqueueConnect;
    if s.t.phase == Closed && s.q.outgoing == [] { ConnectAlone(s.(t := s.t.(phase := SynSent))); }
  }

  // ---------------------------------------------------------------- both open at once

  lemma SynHeard(s: State, iss: U32, irs: U32, window: U16, opt: Option<U16>)
    requires SynOut(s, iss)
    ensures var s' := Step(s, Arrive(Packet(0, Segment(irs, 0, SYN, window, opt, []))), true);
            && OwnQueued(s', SynRecved, iss, Wrap32(irs + 1)) && s'.h.wire == s.h.wire && s'.t.remoteWindow == 0
            && SegmentSize(s'.t.maxEnqueue, opt, s.t.mss) && s'.t.mss == s.t.mss && s'.r.size == s.r.size
  {
    hide SimultaneousOpen, Wrap32;
    OpenedToo(s, iss, Segment(irs, 0, SYN, window, opt, []));
  }

  lemma OpenedToo(s: State, iss: U32, seg: Segment)
    requires SynOut(s, iss)
    ensures var s' := SimultaneousOpen(s, seg);
            && OwnQueued(s', SynRecved, iss, Wrap32(seg.num + 1)) && s'.h.wire == s.h.wire && s'.t.remoteWindow == 0
            && SegmentSize(s'.t.maxEnqueue, seg.mss, s.t.mss) && s'.t.mss == s.t.mss && s'.r.size == s.r.size
  {
    hide EnqueueConnect, ClearQueues, Wrap32;
    WrapAdd(iss + 1, -1);
    PlainNumber(iss);
    var t1 := s.t.(phase := SynRecved, ackNum := Wrap32(seg.num + 1), maxEnqueue := MaxEnqueueFor(s.t, seg),
                   seqNum := Wrap32(s.t.seqNum - 1));
    var s1 := s.(t := t1, h := s.h.(iss := t1.seqNum, synSent := false));
    Cleared(s1);
    ConnectAlone(ClearQueues(s1));
  }

  lemma PlainNumber(x: U32)
    ensures Wrap32(x + 1 + -1) == x
  {
  }

  lemma Cleared(s: State)
    requires Named(s.q)
    ensures var s' := ClearQueues(s);
            && s'.q.outgoing == [] && s'.q.sent == [] && s'.q.bufs == s.q.bufs && s'.t == s.t
            && s'.r == s.r.(incoming := []) && s'.h.wire == s.h.wire
  {
    hide Wrap16, ReturnAll;
    var q0 := s.q.(outgoing := [], pendingOutgoing := Wrap16(s.q.pendingOutgoing - |s.q.outgoing|));
    ReturnAllKeeps(q0, s.q.outgoing);
    var q1 := ReturnAll(q0, s.q.outgoing).(sent := [], pendingSent := Wrap16(s.q.pendingSent - |s.q.sent|));
    ReturnAllKeeps(q1, s.q.sent);
  }

  /** The SYN-ACK is out. */
  ghost predicate SynAckOut(s: State, iss: U32, ack: U32) {
    && Sound(s) && s.t.phase == SynRecved && s.t.seqNum == Wrap32(iss + 1) && s.t.oldest == iss && s.t.ackNum == ack
    && s.q.outgoing == [] && s.q.sent == [Conn(s.q)] && s.q.bufs[Conn(s.q)].last == iss
  }

  lemma SynAckLeaves(s: State, iss: U32, ack: U32)
    requires OwnQueued(s, SynRecved, iss, ack) && s.t.remoteWindow == 0
    ensures var s' := Step(s, Tick(false, false), true);
            && SynAckOut(s', iss, ack) && OneOut(s, s', iss, ack, SYN_ACK) && OffersMss(s, s'.h.wire[|s.h.wire|])
  {
    hide SendPacket, Wrap16, Step;
    TickDrives(s, false, false, true);
    SynFilled(s, iss);
    SendPacketFrame(s, s.q.bufs[Conn(s.q)], false, false, true);
    var s1 := HeadSent(s, true);
    assert s1.q.outgoing == [] && DriveLoop(s, false, true) == DriveLoop(s1, false, true);
  }

  lemma SynAckAcked(s: State, iss: U32, ack: U32, window: U16)
    requires SynAckOut(s, iss, ack)
    ensures var s' := Step(s, Arrive(Peers(ack, Wrap32(iss + 1), ACK, window)), true);
            Quiet(s', Established, Wrap32(iss + 1), ack) && s'.h.wire == s.h.wire && s'.t.remoteWindow == window
  {
    hide Credit, EnqueueConnect, Step, Sent;
    var p := Peers(ack, Wrap32(iss + 1), ACK, window);
    EmptyAccepted(s, p);
    SynAckCredited(s, iss, ack, p.seg);
  }

  lemma SynAckCredited(s: State, iss: U32, ack: U32, seg: Segment)
    requires SynAckOut(s, iss, ack) && seg.ack == Wrap32(iss + 1)
    ensures var s' := Credit(s, seg);
            Quiet(s', SynRecved, Wrap32(iss + 1), ack) && s'.h.wire == s.h.wire
  {
    hide Sent, Wrap16;
    var s1 := Noted(s, seg);
    assert Removable(iss, seg.ack, s1.t.oldest);
    assert PopSent(s1).q.sent == [];
    assert RemoveSent(s1, seg.ack) == RemoveSent(PopSent(s1), seg.ack);
  }

  /** SYN_RECVED: an acceptable segment that does not acknowledge our SYN-ACK clears the queues and gets a reset. */
  lemma SynAckNotAcked(s: State, p: Packet)
    requires Sound(s) && s.t.phase == SynRecved && p.seg.data == [] && !p.seg.bits.rst && p.seg.ack != s.t.seqNum
    requires InOrder(s.t, p.seg)
    ensures var s' := Step(s, Arrive(p), true);
            && s'.t.phase == SynRecved && s'.q.outgoing == [] && s'.q.sent == []
            && |s'.h.wire| == |s.h.wire| + 1 && s'.h.wire[..|s.h.wire|] == s.h.wire
            && s'.h.wire[|s.h.wire|].bits == Bits(false, true, false, true, false) && s'.h.wire[|s.h.wire|].num == p.seg.ack
  {
    hide Credit, ClearQueues, EnqueueConnect, Step, Wrap32;
    EmptyAccepted(s, p);
    CreditFrame(s, p.seg);
    Cleared(Credit(s, p.seg));
  }

  /** Both open at once: our SYN again, as a SYN-ACK under its first number, and with its ack the connection is up. */
  lemma SimultaneousOpens(iss: U32, pool: nat, mss: U16, rcvSize: U16, irs: U32, w1: U16, opt: Option<U16>, w2: U16)
    ensures var s1 := Clock(Connect(Fresh(iss, pool, mss, rcvSize)));
            var s2 := Next(s1, Arrive(Packet(0, Segment(irs, 0, SYN, w1, opt, []))));
            var s3 := Clock(s2);
            var s4 := Hear(s3, Wrap32(irs + 1), Wrap32(iss + 1), ACK, w2);
            && s2.h.wire == s1.h.wire && s2.t.phase == SynRecved && SegmentSize(s2.t.maxEnqueue, opt, mss)
            && OneOut(s2, s3, iss, Wrap32(irs + 1), SYN_ACK) && OffersMss(s2, s3.h.wire[|s2.h.wire|])
            && s4.h.wire == s3.h.wire && s4.t.remoteWindow == w2
            && Quiet(s4, Established, Wrap32(iss + 1), Wrap32(irs + 1))
  {
    hide Step, OwnQueued, Connect, Quiet;
    SynQueued(iss, pool, mss, rcvSize);
    var s0 := Connect(Fresh(iss, pool, mss, rcvSize));
    OwnNamed(s0, SynSent, iss, 0);
    OwnAck(s0, SynSent, iss, 0);
    SynLeaves(s0, iss);
    SynHeard(Clock(s0), iss, irs, w1, opt);
    var s2 := Next(Clock(s0), Arrive(Packet(0, Segment(irs, 0, SYN, w1, opt, []))));
    OwnNamed(s2, SynRecved, iss, Wrap32(irs + 1));
    SynAckLeaves(s2, iss, Wrap32(irs + 1));
    SynAckAcked(Clock(s2), iss, Wrap32(irs + 1), w2);
  }
}
