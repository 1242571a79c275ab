/**
 * What the engine must send, and when: retransmissions, answers to packets out of order, window
 * updates, probes and resets.
 */
module TcpAnswers {
  import opened Machine
  import opened TcpModel
  import opened TcpPool
  import opened TcpStream
  import opened TcpRuns

  // ---------------------------------------------------------------- the retransmission timer

  type Steps = seq<(Event, bool)>

  /** The timer of the oldest packet on `sent` has run out at every one of these ticks. */
  predicate AllOverdue(es: Steps) { forall i :: 0 <= i < |es| ==> es[i].0.Tick? && es[i].0.overdue }

  /** The segment that is sent again: the header as it stands, with the data. */
  function Copy(s: State): Segment
    requires Named(s.q) && s.q.sent != []
  {
    s.q.bufs[s.q.sent[0]].header.(data := s.q.bufs[s.q.sent[0]].data)
  }

  /** `n` more copies of the oldest packet on `sent` went out, and nothing else happened. */
  ghost predicate SentAgain(s: State, s': State, n: nat)
    requires Named(s.q) && s.q.sent != []
  {
    var id := s.q.sent[0];
    && s'.t == s.t && s'.r == s.r
    && s'.q == s.q.(bufs := s.q.bufs[id := s.q.bufs[id].(attempts := s.q.bufs[id].attempts + n)])
    && s'.h == s.h.(wire := s.h.wire + seq(n, _ => Copy(s)))
  }

  lemma AgainOnce(s: State, s': State, n: nat, overdue: Event, arp: bool)
    requires Named(s.q) && s.q.sent != [] && SentAgain(s, s', n)
    requires overdue.Tick? && overdue.overdue && s.q.bufs[s.q.sent[0]].attempts + n <= 10
    ensures Named(s'.q) && SentAgain(s, Step(s', overdue, arp), n + 1)
  {
    var id := s.q.sent[0];
    assert s.q.bufs[id := s.q.bufs[id].(attempts := 0)][id].data == s.q.bufs[id].data;
    assert Copy(s') == Copy(s);
    assert (s.h.wire + seq(n, _ => Copy(s))) + [Copy(s)] == s.h.wire + seq(n + 1, _ => Copy(s));
    assert Step(s', overdue, arp).q.bufs == s.q.bufs[id := s.q.bufs[id].(attempts := s.q.bufs[id].attempts + n + 1)];
  }

  /** A packet sent once is sent again at each of the next ten timeouts, unchanged, and nothing else happens. */
  lemma {:induction false} Retransmits(s: State, es: Steps)
    requires PoolInv(s) && s.q.sent != [] && s.q.bufs[s.q.sent[0]].attempts == 1
    requires AllOverdue(es) && |es| <= 10
    ensures SentAgain(s, Run(s, es), |es|)
    decreases |es|
  {
    hide SentAgain, PoolInv, Step;
    PoolNamed(s);
    if es == [] {
      NoneYet(s);
    } else {
      var n := |es| - 1;
      Retransmits(s, es[..n]);
      AgainOnce(s, Run(s, es[..n]), n, es[n].0, es[n].1);
    }
  }

  lemma NoneYet(s: State)
    requires Named(s.q) && s.q.sent != []
    ensures SentAgain(s, s, 0)
  {
    assert s.h.wire + seq(0, _ => Copy(s)) == s.h.wire;
    var id := s.q.sent[0];
    assert s.q.bufs[id := s.q.bufs[id]] == s.q.bufs;
  }

  lemma LastTimeout(s: State, e: Event, arp: bool)
    requires Named(s.q) && s.q.sent != [] && s.q.bufs[s.q.sent[0]].attempts == 11 && e.Tick? && e.overdue
    ensures var s' := Step(s, e, arp);
            && s'.t.phase == Closed && s'.t.closeReason == 4 && s'.h.aborted && s'.h.wire == s.h.wire
            && s'.q.outgoing == [] && s'.q.sent == []
  {
    hide Destroy;
    DestroyIs(s);
    DestroyEmpties(s);
  }

  lemma DestroyEmpties(s: State)
    requires Named(s.q)
    ensures Destroy(s).q.outgoing == [] && Destroy(s).q.sent == []
  {
    hide Wrap16, ReturnAll;
    var q0 := s.q.(outgoing := [], pendingOutgoing := Wrap16(s.q.pendingOutgoing - |s.q.outgoing|));
    ReturnAllKeeps(q0, s.q.outgoing);
    var q1 := ReturnAll(q0, s.q.outgoing).(sent := [], pendingSent := Wrap16(s.q.pendingSent - |s.q.sent|));
    ReturnAllKeeps(q1, s.q.sent);
  }

  /** The eleventh timeout closes the socket with reason 4, and sends nothing. */
  lemma GivesUp(s: State, es: Steps)
    requires PoolInv(s) && s.q.sent != [] && s.q.bufs[s.q.sent[0]].attempts == 1
    requires AllOverdue(es) && |es| == 11
    ensures var s' := Run(s, es);
            && s'.t.phase == Closed && s'.t.closeReason == 4 && s'.h.aborted
            && s'.q.outgoing == [] && s'.q.sent == [] && s'.h.wire == s.h.wire + seq(10, _ => Copy(s))
  {
    hide PoolInv, Step;
    PoolNamed(s);
    Retransmits(s, es[..10]);
    LastTimeout(Run(s, es[..10]), es[10].0, es[10].1);
  }

  // ---------------------------------------------------------------- bare acks

  /** `window` is the room, or under the restriction the smaller of half the room and one segment. */
  predicate Offers(t: Tcb, room: nat, window: nat) {
    if t.smallWindow then window <= room / 2 && window <= t.mss && (window == room / 2 || window == t.mss)
    else window == room
  }

  /** Room in the receive buffer; without one, four segments in sixteen bits. */
  function Room(s: State): nat
    requires s.r.size == 0 || |s.r.data| <= s.r.size
  {
    if s.r.size != 0 then s.r.size - |s.r.data| else 4 * s.t.mss % 65536
  }

  /** Exactly one empty ACK went out between `s` and `s'`, numbered `num`, with `room` on offer. */
  ghost predicate OneAck(s: State, s': State, num: U32, room: nat) {
    && |s'.h.wire| == |s.h.wire| + 1 && s'.h.wire[..|s.h.wire|] == s.h.wire
    && var w := s'.h.wire[|s.h.wire|];
    && w.num == num && w.ack == s.t.ackNum && w.data == [] && w.mss == None
    && w.bits == Bits(false, true, false, false, false) && Offers(s.t, room, w.window)
  }

  /** What sendPureAck does while ESTABLISHED with the hardware address known. */
  lemma PureAckIs(s: State, probe: bool, arp: bool)
    requires s.t.phase == Established && (s.t.macCached || arp) && (s.r.size == 0 || |s.r.data| <= s.r.size)
    ensures var s' := PureAck(s, probe, arp);
            && OneAck(s, s', if probe then Wrap32(s.t.seqNum - 1) else s.t.seqNum, Room(s))
            && s' == s.(h := s.h.(wire := s'.h.wire))
  {
  }

  /** The tests of process2 for a packet it can use. */
  predicate InOrder(t: Tcb, seg: Segment) {
    seg.bits.ack && AckProper(t.oldest, t.seqNum, seg.ack) && seg.num == t.ackNum
  }

  /** ESTABLISHED: a packet that is out of order is answered with one empty ACK saying what is expected. */
  lemma OutOfOrderAnswered(s: State, p: Packet, arp: bool)
    requires Named(s.q) && s.t.phase == Established && (s.t.macCached || arp)
    requires s.r.size == 0 || |s.r.data| <= s.r.size
    requires !p.seg.bits.rst && !InOrder(s.t, p.seg)
    ensures var s' := Receive(s, p, arp);
            && OneAck(s, s', s.t.seqNum, Room(s)) && s'.h.freed == s.h.freed + [p]
            && s'.q == s.q && s'.r == s.r && s'.t.phase == s.t.phase
            && s'.t.seqNum == s.t.seqNum && s'.t.ackNum == s.t.ackNum && s'.t.oldest == s.t.oldest
            && s'.t.remoteWindow == s.t.remoteWindow
  {
    hide PureAck, Accept, Destroy, AckProper;
    PureAckIs(s, false, arp);
  }

  /** In the other synchronized states such a packet is not answered at all, where RFC 793 wants an ACK. */
  lemma OutOfOrderIgnored(s: State, p: Packet, arp: bool)
    requires Named(s.q) && s.t.phase !in {Established, SynSent, SynRecved, Closed, TimeWait}
    requires !p.seg.bits.rst && !InOrder(s.t, p.seg)
    ensures var s' := Receive(s, p, arp); s'.h.wire == s.h.wire && s'.q == s.q && s'.t.phase == s.t.phase
  {
    hide Accept, Destroy, AckProper;
  }

  /** recv that takes data from a full buffer tells the peer how much room there is now. */
  lemma RecvReopens(s: State, n: nat, arp: bool)
    requires s.t.phase == Established && (s.t.macCached || arp)
    requires 0 < s.r.size && |s.r.data| == s.r.size && 0 < n
    ensures var (s', code, out) := Recv(s, n, arp);
            && code == |out| && out == s.r.data[..|out|] && (|out| == n || (|out| == s.r.size && s.r.size < n))
            && OneAck(s, s', s.t.seqNum, |out|)
  {
    hide PureAck;
    var k := Min(n, |s.r.data|);
    PureAckIs(s.(r := s.r.(data := s.r.data[k..]), h := s.h.(consumed := s.h.consumed + s.r.data[..k])), false, arp);
  }

  /** And otherwise, or in another state, recv sends nothing. */
  lemma RecvQuiet(s: State, n: nat, arp: bool)
    requires |s.r.data| < s.r.size || s.t.phase != Established
    ensures Recv(s, n, arp).0.h.wire == s.h.wire
  {
  }

  /**
   * A packet that does not fit the peer's window waits, and each time the probe timer runs out one empty
   * ACK goes out with the number before the next one, which the peer must answer.
   */
  lemma ProbeSent(s: State, overdue: bool, probeDue: bool, arp: bool)
    requires Named(s.q) && s.t.phase == Established && (s.t.macCached || arp)
    requires s.r.size == 0 || |s.r.data| <= s.r.size
    requires s.q.sent == [] || !overdue
    requires |s.q.sent| < 4 && s.q.outgoing != [] && |s.q.bufs[s.q.outgoing[0]].data| > s.t.remoteWindow
    ensures var s' := Drive(s, overdue, probeDue, arp);
            && s'.q == s.q && s'.t == s.t
            && (if probeDue then OneAck(s, s', Wrap32(s.t.seqNum - 1), Room(s)) else s' == s)
  {
    hide PureAck;
    PureAckIs(s, true, arp);
  }

  /** The answer: whatever the engine at the other end is doing in ESTABLISHED, it says what room it has. */
  lemma ProbeAnswered(s: State, peer: State, id: nat, arp: bool)
    requires Named(s.q) && s.t.phase == Established && s.q.sent == [] && (s.t.macCached || arp)
    requires s.r.size == 0 || |s.r.data| <= s.r.size
    requires s.q.outgoing != [] && |s.q.bufs[s.q.outgoing[0]].data| > s.t.remoteWindow
    requires Named(peer.q) && peer.t.phase == Established && (peer.t.macCached || arp)
    requires peer.r.size == 0 || |peer.r.data| <= peer.r.size
    requires peer.t.ackNum == s.t.seqNum
    ensures var s' := Drive(s, false, true, arp);
            |s'.h.wire| == |s.h.wire| + 1 &&
            OneAck(peer, Receive(peer, Packet(id, s'.h.wire[|s.h.wire|]), arp), peer.t.seqNum, Room(peer))
  {
    hide Receive, Drive, Room, Offers, AckProper;
    ProbeSent(s, false, true, arp);
    var s' := Drive(s, false, true, arp);
    OutOfOrderAnswered(peer, Packet(id, s'.h.wire[|s.h.wire|]), arp);
  }

  /** The user reads from a full buffer, and the peer, which had nothing outstanding, may send that much again. */
  lemma WindowReopens(s: State, n: nat, peer: State, id: nat, arp: bool)
    requires s.t.phase == Established && (s.t.macCached || arp) && 0 < s.r.size && |s.r.data| == s.r.size && 0 < n
    requires Named(peer.q) && peer.t.phase == Established && peer.q.sent == []
    requires peer.t.seqNum == s.t.ackNum && peer.t.ackNum == s.t.seqNum
    ensures var (s', code, out) := Recv(s, n, arp);
            |s'.h.wire| == |s.h.wire| + 1 &&
            var peer' := Receive(peer, Packet(id, s'.h.wire[|s.h.wire|]), arp);
            && Offers(s.t, code, peer'.t.remoteWindow) && peer'.q == peer.q && peer'.h.wire == peer.h.wire
            && peer'.t.seqNum == peer.t.seqNum && peer'.t.ackNum == peer.t.ackNum
  {
    hide Recv, Receive, Offers;
    RecvReopens(s, n, arp);
    WindowTaken(peer, Packet(id, Recv(s, n, arp).0.h.wire[|s.h.wire|]), arp);
  }

  /** With nothing outstanding an empty ACK of everything does nothing but bring its window. */
  lemma WindowTaken(s: State, p: Packet, arp: bool)
    requires Named(s.q) && s.t.phase == Established && s.q.sent == []
    requires p.seg.bits == Bits(false, true, false, false, false) && p.seg.data == []
    requires p.seg.num == s.t.ackNum && p.seg.ack == s.t.seqNum
    ensures var s' := Receive(s, p, arp);
            && s'.t.remoteWindow == p.seg.window && s'.q == s.q && s'.h.wire == s.h.wire
            && s'.t.seqNum == s.t.seqNum && s'.t.ackNum == s.t.ackNum
  {
    hide Credit, Advance, EnqueueConnect, Wrap32;
    CreditIdle(s, p.seg);
    AdvanceIdle(Credit(s, p.seg), p.seg, arp);
  }

  /** Nothing is removed when nothing is outstanding; the window is taken. */
  lemma CreditIdle(s: State, seg: Segment)
    requires Named(s.q) && s.q.sent == []
    ensures var s' := Credit(s, seg);
            && s'.q == s.q && s'.r == s.r && s'.h.wire == s.h.wire && s'.h.fins == s.h.fins
            && s'.t.phase == s.t.phase && s'.t.remoteWindow == seg.window && s'.t.seqNum == s.t.seqNum
            && s'.t.ackNum == s.t.ackNum && s'.t.oldest == s.t.oldest && s'.t.disableReads == s.t.disableReads
            && s'.t.macCached == s.t.macCached
  {
    hide Sent, Wrap32;
  }

  lemma AdvanceIdle(s: State, seg: Segment, arp: bool)
    requires Named(s.q) && s.t.phase == Established && !seg.bits.fin
    ensures forall current: bool :: Advance(s, seg, current, arp) == s
  {
  }

  /** The window of an acceptable segment is taken exactly if nothing is left outstanding. */
  lemma WindowTakenWhen(s: State, p: Packet, arp: bool)
    requires Named(s.q) && s.t.phase == Established && InOrder(s.t, p.seg) && !p.seg.bits.rst
    ensures var s' := Receive(s, p, arp);
            s'.t.remoteWindow == if s'.q.sent == [] then p.seg.window else s.t.remoteWindow
  {
    hide Credit, TakeData, EnqueueConnect, AckProper, Wrap32;
    CreditWindow(s, p.seg);
    var s1 := Credit(s, p.seg);
    TakeKeepsWindow(s1, p);
    var k := if p.seg.data == [] then Taken(s1, true, false) else TakeData(s1, p);
    ConnectKeepsWindow(Advance(k.s, p.seg, p.seg.ack == s.t.seqNum, arp));
  }

  lemma CreditWindow(s: State, seg: Segment)
    requires Named(s.q)
    ensures var s' := Credit(s, seg);
            && s'.t.remoteWindow == (if s'.q.sent == [] then seg.window else s.t.remoteWindow)
            && s'.t.phase == s.t.phase
  {
    hide Sent, Wrap32;
    RemoveCounts(Noted(s, seg), seg.ack);
  }

  lemma TakeKeepsWindow(s: State, p: Packet)
    ensures var s' := TakeData(s, p).s; s'.t.remoteWindow == s.t.remoteWindow && s'.t.phase == s.t.phase && s'.q == s.q
  {
    hide Wrap32;
  }

  lemma ConnectKeepsWindow(s: State)
    requires Named(s.q)
    ensures EnqueueConnect(s).t == s.t && EnqueueConnect(s).q.sent == s.q.sent
  {
    hide Wrap16;
  }

  // ---------------------------------------------------------------- the restricted window

  ghost function ReceiveAll(s: State, ps: seq<Packet>, arp: bool): (r: State)
    requires PoolInv(s)
    ensures PoolInv(r)
    decreases |ps|
  {
    if ps == [] then s
    else
      var m := ReceiveAll(s, ps[..|ps| - 1], arp);
      ReceiveKeeps(m, ps[|ps| - 1], arp);
      Receive(m, ps[|ps| - 1], arp)
  }

  /** A packet that process2 neither uses nor takes for a reset. */
  predicate Unusable(t: Tcb, seg: Segment) {
    !seg.bits.rst && !(seg.bits.ack && AckProper(t.oldest, t.seqNum, seg.ack) && SeqProper(t, seg))
  }

  predicate Usable(t: Tcb, seg: Segment) {
    && t.phase !in {Closed, SynSent, TimeWait}
    && !seg.bits.rst && seg.bits.ack && AckProper(t.oldest, t.seqNum, seg.ack) && SeqProper(t, seg)
  }

  /** What the tests of process2 look at, and the window restriction's counters. */
  datatype Streak = Streak(phase: Phase, oldest: U32, seqNum: U32, ackNum: U32, errs: nat, good: nat, small: bool)

  function StreakOf(t: Tcb): Streak {
    Streak(t.phase, t.oldest, t.seqNum, t.ackNum, t.seqErrs, t.goodPackets, t.smallWindow)
  }

  lemma OneError(s: State, p: Packet, arp: bool)
    requires Named(s.q) && s.t.phase !in {Closed, SynSent, TimeWait} && Unusable(s.t, p.seg)
    ensures StreakOf(Receive(s, p, arp).t) ==
              StreakOf(s.t).(errs := Min(s.t.seqErrs + 1, 255), good := 0, small := s.t.smallWindow || s.t.seqErrs >= 4)
  {
    hide AckProper, AdvertisedWindow;
  }

  /** From the fifth unusable packet in a row on, and not before, the window is restricted. */
  lemma {:induction false} RestrictedAfterFive(s: State, ps: seq<Packet>, arp: bool)
    requires PoolInv(s) && s.t.phase !in {Closed, SynSent, TimeWait} && s.t.seqErrs == 0
    requires forall i :: 0 <= i < |ps| ==> Unusable(s.t, ps[i].seg)
    ensures var t' := ReceiveAll(s, ps, arp).t;
            && t'.smallWindow == (s.t.smallWindow || |ps| >= 5) && (|ps| <= 255 ==> t'.seqErrs == |ps|)
            && t'.phase == s.t.phase && t'.oldest == s.t.oldest && t'.seqNum == s.t.seqNum && t'.ackNum == s.t.ackNum
    ensures |ps| > 255 ==> ReceiveAll(s, ps, arp).t.seqErrs == 255
    decreases |ps|
  {
    hide PoolInv, Receive, AckProper;
    if ps != [] {
      var n := |ps| - 1;
      RestrictedAfterFive(s, ps[..n], arp);
      var m := ReceiveAll(s, ps[..n], arp);
      PoolNamed(m);
      assert Unusable(s.t, ps[n].seg);
      OneError(m, ps[n], arp);
    }
  }

  /** Each packet of the list can be used when it arrives. */
  ghost predicate AllUsable(s: State, ps: seq<Packet>, arp: bool)
    requires PoolInv(s)
    decreases |ps|
  {
    ps == [] ||
    (AllUsable(s, ps[..|ps| - 1], arp) && Usable(ReceiveAll(s, ps[..|ps| - 1], arp).t, ps[|ps| - 1].seg))
  }

  /** After Noted nothing touches the counters. */
  lemma OneGood(s: State, p: Packet, arp: bool)
    requires Named(s.q) && Usable(s.t, p.seg)
    ensures var t' := Receive(s, p, arp).t;
            && t'.goodPackets == Min(s.t.goodPackets + 1, 255) && t'.seqErrs == 0
            && t'.smallWindow == (s.t.smallWindow && s.t.goodPackets < 50)
  {
    hide Credit, TakeData, Advance, EnqueueConnect, AckProper, SeqProper;
    CreditCounts(s, p.seg);
    var k := if p.seg.data == [] then Taken(Credit(s, p.seg), true, false) else TakeData(Credit(s, p.seg), p);
    TakeCounts(Credit(s, p.seg), p);
    AdvanceCounters(k.s, p.seg, p.seg.ack == s.t.seqNum, arp);
    EnqueueConnectFrame(Advance(k.s, p.seg, p.seg.ack == s.t.seqNum, arp));
  }

  lemma CreditCounts(s: State, seg: Segment)
    requires Named(s.q)
    ensures var t' := Credit(s, seg).t;
            && t'.goodPackets == Min(s.t.goodPackets + 1, 255) && t'.seqErrs == 0
            && t'.smallWindow == (s.t.smallWindow && s.t.goodPackets < 50)
  {
    hide Sent, Wrap32;
    RemoveCounts(Noted(s, seg), seg.ack);
  }

  lemma {:induction false} RemoveCounts(s: State, target: U32)
    requires Named(s.q)
    ensures RemoveSent(s, target).t == s.t.(oldest := RemoveSent(s, target).t.oldest)
    decreases |s.q.sent|
  {
    hide PopSent;
    if s.q.sent != [] {
      assert PopSent(s).t == s.t by { PopCounts(s); }
      RemoveCounts(PopSent(s), target);
    }
  }

  lemma PopCounts(s: State)
    requires Named(s.q) && s.q.sent != []
    ensures PopSent(s).t == s.t
  {
  }

  lemma TakeCounts(s: State, p: Packet)
    ensures TakeData(s, p).s.t == s.t.(ackNum := TakeData(s, p).s.t.ackNum)
  {
    hide Wrap32;
  }

  lemma AdvanceCounters(s: State, seg: Segment, current: bool, arp: bool)
    requires Named(s.q)
    ensures var t' := Advance(s, seg, current, arp).t;
            t'.goodPackets == s.t.goodPackets && t'.seqErrs == s.t.seqErrs && t'.smallWindow == s.t.smallWindow
  {
    hide ClearQueues, Reset, Adopt, Wrap32;
    ClearKeepsTcb(s);
    ResetKeepsTcb(ClearQueues(s), seg, arp);
    AdoptKeepsTcb(s.(t := s.t.(phase := Established)), seg.ack, seg.window);
  }

  lemma ResetKeepsTcb(s: State, seg: Segment, arp: bool)
    ensures Reset(s, seg, arp).t == s.t
  {
  }

  lemma AdoptKeepsTcb(s: State, ack: U32, window: U16)
    requires Named(s.q)
    ensures Adopt(s, ack, window).t == s.t.(remoteWindow := window)
  {
    hide Sent, Wrap32;
  }

  lemma ClearKeepsTcb(s: State)
    requires Named(s.q)
    ensures ClearQueues(s).t == s.t
  {
    hide ReturnAll;
  }

  /** From the fifty-first usable packet in a row on, and not before, the restriction is lifted. */
  lemma {:induction false} LiftedAfterFiftyOne(s: State, ps: seq<Packet>, arp: bool)
    requires PoolInv(s) && s.t.goodPackets == 0 && AllUsable(s, ps, arp)
    ensures var t' := ReceiveAll(s, ps, arp).t;
            t'.smallWindow == (s.t.smallWindow && |ps| <= 50) && t'.goodPackets == Min(|ps|, 255)
    decreases |ps|
  {
    hide PoolInv, Receive, Usable;
    if ps != [] {
      var n := |ps| - 1;
      LiftedAfterFiftyOne(s, ps[..n], arp);
      PoolNamed(ReceiveAll(s, ps[..n], arp));
      OneGood(ReceiveAll(s, ps[..n], arp), ps[n], arp);
    }
  }

  // ---------------------------------------------------------------- resets

  /** A peer whose segment says that it cannot be for this connection. */
  ghost predicate Stranger(peer: State, seg: Segment) {
    !seg.bits.rst &&
    if peer.t.phase == SynSent then
      seg.bits.syn && !seg.bits.ack && seg.data == [] && peer.t.seqNum == Wrap32(seg.num + 1)
    else
      peer.t.phase !in {Closed, TimeWait} && seg.bits.ack && peer.t.ackNum == seg.ack
  }

  /**
   * A segment for a closed socket is answered with one reset, and that closes the peer that sent it, be it
   * its SYN or a segment acknowledging what it had received by then.
   */
  lemma ResetClosesPeer(s: State, seg: Segment, id: nat, peer: State, id': nat, arp: bool)
    requires Named(s.q) && s.t.phase in {Closed, TimeWait}
    requires Named(peer.q) && Stranger(peer, seg)
    ensures var s' := Receive(s, Packet(id, seg), true);
            && |s'.h.wire| == |s.h.wire| + 1 && s'.h.wire[..|s.h.wire|] == s.h.wire && s'.t == s.t && s'.q == s.q
            && var w := s'.h.wire[|s.h.wire|];
            && w.bits == Bits(false, true, false, true, false) && w.data == [] && w.window == 0
            && var peer' := Receive(peer, Packet(id', w), arp);
            && peer'.t.phase == Closed && peer'.t.closeReason == 1 && peer'.q.outgoing == [] && peer'.q.sent == []
            && peer'.h.wire == peer.h.wire
  {
    hide Accept, Destroy, Wrap32, AckProper;
    DestroyIs(peer);
    DestroyEmpties(peer);
    WrapAdd(seg.num + |seg.data|, 0);
  }

  /** Exactly which resets are believed: in SYN_SENT those that acknowledge our SYN, later those in sequence. */
  lemma ResetBelieved(s: State, p: Packet, arp: bool)
    requires Named(s.q) && p.seg.bits.rst
    ensures var s' := Receive(s, p, arp);
            var believed :=
              match s.t.phase
              case Closed => false
              case TimeWait => false
              case SynSent => p.seg.bits.ack && p.seg.ack == s.t.seqNum
              case SynRecved => p.seg.num == s.t.ackNum || p.seg.num == Wrap32(s.t.ackNum - 1)
              case _ => p.seg.num == s.t.ackNum;
            if believed then
              s'.t == s.t.(phase := Closed, closeReason := 1) && s'.q.outgoing == [] && s'.q.sent == [] && s'.h.aborted
            else s' == s.(h := s.h.(freed := s.h.freed + [p]))
  {
    hide Destroy, Wrap32, AckProper;
    DestroyIs(s);
    DestroyEmpties(s);
  }

  /** Resets are not answered. */
  lemma ResetNotAnswered(s: State, p: Packet, arp: bool)
    requires Named(s.q) && p.seg.bits.rst
    ensures Receive(s, p, arp).h.wire == s.h.wire
  {
    hide Destroy, AckProper;
    DestroyIs(s);
  }

  /** In SYN_SENT: everything but a SYN, and a SYN-ACK for another SYN, gets a reset that its sender must believe. */
  lemma SynSentResets(s: State, p: Packet)
    requires Named(s.q) && s.t.phase == SynSent && !p.seg.bits.rst
    requires !p.seg.bits.syn || (p.seg.bits.ack && p.seg.ack != s.t.seqNum)
    ensures var s' := Receive(s, p, true);
            && s'.q == s.q && s'.t == s.t
            && |s'.h.wire| == |s.h.wire| + 1 && s'.h.wire[|s.h.wire|].bits == Bits(false, true, false, true, false)
            && s'.h.wire[|s.h.wire|].num == (if p.seg.bits.ack then p.seg.ack else 0)
  {
    hide Wrap32;
  }
}
