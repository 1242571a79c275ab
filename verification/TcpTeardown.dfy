/**
 * FINs and wait states on every run whatever: simultaneous opens, closes in any state, packets of
 * the user's own at any time, and ARP answering or not.
 */
module TcpTeardown {
  import opened Machine
  import opened TcpModel
  import opened TcpPool
  import opened TcpStream
  import opened TcpRuns

  /** The states before our FIN is sent. */
  predicate BeforeFin(p: Phase) { StreamPhase(p) || p == SynSent || p == SynRecved || p == SendFin3 }

  /** What the state says about the two FINs. */
  ghost predicate FinsOk(p: Phase, h: History) {
    && h.fins <= 1 && h.finsRcvd <= 1
    && (BeforeFin(p) ==> h.fins == 0) && (FinSentPhase(p) ==> h.fins == 1)
    && (p != Closed ==> (h.finsRcvd == 1 <==> FinCountedPhase(p)))
    && (p == FinWait2 || p == TimeWait ==> h.finAcked)
    && (h.finAcked ==> h.fins == 1)
  }

  ghost predicate Torn(s: State) { FinsOk(s.t.phase, s.h) }

  /** Nothing moved that FinsOk looks at. */
  ghost predicate SameFins(s: State, s': State) {
    s'.t.phase == s.t.phase && s'.h.fins == s.h.fins && s'.h.finsRcvd == s.h.finsRcvd && s'.h.finAcked == s.h.finAcked
  }

  // ---------------------------------------------------------------- steps that leave the FINs alone

  lemma EnqueueFins(s: State, id: nat)
    requires Named(s.q) && id < |s.q.bufs|
    ensures SameFins(s, Enqueue(s, id).0)
  {
    hide Wrap16;
  }

  lemma ConnectFins(s: State)
    requires Named(s.q)
    ensures SameFins(s, EnqueueConnect(s))
  {
    hide Enqueue;
    var c := Conn(s.q);
    EnqueueFins(s.(q := s.q.(bufs := s.q.bufs[c := s.q.bufs[c].(data := [])])), c);
  }

  lemma {:induction false} SendLoopFins(s: State, rest: seq<Byte>)
    requires Named(s.q)
    ensures SameFins(s, SendLoop(s, rest).0)
    decreases |rest|, |s.q.free|
  {
    hide Enqueue, Spins, Wrap16;
    if SendGoes(s, rest) && s.t.phase == Established && !Spins(s, rest) {
      var (s1, got) := GetBuffer(s);
      var n := Min(SendSize(s.t), |rest|);
      EnqueueFins(s1.(q := s1.q.(bufs := s1.q.bufs[got.value := s1.q.bufs[got.value].(data := rest[..n])])), got.value);
      SendTurnShrinks(s, rest);
      SendLoopFins(SendTurn(s, rest).0, SendTurn(s, rest).1);
    }
  }

  lemma TakeDataFins(s: State, p: Packet)
    ensures SameFins(s, TakeData(s, p).s)
  {
    hide Wrap32;
  }

  lemma ResetFins(s: State, seg: Segment, arp: bool)
    ensures SameFins(s, Reset(s, seg, arp))
  {
    hide Wrap32;
  }

  lemma ClearFins(s: State)
    requires Named(s.q)
    ensures SameFins(s, ClearQueues(s)) && ClearQueues(s).t == s.t
  {
    hide Wrap16, ReturnAll;
  }

  lemma DestroyTorn(s: State)
    requires Named(s.q) && Torn(s)
    ensures Torn(Destroy(s))
  {
    DestroyIs(s);
  }

  // ---------------------------------------------------------------- sending

  /** The FIN is added on leaving a SEND_FIN state, and that happens once. */
  lemma SendPacketTorn(s: State, b: Buffer, forceAck: bool, forceProbe: bool, arp: bool)
    requires Torn(s)
    ensures Torn(SendPacket(s, b, forceAck, forceProbe, arp).s)
  {
    hide Wrap32, Header;
  }

  lemma PureAckTorn(s: State, probe: bool, arp: bool)
    requires Torn(s)
    ensures Torn(PureAck(s, probe, arp))
  {
    hide SendPacket;
    SendPacketTorn(s, Blank(), true, probe, arp);
  }

  lemma {:induction false} DriveLoopTorn(s: State, probeDue: bool, arp: bool)
    requires Named(s.q) && Torn(s)
    ensures Torn(DriveLoop(s, probeDue, arp))
    decreases |s.q.outgoing|
  {
    hide SendPacket, PureAck, FinsOk, Wrap32, Wrap16;
    if s.q.outgoing != [] && |s.q.sent| < RING {
      var id := s.q.outgoing[0];
      var f := SendPacket(s, s.q.bufs[id], false, false, arp);
      SendPacketFrame(s, s.q.bufs[id], false, false, arp);
      SendPacketTorn(s, s.q.bufs[id], false, false, arp);
      PureAckTorn(s, true, arp);
      if |s.q.bufs[id].data| <= s.t.remoteWindow && !f.pending {
        DriveLoopTorn(AfterSend(f.s, id, f.b), probeDue, arp);
      }
    }
  }

  lemma TickTorn(s: State, overdue: bool, probeDue: bool, arp: bool)
    requires Named(s.q) && Torn(s)
    ensures Torn(Drive(s, overdue, probeDue, arp))
  {
    hide DriveLoop, Destroy;
    DestroyTorn(s);
    DriveLoopTorn(s, probeDue, arp);
  }

  // ---------------------------------------------------------------- receiving

  /** Only the ack of everything sent after our FIN sets the mark. */
  lemma CreditTorn(s: State, seg: Segment)
    requires Named(s.q) && Torn(s)
    ensures var s' := Credit(s, seg);
            && Torn(s') && s'.t.phase == s.t.phase && s'.t.seqNum == s.t.seqNum
            && (seg.ack == s.t.seqNum && s'.h.fins == 1 ==> s'.h.finAcked)
  {
    hide Credit, Wrap32;
    CreditFrame(s, seg);
    CreditMark(s, seg);
  }

  lemma CreditMark(s: State, seg: Segment)
    requires Named(s.q)
    ensures Credit(s, seg).h.finAcked == (s.h.finAcked || (s.h.fins > 0 && seg.ack == s.t.seqNum))
  {
    hide Wrap32, Wrap16;
    RemoveSentFrame(Noted(s, seg), seg.ack);
  }

  lemma AdvanceTorn(s: State, seg: Segment, current: bool, arp: bool)
    requires Named(s.q) && Torn(s)
    requires current && s.h.fins == 1 ==> s.h.finAcked
    ensures Torn(Advance(s, seg, current, arp))
  {
    hide ClearQueues, Reset, Wrap32, Wrap16;
    ClearFins(s);
    ResetFins(ClearQueues(s), seg, arp);
  }

  lemma AcceptTorn(s: State, p: Packet, arp: bool)
    requires Named(s.q) && Torn(s)
    ensures Torn(Accept(s, p, arp))
  {
    hide Credit, TakeData, Advance, EnqueueConnect, Wrap32, Wrap16;
    var current := p.seg.ack == s.t.seqNum;
    var s1 := Credit(s, p.seg);
    CreditTorn(s, p.seg);
    TakeDataFins(s1, p);
    var k := if p.seg.data == [] then Taken(s1, true, false) else TakeData(s1, p);
    AdvanceTorn(k.s, p.seg, current, arp);
    ConnectFins(Advance(k.s, p.seg, current, arp));
  }

  lemma SynSentTorn(s: State, p: Packet, arp: bool)
    requires Named(s.q) && Torn(s) && s.t.phase == SynSent
    ensures Torn(ReceiveSynSent(s, p, arp))
  {
    hide FinsOk, Destroy, OpenComplete, SimultaneousOpen, EnqueueConnect, Reset;
    var seg := p.seg;
    var s' := ReceiveSynSent(s, p, arp);
    if seg.bits.rst {
      DestroyTorn(s);
      SameTorn(if seg.bits.ack && seg.ack == s.t.seqNum then Destroy(s) else s, s');
    } else if seg.bits.syn && !seg.bits.ack {
      SimultaneousTorn(s, seg);
      SameTorn(SimultaneousOpen(s, seg), s');
    } else if seg.bits.syn && seg.ack == s.t.seqNum {
      OpenTorn(s, seg);
      ConnectFins(OpenComplete(s, seg));
      SameTorn(OpenComplete(s, seg), s');
    } else {
      ResetFins(s, seg, arp);
      SameTorn(s, s');
    }
  }

  lemma SameTorn(s: State, s': State)
    requires Torn(s) && SameFins(s, s')
    ensures Torn(s')
  {
  }

  lemma OpenTorn(s: State, seg: Segment)
    requires Named(s.q) && Torn(s) && s.t.phase == SynSent
    ensures Torn(OpenComplete(s, seg))
  {
    hide RemoveSent, Wrap32;
    RemoveSentFrame(s, seg.ack);
  }

  lemma SimultaneousTorn(s: State, seg: Segment)
    requires Named(s.q) && Torn(s) && s.t.phase == SynSent
    ensures Torn(SimultaneousOpen(s, seg))
  {
    hide ClearQueues, EnqueueConnect, Wrap32;
    var t1 := s.t.(phase := SynRecved, ackNum := Wrap32(seg.num + 1),
                   maxEnqueue := MaxEnqueueFor(s.t, seg), seqNum := Wrap32(s.t.seqNum - 1));
    var s1 := s.(t := t1, h := s.h.(iss := t1.seqNum, synSent := false));
    ClearFins(s1);
    ConnectFins(ClearQueues(s1));
  }

  lemma ReceiveTorn(s: State, p: Packet, arp: bool)
    requires Named(s.q) && Torn(s)
    ensures Torn(Receive(s, p, arp))
  {
    hide FinsOk, Accept, ReceiveSynSent, PureAck, Destroy, Reset, AckProper, SeqProper;
    var s' := Receive(s, p, arp);
    if s.t.phase == Closed || s.t.phase == TimeWait {
      ResetFins(s, p.seg, arp);
      SameTorn(s, s');
    } else if s.t.phase == SynSent {
      SynSentTorn(s, p, arp);
    } else if p.seg.bits.rst {
      DestroyTorn(s);
      SameTorn(if SeqProper(s.t, p.seg) then Destroy(s) else s, s');
    } else if p.seg.bits.ack && AckProper(s.t.oldest, s.t.seqNum, p.seg.ack) && SeqProper(s.t, p.seg) {
      AcceptTorn(s, p, arp);
    } else {
      PureAckTorn(s, false, arp);
      SameTorn(PureAck(s, false, arp), s');
    }
  }

  // ---------------------------------------------------------------- every step, every run

  lemma CloseTorn(s: State)
    requires Named(s.q) && Torn(s)
    ensures Torn(CloseLocal(s))
  {
    hide EnqueueConnect;
    ConnectFins(s.(t := s.t.(phase := SendFin1)));
    ConnectFins(s.(t := s.t.(phase := SendFin2)));
    ConnectFins(s.(t := s.t.(phase := SendFin3)));
  }

  lemma RecvTorn(s: State, n: nat, arp: bool)
    requires Torn(s)
    ensures Torn(Recv(s, n, arp).0)
  {
    hide PureAck;
    if !RecvRefused(s.t.phase) && s.r.data != [] && n != 0 {
      var k := Min(n, |s.r.data|);
      PureAckTorn(s.(r := s.r.(data := s.r.data[k..]), h := s.h.(consumed := s.h.consumed + s.r.data[..k])), false, arp);
    }
  }

  lemma StepTorn(s: State, e: Event, arp: bool)
    requires Named(s.q) && Torn(s)
    ensures Torn(Step(s, e, arp))
  {
    hide SendLoop, Drive, Destroy, CloseLocal, Enqueue, Receive, Recv;
    match e
    case UserSend(data) => SendLoopFins(s, data);
    case UserEnqueue(id, data) =>
      if id in s.h.held && id < |s.q.bufs| {
        EnqueueFins(s.(q := s.q.(bufs := s.q.bufs[id := s.q.bufs[id].(data := data)])), id);
      }
    case UserRecv(n) => RecvTorn(s, n, arp);
    case UserClose => CloseTorn(s);
    case UserDestroy => DestroyTorn(s);
    case Arrive(p) => ReceiveTorn(s, p, arp);
    case Tick(overdue, probeDue) => TickTorn(s, overdue, probeDue, arp);
    case _ =>
  }

  lemma {:induction false} RunTorn(s: State, es: seq<(Event, bool)>)
    requires PoolInv(s) && Torn(s)
    ensures Torn(Run(s, es))
    decreases |es|
  {
    hide Torn, Step, Places;
    if es != [] {
      RunTorn(s, es[..|es| - 1]);
      var (e, arp) := es[|es| - 1];
      StepTorn(Run(s, es[..|es| - 1]), e, arp);
    }
  }

  /**
   * Teardown on every run, whatever the user, the peer, the clock and ARP do: at most one FIN is ever
   * added, and it has been exactly in the states that come after it; the peer's is counted at most
   * once, and exactly in the states that say so; FIN_WAIT_2 and TIME_WAIT are reached only after an
   * ack of everything sent, our FIN included, and TIME_WAIT only after the peer's FIN.
   */
  lemma TeardownOnEveryRun(iss: U32, pool: nat, mss: U16, rcvSize: U16, es: seq<(Event, bool)>)
    ensures var s := After(iss, pool, mss, rcvSize, es);
            && s.h.fins <= 1 && s.h.finsRcvd <= 1
            && (s.t.phase != Closed ==> (s.h.fins == 1 <==> FinSentPhase(s.t.phase)))
            && (s.t.phase != Closed ==> (s.h.finsRcvd == 1 <==> FinCountedPhase(s.t.phase)))
            && (s.t.phase == FinWait2 || s.t.phase == TimeWait ==> s.h.finAcked && s.h.fins == 1)
            && (s.t.phase == TimeWait ==> s.h.finsRcvd == 1)
  {
    hide Places, EnqueueConnect;
    FreshKeeps(iss, pool, mss, rcvSize);
    var f := Fresh(iss, pool, mss, rcvSize);
    ConnectFins(f.(t := f.t.(phase := SynSent)));
    RunTorn(Connect(f), es);
  }
}
