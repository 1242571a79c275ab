/**
 * Flow control and acknowledgement over whole runs: how far sending may go past what the peer
 * allowed, and which bytes may be forgotten.
 *
 * The peer's right edge is the acknowledgement number of the packet that carried the window, plus
 * that window.  The engine keeps the window and seqNum, not the acknowledgement number.
 */
module TcpFlow {
  import opened Machine
  import opened TcpModel
  import opened TcpPool
  import opened TcpStream
  import opened TcpRuns
  import opened TcpAcks

  // ---------------------------------------------------------------- when a window is adopted

  /** The packet passes every test of process2. */
  predicate Acceptable(s: State, seg: Segment) {
    && s.t.phase != Closed && s.t.phase != TimeWait && s.t.phase != SynSent
    && !seg.bits.rst && seg.bits.ack && AckProper(s.t.oldest, s.t.seqNum, seg.ack) && SeqProper(s.t, seg)
  }

  /** Its window is taken over: the ack leaves nothing on `sent`. */
  ghost predicate Adopts(s: State, seg: Segment)
    requires Named(s.q)
  {
    Acceptable(s, seg) && RemoveSent(s, seg.ack).q.sent == []
  }

  /** It is the SYN-ACK for our SYN. */
  predicate Opens(s: State, seg: Segment) {
    s.t.phase == SynSent && !seg.bits.rst && seg.bits.syn && seg.bits.ack && seg.ack == s.t.seqNum
  }

  /** The marks of the history that only an incoming packet may move. */
  ghost predicate SameMarks(h: History, h': History) { SameEdge(h, h') && h'.una == h.una }

  lemma {:induction false} RemoveSentSame(s: State, s1: State, ack: U32)
    requires Named(s.q) && Named(s1.q) && s1.q == s.q && s1.t.oldest == s.t.oldest
    ensures RemoveSent(s1, ack).q == RemoveSent(s, ack).q
    ensures RemoveSent(s1, ack).h.una - s1.h.una == RemoveSent(s, ack).h.una - s.h.una
    decreases |s.q.sent|
  {
    hide Removable, Wrap16;
    if s.q.sent != [] && Removable(s.q.bufs[s.q.sent[0]].last, ack, s.t.oldest) {
      RemoveSentSame(PopSent(s), PopSent(s1), ack);
    }
  }

  /** Removing acknowledged packets does not change how much has been sent. */
  lemma {:induction false} RemoveSentSent(s: State, ack: U32)
    requires Named(s.q) && Accounts(s)
    ensures Sent(RemoveSent(s, ack)) == Sent(s)
    decreases |s.q.sent|
  {
    hide Removable, Data, Wrap32, Wrap16, PopSent, Accounts;
    if s.q.sent != [] && Removable(s.q.bufs[s.q.sent[0]].last, ack, s.t.oldest) {
      PopSentAccounts(s);
      PopSentPart(s);
      RemoveSentSent(PopSent(s), ack);
    }
  }

  lemma PopSentPart(s: State)
    requires Named(s.q) && s.q.sent != []
    ensures PopSent(s).t == s.t
  {
  }

  /** What an acceptable packet does to the marks before its data is looked at. */
  lemma CreditMarks(s: State, seg: Segment)
    requires Named(s.q) && Accounts(s) && Acceptable(s, seg)
    ensures var h := Credit(s, seg).h;
            && h.una == RemoveSent(s, seg.ack).h.una
            && (if Adopts(s, seg) then
                  && h.behind == Ahead(seg.ack, s.t.seqNum) && h.edgeFins == s.h.fins
                  && h.edge == Sent(s) + s.h.fins - h.behind + seg.window
                else SameEdge(s.h, h))
  {
    hide Data, Wrap32, Wrap16, RemoveSent, Accounts, Sent;
    var s1 := Noted(s, seg);
    RemoveSentSame(s, s1, seg.ack);
    RemoveSentFrame(s, seg.ack);
    RemoveSentFrame(s1, seg.ack);
    if s.q.sent == [] { RemoveNothing(s, seg.ack); }
    NotedSent(s, seg);
    var s2 := if s1.q.sent != [] then RemoveSent(s1, seg.ack) else s1;
    RemoveSentSent(s1, seg.ack);
    assert Sent(s2) == Sent(s);
    assert s2.q.sent == RemoveSent(s, seg.ack).q.sent;
  }

  lemma RemoveNothing(s: State, ack: U32)
    requires Named(s.q) && s.q.sent == []
    ensures RemoveSent(s, ack).q == s.q && RemoveSent(s, ack).h == s.h
  {
  }

  lemma NotedSent(s: State, seg: Segment)
    requires Named(s.q) && Accounts(s)
    ensures Accounts(Noted(s, seg)) && Sent(Noted(s, seg)) == Sent(s)
  {
    hide Data, Wrap32;
  }

  lemma TakeDataMarks(s: State, p: Packet)
    ensures SameMarks(s.h, TakeData(s, p).s.h) && TakeData(s, p).s.t.phase == s.t.phase
  {
    hide Wrap32;
  }

  lemma AdvanceMarks(s: State, seg: Segment, current: bool, arp: bool)
    requires Named(s.q) && s.t.phase != SynRecved
    ensures SameMarks(s.h, Advance(s, seg, current, arp).h)
  {
    hide Wrap32;
  }

  lemma AcceptMarks(s: State, p: Packet, arp: bool)
    requires StreamInv(s) && Acceptable(s, p.seg)
    ensures SameMarks(Credit(s, p.seg).h, Accept(s, p, arp).h)
  {
    hide StreamInv, Credit, TakeData, Advance, EnqueueConnect, Wrap32, Wrap16;
    OpenPhase(s);
    var s1 := Credit(s, p.seg);
    CreditFrame(s, p.seg);
    TakeDataMarks(s1, p);
    var k := if p.seg.data == [] then Taken(s1, true, false) else TakeData(s1, p);
    AdvanceMarks(k.s, p.seg, p.seg.ack == s.t.seqNum, arp);
    EnqueueConnectFrame(Advance(k.s, p.seg, p.seg.ack == s.t.seqNum, arp));
  }

  lemma OpenPhase(s: State)
    requires StreamInv(s)
    ensures Named(s.q) && s.t.phase != SynRecved && s.t.phase != SendFin3
    ensures s.t.phase != Closed ==> Accounts(s)
  {
    hide PoolInv, WireOk, SentAll, OutAll, Accounts;
  }

  /** A SYN-ACK opens with the ack right at seqNum. */
  lemma OpenMarks(s: State, p: Packet, arp: bool)
    requires StreamInv(s) && Opens(s, p.seg)
    ensures var h := Receive(s, p, arp).h;
            h.edge == p.seg.window && h.behind == 0 && h.edgeFins == 0 && h.una == 0
  {
    hide StreamInv, OpenComplete, EnqueueConnect, Wrap32;
    OpenPhase(s);
    OpenCompleteIs(s, p.seg);
    EnqueueConnectFrame(OpenComplete(s, p.seg));
    OpeningZero(s);
  }

  lemma OpeningZero(s: State)
    requires StreamInv(s) && s.t.phase == SynSent
    ensures s.h.una == 0
  {
    OpeningBytes(s);
  }

  /** The marks after any packet. */
  lemma ReceiveMarks(s: State, p: Packet, arp: bool)
    requires StreamInv(s) && ActiveOpen(s, p.seg) && !Opens(s, p.seg)
    ensures Named(s.q)
    ensures var h := Receive(s, p, arp).h;
            && h.una == (if Acceptable(s, p.seg) then RemoveSent(s, p.seg.ack).h.una else s.h.una)
            && (if Adopts(s, p.seg) then
                  && h.behind == Ahead(p.seg.ack, s.t.seqNum) && h.edgeFins == s.h.fins
                  && h.edge == Sent(s) + s.h.fins - h.behind + p.seg.window
                else SameEdge(s.h, h))
  {
    hide StreamInv, Credit, Accept, Sent, Receive, AckProper, Ahead, RemoveSent;
    OpenPhase(s);
    if Acceptable(s, p.seg) {
      CreditMarks(s, p.seg);
      AcceptMarks(s, p, arp);
      ReceiveAcceptable(s, p, arp);
    } else {
      OtherMarks(s, p, arp);
    }
  }

  lemma ReceiveAcceptable(s: State, p: Packet, arp: bool)
    requires Named(s.q) && Acceptable(s, p.seg)
    ensures Receive(s, p, arp) == Accept(s, p, arp)
  {
    hide Accept, PureAck;
  }

  /** A packet that neither opens the connection nor passes the tests moves no mark. */
  lemma OtherMarks(s: State, p: Packet, arp: bool)
    requires Named(s.q) && ActiveOpen(s, p.seg) && !Opens(s, p.seg) && !Acceptable(s, p.seg)
    ensures SameMarks(s.h, Receive(s, p, arp).h)
  {
    hide Accept, OpenComplete, EnqueueConnect, Destroy, PureAck, AckProper, Wrap32;
    DestroyIs(s);
    PureAckMarks(s, arp);
  }

  lemma PureAckMarks(s: State, arp: bool)
    ensures SameMarks(s.h, PureAck(s, false, arp).h)
  {
    hide Wrap32;
  }

  // ---------------------------------------------------------------- other steps

  lemma EnqueueMarks(s: State, id: nat)
    requires Named(s.q) && id < |s.q.bufs|
    ensures SameMarks(s.h, Enqueue(s, id).0.h)
  {
    hide Wrap16;
  }

  lemma {:induction false} SendLoopMarks(s: State, rest: seq<Byte>)
    requires Named(s.q)
    ensures SameMarks(s.h, SendLoop(s, rest).0.h)
    decreases |rest|, |s.q.free|
  {
    hide Enqueue, Spins, Wrap16;
    if SendGoes(s, rest) && s.t.phase == Established && !Spins(s, rest) {
      var (s1, got) := GetBuffer(s);
      var n := Min(SendSize(s.t), |rest|);
      EnqueueMarks(s1.(q := s1.q.(bufs := s1.q.bufs[got.value := s1.q.bufs[got.value].(data := rest[..n])])), got.value);
      SendTurnShrinks(s, rest);
      SendLoopMarks(SendTurn(s, rest).0, SendTurn(s, rest).1);
    }
  }

  lemma SendPacketMarks(s: State, b: Buffer, forceAck: bool, forceProbe: bool, arp: bool)
    ensures SameMarks(s.h, SendPacket(s, b, forceAck, forceProbe, arp).s.h)
  {
    hide Wrap32, Wrap16;
  }

  lemma {:induction false} DriveLoopMarks(s: State, probeDue: bool, arp: bool)
    requires Named(s.q)
    ensures SameMarks(s.h, DriveLoop(s, probeDue, arp).h)
    decreases |s.q.outgoing|
  {
    hide SendPacket, Wrap32, Wrap16;
    if s.q.outgoing != [] && |s.q.sent| < RING {
      var id := s.q.outgoing[0];
      var f := SendPacket(s, s.q.bufs[id], false, false, arp);
      SendPacketFrame(s, s.q.bufs[id], false, false, arp);
      SendPacketMarks(s, s.q.bufs[id], false, false, arp);
      SendPacketMarks(s, Blank(), true, true, arp);
      if |s.q.bufs[id].data| <= s.t.remoteWindow && !f.pending {
        DriveLoopMarks(AfterSend(f.s, id, f.b), probeDue, arp);
      }
    }
  }

  /** Only a packet from the peer moves the marks. */
  lemma StepMarks(s: State, e: Event, arp: bool)
    requires Named(s.q) && !e.Arrive?
    ensures SameMarks(s.h, Step(s, e, arp).h)
  {
    hide SendLoop, DriveLoop, Destroy, EnqueueConnect, Enqueue, SendPacket, Wrap32, Wrap16;
    match e
    case UserSend(data) => SendLoopMarks(s, data);
    case UserGet =>
    case UserEnqueue(id, data) =>
      if id in s.h.held && id < |s.q.bufs| {
        EnqueueMarks(s.(q := s.q.(bufs := s.q.bufs[id := s.q.bufs[id].(data := data)])), id);
      }
    case UserReturn(id) =>
    case UserRecv(n) => RecvMarks(s, n, arp);
    case UserTake =>
    case UserClose => CloseMarks(s);
    case UserShutRd =>
    case UserDestroy => DestroyIs(s);
    case Tick(overdue, probeDue) => TickMarks(s, overdue, probeDue, arp);
  }

  lemma RecvMarks(s: State, n: nat, arp: bool)
    ensures SameMarks(s.h, Recv(s, n, arp).0.h)
  {
    hide Wrap32, PureAck, Wrap16;
    if !RecvRefused(s.t.phase) && s.r.data != [] && n != 0 {
      var k := Min(n, |s.r.data|);
      var s1 := s.(r := s.r.(data := s.r.data[k..]), h := s.h.(consumed := s.h.consumed + s.r.data[..k]));
      PureAckMarks(s1, arp);
    }
  }

  lemma CloseMarks(s: State)
    requires Named(s.q)
    ensures SameMarks(s.h, CloseLocal(s).h)
  {
    hide EnqueueConnect;
    forall p: Phase | true ensures SameMarks(s.h, CloseWithFin(s, p).h) {
      EnqueueConnectFrame(s.(t := s.t.(phase := p)));
    }
  }

  lemma TickMarks(s: State, overdue: bool, probeDue: bool, arp: bool)
    requires Named(s.q)
    ensures SameMarks(s.h, Drive(s, overdue, probeDue, arp).h)
  {
    hide DriveLoop, Destroy;
    DestroyIs(s);
    DriveLoopMarks(s, probeDue, arp);
  }

  // ---------------------------------------------------------------- stale acknowledgements

  /** The window taken over came with an ack behind seqNum. */
  ghost predicate StaleStep(s: State, e: Event)
    requires Named(s.q)
  {
    e.Arrive? && Adopts(s, e.p.seg) && e.p.seg.ack != s.t.seqNum
  }

  /**
   * Adoption puts the right edge at seqNum plus the window if and only if the packet acknowledges
   * all that was sent; otherwise as far behind as its ack is.
   */
  lemma AdoptionEdge(s: State, p: Packet, arp: bool)
    requires StreamInv(s) && Adopts(s, p.seg)
    ensures var s' := Receive(s, p, arp);
            && s'.h.edge + Ahead(p.seg.ack, s.t.seqNum) == Sent(s) + s.h.fins + p.seg.window
            && (s'.h.edge == Sent(s) + s.h.fins + p.seg.window <==> p.seg.ack == s.t.seqNum)
  {
    hide StreamInv, Receive, Sent;
    ReceiveMarks(s, p, arp);
    BehindZero(p.seg.ack, s.t.seqNum);
  }

  lemma BehindZero(a: U32, b: U32)
    ensures Ahead(a, b) == 0 <==> a == b
  {
  }

  /** While the stream is open the distance from `oldest` to seqNum is what is on `sent`. */
  lemma SentAhead(s: State)
    requires StreamInv(s) && StreamPhase(s.t.phase)
    ensures Ahead(s.t.oldest, s.t.seqNum) == |SentData(s.q)|
  {
    hide StreamInv, Data, Ahead, Wrap32;
    OpenPhase(s);
    PrefixShort(s, |s.q.sent|);
    assert s.q.sent[..|s.q.sent|] == s.q.sent;
    SentFew(s);
    TilesAt(s, 0);
    AheadOf(s.t.oldest, |SentData(s.q)|);
  }

  lemma AheadOf(from: U32, n: nat)
    requires n < TWO32
    ensures Ahead(from, Wrap32(from + n)) == n
  {
  }

  lemma SentFew(s: State)
    requires StreamInv(s)
    ensures |s.q.sent| <= RING
  {
  }

  /**
   * While the stream is open, an acceptable packet brings a stale window exactly if it acknowledges
   * less than everything and either nothing is outstanding, so that any number passes the ack test,
   * or the removal loop drops unacknowledged packets.
   */
  lemma StaleWhen(s: State, p: Packet)
    requires StreamInv(s) && StreamPhase(s.t.phase) && Acceptable(s, p.seg)
    ensures StaleStep(s, Arrive(p)) <==>
              p.seg.ack != s.t.seqNum && (s.q.sent == [] || Straddles(s, p.seg.ack))
  {
    hide StreamInv, RemoveSent, Straddles, Data, Acked, Ahead, SeqProper;
    OpenPhase(s);
    var ack := p.seg.ack;
    if s.q.sent == [] {
      RemoveNothing(s, ack);
    } else {
      AckRemovesExactly(s, ack);
      if !Straddles(s, ack) && RemoveSent(s, ack).q.sent == [] { AllAcked(s, ack); }
    }
  }

  /**
   * After our FIN has gone out without being put on `sent`, the ack of everything before it leaves
   * nothing outstanding and its window is taken over: the right edge then is one number behind.
   */
  lemma UntrackedFinStale(s: State, p: Packet, arp: bool)
    requires StreamInv(s) && s.h.fins == 1 && s.q.sent == []
    requires Acceptable(s, p.seg) && p.seg.ack == Wrap32(s.t.seqNum - 1)
    ensures StaleStep(s, Arrive(p))
    ensures var s' := Receive(s, p, arp); s'.h.behind == 1 && s'.h.edge == Sent(s) + p.seg.window
  {
    hide StreamInv, Receive, Sent, RemoveSent, Data, SeqProper, AckProper;
    OpenPhase(s);
    RemoveNothing(s, p.seg.ack);
    OneBack(s.t.seqNum);
    ReceiveMarks(s, p, arp);
  }

  lemma OneBack(x: U32)
    ensures Ahead(Wrap32(x - 1), x) == 1 && Wrap32(x - 1) != x
  {
  }

  lemma AllAcked(s: State, ack: U32)
    requires StreamInv(s) && StreamPhase(s.t.phase) && s.q.sent != []
    requires AckProper(s.t.oldest, s.t.seqNum, ack)
    requires s.q.sent[Acked(s.q.bufs, s.q.sent, s.t.oldest, ack)..] == []
    ensures ack == s.t.seqNum
  {
    hide StreamInv, Data, Acked, AckProper;
    OpenPhase(s);
    var n := |s.q.sent| - 1;
    AckedMeans(s.q.bufs, s.q.sent, s.t.oldest, ack, n);
    PrefixEnd(s, n);
    assert s.q.sent[..n + 1] == s.q.sent;
    SentAhead(s);
    AckTest(s.t.oldest, s.t.seqNum, ack);
    SameAhead(s.t.oldest, ack, s.t.seqNum);
  }

  lemma SameAhead(from: U32, a: U32, b: U32)
    ensures Ahead(from, a) == Ahead(from, b) <==> a == b
    ensures Ahead(from, from) == 0
  {
  }

  // ---------------------------------------------------------------- flow control on runs

  /** No step of the run takes over a window that came with an ack behind seqNum. */
  ghost predicate NoStaleStep(s: State, es: seq<(Event, bool)>)
    requires PoolInv(s)
    decreases |es|
  {
    es == [] ||
    (var n := |es| - 1;
     NoStaleStep(s, es[..n]) && !StaleStep(Run(s, es[..n]), es[n].0))
  }

  lemma StepBehind(s: State, e: Event, arp: bool)
    requires StreamInv(s) && GoodStep(s, e, arp) && s.h.behind == 0 && !StaleStep(s, e)
    ensures Step(s, e, arp).h.behind == 0
  {
    hide StreamInv, Receive, Step, Adopts;
    OpenPhase(s);
    if e.Arrive? {
      ArriveBehind(s, e.p, arp);
    } else {
      StepMarks(s, e, arp);
    }
  }

  lemma ArriveBehind(s: State, p: Packet, arp: bool)
    requires StreamInv(s) && ActiveOpen(s, p.seg) && s.h.behind == 0 && !StaleStep(s, Arrive(p))
    ensures Step(s, Arrive(p), arp).h.behind == 0
  {
    hide StreamInv, Receive, Ahead;
    OpenPhase(s);
    BehindZero(p.seg.ack, s.t.seqNum);
    if Opens(s, p.seg) { OpenMarks(s, p, arp); } else { ReceiveMarks(s, p, arp); }
  }

  lemma {:induction false} RunBehind(s: State, es: seq<(Event, bool)>)
    requires StreamInv(s) && s.h.behind == 0 && GoodRun(s, es) && NoStaleStep(s, es)
    ensures Run(s, es).h.behind == 0
    decreases |es|
  {
    hide StreamInv, GoodStep, StaleStep, Step;
    InvPool(s);
    if es != [] {
      var n := |es| - 1;
      RunStream(s, es[..n]);
      RunBehind(s, es[..n]);
      StepBehind(Run(s, es[..n]), es[n].0, es[n].1);
    }
  }

  lemma InvPool(s: State)
    requires StreamInv(s)
    ensures PoolInv(s)
  {
  }

  /**
   * Flow control, on every run.  The "violated their remote window" branch is never taken, and
   * seqNum passes the right edge (ack + window) of the window last adopted exactly if the ack stood
   * further back, plus our FIN, than the window left: never by more than the ack was behind.
   */
  lemma FlowControl(iss: U32, pool: nat, mss: U16, rcvSize: U16, es: seq<(Event, bool)>)
    requires GoodHistory(iss, pool, mss, rcvSize, es)
    ensures var s := After(iss, pool, mss, rcvSize, es);
            && s.h.violations == 0
            && (!s.h.aborted ==>
                  && Sent(s) + s.h.edgeFins <= s.h.edge + s.h.behind
                  && (Sent(s) + s.h.fins > s.h.edge <==> s.h.fins + s.h.behind > s.t.remoteWindow + s.h.edgeFins))
  {
    hide StreamInv, After, GoodHistory, Sent;
    AfterStream(iss, pool, mss, rcvSize, es);
    FlowParts(After(iss, pool, mss, rcvSize, es));
  }

  lemma FlowParts(s: State)
    requires StreamInv(s)
    ensures Named(s.q) && s.h.violations == 0 && s.h.fins <= 1
    ensures !s.h.aborted ==> Flow(s)
  {
    hide PoolInv, SentAll, OutAll, WireOk, Data;
  }

  /**
   * The promise of RFC 793, under its exact condition.  If no step of the run adopts a window from a
   * packet whose ack is behind seqNum, no byte is sent past ack + window of the window last
   * adopted; our FIN passes it only when sent on a window that is used up.
   */
  lemma EdgeKept(iss: U32, pool: nat, mss: U16, rcvSize: U16, es: seq<(Event, bool)>)
    requires GoodHistory(iss, pool, mss, rcvSize, es)
    ensures PoolInv(Connect(Fresh(iss, pool, mss, rcvSize)))
    ensures NoStaleStep(Connect(Fresh(iss, pool, mss, rcvSize)), es) ==>
              var s := After(iss, pool, mss, rcvSize, es);
              && s.h.behind == 0
              && (!s.h.aborted ==>
                    && Sent(s) <= s.h.edge
                    && (Sent(s) + s.h.fins > s.h.edge <==> s.t.remoteWindow == 0 && s.h.fins == 1 && s.h.edgeFins == 0))
  {
    hide StreamInv, GoodRun, NoStaleStep, Run, Connect, Sent;
    FreshKeeps(iss, pool, mss, rcvSize);
    var s0 := Connect(Fresh(iss, pool, mss, rcvSize));
    OpeningStream(iss, pool, mss, rcvSize);
    AfterStream(iss, pool, mss, rcvSize, es);
    FreshBehind(iss, pool, mss, rcvSize);
    FlowParts(After(iss, pool, mss, rcvSize, es));
    if NoStaleStep(s0, es) { RunBehind(s0, es); }
  }

  lemma FreshBehind(iss: U32, pool: nat, mss: U16, rcvSize: U16)
    ensures Connect(Fresh(iss, pool, mss, rcvSize)).h.behind == 0 && Connect(Fresh(iss, pool, mss, rcvSize)).h.una == 0
  {
    hide EnqueueConnect;
    var f := Fresh(iss, pool, mss, rcvSize);
    EnqueueConnectFrame(f.(t := f.t.(phase := SynSent)));
  }

  // ---------------------------------------------------------------- what may be forgotten

  /** An acceptable packet in the open stream whose ack covers the first `n` user bytes, all of them sent. */
  ghost predicate Covers(s: State, e: Event, n: nat)
    requires Named(s.q)
  {
    && e.Arrive? && StreamPhase(s.t.phase) && Acceptable(s, e.p.seg)
    && n <= s.h.una + Ahead(s.t.oldest, e.p.seg.ack) <= Sent(s)
  }

  ghost predicate StraddleStep(s: State, e: Event)
    requires Named(s.q)
  {
    e.Arrive? && StreamPhase(s.t.phase) && Acceptable(s, e.p.seg) && Straddles(s, e.p.seg.ack)
  }

  ghost predicate NoStraddleStep(s: State, es: seq<(Event, bool)>)
    requires PoolInv(s)
    decreases |es|
  {
    es == [] ||
    (var n := |es| - 1;
     NoStraddleStep(s, es[..n]) && !StraddleStep(Run(s, es[..n]), es[n].0))
  }

  /** Some step of the run brought an ack of the first `una` user bytes. */
  ghost predicate CoveredBy(s: State, es: seq<(Event, bool)>, una: nat)
    requires PoolInv(s)
  {
    una == 0 || exists j: nat :: CoveringStep(s, es, una, j)
  }

  ghost predicate CoveringStep(s: State, es: seq<(Event, bool)>, una: nat, j: nat)
    requires PoolInv(s)
  {
    j < |es| && Covers(Run(s, es[..j]), es[j].0, una)
  }

  /** In a step that leaves the stream open nothing is removed, or the arriving ack covers what is. */
  lemma StepCovered(s: State, e: Event, arp: bool)
    requires StreamInv(s) && GoodStep(s, e, arp) && !StraddleStep(s, e)
    ensures Named(s.q)
    ensures StreamPhase(Step(s, e, arp).t.phase) ==>
              var una := Step(s, e, arp).h.una;
              una == 0 || (StreamPhase(s.t.phase) && (una == s.h.una || Covers(s, e, una)))
  {
    hide StreamInv, Receive, Straddles, Step, RemoveSent, Ahead, Sent, SeqProper, AckProper;
    OpenPhase(s);
    if StreamPhase(Step(s, e, arp).t.phase) { StepOpen(s, e, arp); }
    if e.Arrive? {
      assert Step(s, e, arp) == Receive(s, e.p, arp) by { StepArrive(s, e.p, arp); }
      if Opens(s, e.p.seg) {
        OpenMarks(s, e.p, arp);
      } else {
        ReceiveMarks(s, e.p, arp);
        if StreamPhase(s.t.phase) && Acceptable(s, e.p.seg) { RemovalCovered(s, e.p.seg.ack); }
      }
    } else {
      StepMarks(s, e, arp);
    }
  }

  lemma StepArrive(s: State, p: Packet, arp: bool)
    requires Named(s.q)
    ensures Step(s, Arrive(p), arp) == Receive(s, p, arp)
  {
  }

  lemma RemovalCovered(s: State, ack: U32)
    requires StreamInv(s) && StreamPhase(s.t.phase) && !Straddles(s, ack)
    requires AckProper(s.t.oldest, s.t.seqNum, ack)
    ensures var una := RemoveSent(s, ack).h.una;
            una == s.h.una || una <= s.h.una + Ahead(s.t.oldest, ack) <= Sent(s)
  {
    hide StreamInv, RemoveSent, Data, Straddles, AckProper, Ahead;
    OpenPhase(s);
    AckRemovesExactly(s, ack);
    AckTest(s.t.oldest, s.t.seqNum, ack);
    SentAhead(s);
    SameAhead(s.t.oldest, s.t.seqNum, s.t.oldest);
    if s.t.oldest == s.t.seqNum {
      NothingOut(s);
      RemoveNothing(s, ack);
    }
  }

  lemma NothingOut(s: State)
    requires StreamInv(s) && StreamPhase(s.t.phase) && SentData(s.q) == []
    ensures s.q.sent == []
  {
    hide PoolInv, WireOk, OutOk, PhaseOk, Wrap32;
    if s.q.sent != [] {
      LastAhead(s, 0);
      assert SentOk(s, 0);
      DataFirst(s.q.bufs, s.q.sent);
    }
  }

  // ---------------------------------------------------------------- how the stream comes to be open

  lemma EnqueuePhase(s: State, id: nat)
    requires Named(s.q) && id < |s.q.bufs|
    ensures Enqueue(s, id).0.t == s.t
  {
    hide Wrap16;
  }

  lemma {:induction false} SendLoopPhase(s: State, rest: seq<Byte>)
    requires Named(s.q)
    ensures SendLoop(s, rest).0.t == s.t
    decreases |rest|, |s.q.free|
  {
    hide SendTurn, Spins, Wrap16;
    if SendGoes(s, rest) && s.t.phase == Established && !Spins(s, rest) {
      SendTurnShrinks(s, rest);
      SendLoopPhase(SendTurn(s, rest).0, SendTurn(s, rest).1);
    }
  }

  lemma SendPacketPhase(s: State, b: Buffer, forceAck: bool, forceProbe: bool, arp: bool)
    ensures StreamPhase(SendPacket(s, b, forceAck, forceProbe, arp).s.t.phase) ==> StreamPhase(s.t.phase)
  {
    hide Wrap32, Wrap16;
  }

  lemma {:induction false} DriveLoopPhase(s: State, probeDue: bool, arp: bool)
    requires Named(s.q)
    ensures StreamPhase(DriveLoop(s, probeDue, arp).t.phase) ==> StreamPhase(s.t.phase)
    decreases |s.q.outgoing|
  {
    hide SendPacket, StreamPhase, Wrap32, Wrap16;
    if s.q.outgoing != [] && |s.q.sent| < RING {
      var id := s.q.outgoing[0];
      var f := SendPacket(s, s.q.bufs[id], false, false, arp);
      SendPacketFrame(s, s.q.bufs[id], false, false, arp);
      SendPacketPhase(s, s.q.bufs[id], false, false, arp);
      SendPacketPhase(s, Blank(), true, true, arp);
      if |s.q.bufs[id].data| <= s.t.remoteWindow && !f.pending {
        DriveLoopPhase(AfterSend(f.s, id, f.b), probeDue, arp);
      }
    }
  }

  lemma ReceiveOpen(s: State, p: Packet, arp: bool)
    requires StreamInv(s) && StreamPhase(Receive(s, p, arp).t.phase) && ActiveOpen(s, p.seg)
    ensures StreamPhase(s.t.phase) || Opens(s, p.seg)
  {
    hide StreamInv, Accept, OpenComplete, EnqueueConnect, Destroy, SendPacket, Wrap32, Wrap16;
    OpenPhase(s);
    DestroyIs(s);
    SendPacketPhase(s, Blank(), true, false, arp);
    if Acceptable(s, p.seg) { AcceptOpen(s, p, arp); }
  }

  lemma AcceptOpen(s: State, p: Packet, arp: bool)
    requires StreamInv(s) && Acceptable(s, p.seg) && StreamPhase(Accept(s, p, arp).t.phase)
    ensures StreamPhase(s.t.phase)
  {
    hide StreamInv, Credit, TakeData, Advance, EnqueueConnect, Wrap32, Wrap16;
    OpenPhase(s);
    var s1 := Credit(s, p.seg);
    CreditFrame(s, p.seg);
    TakeDataMarks(s1, p);
    var k := if p.seg.data == [] then Taken(s1, true, false) else TakeData(s1, p);
    AdvanceOpens(k.s, p.seg, p.seg.ack == s.t.seqNum, arp);
    EnqueueConnectFrame(Advance(k.s, p.seg, p.seg.ack == s.t.seqNum, arp));
  }

  lemma AdvanceOpens(s: State, seg: Segment, current: bool, arp: bool)
    requires Named(s.q) && s.t.phase != SynRecved
    ensures StreamPhase(Advance(s, seg, current, arp).t.phase) ==> StreamPhase(s.t.phase)
  {
    hide Wrap32;
  }

  lemma StepOpen(s: State, e: Event, arp: bool)
    requires StreamInv(s) && GoodStep(s, e, arp)
    requires Named(s.q)
    requires StreamPhase(Step(s, e, arp).t.phase)
    ensures StreamPhase(s.t.phase) || (e.Arrive? && Opens(s, e.p.seg))
  {
    hide StreamInv, SendLoop, DriveLoop, Destroy, EnqueueConnect, Enqueue, SendPacket, Receive, Wrap32, Wrap16;
    DestroyIs(s);
    match e
    case UserSend(data) => SendLoopPhase(s, data);
    case UserGet =>
    case UserEnqueue(id, data) =>
      if id in s.h.held && id < |s.q.bufs| {
        EnqueuePhase(s.(q := s.q.(bufs := s.q.bufs[id := s.q.bufs[id].(data := data)])), id);
      }
    case UserReturn(id) =>
    case UserRecv(n) =>
      forall b: State | b.t == s.t
        ensures StreamPhase(SendPacket(b, Blank(), true, false, arp).s.t.phase) ==> StreamPhase(s.t.phase) {
        SendPacketPhase(b, Blank(), true, false, arp);
      }
    case UserTake =>
    case UserClose =>
      OpenPhase(s);
    case UserShutRd =>
    case UserDestroy =>
    case Arrive(p) => ReceiveOpen(s, p, arp);
    case Tick(overdue, probeDue) => DriveLoopPhase(s, probeDue, arp);
  }

  // ---------------------------------------------------------------- forgetting on runs

  lemma CoveredLonger(s: State, es: seq<(Event, bool)>, una: nat)
    requires PoolInv(s) && es != [] && CoveredBy(s, es[..|es| - 1], una)
    ensures CoveredBy(s, es, una)
  {
    hide PoolInv, Covers, Run;
    if una != 0 {
      var n := |es| - 1;
      var j: nat :| CoveringStep(s, es[..n], una, j);
      assert es[..n][..j] == es[..j];
      assert CoveringStep(s, es, una, j);
    }
  }

  lemma {:induction false} RunCovered(s: State, es: seq<(Event, bool)>)
    requires StreamInv(s) && s.h.una == 0 && GoodRun(s, es)
    ensures PoolInv(s)
    ensures NoStraddleStep(s, es) && StreamPhase(Run(s, es).t.phase) ==> CoveredBy(s, es, Run(s, es).h.una)
    decreases |es|
  {
    hide StreamInv, GoodStep, StraddleStep, Step, Covers, CoveredBy, StreamPhase, PoolInv;
    InvPool(s);
    if es == [] {
      CoveredNone(s, es);
    } else if NoStraddleStep(s, es) {
      var n := |es| - 1;
      RunStream(s, es[..n]);
      RunCovered(s, es[..n]);
      var s1 := Run(s, es[..n]);
      StepCovered(s1, es[n].0, es[n].1);
      var una := Run(s, es).h.una;
      assert Run(s, es) == Step(s1, es[n].0, es[n].1);
      if StreamPhase(Run(s, es).t.phase) {
        if una == 0 {
          CoveredNone(s, es);
        } else if Covers(s1, es[n].0, una) {
          CoveredLast(s, es, una);
        } else {
          CoveredLonger(s, es, una);
        }
      }
    }
  }

  lemma CoveredNone(s: State, es: seq<(Event, bool)>)
    requires PoolInv(s)
    ensures CoveredBy(s, es, 0)
  {
  }

  lemma CoveredLast(s: State, es: seq<(Event, bool)>, una: nat)
    requires PoolInv(s) && es != [] && Covers(Run(s, es[..|es| - 1]), es[|es| - 1].0, una)
    ensures CoveredBy(s, es, una)
  {
    hide Covers, Run, PoolInv;
    assert CoveringStep(s, es, una, |es| - 1);
  }

  /**
   * Nothing is forgotten before it is acknowledged.  On every run in which no ack straddles, while the
   * stream is open, the bytes taken off `sent` were all covered by one acceptable ack that arrived,
   * and that ack covered only bytes that had been sent.
   */
  lemma ForgottenWasAcked(iss: U32, pool: nat, mss: U16, rcvSize: U16, es: seq<(Event, bool)>)
    requires GoodHistory(iss, pool, mss, rcvSize, es)
    ensures var s0 := Connect(Fresh(iss, pool, mss, rcvSize));
            var s := After(iss, pool, mss, rcvSize, es);
            && PoolInv(s0)
            && (NoStraddleStep(s0, es) && StreamPhase(s.t.phase) ==> CoveredBy(s0, es, s.h.una))
  {
    hide StreamInv, GoodRun, NoStraddleStep, Run, Connect, CoveredBy, StreamPhase;
    FreshKeeps(iss, pool, mss, rcvSize);
    OpeningStream(iss, pool, mss, rcvSize);
    FreshBehind(iss, pool, mss, rcvSize);
    RunCovered(Connect(Fresh(iss, pool, mss, rcvSize)), es);
  }
}
