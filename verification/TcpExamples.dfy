/** Small runs from a fresh socket that reach the corner cases of the other TCP modules. */
module TcpExamples {
  import opened Machine
  import opened TcpModel
  import opened TcpPool
  import opened TcpStream
  import opened TcpRuns
  import opened TcpAcks
  import opened TcpFlow
  import opened TcpLimits
  import opened TcpTeardown

  /** A segment without data from a peer that started at sequence number zero. */
  function Bare(num: U32, ack: U32, fin: bool, window: U16): Packet {
    Packet(0, Segment(num, ack, Bits(false, true, false, false, fin), window, None, []))
  }

  /** The peer's answer to our SYN. */
  function SynAck(window: U16, mss: Option<U16>): Packet {
    Packet(0, Segment(0, 1, Bits(true, true, false, false, false), window, mss, []))
  }

  /** What the examples track; connectPacket, number `c`, is empty and not waiting for ARP. */
  predicate At(s: State, c: nat, phase: Phase, seqNum: U32, oldest: U32, window: U16, outgoing: seq<nat>, sent: seq<nat>) {
    && Named(s.q) && |s.q.bufs| == c + 1 && s.q.bufs[c].data == [] && !s.q.bufs[c].pendingArp
    && s.t.phase == phase && s.t.seqNum == seqNum && s.t.oldest == oldest && s.t.remoteWindow == window
    && s.q.outgoing == outgoing && s.q.sent == sent
    && s.h.fins == 0 && !s.h.finAcked && s.h.violations == 0 && !s.h.aborted
  }

  /** The socket with `c` pool buffers after the first `k` steps. */
  ghost function Reached(c: nat, es: seq<(Event, bool)>, k: nat): (s: State)
    requires k <= |es|
    ensures PoolInv(s)
  {
    After(0, c, 536, 0, es[..k])
  }

  lemma ReachedNext(c: nat, es: seq<(Event, bool)>, k: nat)
    requires k < |es| && es[k].1
    ensures Named(Reached(c, es, k).q) && Reached(c, es, k + 1) == Step(Reached(c, es, k), es[k].0, true)
  {
    hide Places, Step, Connect, Fresh;
    assert es[..k + 1][..k] == es[..k];
    FreshKeeps(0, c, 536, 0);
  }

  lemma ReachedAll(c: nat, es: seq<(Event, bool)>)
    ensures Reached(c, es, |es|) == After(0, c, 536, 0, es)
  {
    hide After;
    assert es[..|es|] == es;
  }

  /** Steps that are good in every state. */
  predicate AlwaysGood(e: Event, arp: bool) {
    && arp && !e.UserEnqueue?
    && (e.Arrive? ==> e.p.seg.bits.ack)
  }

  lemma {:induction false} AlwaysGoodRun(s: State, es: seq<(Event, bool)>)
    requires PoolInv(s) && forall i :: 0 <= i < |es| ==> AlwaysGood(es[i].0, es[i].1)
    ensures GoodRun(s, es)
    decreases |es|
  {
    hide PoolInv, Run;
    if es != [] { AlwaysGoodRun(s, es[..|es| - 1]); }
  }

  lemma AlwaysGoodHistory(c: nat, es: seq<(Event, bool)>)
    requires forall i :: 0 <= i < |es| ==> AlwaysGood(es[i].0, es[i].1)
    ensures GoodHistory(0, c, 536, 0, es)
  {
    hide GoodRun, Conserved, AlwaysGood;
    FreshKeeps(0, c, 536, 0);
    AlwaysGoodRun(Connect(Fresh(0, c, 536, 0)), es);
  }

  // ---------------------------------------------------------------- opening

  lemma SynWaits(c: nat, es: seq<(Event, bool)>)
    ensures var s := Reached(c, es, 0);
            && At(s, c, SynSent, 0, 0, 0, [c], []) && s.q.free == seq(c, i => i)
            && !s.q.bufs[c].ackOnly && s.h.una == 0 && s.t.mss == 536
            && s.t.ackNum == 0 && s.h.wire == [] && !s.h.synSent && s.h.replaced == 0
  {
    hide Wrap16, Places;
    FreshKeeps(0, c, 536, 0);
  }

  /** The next packet goes out, nothing is left queued. */
  lemma LastOut(s: State)
    requires Named(s.q) && |s.q.outgoing| == 1 && s.q.sent == []
    requires |s.q.bufs[s.q.outgoing[0]].data| <= s.t.remoteWindow && !s.q.bufs[s.q.outgoing[0]].pendingArp
    ensures var b := s.q.bufs[s.q.outgoing[0]];
            var f := SendPacket(s, b, false, false, true);
            && Named(f.s.q) && f.s.q == s.q && !f.pending
            && Step(s, Tick(false, false), true) == AfterSend(f.s, s.q.outgoing[0], f.b)
  {
    hide SendPacket, AfterSend;
    SendPacketFrame(s, s.q.bufs[s.q.outgoing[0]], false, false, true);
    NotPending(s, s.q.bufs[s.q.outgoing[0]]);
    var f := SendPacket(s, s.q.bufs[s.q.outgoing[0]], false, false, true);
    AfterSendOne(f);
    var s1 := AfterSend(f.s, s.q.outgoing[0], f.b);
    assert DriveLoop(s1, false, true) == s1;
    assert DriveLoop(s, false, true) == DriveLoop(s1, false, true);
  }

  lemma NotPending(s: State, b: Buffer)
    requires !b.pendingArp
    ensures !SendPacket(s, b, false, false, true).pending
  {
  }

  lemma AfterSendOne(f: Filled)
    requires Named(f.s.q) && |f.s.q.outgoing| == 1
    ensures AfterSend(f.s, f.s.q.outgoing[0], f.b).q.outgoing == []
  {
  }

  lemma SynGoes(s: State, c: nat)
    requires At(s, c, SynSent, 0, 0, 0, [c], []) && !s.q.bufs[c].ackOnly
    ensures var s' := Step(s, Tick(false, false), true);
            && At(s', c, SynSent, 1, 0, 0, [], [c]) && s'.q.bufs[c].last == 0
            && s'.q.free == s.q.free && s'.h.una == s.h.una && s'.t.mss == s.t.mss
            && s'.t.ackNum == s.t.ackNum && s'.h.wire == s.h.wire + [s'.q.bufs[c].header] && s'.h.replaced == s.h.replaced
            && s'.q.bufs[c].header == Header(s, [], false, false)
  {
    hide AdvertisedWindow, Wrap16, Step;
    LastOut(s);
  }

  lemma ComesUp(s: State, c: nat, window: U16, mss: Option<U16>)
    requires At(s, c, SynSent, 1, 0, 0, [], [c]) && s.q.bufs[c].last == 0 && s.h.una == 0
    ensures var s' := Step(s, Arrive(SynAck(window, mss)), true);
            && At(s', c, Established, 1, 1, window, [c], []) && s'.t.ackNum == 1
            && s'.q.free == s.q.free && s'.h.una == 0 && s'.t.maxEnqueue == Min(mss.GetOr(536), s.t.mss)
            && s'.h.edge == window && s'.h.behind == 0 && s'.h.wire == s.h.wire && !s'.q.bufs[c].ackOnly
            && s'.h.replaced == s.h.replaced
  {
    hide Wrap16;
    var s1 := PopSent(s);
    assert s1.q.sent == [] && s1.h.una == 0;
    assert RemoveSent(s, 1) == RemoveSent(s1, 1);
  }

  // ---------------------------------------------------------------- an untracked FIN

  lemma PeerCloses(s: State, c: nat)
    requires At(s, c, Established, 1, 1, 1, [c], []) && s.t.ackNum == 1
    ensures var s' := Step(s, Arrive(Bare(1, 1, true, 1)), true);
            At(s', c, CloseWait, 1, 1, 1, [c, c], []) && s'.t.ackNum == 2
  {
    hide Wrap16, Sent, Credit, EnqueueConnect;
    var p := Bare(1, 1, true, 1);
    NothingOutstanding(s, c, Established, 1, p);
    var s1 := Advance(Credit(s, p.seg), p.seg, true, true);
    SecondConnect(s1, c);
  }

  /** With nothing outstanding a bare packet is only noted, and its window taken. */
  lemma NothingOutstanding(s: State, c: nat, phase: Phase, window: U16, p: Packet)
    requires At(s, c, phase, s.t.seqNum, s.t.seqNum, window, s.q.outgoing, [])
    ensures var s' := Credit(s, p.seg);
            && At(s', c, phase, s.t.seqNum, s.t.seqNum, p.seg.window, s.q.outgoing, [])
            && s'.t.ackNum == s.t.ackNum && s'.q == s.q && s'.t.maxEnqueue == s.t.maxEnqueue && s'.h.una == s.h.una
            && s'.h.behind == Ahead(p.seg.ack, s.t.seqNum) && s'.h.edge == s.h.una + p.seg.window - s'.h.behind
  {
  }

  lemma SecondConnect(s: State, c: nat)
    requires At(s, c, CloseWait, 1, 1, 1, [c], [])
    ensures At(EnqueueConnect(s), c, CloseWait, 1, 1, 1, [c, c], []) && EnqueueConnect(s).t == s.t
  {
    hide Wrap16;
  }

  lemma WeClose(s: State, c: nat)
    requires At(s, c, CloseWait, 1, 1, 1, [c, c], []) && s.t.ackNum == 2
    ensures var s' := Step(s, UserClose, true); At(s', c, SendFin2, 1, 1, 1, [c, c], []) && s'.t.ackNum == 2
  {
  }

  /** Our SYN, the SYN-ACK, the peer's FIN before our ack of that went out, our close, and the clock. */
  function TwoAcksThenClose(): seq<(Event, bool)> {
    [(Tick(false, false), true), (Arrive(SynAck(1, None)), true), (Arrive(Bare(1, 1, true, 1)), true),
     (UserClose, true), (Tick(false, false), true)]
  }

  lemma TwoAcksQueued()
    ensures var s := Reached(0, TwoAcksThenClose(), 4); At(s, 0, SendFin2, 1, 1, 1, [0, 0], []) && s.t.ackNum == 2
  {
    hide Step, PoolInv, Reached;
    var es := TwoAcksThenClose();
    SynWaits(0, es);
    ReachedNext(0, es, 0);
    SynGoes(Reached(0, es, 0), 0);
    ReachedNext(0, es, 1);
    ComesUp(Reached(0, es, 1), 0, 1, None);
    ReachedNext(0, es, 2);
    PeerCloses(Reached(0, es, 2), 0);
    ReachedNext(0, es, 3);
    WeClose(Reached(0, es, 3), 0);
  }

  /** So a FIN that is never tracked is reached from a fresh socket: LAST_ACK with nothing to retransmit. */
  lemma UntrackedFinReached()
    ensures GoodHistory(0, 0, 536, 0, TwoAcksThenClose())
    ensures var s := After(0, 0, 536, 0, TwoAcksThenClose());
            && s.t.phase == LastAck && s.h.fins == 1 && s.q.sent == [] && s.q.outgoing == [] && Named(s.q)
            && s.t.oldest == 1 && s.t.seqNum == 2 && s.t.ackNum == 2 && !s.h.finAcked
  {
    hide Step, PoolInv, Reached, After, GoodRun, Fresh, Connect;
    var es := TwoAcksThenClose();
    TwoAcksQueued();
    ReachedNext(0, es, 4);
    FinUntracked(Reached(0, es, 4), true);
    TickIs(Reached(0, es, 4));
    ReachedAll(0, es);
    AlwaysGoodHistory(0, es);
  }

  /** The peer repeats the ack it sent before our FIN, and the connection is CLOSED with the FIN unacknowledged. */
  lemma ClosedUnacked()
    ensures var s := After(0, 0, 536, 0, TwoAcksThenClose());
            var s' := Receive(s, Bare(2, 1, false, 1), true);
            Named(s.q) && s'.t.phase == Closed && s'.h.fins == 1 && !s'.h.finAcked
  {
    hide After, Accept;
    UntrackedFinReached();
    var s := After(0, 0, 536, 0, TwoAcksThenClose());
    LastAckUnchecked(s, Bare(2, 1, false, 1), true);
    FinsKept(s, Bare(2, 1, false, 1));
  }

  lemma FinsKept(s: State, p: Packet)
    requires Named(s.q) && s.t.phase == LastAck && p.seg.data == [] && !p.seg.bits.fin
    ensures Accept(s, p, true).h.fins == s.h.fins
  {
    hide Credit, EnqueueConnect, Wrap32, Wrap16;
    CreditFrame(s, p.seg);
  }

  lemma TickIs(s: State)
    requires Named(s.q)
    ensures Step(s, Tick(false, false), true) == DriveLoop(s, false, true)
  {
    hide DriveLoop;
  }

  // ---------------------------------------------------------------- a send size of zero

  function ZeroMss(): seq<(Event, bool)> { [(Tick(false, false), true), (Arrive(SynAck(1, Some(0))), true)] }

  /** A peer that advertises an MSS of zero: any data the user then sends makes send() run forever. */
  lemma SpinReached(data: seq<Byte>)
    requires data != []
    ensures var s := After(0, 2, 536, 0, ZeroMss());
            && Named(s.q) && s.t.phase == Established && s.t.remoteWindow != 0 && Spins(s, data)
            && forall n: nat :: !EndsAfter(s, data, n)
  {
    hide Step, PoolInv, Reached, After;
    var es := ZeroMss();
    SynWaits(2, es);
    ReachedNext(2, es, 0);
    SynGoes(Reached(2, es, 0), 2);
    ReachedNext(2, es, 1);
    ComesUp(Reached(2, es, 1), 2, 1, Some(0));
    ReachedAll(2, es);
    SendEndsUnlessSpinning(After(0, 2, 536, 0, es), data);
  }

  // ---------------------------------------------------------------- two acks in the wrong order

  /** An established socket with the pool buffer free. */
  predicate Ready(s: State, seqNum: U32, window: U16, una: nat, edge: int) {
    && (At(s, 1, Established, seqNum, seqNum, window, [1], []) || At(s, 1, Established, seqNum, seqNum, window, [], []))
    && s.q.free == [0] && s.t.maxEnqueue == 536 && s.t.ackNum == 1 && s.h.una == una && s.h.edge == edge
  }

  /** `data` is queued in the pool buffer, or on `sent`. */
  predicate Loaded(s: State, data: seq<Byte>, una: nat, edge: int) {
    && |s.q.bufs| == 2 && s.q.bufs[0].data == data && !s.q.bufs[0].pendingArp && !s.q.bufs[0].ackOnly && s.q.free == []
    && s.t.maxEnqueue == 536 && s.t.ackNum == 1 && s.h.una == una && s.h.edge == edge
  }

  lemma Queues(s: State, seqNum: U32, window: U16, una: nat, edge: int, data: seq<Byte>)
    requires Ready(s, seqNum, window, una, edge) && 0 < |data| <= window <= 536
    ensures var s' := Step(s, UserSend(data), true);
            At(s', 1, Established, seqNum, seqNum, window, [0], []) && Loaded(s', data, una, edge)
  {
    hide Wrap16;
    var s1 := SendTurn(s, data).0;
    assert data[..|data|] == data && data[|data|..] == [];
    assert SendLoop(s, data) == SendLoop(s1, []);
  }

  lemma Goes(s: State, seqNum: U32, window: U16, una: nat, edge: int, data: seq<Byte>)
    requires At(s, 1, Established, seqNum, seqNum, window, [0], []) && Loaded(s, data, una, edge)
    requires 0 < |data| <= window && seqNum < 1000
    ensures var s' := Step(s, Tick(false, false), true);
            && At(s', 1, Established, seqNum + |data|, seqNum, window - |data|, [], [0]) && Loaded(s', data, una, edge)
            && s'.q.bufs[0].last == seqNum + |data| - 1
  {
    hide AdvertisedWindow, Wrap16, Step;
    LastOut(s);
  }

  lemma FirstAcked(s: State)
    requires At(s, 1, Established, 2, 1, 0, [], [0]) && Loaded(s, [7], 0, 1) && s.q.bufs[0].last == 1
    ensures var s' := Step(s, Arrive(Bare(1, 2, false, 1)), true); Ready(s', 2, 1, 1, 2) && s'.q.outgoing == []
  {
    hide Wrap16, EnqueueConnect;
    var p := Bare(1, 2, false, 1);
    var s1 := Noted(s, p.seg);
    assert PopSent(s1).q.sent == [] && PopSent(s1).h.una == 1;
    assert RemoveSent(s1, 2) == RemoveSent(PopSent(s1), 2);
  }

  lemma OlderAcked(s: State)
    requires Ready(s, 2, 1, 1, 2) && s.q.outgoing == []
    ensures var s' := Step(s, Arrive(Bare(1, 1, false, 2)), true);
            Ready(s', 2, 2, 1, 2) && s'.h.behind == 1
  {
    hide Wrap16, EnqueueConnect, Credit;
    NothingOutstanding(s, 1, Established, 1, Bare(1, 1, false, 2));
  }

  /**
   * One byte is sent and acked with a window of one.  Then an older ack arrives that had carried a
   * window of two: both name byte 2 as the end.  Two more bytes are queued and sent.
   */
  function ReorderedAcks(): seq<(Event, bool)> {
    [(Tick(false, false), true), (Arrive(SynAck(1, None)), true),
     (UserSend([7]), true), (Tick(false, false), true),
     (Arrive(Bare(1, 2, false, 1)), true), (Arrive(Bare(1, 1, false, 2)), true),
     (UserSend([8, 9]), true), (Tick(false, false), true)]
  }

  lemma FirstByteAcked()
    ensures Ready(Reached(1, ReorderedAcks(), 5), 2, 1, 1, 2) && Reached(1, ReorderedAcks(), 5).q.outgoing == []
  {
    hide Step, PoolInv, Reached, At, Header, Named, Wrap32, Wrap16;
    var es := ReorderedAcks();
    SynWaits(1, es);
    ReachedNext(1, es, 0);
    SynGoes(Reached(1, es, 0), 1);
    ReachedNext(1, es, 1);
    ComesUp(Reached(1, es, 1), 1, 1, None);
    ReachedNext(1, es, 2);
    Queues(Reached(1, es, 2), 1, 1, 0, 1, [7]);
    ReachedNext(1, es, 3);
    Goes(Reached(1, es, 3), 1, 1, 0, 1, [7]);
    ReachedNext(1, es, 4);
    FirstAcked(Reached(1, es, 4));
  }

  /** The engine sends three bytes although no ack ever allowed more than two. */
  lemma EdgePassed()
    ensures GoodHistory(0, 1, 536, 0, ReorderedAcks())
    ensures var s := After(0, 1, 536, 0, ReorderedAcks());
            && Named(s.q) && Sent(s) == 3 && s.h.edge == 2 && s.h.behind == 1 && s.h.fins == 0 && s.h.violations == 0
  {
    hide Step, PoolInv, Reached, Connect, Fresh, After, Sent, GoodRun;
    var es := ReorderedAcks();
    SecondPacketSent();
    ReachedAll(1, es);
    AlwaysGoodHistory(1, es);
  }

  lemma SecondPacketSent()
    ensures var s := Reached(1, ReorderedAcks(), 8);
            && Named(s.q) && Sent(s) == 3 && s.h.edge == 2 && s.h.behind == 1 && s.h.fins == 0 && s.h.violations == 0
  {
    hide Step, PoolInv, Reached, Named;
    var es := ReorderedAcks();
    FirstByteAcked();
    ReachedNext(1, es, 5);
    OlderAcked(Reached(1, es, 5));
    ReachedNext(1, es, 6);
    Queues(Reached(1, es, 6), 2, 2, 1, 2, [8, 9]);
    StepMarks(Reached(1, es, 6), es[6].0, true);
    ReachedNext(1, es, 7);
    Goes(Reached(1, es, 7), 2, 2, 1, 2, [8, 9]);
    StepMarks(Reached(1, es, 7), es[7].0, true);
    SentOne(Reached(1, es, 8), [8, 9], 1, 2);
  }

  lemma SentOne(s: State, data: seq<Byte>, una: nat, edge: int)
    requires Named(s.q) && s.q.sent == [0] && Loaded(s, data, una, edge)
    ensures Sent(s) == una + |data|
  {
    DataSingle(s.q.bufs, 0);
  }

  // ---------------------------------------------------------------- the peer's FIN never acknowledged

  /** FIN_WAIT_1 with our FIN on `sent`, in connectPacket. */
  predicate FinOut(s: State, c: nat) {
    && Named(s.q) && |s.q.bufs| == c + 1
    && s.t.phase == FinWait1 && s.t.seqNum == 2 && s.t.oldest == 1 && s.t.ackNum == 1
    && s.q.outgoing == [] && s.q.sent == [c] && s.q.bufs[c].header.num == 1 && s.q.bufs[c].last == 1
    && s.h.fins == 1
  }

  lemma CloseWithAckQueued(s: State, c: nat)
    requires At(s, c, Established, 1, 1, 1, [c], []) && s.t.ackNum == 1 && !s.q.bufs[c].ackOnly
    ensures var s' := Step(s, UserClose, true);
            && At(s', c, SendFin1, 1, 1, 1, [c], []) && s'.t.ackNum == 1 && !s'.q.bufs[c].ackOnly && s'.h.wire == s.h.wire
  {
  }

  lemma FinGoes(s: State, c: nat)
    requires At(s, c, SendFin1, 1, 1, 1, [c], []) && s.t.ackNum == 1 && !s.q.bufs[c].ackOnly
    ensures var s' := Step(s, Tick(false, false), true);
            FinOut(s', c) && s'.h.wire == s.h.wire + [s'.q.bufs[c].header] && s'.q.bufs[c].header.ack == 1
  {
    hide AdvertisedWindow, Wrap16, Step;
    LastOut(s);
  }

  lemma PeerClosesToo(s: State, c: nat)
    requires FinOut(s, c)
    ensures var s' := Step(s, Arrive(Bare(1, 1, true, 1)), true);
            && s'.t.phase == Closing && s'.t.ackNum == 2
            && s'.h.wire == s.h.wire && s'.q.outgoing == []
  {
    hide EnqueueConnect, Credit, Wrap16;
    var p := Bare(1, 1, true, 1);
    CreditFrame(s, p.seg);
    var s1 := Credit(s, p.seg);
    var s2 := Advance(s1, p.seg, false, true);
    assert s2.t.phase == Closing && s2.t.ackNum == 2;
    ConnectLate(s2);
    EnqueueConnectFrame(s2);
    assert Receive(s, p, true) == Accept(s, p, true) == Freed(EnqueueConnect(s2), p);
  }

  /** Our SYN, the SYN-ACK, our close before our ack went out, the clock, and a FIN of the peer that crosses ours. */
  function BothClose(): seq<(Event, bool)> {
    [(Tick(false, false), true), (Arrive(SynAck(1, None)), true), (UserClose, true), (Tick(false, false), true),
     (Arrive(Bare(1, 1, true, 1)), true)]
  }

  lemma OurFinOut()
    ensures FinOut(Reached(0, BothClose(), 4), 0) && forall w <- Reached(0, BothClose(), 4).h.wire :: w.ack != 2
  {
    hide Step, PoolInv, Reached, At, FinOut;
    var es := BothClose();
    SynWaits(0, es);
    ReachedNext(0, es, 0);
    SynGoes(Reached(0, es, 0), 0);
    ReachedNext(0, es, 1);
    ComesUp(Reached(0, es, 1), 0, 1, None);
    ReachedNext(0, es, 2);
    CloseWithAckQueued(Reached(0, es, 2), 0);
    ReachedNext(0, es, 3);
    FinGoes(Reached(0, es, 3), 0);
    assert |Reached(0, es, 4).h.wire| == 2;
  }

  /** CLOSING with the peer's FIN counted, and nothing queued or ever sent that acknowledges it. */
  lemma ClosingReached()
    ensures GoodHistory(0, 0, 536, 0, BothClose())
    ensures var s := After(0, 0, 536, 0, BothClose());
            && s.t.phase == Closing && s.h.finsRcvd == 1 && s.t.ackNum == 2 && s.q.outgoing == []
            && forall w <- s.h.wire :: w.ack != 2
  {
    hide Step, PoolInv, Reached, After, GoodRun, Fresh, Connect;
    var es := BothClose();
    OurFinOut();
    ReachedNext(0, es, 4);
    PeerClosesToo(Reached(0, es, 4), 0);
    ReachedAll(0, es);
    AlwaysGoodHistory(0, es);
    TeardownOnEveryRun(0, 0, 536, 0, es);
  }

  // ---------------------------------------------------------------- a FIN in place of the SYN-ACK

  /** The SYN of a peer that opens at the same moment. */
  function PeerSyn(): Packet {
    Packet(0, Segment(0, 0, Bits(true, false, false, false, false), 1, None, []))
  }

  /** SYN_RECVED or, once closed, SEND_FIN3, with the SYN-ACK still queued and only our SYN on the wire. */
  predicate Crossed(s: State, phase: Phase) {
    && Named(s.q) && s.q.outgoing == [0] && s.q.sent == [] && |s.q.bufs| == 1
    && s.q.bufs[0].data == [] && !s.q.bufs[0].pendingArp
    && s.t.phase == phase && s.t.seqNum == 0 && s.h.fins == 0 && !s.h.synSent
    && |s.h.wire| == 1 && s.h.wire[0].bits == Bits(true, false, false, false, false) && s.h.wire[0].num == 0
  }

  lemma PeerOpensToo(s: State)
    requires At(s, 0, SynSent, 1, 0, 0, [], [0]) && |s.h.wire| == 1
    requires s.h.wire[0].bits == Bits(true, false, false, false, false) && s.h.wire[0].num == 0
    ensures Crossed(Step(s, Arrive(PeerSyn()), true), SynRecved)
  {
    hide Wrap16;
    var seg := PeerSyn().seg;
    var t1 := s.t.(phase := SynRecved, ackNum := 1, maxEnqueue := MaxEnqueueFor(s.t, seg), seqNum := 0);
    var s1 := s.(t := t1, h := s.h.(iss := 0, synSent := false));
    assert ReturnAll(s1.q.(sent := []), [0]) == s1.q.(sent := []);
    var s2 := ClearQueues(s1);
    assert s2.q.outgoing == [] && s2.q.sent == [] && s2.q.bufs == s.q.bufs;
    assert SimultaneousOpen(s, seg) == EnqueueConnect(s2);
  }

  lemma FinForSynAck(s: State)
    requires Crossed(s, SynRecved)
    ensures Crossed(Step(s, UserClose, true), SendFin3)
  {
  }

  lemma FinLeavesFirst(s: State)
    requires Crossed(s, SendFin3)
    ensures var s' := Step(s, Tick(false, false), true);
            && s'.t.phase == FinWait1 && s'.h.fins == 1 && !s'.h.synSent && |s'.h.wire| == 2
            && s'.h.wire[0] == s.h.wire[0] && s'.h.wire[1].num == 0
            && s'.h.wire[1].bits == Bits(false, true, false, false, true)
  {
    hide AdvertisedWindow, Wrap16, Step;
    LastOut(s);
  }

  /** Our SYN, the peer's, our close before the SYN-ACK went out, and the clock. */
  function CloseAtOnce(): seq<(Event, bool)> {
    [(Tick(false, false), true), (Arrive(PeerSyn()), true), (UserClose, true), (Tick(false, false), true)]
  }

  /**
   * Closed in SYN_RECVED before the SYN-ACK went out, the socket never sends one: the queued packet leaves
   * with the FIN instead of the SYN, under the sequence number that belongs to the SYN.
   */
  lemma SynAckNeverSent()
    ensures var s := After(0, 0, 536, 0, CloseAtOnce());
            && s.t.phase == FinWait1 && s.h.fins == 1 && !s.h.synSent && |s.h.wire| == 2
            && s.h.wire[0].bits == Bits(true, false, false, false, false)
            && s.h.wire[1].bits == Bits(false, true, false, false, true) && s.h.wire[1].num == s.h.wire[0].num
  {
    hide Step, PoolInv, Reached, After, At;
    var es := CloseAtOnce();
    SynWaits(0, es);
    ReachedNext(0, es, 0);
    SynGoes(Reached(0, es, 0), 0);
    ReachedNext(0, es, 1);
    assert Reached(0, es, 0).t.phase == SynSent && Reached(0, es, 0).t.seqNum == 0 by { SynFacts(Reached(0, es, 0)); }
    PeerOpensToo(Reached(0, es, 1));
    ReachedNext(0, es, 2);
    FinForSynAck(Reached(0, es, 2));
    ReachedNext(0, es, 3);
    FinLeavesFirst(Reached(0, es, 3));
    ReachedAll(0, es);
  }

  lemma SynFacts(s: State)
    requires At(s, 0, SynSent, 0, 0, 0, [0], [])
    ensures s.t.phase == SynSent && s.t.seqNum == 0
  {
  }
}
