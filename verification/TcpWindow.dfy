/**
 * The windows this engine advertises, over whole runs: what the peer was ever allowed to send fits
 * what the receive buffer can still take.
 */
module TcpWindow {
  import opened Machine
  import opened TcpModel
  import opened TcpPool
  import opened TcpRuns
  import opened TcpReceive
  import opened TcpPackets

  /** What ackNum stands for, plus the free room: the first byte that could not be taken. */
  ghost function Limit(s: State): int { Received(s.h) + s.r.size - |s.r.data| }

  /** The header allows no byte beyond `limit`, counted from the first after the peer's SYN. */
  ghost predicate Promises(w: Segment, irs: U32, limit: int) {
    w.bits.ack && !w.bits.rst && w.window > 0 ==> exists a: nat :: PromisesFrom(w, irs, limit, a)
  }

  ghost predicate PromisesFrom(w: Segment, irs: U32, limit: int, a: nat) {
    w.ack == Wrap32(irs + 1 + a) && a + w.window <= limit
  }

  /** Every header sent, or kept to be sent again. */
  ghost predicate AllPromise(s: State, irs: U32, limit: int) {
    && (forall i :: 0 <= i < |s.h.wire| ==> Promises(s.h.wire[i], irs, limit))
    && (forall x :: 0 <= x < |s.q.bufs| ==> Promises(s.q.bufs[x].header, irs, limit))
  }

  ghost predicate WindowInv(s: State, n: U16, irs: U32, peer: seq<Byte>) {
    && RecvInv(s, irs, peer) && RoomOk(s, n) && n > 0
    && (s.t.phase != Closed ==> AllPromise(s, irs, Limit(s)))
  }

  lemma PromisesLater(w: Segment, irs: U32, limit: int, limit': int)
    requires Promises(w, irs, limit) && limit <= limit'
    ensures Promises(w, irs, limit')
  {
    if w.bits.ack && !w.bits.rst && w.window > 0 {
      var a: nat :| PromisesFrom(w, irs, limit, a);
      assert PromisesFrom(w, irs, limit', a);
    }
  }

  /** No header is new. */
  ghost predicate SameHeaders(s: State, s': State) {
    && s'.h.wire == s.h.wire && |s'.q.bufs| == |s.q.bufs|
    && (forall x :: 0 <= x < |s.q.bufs| ==> s'.q.bufs[x].header == s.q.bufs[x].header)
  }

  lemma SamePromise(s: State, s': State, irs: U32, limit: int, limit': int)
    requires AllPromise(s, irs, limit) && SameHeaders(s, s') && limit <= limit'
    ensures AllPromise(s', irs, limit')
  {
    hide Promises;
    forall i | 0 <= i < |s'.h.wire| ensures Promises(s'.h.wire[i], irs, limit') {
      PromisesLater(s.h.wire[i], irs, limit, limit');
    }
    forall x | 0 <= x < |s'.q.bufs| ensures Promises(s'.q.bufs[x].header, irs, limit') {
      PromisesLater(s.q.bufs[x].header, irs, limit, limit');
    }
  }

  /** One segment more on the wire, and perhaps its header in a buffer. */
  lemma OneMore(s: State, s': State, w: Segment, x: nat, irs: U32, limit: int)
    requires AllPromise(s, irs, limit) && Promises(w, irs, limit)
    requires s'.h.wire == s.h.wire || s'.h.wire == s.h.wire + [w]
    requires |s'.q.bufs| == |s.q.bufs|
    requires forall y :: 0 <= y < |s.q.bufs| ==>
               s'.q.bufs[y].header == s.q.bufs[y].header || (y == x && s'.q.bufs[y].header == w)
    ensures AllPromise(s', irs, limit)
  {
    hide Promises;
  }

  /** No header is new, and no room is lost. */
  ghost predicate Moved(s: State, s': State) { SameHeaders(s, s') && Limit(s) <= Limit(s') }

  lemma MovedPromise(s: State, s': State, irs: U32)
    requires AllPromise(s, irs, Limit(s)) && Moved(s, s')
    ensures AllPromise(s', irs, Limit(s'))
  {
    hide AllPromise;
    SamePromise(s, s', irs, Limit(s), Limit(s'));
  }

  // ---------------------------------------------------------------- a new header

  /** What sending needs to know of the receive side. */
  ghost predicate Open(s: State, irs: U32) {
    && 0 < s.r.size && |s.r.data| <= s.r.size && s.t.phase != SynRecved && s.t.phase != SendFin3
    && (s.t.phase != SynSent && s.t.phase != Closed ==> s.t.ackNum == Wrap32(irs + 1 + Received(s.h)))
  }

  lemma OpenHolds(s: State, n: U16, irs: U32, peer: seq<Byte>)
    requires RecvInv(s, irs, peer) && RoomOk(s, n) && n > 0
    ensures Open(s, irs) && Named(s.q)
  {
    hide Wrap32;
  }

  lemma WindowFits(t: Tcb, r: Receiver)
    requires 0 < r.size && |r.data| <= r.size
    ensures AdvertisedWindow(t, r) <= r.size - |r.data|
  {
  }

  /** The SYN promises nothing; every later header allows what fits behind the data received so far. */
  lemma NewHeader(s: State, data: seq<Byte>, forceAck: bool, forceProbe: bool, irs: U32)
    requires Open(s, irs) && s.t.phase != Closed
    ensures Promises(Header(s, data, forceAck, forceProbe), irs, Limit(s))
  {
    hide AdvertisedWindow, Wrap32;
    var w := Header(s, data, forceAck, forceProbe);
    WindowFits(s.t, s.r);
    if s.t.phase != SynSent { assert PromisesFrom(w, irs, Limit(s), Received(s.h)); }
  }

  /** sendPacket emits the header it made, or the one it kept. */
  lemma SendPacketHeaders(s: State, b: Buffer, forceAck: bool, forceProbe: bool, arp: bool)
    requires s.t.phase != SynRecved && s.t.phase != SendFin3
    ensures var f := SendPacket(s, b, forceAck, forceProbe, arp);
            var w := if b.pendingArp then b.header else Header(s, b.data, forceAck, forceProbe);
            && f.b.header == w && (f.s.h.wire == s.h.wire || f.s.h.wire == s.h.wire + [w])
            && f.s.q == s.q && f.s.r == s.r && Limit(f.s) == Limit(s)
            && f.s.t.ackNum == s.t.ackNum && f.s.t.phase != SynRecved && f.s.t.phase != SendFin3
            && (f.s.t.phase == SynSent <==> s.t.phase == SynSent) && (f.s.t.phase == Closed <==> s.t.phase == Closed)
            && Received(f.s.h) == Received(s.h)
  {
    hide Header, Wrap32;
  }

  lemma PureAckPromise(s: State, probe: bool, arp: bool, irs: U32)
    requires Open(s, irs) && s.t.phase != Closed && AllPromise(s, irs, Limit(s))
    ensures AllPromise(PureAck(s, probe, arp), irs, Limit(s)) && Limit(PureAck(s, probe, arp)) == Limit(s)
    ensures PureAck(s, probe, arp).t.phase != Closed
  {
    hide AllPromise, SendPacket, Promises, Header;
    NewHeader(s, [], true, probe, irs);
    SendPacketHeaders(s, Blank(), true, probe, arp);
    OneMore(s, PureAck(s, probe, arp), Header(s, [], true, probe), |s.q.bufs|, irs, Limit(s));
  }

  lemma {:induction false} DriveLoopPromise(s: State, probeDue: bool, arp: bool, irs: U32)
    requires Named(s.q) && Open(s, irs) && s.t.phase != Closed && AllPromise(s, irs, Limit(s))
    ensures AllPromise(DriveLoop(s, probeDue, arp), irs, Limit(s))
    ensures Limit(DriveLoop(s, probeDue, arp)) == Limit(s)
    decreases |s.q.outgoing|
  {
    hide AllPromise, SendPacket, Promises, Header, Wrap16, Wrap32, Limit, PureAck;
    if s.q.outgoing != [] && |s.q.sent| < RING {
      var id := s.q.outgoing[0];
      var b := s.q.bufs[id];
      if |b.data| > s.t.remoteWindow {
        PureAckPromise(s, true, arp, irs);
      } else {
        var f := SendPacket(s, b, false, false, arp);
        SendPacketHeaders(s, b, false, false, arp);
        NewHeader(s, b.data, false, false, irs);
        KeptHeader(s, id, irs, Limit(s));
        if f.pending {
          var s1 := f.s.(q := s.q.(bufs := s.q.bufs[id := f.b]));
          OneMore(s, s1, f.b.header, id, irs, Limit(s));
          SameLimit(f.s, s1);
        } else {
          var s1 := AfterSend(f.s, id, f.b);
          AfterSendFrame(f.s, id, f.b);
          OneMore(s, s1, f.b.header, id, irs, Limit(s));
          DriveLoopPromise(s1, probeDue, arp, irs);
        }
      }
    }
  }

  lemma KeptHeader(s: State, x: nat, irs: U32, limit: int)
    requires AllPromise(s, irs, limit) && x < |s.q.bufs|
    ensures Promises(s.q.bufs[x].header, irs, limit)
  {
  }

  lemma SameLimit(s: State, s': State)
    requires s'.r == s.r && s'.h == s.h
    ensures Limit(s') == Limit(s)
  {
  }

  lemma AfterSendFrame(s: State, id: nat, b: Buffer)
    requires Named(s.q) && s.q.outgoing != [] && id == s.q.outgoing[0]
    ensures var s' := AfterSend(s, id, b);
            && s'.t == s.t && s'.r == s.r && s'.h == s.h && Limit(s') == Limit(s) && |s'.q.bufs| == |s.q.bufs|
            && (forall y :: 0 <= y < |s.q.bufs| ==> s'.q.bufs[y].header == (if y == id then b.header else s.q.bufs[y].header))
  {
    hide Wrap16;
  }

  // ---------------------------------------------------------------- steps that make no header

  lemma EnqueueMoved(s: State, id: nat)
    requires Named(s.q) && id < |s.q.bufs|
    ensures Moved(s, Enqueue(s, id).0)
  {
    hide Wrap16;
  }

  lemma ConnectMoved(s: State)
    requires Named(s.q)
    ensures Moved(s, EnqueueConnect(s))
  {
    hide Enqueue;
    var c := Conn(s.q);
    var s1 := s.(q := s.q.(bufs := s.q.bufs[c := s.q.bufs[c].(data := [])]));
    EnqueueMoved(s1, c);
  }

  lemma {:induction false} SendLoopMoved(s: State, rest: seq<Byte>)
    requires Named(s.q)
    ensures Moved(s, SendLoop(s, rest).0)
    decreases |rest|, |s.q.free|
  {
    hide Enqueue, Spins, Wrap16;
    if SendGoes(s, rest) && s.t.phase == Established && !Spins(s, rest) {
      var (s1, got) := GetBuffer(s);
      var n := Min(SendSize(s.t), |rest|);
      EnqueueMoved(s1.(q := s1.q.(bufs := s1.q.bufs[got.value := s1.q.bufs[got.value].(data := rest[..n])])), got.value);
      SendTurnShrinks(s, rest);
      SendLoopMoved(SendTurn(s, rest).0, SendTurn(s, rest).1);
    }
  }

  lemma TakenMoved(s: State, p: Packet)
    ensures Moved(s, TakeData(s, p).s) && TakeData(s, p).s.t.phase == s.t.phase
  {
    hide Wrap32;
  }

  lemma AdvanceMoved(s: State, seg: Segment, current: bool, arp: bool)
    requires Named(s.q) && s.t.phase != SynRecved
    ensures Moved(s, Advance(s, seg, current, arp))
  {
    hide Wrap32;
  }

  lemma AcceptMoved(s: State, p: Packet, arp: bool)
    requires Named(s.q) && s.t.phase != SynRecved
    ensures Moved(s, Accept(s, p, arp))
  {
    hide Credit, TakeData, Advance, EnqueueConnect, Wrap32, Wrap16;
    CreditFrame(s, p.seg);
    var s1 := Credit(s, p.seg);
    TakenMoved(s1, p);
    var k := if p.seg.data == [] then Taken(s1, true, false) else TakeData(s1, p);
    AdvanceMoved(k.s, p.seg, p.seg.ack == s.t.seqNum, arp);
    ConnectMoved(Advance(k.s, p.seg, p.seg.ack == s.t.seqNum, arp));
  }

  lemma OpenMoved(s: State, seg: Segment)
    requires Named(s.q)
    ensures Moved(s, OpenComplete(s, seg))
  {
    hide RemoveSent, Wrap32;
    RemoveSentFrame(s, seg.ack);
  }

  lemma ResetPromise(s: State, seg: Segment, arp: bool, irs: U32, limit: int)
    requires AllPromise(s, irs, limit)
    ensures AllPromise(Reset(s, seg, arp), irs, limit) && Limit(Reset(s, seg, arp)) == Limit(s)
  {
    hide Wrap32;
  }

  // ---------------------------------------------------------------- every step, every run

  /** Counting and freeing make no header. */
  lemma QuietPromise(b: State, s': State, irs: U32)
    requires AllPromise(b, irs, Limit(b)) && s'.q == b.q && s'.r == b.r
    requires s'.h.wire == b.h.wire && s'.h.delivered == b.h.delivered && s'.h.finsRcvd == b.h.finsRcvd
    ensures AllPromise(s', irs, Limit(s'))
  {
  }

  lemma ArrivePromise(s: State, p: Packet, arp: bool, irs: U32)
    requires Named(s.q) && Open(s, irs) && s.t.phase != Closed && AllPromise(s, irs, Limit(s)) && ActiveOpen(s, p.seg)
    ensures var s' := Receive(s, p, arp); s'.t.phase != Closed ==> AllPromise(s', irs, Limit(s'))
  {
    hide AllPromise, Accept, PureAck, Destroy, ReceiveSynSent, Reset, AckProper, SeqProper, Limit;
    var s' := Receive(s, p, arp);
    if s.t.phase == TimeWait {
      ResetPromise(s, p.seg, arp, irs, Limit(s));
      QuietPromise(Reset(s, p.seg, arp), s', irs);
    } else if s.t.phase == SynSent {
      SynSentPromise(s, p, arp, irs);
    } else if p.seg.bits.rst {
      DestroyIs(s);
      if !SeqProper(s.t, p.seg) { QuietPromise(s, s', irs); }
    } else if p.seg.bits.ack && AckProper(s.t.oldest, s.t.seqNum, p.seg.ack) && SeqProper(s.t, p.seg) {
      AcceptMoved(s, p, arp);
      MovedPromise(s, s', irs);
    } else {
      PureAckPromise(s, false, arp, irs);
      QuietPromise(PureAck(s, false, arp), s', irs);
    }
  }

  lemma SynSentPromise(s: State, p: Packet, arp: bool, irs: U32)
    requires Named(s.q) && s.t.phase == SynSent && AllPromise(s, irs, Limit(s)) && ActiveOpen(s, p.seg)
    ensures var s' := ReceiveSynSent(s, p, arp); s'.t.phase != Closed ==> AllPromise(s', irs, Limit(s'))
  {
    hide AllPromise, Destroy, OpenComplete, EnqueueConnect, Reset, Limit;
    var seg := p.seg;
    var s' := ReceiveSynSent(s, p, arp);
    if seg.bits.rst {
      DestroyIs(s);
      if !(seg.bits.ack && seg.ack == s.t.seqNum) { QuietPromise(s, s', irs); }
    } else if seg.bits.syn && seg.ack == s.t.seqNum {
      var s1 := OpenComplete(s, seg);
      OpenMoved(s, seg);
      MovedPromise(s, s1, irs);
      ConnectMoved(s1);
      MovedPromise(s1, EnqueueConnect(s1), irs);
      QuietPromise(EnqueueConnect(s1), s', irs);
    } else {
      ResetPromise(s, seg, arp, irs, Limit(s));
      QuietPromise(Reset(s, seg, arp), s', irs);
    }
  }

  lemma TickPromise(s: State, overdue: bool, probeDue: bool, arp: bool, irs: U32)
    requires Named(s.q) && Open(s, irs) && s.t.phase != Closed && AllPromise(s, irs, Limit(s))
    ensures var s' := Drive(s, overdue, probeDue, arp); s'.t.phase != Closed ==> AllPromise(s', irs, Limit(s'))
  {
    hide AllPromise, Destroy, DriveLoop, Limit;
    var s' := Drive(s, overdue, probeDue, arp);
    if s.q.sent != [] && overdue {
      DestroyIs(s);
      ResentPromise(s, s', irs);
    } else {
      DriveLoopPromise(s, probeDue, arp, irs);
    }
  }

  /** A retransmission carries a header that was sent before. */
  lemma ResentPromise(s: State, s': State, irs: U32)
    requires Named(s.q) && s.q.sent != [] && AllPromise(s, irs, Limit(s))
    ensures var id := s.q.sent[0];
            var b := s.q.bufs[id];
            var s1 := s.(q := s.q.(bufs := s.q.bufs[id := b.(attempts := b.attempts + 1)]),
                         h := Emit(s.h, b.header.(data := b.data)));
            s' == s1 ==> AllPromise(s', irs, Limit(s'))
  {
    var b := s.q.bufs[s.q.sent[0]];
    var w := b.header.(data := b.data);
    assert Promises(b.header, irs, Limit(s));
    assert Promises(w, irs, Limit(s)) by {
      if w.bits.ack && !w.bits.rst && w.window > 0 {
        var a: nat :| PromisesFrom(b.header, irs, Limit(s), a);
        assert PromisesFrom(w, irs, Limit(s), a);
      }
    }
  }

  lemma RecvPromise(s: State, n: nat, arp: bool, irs: U32)
    requires Open(s, irs) && s.t.phase != Closed && AllPromise(s, irs, Limit(s))
    ensures var s' := Recv(s, n, arp).0; AllPromise(s', irs, Limit(s'))
  {
    hide AllPromise, PureAck, Wrap32;
    if !RecvRefused(s.t.phase) && s.r.data != [] && n != 0 {
      var k := Min(n, |s.r.data|);
      var s1 := s.(r := s.r.(data := s.r.data[k..]), h := s.h.(consumed := s.h.consumed + s.r.data[..k]));
      MovedPromise(s, s1, irs);
      PureAckPromise(s1, false, arp, irs);
    }
  }

  lemma StepPromise(s: State, e: Event, arp: bool, irs: U32)
    requires Named(s.q) && Open(s, irs) && s.t.phase != Closed && AllPromise(s, irs, Limit(s))
    requires e.Arrive? ==> ActiveOpen(s, e.p.seg)
    ensures var s' := Step(s, e, arp); s'.t.phase != Closed ==> AllPromise(s', irs, Limit(s'))
  {
    hide AllPromise, SendLoop, Drive, Destroy, EnqueueConnect, Enqueue, Receive, Recv, Open, ActiveOpen;
    var s' := Step(s, e, arp);
    match e
    case UserSend(data) =>
      SendLoopMoved(s, data);
      MovedPromise(s, s', irs);
    case UserGet => MovedPromise(s, s', irs);
    case UserEnqueue(id, data) =>
      if id in s.h.held && id < |s.q.bufs| {
        EnqueueMoved(s.(q := s.q.(bufs := s.q.bufs[id := s.q.bufs[id].(data := data)])), id);
      }
      MovedPromise(s, s', irs);
    case UserReturn(id) => MovedPromise(s, s', irs);
    case UserRecv(n) => RecvPromise(s, n, arp, irs);
    case UserTake => MovedPromise(s, s', irs);
    case UserClose =>
      forall p: Phase ensures Moved(s, CloseWithFin(s, p)) { ConnectMoved(s.(t := s.t.(phase := p))); }
      MovedPromise(s, s', irs);
    case UserShutRd => MovedPromise(s, s', irs);
    case UserDestroy => DestroyIs(s);
    case Arrive(p) => ArrivePromise(s, p, arp, irs);
    case Tick(overdue, probeDue) => TickPromise(s, overdue, probeDue, arp, irs);
  }

  /** CLOSED is for good. */
  lemma ClosedStays(s: State, e: Event, arp: bool)
    requires Named(s.q) && s.t.phase == Closed
    ensures Step(s, e, arp).t.phase == Closed
  {
    hide SendLoop, DriveLoop, Destroy, EnqueueConnect, SendPacket, Reset;
    DestroyIs(s);
    match e
    case UserEnqueue(id, data) =>
    case Tick(overdue, probeDue) => ClosedDrive(s, probeDue, arp);
    case Arrive(p) => ClosedReset(s, p.seg, arp);
    case _ =>
  }

  lemma ClosedReset(s: State, seg: Segment, arp: bool)
    ensures Reset(s, seg, arp).t == s.t
  {
  }

  lemma {:induction false} ClosedDrive(s: State, probeDue: bool, arp: bool)
    requires Named(s.q) && s.t.phase == Closed
    ensures DriveLoop(s, probeDue, arp).t.phase == Closed
    decreases |s.q.outgoing|
  {
    hide SendPacket, Wrap32, Wrap16;
    if s.q.outgoing != [] && |s.q.sent| < RING {
      var id := s.q.outgoing[0];
      var f := SendPacket(s, s.q.bufs[id], false, false, arp);
      SendPacketFrame(s, s.q.bufs[id], false, false, arp);
      SendPacketHeaders(s, s.q.bufs[id], false, false, arp);
      if |s.q.bufs[id].data| <= s.t.remoteWindow && !f.pending {
        ClosedDrive(AfterSend(f.s, id, f.b), probeDue, arp);
      }
    }
  }

  lemma StepWindow(s: State, n: U16, e: Event, arp: bool, irs: U32, peer: seq<Byte>)
    requires PoolInv(s) && WindowInv(s, n, irs, peer) && FairStep(s, e, irs, peer)
    ensures WindowInv(Step(s, e, arp), n, irs, peer)
  {
    hide PoolInv, RecvInv, FairStep, Step, AllPromise, RoomOk, Open;
    RunStepRecv(s, e, arp, irs, peer);
    StepRoom(s, n, e, arp);
    OpenHolds(s, n, irs, peer);
    if s.t.phase == Closed {
      ClosedStays(s, e, arp);
    } else {
      FairActive(s, e, irs, peer);
      StepPromise(s, e, arp, irs);
    }
  }

  lemma FairActive(s: State, e: Event, irs: U32, peer: seq<Byte>)
    requires FairStep(s, e, irs, peer)
    ensures e.Arrive? ==> ActiveOpen(s, e.p.seg)
  {
  }

  lemma {:induction false} RunWindow(s: State, n: U16, es: seq<(Event, bool)>, irs: U32, peer: seq<Byte>)
    requires PoolInv(s) && WindowInv(s, n, irs, peer) && FairRun(s, es, irs, peer)
    ensures WindowInv(Run(s, es), n, irs, peer)
    decreases |es|
  {
    hide PoolInv, WindowInv, FairStep, Step;
    if es != [] {
      var k := |es| - 1;
      RunWindow(s, n, es[..k], irs, peer);
      StepWindow(Run(s, es[..k]), n, es[k].0, es[k].1, irs, peer);
    }
  }

  lemma OpeningWindow(iss: U32, pool: nat, mss: U16, n: U16, irs: U32, peer: seq<Byte>)
    requires n > 0
    ensures WindowInv(Connect(Fresh(iss, pool, mss, n)), n, irs, peer)
  {
    hide EnqueueConnect, RecvInv;
    var f := Fresh(iss, pool, mss, n);
    var s1 := f.(t := f.t.(phase := SynSent));
    OpeningRecv(iss, pool, mss, n, irs, peer);
    ConnectMoved(s1);
    EnqueueConnectFrame(s1);
  }

  /**
   * What the peer was ever allowed.  While the socket is not CLOSED, every header put on the wire -
   * first time or again, restricted or not - that opens a window ends it no further than what the
   * receive buffer has room for now: its ack plus its window is at most the present ackNum plus the
   * free room.
   */
  lemma WindowsKept(iss: U32, pool: nat, mss: U16, n: U16, es: seq<(Event, bool)>, irs: U32, peer: seq<Byte>)
    requires n > 0 && FairHistory(iss, pool, mss, n, es, irs, peer)
    ensures var s := After(iss, pool, mss, n, es);
            && |s.r.data| <= n && s.r.size == n
            && (s.t.phase != Closed ==>
                  forall i :: 0 <= i < |s.h.wire| ==> Promises(s.h.wire[i], irs, Received(s.h) + n - |s.r.data|))
  {
    hide RecvInv, FairRun, Run, Promises, Conserved;
    FreshKeeps(iss, pool, mss, n);
    OpeningWindow(iss, pool, mss, n, irs, peer);
    RunWindow(Connect(Fresh(iss, pool, mss, n)), n, es, irs, peer);
  }
}
