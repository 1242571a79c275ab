/** No segment carries more than both ends allow, on every run. */
module TcpSizes {
  import opened Machine
  import opened Counting
  import opened TcpModel
  import opened TcpPool
  import opened TcpStream
  import opened TcpRuns
  import opened TcpAnswers
  import opened TcpTransfers

  predicate Small(b: Buffer, n: nat) { |b.data| <= n && (b.pendingArp ==> |b.header.data| <= n) }

  ghost predicate WireSmall(h: History, n: nat) { forall i :: 0 <= i < |h.wire| ==> |h.wire[i].data| <= n }

  ghost predicate QueuesSmall(q: Queues, n: nat)
    requires Named(q)
  {
    && (forall i :: 0 <= i < |q.outgoing| ==> Small(q.bufs[q.outgoing[i]], n))
    && (forall i :: 0 <= i < |q.sent| ==> |q.bufs[q.sent[i]].data| <= n)
  }

  /** Until the connection is opened the size is zero, and then at most our own segment size. */
  ghost predicate Sized(s: State) {
    && Named(s.q) && QueuesSmall(s.q, s.t.maxEnqueue) && WireSmall(s.h, s.t.maxEnqueue)
    && (s.t.phase == SynSent ==> s.t.maxEnqueue == 0) && s.t.maxEnqueue <= s.t.mss
  }

  /** Buffers keep their contents and the queues lose packets at most. */
  ghost predicate Fewer(q: Queues, q': Queues) {
    && q'.bufs == q.bufs && (forall i :: 0 <= i < |q'.outgoing| ==> q'.outgoing[i] in q.outgoing)
    && (forall i :: 0 <= i < |q'.sent| ==> q'.sent[i] in q.sent)
  }

  lemma FewerSmall(q: Queues, q': Queues, n: nat)
    requires Named(q) && Named(q') && QueuesSmall(q, n) && Fewer(q, q')
    ensures QueuesSmall(q', n)
  {
    forall i | 0 <= i < |q'.outgoing| ensures Small(q'.bufs[q'.outgoing[i]], n) {
      var j :| 0 <= j < |q.outgoing| && q.outgoing[j] == q'.outgoing[i];
    }
    forall i | 0 <= i < |q'.sent| ensures |q'.bufs[q'.sent[i]].data| <= n {
      var j :| 0 <= j < |q.sent| && q.sent[j] == q'.sent[i];
    }
  }

  /** The size only ever changes from zero. */
  ghost predicate SameSize(s: State, s': State) {
    s'.t.mss == s.t.mss && (s'.t.maxEnqueue == s.t.maxEnqueue || (s.t.phase == SynSent && s'.t.maxEnqueue <= s.t.mss))
    && (s'.t.phase == SynSent ==> s.t.phase == SynSent && s'.t.maxEnqueue == s.t.maxEnqueue)
  }

  lemma FewerSized(s: State, s': State)
    requires Sized(s) && Named(s'.q) && Fewer(s.q, s'.q) && s'.h.wire == s.h.wire && SameSize(s, s')
    ensures Sized(s')
  {
    hide Small, Fewer;
    FewerSmall(s.q, s'.q, s.t.maxEnqueue);
    if s'.t.maxEnqueue != s.t.maxEnqueue { ZeroSmall(s'.q, s'.t.maxEnqueue); }
  }

  lemma ZeroSmall(q: Queues, n: nat)
    requires Named(q) && QueuesSmall(q, 0)
    ensures QueuesSmall(q, n)
  {
  }

  // ---------------------------------------------------------------- queueing

  lemma EnqueueSized(s: State, id: nat)
    requires Sized(s) && id < |s.q.bufs|
    ensures Sized(Enqueue(s, id).0)
  {
    hide Wrap16;
  }

  lemma ConnectSized(s: State)
    requires Sized(s)
    ensures Sized(EnqueueConnect(s))
  {
    hide Enqueue;
    var c := Conn(s.q);
    EnqueueSized(s.(q := s.q.(bufs := s.q.bufs[c := s.q.bufs[c].(data := [])])), c);
  }

  // ---------------------------------------------------------------- sending

  lemma SendSized(s: State, b: Buffer, forceAck: bool, forceProbe: bool, arp: bool)
    requires Sized(s) && Small(b, s.t.maxEnqueue)
    ensures var f := SendPacket(s, b, forceAck, forceProbe, arp);
            Sized(f.s) && Small(f.b, s.t.maxEnqueue) && f.s.q == s.q && f.s.t.maxEnqueue == s.t.maxEnqueue
  {
    hide Wrap32, AdvertisedWindow;
  }

  lemma PureAckSized(s: State, probe: bool, arp: bool)
    requires Sized(s)
    ensures Sized(PureAck(s, probe, arp))
  {
    hide SendPacket;
    SendSized(s, Blank(), true, probe, arp);
  }

  lemma BufferSized(s: State, id: nat, b: Buffer)
    requires Sized(s) && id < |s.q.bufs| && Small(b, s.t.maxEnqueue)
    ensures Sized(s.(q := s.q.(bufs := s.q.bufs[id := b])))
  {
  }

  lemma AfterSized(s: State, b: Buffer)
    requires Sized(s) && s.q.outgoing != [] && Small(b, s.t.maxEnqueue)
    ensures Sized(AfterSend(s, s.q.outgoing[0], b))
  {
    hide Wrap16;
  }

  lemma {:induction false} DriveLoopSized(s: State, probeDue: bool, arp: bool)
    requires Sized(s)
    ensures Sized(DriveLoop(s, probeDue, arp))
    decreases |s.q.outgoing|
  {
    hide Sized, SendPacket, PureAck, Small, AfterSend;
    SizedNamed(s);
    if s.q.outgoing != [] && |s.q.sent| < RING {
      var id := s.q.outgoing[0];
      PureAckSized(s, true, arp);
      HeadSmall(s);
      var f := SendPacket(s, s.q.bufs[id], false, false, arp);
      SendSized(s, s.q.bufs[id], false, false, arp);
      if |s.q.bufs[id].data| <= s.t.remoteWindow {
        if f.pending {
          BufferSized(f.s, id, f.b);
        } else {
          AfterSized(f.s, f.b);
          DriveLoopSized(AfterSend(f.s, id, f.b), probeDue, arp);
        }
      }
    }
  }

  lemma SizedNamed(s: State)
    requires Sized(s)
    ensures Named(s.q)
  {
  }

  lemma HeadSmall(s: State)
    requires Sized(s) && s.q.outgoing != []
    ensures Small(s.q.bufs[s.q.outgoing[0]], s.t.maxEnqueue)
  {
  }

  lemma DestroySized(s: State)
    requires Sized(s)
    ensures Sized(Destroy(s))
  {
    hide Destroy, Sized;
    SizedNamed(s);
    DestroyIs(s);
    DestroyEmpties(s);
    DestroyBuffers(s);
    FewerSized(s, Destroy(s));
  }

  lemma DestroyBuffers(s: State)
    requires Named(s.q)
    ensures Destroy(s).q.bufs == s.q.bufs && ClearQueues(s).q.bufs == s.q.bufs && ClearQueues(s).h.wire == s.h.wire
    ensures ClearQueues(s).q.outgoing == [] && ClearQueues(s).q.sent == [] && ClearQueues(s).t == s.t
  {
    hide Wrap16, ReturnAll;
    var q0 := s.q.(outgoing := [], pendingOutgoing := Wrap16(s.q.pendingOutgoing - |s.q.outgoing|));
    ReturnAllKeeps(q0, s.q.outgoing);
    var q1 := ReturnAll(q0, s.q.outgoing).(sent := [], pendingSent := Wrap16(s.q.pendingSent - |s.q.sent|));
    ReturnAllKeeps(q1, s.q.sent);
  }

  lemma TickSized(s: State, overdue: bool, probeDue: bool, arp: bool)
    requires Sized(s)
    ensures Sized(Drive(s, overdue, probeDue, arp))
  {
    hide DriveLoop, Destroy;
    DestroySized(s);
    DriveLoopSized(s, probeDue, arp);
  }

  // ---------------------------------------------------------------- receiving

  lemma {:induction false} RemoveFewer(s: State, target: U32)
    requires Named(s.q)
    ensures var s' := RemoveSent(s, target);
            Fewer(s.q, s'.q) && s'.h.wire == s.h.wire && s'.t == s.t.(oldest := s'.t.oldest)
    decreases |s.q.sent|
  {
    hide Wrap16;
    if s.q.sent != [] && Removable(s.q.bufs[s.q.sent[0]].last, target, s.t.oldest) { RemoveFewer(PopSent(s), target); }
  }

  lemma CreditFewer(s: State, seg: Segment)
    requires Named(s.q)
    ensures var s' := Credit(s, seg);
            && Fewer(s.q, s'.q) && s'.h.wire == s.h.wire
            && s'.t.maxEnqueue == s.t.maxEnqueue && s'.t.mss == s.t.mss && s'.t.phase == s.t.phase
  {
    hide Sent, Wrap32;
    RemoveFewer(Noted(s, seg), seg.ack);
  }

  lemma TakeFewer(s: State, p: Packet)
    ensures var s' := TakeData(s, p).s;
            && s'.q == s.q && s'.h.wire == s.h.wire
            && s'.t.maxEnqueue == s.t.maxEnqueue && s'.t.mss == s.t.mss && s'.t.phase == s.t.phase
  {
    hide Wrap32;
  }

  lemma ResetSized(s: State, seg: Segment, arp: bool)
    requires Sized(s)
    ensures Sized(Reset(s, seg, arp))
  {
    hide Wrap32;
  }

  lemma ClearSized(s: State)
    requires Sized(s)
    ensures Sized(ClearQueues(s))
  {
    hide ClearQueues, Sized;
    SizedNamed(s);
    DestroyBuffers(s);
    FewerSized(s, ClearQueues(s));
  }

  lemma AdvanceSized(s: State, seg: Segment, current: bool, arp: bool)
    requires Sized(s) && s.t.phase != SynSent
    ensures Sized(Advance(s, seg, current, arp))
  {
    hide ClearQueues, Reset, Sent, Wrap32;
    if s.t.phase == SynRecved && !current {
      ClearSized(s);
      ResetSized(ClearQueues(s), seg, arp);
    } else {
      var s' := Advance(s, seg, current, arp);
      assert s'.q == s.q && s'.h.wire == s.h.wire;
      FewerSized(s, s');
    }
  }

  lemma SameSized(s: State, s': State)
    requires Sized(s) && s'.q == s.q && s'.h.wire == s.h.wire
    requires s'.t.maxEnqueue == s.t.maxEnqueue && s'.t.mss == s.t.mss
    requires s'.t.phase == SynSent ==> s.t.phase == SynSent
    ensures Sized(s')
  {
  }

  lemma AcceptSized(s: State, p: Packet, arp: bool)
    requires Sized(s) && s.t.phase != SynSent
    ensures Sized(Accept(s, p, arp))
  {
    hide Sized, Credit, TakeData, Advance, EnqueueConnect, Fewer;
    SizedNamed(s);
    var s1 := Credit(s, p.seg);
    CreditFewer(s, p.seg);
    FewerSized(s, s1);
    TakeFewer(s1, p);
    var k := if p.seg.data == [] then Taken(s1, true, false) else TakeData(s1, p);
    SameSized(s1, k.s);
    var current := p.seg.ack == s.t.seqNum;
    AdvanceSized(k.s, p.seg, current, arp);
    ConnectSized(Advance(k.s, p.seg, current, arp));
    var s' := Accept(s, p, arp);
    if k.playDead { SameSized(k.s, s'); }
    else if (p.seg.data != [] && k.s.q.outgoing == []) || AcksFin(k.s.t.phase, p.seg) {
      SameSized(EnqueueConnect(Advance(k.s, p.seg, current, arp)), s');
    } else { SameSized(Advance(k.s, p.seg, current, arp), s'); }
  }

  lemma OpenSized(s: State, seg: Segment)
    requires Sized(s) && s.t.phase == SynSent
    ensures Sized(OpenComplete(s, seg)) && Sized(SimultaneousOpen(s, seg))
  {
    hide Sized, RemoveSent, ClearQueues, EnqueueConnect, Sent, Wrap32, Fewer;
    SizedNamed(s);
    RemoveFewer(s, seg.ack);
    FewerSized(s, OpenComplete(s, seg));
    var t1 := s.t.(phase := SynRecved, ackNum := Wrap32(seg.num + 1), maxEnqueue := MaxEnqueueFor(s.t, seg),
                   seqNum := Wrap32(s.t.seqNum - 1));
    var s1 := s.(t := t1, h := s.h.(iss := t1.seqNum, synSent := false));
    SelfFewer(s.q);
    FewerSized(s, s1);
    ClearSized(s1);
    ConnectSized(ClearQueues(s1));
  }

  lemma SelfFewer(q: Queues)
    ensures Fewer(q, q)
  {
  }

  lemma ReceiveSized(s: State, p: Packet, arp: bool)
    requires Sized(s)
    ensures Sized(Receive(s, p, arp))
  {
    hide Sized, Accept, PureAck, Destroy, Reset, OpenComplete, SimultaneousOpen, EnqueueConnect, AckProper, SeqProper;
    SizedNamed(s);
    var seg := p.seg;
    var s' := Receive(s, p, arp);
    ResetSized(s, seg, arp);
    DestroySized(s);
    PureAckSized(s, false, arp);
    if s.t.phase == Closed || s.t.phase == TimeWait {
      SameSized(Reset(s, seg, arp), s');
    } else if s.t.phase == SynSent {
      OpenSized(s, seg);
      ConnectSized(OpenComplete(s, seg));
      var current := seg.bits.ack && seg.ack == s.t.seqNum;
      SameSized(if seg.bits.rst then (if current then Destroy(s) else s)
                else if !seg.bits.syn then Reset(s, seg, arp)
                else if !seg.bits.ack then SimultaneousOpen(s, seg)
                else if current then EnqueueConnect(OpenComplete(s, seg)) else Reset(s, seg, arp), s');
    } else if seg.bits.rst {
      SameSized(if SeqProper(s.t, seg) then Destroy(s) else s, s');
    } else if seg.bits.ack && AckProper(s.t.oldest, s.t.seqNum, seg.ack) && SeqProper(s.t, seg) {
      AcceptSized(s, p, arp);
    } else {
      SameSized(PureAck(s, false, arp), s');
    }
  }

  // ---------------------------------------------------------------- the user

  /** Writing into a buffer that is on neither queue. */
  lemma WriteSized(s: State, s': State, id: nat)
    requires Sized(s) && Named(s'.q) && s'.t == s.t && s'.h.wire == s.h.wire && |s'.q.bufs| == |s.q.bufs|
    requires s'.q.outgoing == s.q.outgoing && s'.q.sent == s.q.sent
    requires forall x :: 0 <= x < |s.q.bufs| && x != id ==> s'.q.bufs[x] == s.q.bufs[x]
    requires id !in s.q.outgoing && id !in s.q.sent
    ensures Sized(s')
  {
  }

  lemma TurnSized(s: State, rest: seq<Byte>)
    requires PoolInv(s) && Sized(s) && SendGoes(s, rest)
    ensures Sized(SendTurn(s, rest).0)
  {
    hide PoolInv, Sized, Enqueue;
    SizedNamed(s);
    var n := Min(SendSize(s.t), |rest|);
    var (s1, got) := GetBuffer(s);
    var s2 := s1.(q := s1.q.(bufs := s1.q.bufs[got.value := s1.q.bufs[got.value].(data := rest[..n])]));
    NextFree(s);
    WriteSized(s, s2, got.value);
    EnqueueSized(s2, got.value);
  }

  lemma NextFree(s: State)
    requires PoolInv(s) && s.q.free != []
    ensures var id := s.q.free[|s.q.free| - 1]; id !in s.q.outgoing && id !in s.q.sent
  {
    GetBufferKeeps(s);
    var s1 := GetBuffer(s).0;
    HeldUnique(s1.q, s1.h.held, s.q.free[|s.q.free| - 1]);
  }

  lemma {:induction false} SendLoopSized(s: State, rest: seq<Byte>)
    requires PoolInv(s) && Sized(s)
    ensures Sized(SendLoop(s, rest).0)
    decreases |rest|, |s.q.free|
  {
    hide PoolInv, Sized, SendTurn, Spins, SendGoes;
    PoolNamed(s);
    if SendGoes(s, rest) && s.t.phase == Established && !Spins(s, rest) {
      SendTurnShrinks(s, rest);
      TurnSized(s, rest);
      SendTurnKeeps(s, rest);
      SendLoopSized(SendTurn(s, rest).0, SendTurn(s, rest).1);
    }
  }

  lemma UserEnqueueSized(s: State, id: nat, data: seq<Byte>, arp: bool)
    requires PoolInv(s) && Sized(s)
    ensures Sized(Step(s, UserEnqueue(id, data), arp))
  {
    hide Sized, Enqueue;
    if id in s.h.held && id < |s.q.bufs| {
      HeldUnique(s.q, s.h.held, id);
      var s1 := s.(q := s.q.(bufs := s.q.bufs[id := s.q.bufs[id].(data := data)]));
      WriteSized(s, s1, id);
      EnqueueSized(s1, id);
    }
  }

  lemma CloseSized(s: State)
    requires Sized(s)
    ensures Sized(CloseLocal(s))
  {
    hide EnqueueConnect;
    forall p: Phase | p != SynSent
      ensures Sized(s.(t := s.t.(phase := p))) && Sized(EnqueueConnect(s.(t := s.t.(phase := p))))
    {
      SameSized(s, s.(t := s.t.(phase := p)));
      ConnectSized(s.(t := s.t.(phase := p)));
    }
  }

  lemma RecvSized(s: State, n: nat, arp: bool)
    requires Sized(s)
    ensures Sized(Recv(s, n, arp).0)
  {
    hide Sized, PureAck;
    if !RecvRefused(s.t.phase) && s.r.data != [] && n != 0 {
      var k := Min(n, |s.r.data|);
      var s1 := s.(r := s.r.(data := s.r.data[k..]), h := s.h.(consumed := s.h.consumed + s.r.data[..k]));
      SameSized(s, s1);
      PureAckSized(s1, false, arp);
    }
  }

  /** What moves between the free stack and the user's hands is on neither queue. */
  lemma HandsSized(s: State, e: Event, arp: bool)
    requires Sized(s) && (e.UserGet? || e.UserReturn? || e.UserTake? || e.UserShutRd?)
    ensures Sized(Step(s, e, arp))
  {
    hide Sized;
    SizedNamed(s);
    var s' := Step(s, e, arp);
    SelfFewer(s.q);
    if Named(s'.q) { FewerSized(s, s'); }
  }

  // ---------------------------------------------------------------- every run

  lemma StepSized(s: State, e: Event, arp: bool)
    requires PoolInv(s) && Sized(s)
    ensures Sized(Step(s, e, arp))
  {
    hide Sized, PoolInv, Step, Receive, Drive, Destroy, CloseLocal, Recv, SendLoop;
    PoolNamed(s);
    StepKeeps(s, e, arp);
    PoolNamed(Step(s, e, arp));
    StepIs(s, e, arp);
    match e
    case UserSend(data) => SendLoopSized(s, data);
    case UserEnqueue(id, data) => UserEnqueueSized(s, id, data, arp);
    case UserRecv(n) => RecvSized(s, n, arp);
    case UserClose => CloseSized(s);
    case UserDestroy => DestroySized(s);
    case Arrive(p) => ReceiveSized(s, p, arp);
    case Tick(overdue, probeDue) => TickSized(s, overdue, probeDue, arp);
    case _ => HandsSized(s, e, arp);
  }

  lemma StepIs(s: State, e: Event, arp: bool)
    requires Named(s.q)
    ensures e.UserSend? ==> Step(s, e, arp) == s || Step(s, e, arp) == SendLoop(s, e.data).0
    ensures e.UserRecv? ==> Step(s, e, arp) == Recv(s, e.n, arp).0
    ensures e.UserClose? ==> Step(s, e, arp) == CloseLocal(s)
    ensures e.UserDestroy? ==> Step(s, e, arp) == Destroy(s)
    ensures e.Arrive? ==> Step(s, e, arp) == Receive(s, e.p, arp)
    ensures e.Tick? ==> Step(s, e, arp) == Drive(s, e.overdue, e.probeDue, arp)
  {
    hide Receive, Drive, Destroy, CloseLocal, Recv, SendLoop;
  }

  lemma {:induction false} RunSized(s: State, es: seq<(Event, bool)>)
    requires PoolInv(s) && Sized(s)
    ensures Sized(Run(s, es))
    decreases |es|
  {
    hide Sized, Step, Places;
    if es != [] {
      RunSized(s, es[..|es| - 1]);
      StepSized(Run(s, es[..|es| - 1]), es[|es| - 1].0, es[|es| - 1].1);
    }
  }

  /**
   * On every run, direct enqueue calls and simultaneous opens included: no segment ever put on the wire, first
   * time or again, carries more than maxEnqueue, which is at most our own segment size; and maxEnqueue is
   * zero while the SYN is out.
   */
  lemma SegmentsFit(iss: U32, pool: nat, mss: U16, rcvSize: U16, es: seq<(Event, bool)>)
    ensures var s := After(iss, pool, mss, rcvSize, es);
            && (forall i :: 0 <= i < |s.h.wire| ==> |s.h.wire[i].data| <= s.t.maxEnqueue)
            && s.t.maxEnqueue <= s.t.mss && (s.t.phase == SynSent ==> s.t.maxEnqueue == 0)
  {
    hide Places, EnqueueConnect;
    FreshKeeps(iss, pool, mss, rcvSize);
    FreshSized(iss, pool, mss, rcvSize);
    RunSized(Connect(Fresh(iss, pool, mss, rcvSize)), es);
  }

  lemma FreshSized(iss: U32, pool: nat, mss: U16, rcvSize: U16)
    ensures Sized(Connect(Fresh(iss, pool, mss, rcvSize)))
  {
    hide EnqueueConnect;
    var f := Fresh(iss, pool, mss, rcvSize);
    ConnectSized(f.(t := f.t.(phase := SynSent)));
  }
}
