/**
 * Transmit buffer conservation and the two work counters, for every run of the TCP engine.
 */
module TcpPool {
  import opened Machine
  import opened Counting
  import opened TcpModel

  /** How often a buffer is on the free stack, in a queue, or in the user's hands. */
  ghost function Places(q: Queues, held: set<nat>, x: nat): nat {
    Occ(q.free, x) + Occ(q.outgoing, x) + Occ(q.sent, x) + (if x in held then 1 else 0)
  }

  /** Every pool buffer is in exactly one place. */
  ghost predicate Conserved(q: Queues, held: set<nat>) {
    && Named(q)
    && (forall x: nat :: x < Conn(q) ==> Places(q, held, x) == 1)
    && (forall x :: x in held ==> x < Conn(q))
  }

  /** Pending_Sent is exact; Pending_Outgoing counts the queue plus every ack enqueue replaced. */
  ghost predicate Counted(q: Queues, replaced: nat) {
    && |q.outgoing| <= RING && |q.sent| <= RING
    && q.pendingSent == |q.sent|
    && q.pendingOutgoing == Wrap16(|q.outgoing| + replaced)
  }

  ghost predicate PoolInv(s: State) {
    Conserved(s.q, s.h.held) && Counted(s.q, s.h.replaced)
  }

  /** A step from `s` to `s'` lost no buffer and kept the invariant. */
  ghost predicate Kept(s: State, s': State) {
    PoolInv(s') && |s'.q.bufs| == |s.q.bufs|
  }

  // ---------------------------------------------------------------- counting

  lemma ReturnPlaces(q: Queues, id: nat, held: set<nat>, x: nat)
    requires Named(q) && x < Conn(q)
    ensures Places(Return(q, id), held, x) == Places(q, held, x) + (if x == id then 1 else 0)
  {
    OccSnoc(q.free, id, x);
  }

  lemma {:induction false} ReturnAllPlaces(q: Queues, ids: seq<nat>, held: set<nat>, x: nat)
    requires Named(q) && x < Conn(q)
    ensures Places(ReturnAll(q, ids), held, x) == Places(q, held, x) + Occ(ids, x)
    decreases |ids|
  {
    if ids != [] {
      ReturnPlaces(q, ids[0], held, x);
      ReturnAllPlaces(Return(q, ids[0]), ids[1..], held, x);
      OccFirst(ids, x);
    }
  }

  /** Only where the buffers are matters, not what is in them. */
  lemma SamePlaces(q: Queues, q': Queues, held: set<nat>)
    requires Conserved(q, held) && |q'.bufs| == |q.bufs|
    requires q'.free == q.free && q'.outgoing == q.outgoing && q'.sent == q.sent
    ensures Conserved(q', held)
  {
    forall x: nat | x < Conn(q') ensures Places(q', held, x) == 1 {
      assert Places(q, held, x) == 1;
    }
  }

  // ---------------------------------------------------------------- one move at a time

  /** The same counts under another arrangement of the queues. */
  lemma Rearranged(q: Queues, held: set<nat>, q': Queues, held': set<nat>)
    requires Conserved(q, held) && Named(q') && |q'.bufs| == |q.bufs|
    requires forall x :: x in held' ==> x < Conn(q)
    requires forall x: nat :: x < Conn(q) ==> Places(q', held', x) == Places(q, held, x)
    ensures Conserved(q', held')
  {
    forall x: nat | x < Conn(q') ensures Places(q', held', x) == 1 {
      assert Places(q, held, x) == 1;
    }
  }

  lemma MoveToOutgoing(q: Queues, held: set<nat>, id: nat, q': Queues)
    requires Conserved(q, held) && (id == Conn(q) || id in held)
    requires q'.free == q.free && q'.outgoing == q.outgoing + [id] && q'.sent == q.sent && |q'.bufs| == |q.bufs|
    ensures Conserved(q', held - {id})
  {
    forall x: nat | x < Conn(q) ensures Places(q', held - {id}, x) == Places(q, held, x) {
      OccSnoc(q.outgoing, id, x);
    }
    Rearranged(q, held, q', held - {id});
  }

  lemma MoveToFree(q: Queues, held: set<nat>, id: nat, q': Queues)
    requires Conserved(q, held) && id in held
    requires q'.free == q.free + [id] && q'.outgoing == q.outgoing && q'.sent == q.sent && |q'.bufs| == |q.bufs|
    ensures Conserved(q', held - {id})
  {
    forall x: nat | x < Conn(q) ensures Places(q', held - {id}, x) == Places(q, held, x) {
      OccSnoc(q.free, id, x);
    }
    Rearranged(q, held, q', held - {id});
  }

  lemma MoveToHeld(q: Queues, held: set<nat>, id: nat, q': Queues)
    requires Conserved(q, held) && q.free != [] && id == q.free[|q.free| - 1]
    requires q'.free == q.free[..|q.free| - 1] && q'.outgoing == q.outgoing && q'.sent == q.sent
    requires |q'.bufs| == |q.bufs|
    ensures Conserved(q', held + {id})
  {
    forall x: nat | x < Conn(q) ensures Places(q', held + {id}, x) == Places(q, held, x) {
      assert Places(q, held, x) == 1;
    }
    Rearranged(q, held, q', held + {id});
  }

  lemma MoveToSent(q: Queues, held: set<nat>, q': Queues)
    requires Conserved(q, held) && q.outgoing != []
    requires q'.free == q.free && q'.outgoing == q.outgoing[1..] && q'.sent == q.sent + [q.outgoing[0]]
    requires |q'.bufs| == |q.bufs|
    ensures Conserved(q', held)
  {
    forall x: nat | x < Conn(q) ensures Places(q', held, x) == Places(q, held, x) {
      OccFirst(q.outgoing, x);
      OccSnoc(q.sent, q.outgoing[0], x);
    }
    Rearranged(q, held, q', held);
  }

  /** Give the head of `outgoing` back to the pool. */
  lemma RetireOutgoing(q: Queues, held: set<nat>, q1: Queues)
    requires Conserved(q, held) && q.outgoing != []
    requires q1.free == q.free && q1.outgoing == q.outgoing[1..] && q1.sent == q.sent && |q1.bufs| == |q.bufs|
    ensures Conserved(Return(q1, q.outgoing[0]), held)
  {
    var q' := Return(q1, q.outgoing[0]);
    forall x: nat | x < Conn(q) ensures Places(q', held, x) == Places(q, held, x) {
      OccFirst(q.outgoing, x);
      ReturnPlaces(q1, q.outgoing[0], held, x);
    }
    Rearranged(q, held, q', held);
  }

  /** Give the head of `sent` back to the pool. */
  lemma RetireSent(q: Queues, held: set<nat>, q1: Queues)
    requires Conserved(q, held) && q.sent != []
    requires q1.free == q.free && q1.outgoing == q.outgoing && q1.sent == q.sent[1..] && |q1.bufs| == |q.bufs|
    ensures Conserved(Return(q1, q.sent[0]), held)
  {
    var q' := Return(q1, q.sent[0]);
    forall x: nat | x < Conn(q) ensures Places(q', held, x) == Places(q, held, x) {
      OccFirst(q.sent, x);
      ReturnPlaces(q1, q.sent[0], held, x);
    }
    Rearranged(q, held, q', held);
  }

  // ---------------------------------------------------------------- one routine at a time

  lemma DropQueuedAckKeeps(s: State)
    requires PoolInv(s)
    ensures Kept(s, DropQueuedAck(s)) && DropQueuedAck(s).h.held == s.h.held
  {
    if DropQueuedAck(s) != s {
      assert s.q.outgoing[1..] == [];
      RetireOutgoing(s.q, s.h.held, s.q.(outgoing := []));
    }
  }

  lemma AppendKeeps(s: State, id: nat)
    requires PoolInv(s) && (id == Conn(s.q) || id in s.h.held)
    ensures Kept(s, Append(s, id).0)
  {
    var b := s.q.bufs[id].(attempts := 0, pendingArp := false, ackOnly := false);
    SamePlaces(s.q, s.q.(bufs := s.q.bufs[id := b]), s.h.held);
    MoveToOutgoing(s.q, s.h.held, id, s.q.(bufs := s.q.bufs[id := b], outgoing := s.q.outgoing + [id],
                                           pendingOutgoing := Wrap16(s.q.pendingOutgoing + 1)));
  }

  lemma EnqueueKeeps(s: State, id: nat)
    requires PoolInv(s) && (id == Conn(s.q) || id in s.h.held)
    ensures Kept(s, Enqueue(s, id).0)
  {
    DropQueuedAckKeeps(s);
    AppendKeeps(DropQueuedAck(s), id);
  }

  lemma EnqueueConnectKeeps(s: State)
    requires PoolInv(s)
    ensures Kept(s, EnqueueConnect(s))
  {
    var c := Conn(s.q);
    var q1 := s.q.(bufs := s.q.bufs[c := s.q.bufs[c].(data := [])]);
    SamePlaces(s.q, q1, s.h.held);
    EnqueueKeeps(s.(q := q1), c);
  }

  /** Sending touches neither the queues nor who holds what. */
  lemma SendPacketFrame(s: State, b: Buffer, forceAck: bool, forceProbe: bool, arp: bool)
    ensures var f := SendPacket(s, b, forceAck, forceProbe, arp);
            f.s.q == s.q && f.s.h.held == s.h.held && f.s.h.replaced == s.h.replaced
  {
  }

  lemma AfterSendKeeps(s: State, id: nat, b: Buffer)
    requires PoolInv(s) && s.q.outgoing != [] && id == s.q.outgoing[0] && |s.q.sent| < RING
    ensures Kept(s, AfterSend(s, id, b))
  {
    var q1 := s.q.(bufs := s.q.bufs[id := b.(attempts := b.attempts + 1)],
                   outgoing := s.q.outgoing[1..], pendingOutgoing := Wrap16(s.q.pendingOutgoing - 1));
    RetireOutgoing(s.q, s.h.held, q1);
    MoveToSent(s.q, s.h.held, q1.(sent := q1.sent + [id], pendingSent := Wrap16(q1.pendingSent + 1)));
  }

  lemma {:induction false} DriveLoopKeeps(s: State, probeDue: bool, arp: bool)
    requires PoolInv(s)
    ensures Kept(s, DriveLoop(s, probeDue, arp))
    decreases |s.q.outgoing|
  {
    hide Places, Wrap16;
    if s.q.outgoing != [] && |s.q.sent| < RING {
      var id := s.q.outgoing[0];
      if |s.q.bufs[id].data| <= s.t.remoteWindow {
        var f := SendPacket(s, s.q.bufs[id], false, false, arp);
        SendPacketFrame(s, s.q.bufs[id], false, false, arp);
        if f.pending {
          SamePlaces(s.q, s.q.(bufs := s.q.bufs[id := f.b]), s.h.held);
        } else {
          AfterSendKeeps(f.s, id, f.b);
          DriveLoopKeeps(AfterSend(f.s, id, f.b), probeDue, arp);
        }
      }
    }
  }

  lemma PopSentKeeps(s: State)
    requires PoolInv(s) && s.q.sent != []
    ensures Kept(s, PopSent(s))
  {
    RetireSent(s.q, s.h.held, s.q.(sent := s.q.sent[1..], pendingSent := Wrap16(s.q.pendingSent - 1)));
  }

  lemma {:induction false} RemoveSentKeeps(s: State, target: U32)
    requires PoolInv(s)
    ensures Kept(s, RemoveSent(s, target))
    decreases |s.q.sent|
  {
    if s.q.sent != [] && Removable(s.q.bufs[s.q.sent[0]].last, target, s.t.oldest) {
      PopSentKeeps(s);
      RemoveSentKeeps(PopSent(s), target);
    }
  }

  lemma ClearQueuesKeeps(s: State)
    requires PoolInv(s)
    ensures Kept(s, ClearQueues(s)) && ClearQueues(s).q.outgoing == [] && ClearQueues(s).q.sent == []
    ensures ClearQueues(s).h.held == s.h.held
  {
    hide ReturnAll;
    var q0 := s.q.(outgoing := [], pendingOutgoing := Wrap16(s.q.pendingOutgoing - |s.q.outgoing|));
    var q1 := ReturnAll(q0, s.q.outgoing);
    ReturnAllKeeps(q0, s.q.outgoing);
    var q2 := q1.(sent := [], pendingSent := Wrap16(s.q.pendingSent - |s.q.sent|));
    var q3 := ReturnAll(q2, s.q.sent);
    ReturnAllKeeps(q2, s.q.sent);
    assert ClearQueues(s).q == q3;
    forall x: nat | x < Conn(q3) ensures Places(q3, s.h.held, x) == 1 {
      assert Places(s.q, s.h.held, x) == 1;
      ReturnAllPlaces(q0, s.q.outgoing, s.h.held, x);
      ReturnAllPlaces(q2, s.q.sent, s.h.held, x);
    }
  }

  /** The queues, the counters and the holders are all that matters. */
  lemma SamePool(s: State, s': State)
    requires PoolInv(s) && s'.q == s.q && s'.h.held == s.h.held && s'.h.replaced == s.h.replaced
    ensures Kept(s, s')
  {
  }

  lemma CreditKeeps(s: State, seg: Segment)
    requires PoolInv(s)
    ensures Kept(s, Credit(s, seg))
  {
    hide Places, Wrap16;
    var s1 := Noted(s, seg);
    SamePool(s, s1);
    RemoveSentKeeps(s1, seg.ack);
    var s2 := if s1.q.sent != [] then RemoveSent(s1, seg.ack) else s1;
    SamePool(s2, Credit(s, seg));
  }

  lemma AdvanceKeeps(s: State, seg: Segment, current: bool, arp: bool)
    requires PoolInv(s)
    ensures Kept(s, Advance(s, seg, current, arp))
  {
    if s.t.phase == SynRecved && !current {
      ClearQueuesKeeps(s);
      SamePool(ClearQueues(s), Advance(s, seg, current, arp));
    } else {
      SamePool(s, Advance(s, seg, current, arp));
    }
  }

  lemma AcceptKeeps(s: State, p: Packet, arp: bool)
    requires PoolInv(s)
    ensures Kept(s, Accept(s, p, arp))
  {
    hide Places, Wrap16, Wrap32;
    var s1 := Credit(s, p.seg);
    CreditKeeps(s, p.seg);
    var k := if p.seg.data == [] then Taken(s1, true, false) else TakeData(s1, p);
    SamePool(s1, k.s);
    if !k.playDead {
      var s2 := Advance(k.s, p.seg, p.seg.ack == s.t.seqNum, arp);
      AdvanceKeeps(k.s, p.seg, p.seg.ack == s.t.seqNum, arp);
      EnqueueConnectKeeps(s2);
    }
  }

  lemma DestroyKeeps(s: State)
    requires PoolInv(s)
    ensures Kept(s, Destroy(s))
  {
    ClearQueuesKeeps(s);
    SamePool(ClearQueues(s), Destroy(s));
  }

  lemma OpenCompleteKeeps(s: State, seg: Segment)
    requires PoolInv(s)
    ensures Kept(s, OpenComplete(s, seg))
  {
    RemoveSentKeeps(s, seg.ack);
    SamePool(RemoveSent(s, seg.ack), OpenComplete(s, seg));
  }

  lemma SimultaneousOpenKeeps(s: State, seg: Segment)
    requires PoolInv(s)
    ensures Kept(s, SimultaneousOpen(s, seg))
  {
    hide Places, Wrap16, Wrap32, EnqueueConnect;
    var t1 := s.t.(phase := SynRecved, ackNum := Wrap32(seg.num + 1),
                   maxEnqueue := MaxEnqueueFor(s.t, seg), seqNum := Wrap32(s.t.seqNum - 1));
    var s1 := s.(t := t1, h := s.h.(iss := t1.seqNum, synSent := false));
    SamePool(s, s1);
    ClearQueuesKeeps(s1);
    EnqueueConnectKeeps(ClearQueues(s1));
  }

  lemma ReceiveSynSentKeeps(s: State, p: Packet, arp: bool)
    requires PoolInv(s)
    ensures Kept(s, ReceiveSynSent(s, p, arp))
  {
    var seg := p.seg;
    var s' := ReceiveSynSent(s, p, arp);
    var current := seg.bits.ack && seg.ack == s.t.seqNum;
    if seg.bits.rst && current {
      DestroyKeeps(s);
      SamePool(Destroy(s), s');
    } else if !seg.bits.rst && seg.bits.syn && !seg.bits.ack {
      SimultaneousOpenKeeps(s, seg);
      SamePool(SimultaneousOpen(s, seg), s');
    } else if !seg.bits.rst && seg.bits.syn && current {
      OpenCompleteKeeps(s, seg);
      EnqueueConnectKeeps(OpenComplete(s, seg));
      SamePool(EnqueueConnect(OpenComplete(s, seg)), s');
    } else {
      SamePool(s, s');
    }
  }

  lemma ReceiveSynchronizedKeeps(s: State, p: Packet, arp: bool)
    requires PoolInv(s)
    ensures Kept(s, ReceiveSynchronized(s, p, arp))
  {
    hide Places, Wrap16;
    if p.seg.bits.rst {
      DestroyKeeps(s);
    } else {
      AcceptKeeps(s, p, arp);
      SendPacketFrame(s, Blank(), true, false, arp);
    }
  }

  lemma ReceiveKeeps(s: State, p: Packet, arp: bool)
    requires PoolInv(s)
    ensures Kept(s, Receive(s, p, arp))
  {
    if s.t.phase == Closed || s.t.phase == TimeWait {
    } else if s.t.phase == SynSent {
      ReceiveSynSentKeeps(s, p, arp);
    } else {
      ReceiveSynchronizedKeeps(s, p, arp);
    }
  }

  lemma GetBufferKeeps(s: State)
    requires PoolInv(s)
    ensures Kept(s, GetBuffer(s).0)
    ensures GetBuffer(s).1.Some? ==> GetBuffer(s).1.value in GetBuffer(s).0.h.held
  {
    if s.q.free != [] {
      var n := |s.q.free| - 1;
      MoveToHeld(s.q, s.h.held, s.q.free[n], s.q.(free := s.q.free[..n]));
    }
  }

  /** One turn of send()'s loop: a free buffer, filled, goes on `outgoing`. */
  lemma SendTurnKeeps(s: State, rest: seq<Byte>)
    requires PoolInv(s) && SendGoes(s, rest)
    ensures Kept(s, SendTurn(s, rest).0)
  {
    hide Places, Wrap16;
    var n := Min(SendSize(s.t), |rest|);
    GetBufferKeeps(s);
    var (s1, got) := GetBuffer(s);
    var id := got.value;
    var s2 := s1.(q := s1.q.(bufs := s1.q.bufs[id := s1.q.bufs[id].(data := rest[..n])]));
    SamePlaces(s1.q, s2.q, s2.h.held);
    EnqueueKeeps(s2, id);
  }

  lemma {:induction false} SendLoopKeeps(s: State, rest: seq<Byte>)
    requires PoolInv(s)
    ensures Kept(s, SendLoop(s, rest).0)
    decreases |rest|, |s.q.free|
  {
    hide PoolInv, SendTurn, Spins;
    PoolNamed(s);
    if SendGoes(s, rest) && s.t.phase == Established && !Spins(s, rest) {
      SendTurnShrinks(s, rest);
      SendTurnKeeps(s, rest);
      SendLoopKeeps(SendTurn(s, rest).0, SendTurn(s, rest).1);
    }
  }

  lemma PoolNamed(s: State)
    requires PoolInv(s)
    ensures Named(s.q)
  {
  }

  lemma UserEnqueueKeeps(s: State, id: nat, data: seq<Byte>, arp: bool)
    requires PoolInv(s)
    ensures Kept(s, Step(s, UserEnqueue(id, data), arp))
  {
    hide Places, Wrap16;
    if id in s.h.held {
      var s1 := s.(q := s.q.(bufs := s.q.bufs[id := s.q.bufs[id].(data := data)]));
      SamePlaces(s.q, s1.q, s1.h.held);
      EnqueueKeeps(s1, id);
    }
  }

  lemma UserReturnKeeps(s: State, id: nat, arp: bool)
    requires PoolInv(s)
    ensures Kept(s, Step(s, UserReturn(id), arp))
  {
    hide Places, Wrap16;
    if id in s.h.held {
      MoveToFree(s.q, s.h.held, id, s.q.(free := s.q.free + [id]));
    }
  }

  lemma CloseKeeps(s: State)
    requires PoolInv(s)
    ensures Kept(s, CloseLocal(s))
  {
    forall p: Phase ensures Kept(s, CloseWithFin(s, p)) {
      var s1 := s.(t := s.t.(phase := p));
      SamePool(s, s1);
      EnqueueConnectKeeps(s1);
    }
  }

  lemma DriveKeeps(s: State, overdue: bool, probeDue: bool, arp: bool)
    requires PoolInv(s)
    ensures Kept(s, Drive(s, overdue, probeDue, arp))
  {
    if s.q.sent != [] && overdue {
      var id := s.q.sent[0];
      var b := s.q.bufs[id];
      if b.attempts > RETRANS_COUNT {
        DestroyKeeps(s);
        SamePool(Destroy(s), Drive(s, overdue, probeDue, arp));
      } else {
        SamePlaces(s.q, s.q.(bufs := s.q.bufs[id := b.(attempts := b.attempts + 1)]), s.h.held);
      }
    } else {
      DriveLoopKeeps(s, probeDue, arp);
    }
  }

  // ---------------------------------------------------------------- runs

  /** Every step of every kind conserves the pool and keeps the counters right. */
  lemma StepKeeps(s: State, e: Event, arp: bool)
    requires PoolInv(s)
    ensures Kept(s, Step(s, e, arp))
  {
    hide Places, Wrap16, Wrap32;
    match e
    case UserSend(data) => SendLoopKeeps(s, data);
    case UserGet => GetBufferKeeps(s);
    case UserEnqueue(id, data) => UserEnqueueKeeps(s, id, data, arp);
    case UserReturn(id) => UserReturnKeeps(s, id, arp);
    case UserRecv(n) => SamePool(s, Step(s, e, arp));
    case UserTake => SamePool(s, Step(s, e, arp));
    case UserClose => CloseKeeps(s);
    case UserShutRd => SamePool(s, Step(s, e, arp));
    case UserDestroy => DestroyKeeps(s);
    case Arrive(p) => ReceiveKeeps(s, p, arp);
    case Tick(overdue, probeDue) => DriveKeeps(s, overdue, probeDue, arp);
  }

  /** The state after a sequence of steps; each carries what ARP would answer during it. */
  ghost function Run(s: State, es: seq<(Event, bool)>): (r: State)
    requires PoolInv(s)
    ensures Kept(s, r)
    decreases |es|
  {
    if es == [] then s
    else
      var m := Run(s, es[..|es| - 1]);
      var (e, arp) := es[|es| - 1];
      StepKeeps(m, e, arp);
      Step(m, e, arp)
  }

  lemma FreshKeeps(iss: U32, pool: nat, mss: U16, rcvSize: U16)
    ensures PoolInv(Connect(Fresh(iss, pool, mss, rcvSize)))
    ensures Conn(Connect(Fresh(iss, pool, mss, rcvSize)).q) == pool
  {
    var s := Fresh(iss, pool, mss, rcvSize);
    forall x: nat | x < pool ensures Places(s.q, {}, x) == 1 {
      IdentityOcc(pool, x);
    }
    var s1 := s.(t := s.t.(phase := SynSent));
    SamePool(s, s1);
    EnqueueConnectKeeps(s1);
  }

  lemma {:induction false} IdentityOcc(n: nat, x: nat)
    ensures Occ(seq(n, i => i), x) == if x < n then 1 else 0
  {
    if n > 0 {
      var xs := seq(n, i => i);
      assert xs[..n - 1] == seq(n - 1, i => i);
      IdentityOcc(n - 1, x);
    }
  }

  /**
   * Whatever the user, the peer, the clock and ARP do: every pool buffer stays in exactly one of
   * the free stack, the outgoing queue, the sent queue and the user's hands.
   */
  lemma PoolOnEveryRun(iss: U32, pool: nat, mss: U16, rcvSize: U16, es: seq<(Event, bool)>)
    ensures PoolInv(Connect(Fresh(iss, pool, mss, rcvSize)))
    ensures var s := Run(Connect(Fresh(iss, pool, mss, rcvSize)), es);
            && Conn(s.q) == pool
            && s.q.pendingSent == |s.q.sent|
            && forall x: nat :: x < pool ==> Places(s.q, s.h.held, x) == 1
  {
    FreshKeeps(iss, pool, mss, rcvSize);
  }

  /** drivePackets: is drivePackets2 not even called? */
  predicate GateSkips(q: Queues) { q.pendingSent == 0 && q.pendingOutgoing == 0 }

  /**
   * Exactly when the gate is closed.  Every ack replaced by enqueue leaves Pending_Outgoing one
   * too high, so with fewer than 2^16 of them queued work is never skipped, and the gate may stay
   * open with nothing to do; when the drift reaches a multiple of 2^16 queued work is skipped.
   */
  lemma GateIsSafe(s: State)
    requires PoolInv(s)
    ensures GateSkips(s.q) <==> s.q.sent == [] && (|s.q.outgoing| + s.h.replaced) % TWO16 == 0
    ensures s.h.replaced + |s.q.outgoing| < TWO16 && GateSkips(s.q) ==> s.q.sent == [] && s.q.outgoing == []
  {
  }
}
