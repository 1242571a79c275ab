/** Packets in the TCP engine: each is freed once or handed to the user once, whatever the step. */
module TcpPackets {
  import opened Machine
  import opened Counting
  import T = TcpModel
  import TP = TcpPool
  import TR = TcpReceive
  import TcpRuns

  // ---------------------------------------------------------------- TCP accounts for every packet

  /** The parts of the TCP state that hold packets are untouched. */
  predicate SamePackets(s: T.State, s': T.State) {
    s'.r == s.r && s'.h.freed == s.h.freed
  }

  lemma EnqueuePackets(s: T.State, id: nat)
    requires T.Named(s.q) && id < |s.q.bufs|
    ensures SamePackets(s, T.Enqueue(s, id).0)
  {
    hide Wrap16;
  }

  lemma {:induction false} SendLoopPackets(s: T.State, rest: seq<Byte>)
    requires TP.PoolInv(s)
    ensures SamePackets(s, T.SendLoop(s, rest).0)
    decreases |rest|, |s.q.free|
  {
    hide TP.PoolInv, T.Enqueue, T.Spins, Wrap16;
    NamedPool(s);
    if T.SendGoes(s, rest) && s.t.phase == T.Established && !T.Spins(s, rest) {
      var n := Min(T.SendSize(s.t), |rest|);
      var (s1, got) := T.GetBuffer(s);
      var id := got.value;
      EnqueuePackets(s1.(q := s1.q.(bufs := s1.q.bufs[id := s1.q.bufs[id].(data := rest[..n])])), id);
      T.SendTurnShrinks(s, rest);
      TP.SendTurnKeeps(s, rest);
      SendLoopPackets(T.SendTurn(s, rest).0, T.SendTurn(s, rest).1);
    }
  }

  lemma NamedPool(s: T.State)
    requires TP.PoolInv(s)
    ensures T.Named(s.q)
  {
  }

  lemma RefillPool(s: T.State, s': T.State)
    requires TP.PoolInv(s) && |s'.q.bufs| == |s.q.bufs| && s'.q == s.q.(bufs := s'.q.bufs) && s'.h == s.h
    ensures TP.PoolInv(s')
  {
    hide TP.Conserved;
    TP.SamePlaces(s.q, s'.q, s.h.held);
  }

  lemma SendPacketPackets(s: T.State, b: T.Buffer, forceAck: bool, forceProbe: bool, arp: bool)
    ensures SamePackets(s, T.SendPacket(s, b, forceAck, forceProbe, arp).s)
  {
    hide Wrap32, Wrap16;
  }

  lemma {:induction false} DriveLoopPackets(s: T.State, probeDue: bool, arp: bool)
    requires T.Named(s.q)
    ensures SamePackets(s, T.DriveLoop(s, probeDue, arp))
    decreases |s.q.outgoing|
  {
    hide Wrap16, Wrap32, T.SendPacket;
    if s.q.outgoing != [] && |s.q.sent| < T.RING {
      var id := s.q.outgoing[0];
      SendPacketPackets(s, T.Blank(), true, true, arp);
      SendPacketPackets(s, s.q.bufs[id], false, false, arp);
      TP.SendPacketFrame(s, s.q.bufs[id], false, false, arp);
      var f := T.SendPacket(s, s.q.bufs[id], false, false, arp);
      if |s.q.bufs[id].data| <= s.t.remoteWindow && !f.pending {
        DriveLoopPackets(T.AfterSend(f.s, id, f.b), probeDue, arp);
      }
    }
  }

  /** What a step brings in. */
  ghost function Brought(e: T.Event): multiset<T.Packet> { if e.Arrive? then multiset{e.p} else multiset{} }

  /** In every step of every kind, packets freed plus packets queued grow by the arriving packet alone. */
  lemma StepAccounts(s: T.State, e: T.Event, arp: bool)
    requires TP.PoolInv(s)
    ensures TR.Accounted(T.Step(s, e, arp)) == TR.Accounted(s) + Brought(e)
  {
    hide TR.Accounted, TP.PoolInv, T.SendLoop, T.DriveLoop, T.Destroy, T.EnqueueConnect, T.Enqueue, T.Receive,
         T.SendPacket, Wrap16, Wrap32;
    NamedPool(s);
    var s' := T.Step(s, e, arp);
    match e
    case UserSend(data) => SendLoopPackets(s, data); TR.SameAccounted(s, s');
    case UserGet => TR.SameAccounted(s, s');
    case UserEnqueue(id, data) =>
      if id in s.h.held && id < |s.q.bufs| {
        EnqueuePackets(s.(q := s.q.(bufs := s.q.bufs[id := s.q.bufs[id].(data := data)])), id);
      }
      TR.SameAccounted(s, s');
    case UserReturn(id) => TR.SameAccounted(s, s');
    case UserRecv(n) =>
      forall b | true ensures SamePackets(b, T.SendPacket(b, T.Blank(), true, false, arp).s) {
        SendPacketPackets(b, T.Blank(), true, false, arp);
      }
      TR.SameAccounted(s, s');
    case UserTake => TakeAccounts(s);
    case UserClose =>
      ClosePackets(s);
      TR.SameAccounted(s, s');
    case UserShutRd => TR.SameAccounted(s, s');
    case UserDestroy => TR.DestroyAccounts(s);
    case Arrive(p) => TR.PacketDisposedOnce(s, p, arp);
    case Tick(overdue, probeDue) => TickAccounts(s, overdue, probeDue, arp);
  }

  lemma TakeAccounts(s: T.State)
    ensures TR.Accounted(T.TakePacket(s)) == TR.Accounted(s)
  {
    if s.r.incoming != [] {
      assert s.r.incoming == [s.r.incoming[0]] + s.r.incoming[1..];
    }
  }

  lemma ClosePackets(s: T.State)
    requires T.Named(s.q)
    ensures SamePackets(s, T.CloseLocal(s))
  {
    hide T.CloseWithFin;
    CloseWithFinPackets(s, T.SendFin1);
    CloseWithFinPackets(s, T.SendFin2);
    CloseWithFinPackets(s, T.SendFin3);
  }

  lemma CloseWithFinPackets(s: T.State, p: T.Phase)
    requires T.Named(s.q)
    ensures SamePackets(s, T.CloseWithFin(s, p))
  {
    hide T.EnqueueConnect;
    ConnectPackets(s.(t := s.t.(phase := p)));
  }

  lemma ConnectPackets(s: T.State)
    requires T.Named(s.q)
    ensures SamePackets(s, T.EnqueueConnect(s))
  {
    hide T.Enqueue;
    var c := T.Conn(s.q);
    EnqueuePackets(s.(q := s.q.(bufs := s.q.bufs[c := s.q.bufs[c].(data := [])])), c);
  }

  lemma TickAccounts(s: T.State, overdue: bool, probeDue: bool, arp: bool)
    requires T.Named(s.q)
    ensures TR.Accounted(T.Drive(s, overdue, probeDue, arp)) == TR.Accounted(s)
  {
    hide TR.Accounted, T.DriveLoop, T.Destroy;
    var s' := T.Drive(s, overdue, probeDue, arp);
    if s.q.sent != [] && overdue {
      if s.q.bufs[s.q.sent[0]].attempts > T.RETRANS_COUNT {
        TR.DestroyAccounts(s);
        TR.SameAccounted(T.Destroy(s), s');
      } else {
        TR.SameAccounted(s, s');
      }
    } else {
      DriveLoopPackets(s, probeDue, arp);
      TR.SameAccounted(s, s');
    }
  }

  // ---------------------------------------------------------------- a freed packet stays freed

  ghost predicate Grows(s: T.State, s': T.State) {
    exists more :: s'.h.freed == s.h.freed + more
  }

  lemma GrowsBy(s: T.State, s': T.State, more: seq<T.Packet>)
    requires s'.h.freed == s.h.freed + more
    ensures Grows(s, s')
  {
  }

  lemma GrowsSame(s: T.State, s': T.State)
    requires s'.h.freed == s.h.freed
    ensures Grows(s, s')
  {
    assert s'.h.freed == s.h.freed + [];
  }

  lemma GrowsThen(s: T.State, s1: T.State, s2: T.State)
    requires Grows(s, s1) && Grows(s1, s2)
    ensures Grows(s, s2)
  {
    var a :| s1.h.freed == s.h.freed + a;
    var b :| s2.h.freed == s1.h.freed + b;
    assert s2.h.freed == s.h.freed + (a + b);
  }

  lemma ClearGrows(s: T.State)
    requires T.Named(s.q)
    ensures Grows(s, T.ClearQueues(s)) && Grows(s, T.Destroy(s))
  {
    hide Wrap16;
    GrowsBy(s, T.ClearQueues(s), s.r.incoming);
    GrowsBy(s, T.Destroy(s), s.r.incoming);
  }

  lemma AcceptGrows(s: T.State, p: T.Packet, arp: bool)
    requires T.Named(s.q)
    ensures Grows(s, T.Accept(s, p, arp))
  {
    hide Grows, T.EnqueueConnect, T.Credit, T.Advance, Wrap16, Wrap32;
    var s1 := T.Credit(s, p.seg);
    TcpRuns.CreditFrame(s, p.seg);
    var k := if p.seg.data == [] then T.Taken(s1, true, false) else T.TakeData(s1, p);
    GrowsSame(s, k.s);
    var s2 := T.Advance(k.s, p.seg, p.seg.ack == s.t.seqNum, arp);
    AdvanceGrows(k.s, p.seg, p.seg.ack == s.t.seqNum, arp);
    GrowsThen(s, k.s, s2);
    ConnectPackets(s2);
    GrowsSame(s2, T.EnqueueConnect(s2));
    GrowsThen(s, s2, T.EnqueueConnect(s2));
    forall b: T.State | Grows(s, b) ensures Grows(s, T.Freed(b, p)) {
      GrowsBy(b, T.Freed(b, p), [p]);
      GrowsThen(s, b, T.Freed(b, p));
    }
  }

  lemma AdvanceGrows(s: T.State, seg: T.Segment, current: bool, arp: bool)
    requires T.Named(s.q)
    ensures Grows(s, T.Advance(s, seg, current, arp))
  {
    hide Grows, T.ClearQueues, Wrap16, Wrap32;
    if s.t.phase == T.SynRecved && !current {
      ClearGrows(s);
      GrowsSame(T.ClearQueues(s), T.Advance(s, seg, current, arp));
      GrowsThen(s, T.ClearQueues(s), T.Advance(s, seg, current, arp));
    } else {
      GrowsSame(s, T.Advance(s, seg, current, arp));
    }
  }

  lemma FreedGrows(s: T.State, s': T.State, p: T.Packet)
    requires Grows(s, s')
    ensures Grows(s, T.Freed(s', p))
  {
    GrowsBy(s', T.Freed(s', p), [p]);
    GrowsThen(s, s', T.Freed(s', p));
  }

  lemma DestroyedGrows(s: T.State, reason: nat)
    requires T.Named(s.q)
    ensures var s1 := T.Destroy(s); Grows(s, s1.(t := s1.t.(closeReason := reason)))
  {
    hide T.Destroy, Grows;
    var s1 := T.Destroy(s);
    ClearGrows(s);
    GrowsSame(s1, s1.(t := s1.t.(closeReason := reason)));
    GrowsThen(s, s1, s1.(t := s1.t.(closeReason := reason)));
  }

  lemma SimultaneousGrows(s: T.State, seg: T.Segment)
    requires T.Named(s.q)
    ensures Grows(s, T.SimultaneousOpen(s, seg))
  {
    hide T.ClearQueues, T.EnqueueConnect, Grows, Wrap32;
    var t1 := s.t.(phase := T.SynRecved, ackNum := Wrap32(seg.num + 1),
                   maxEnqueue := T.MaxEnqueueFor(s.t, seg), seqNum := Wrap32(s.t.seqNum - 1));
    var s1 := s.(t := t1, h := s.h.(iss := t1.seqNum, synSent := false));
    GrowsSame(s, s1);
    ClearGrows(s1);
    GrowsThen(s, s1, T.ClearQueues(s1));
    ConnectPackets(T.ClearQueues(s1));
    GrowsSame(T.ClearQueues(s1), T.SimultaneousOpen(s, seg));
    GrowsThen(s, T.ClearQueues(s1), T.SimultaneousOpen(s, seg));
  }

  lemma SynSentGrows(s: T.State, p: T.Packet, arp: bool)
    requires T.Named(s.q)
    ensures Grows(s, T.ReceiveSynSent(s, p, arp))
  {
    hide Grows, T.EnqueueConnect, T.RemoveSent, T.SimultaneousOpen, T.Destroy, T.Freed, Wrap32, Wrap16;
    var seg := p.seg;
    GrowsSame(s, s);
    FreedGrows(s, s, p);
    GrowsSame(s, T.Reset(s, seg, arp));
    FreedGrows(s, T.Reset(s, seg, arp), p);
    DestroyedGrows(s, 1);
    var s1 := T.Destroy(s);
    FreedGrows(s, s1.(t := s1.t.(closeReason := 1)), p);
    SimultaneousGrows(s, seg);
    FreedGrows(s, T.SimultaneousOpen(s, seg), p);
    TcpRuns.RemoveSentFrame(s, seg.ack);
    ConnectPackets(T.OpenComplete(s, seg));
    GrowsSame(s, T.EnqueueConnect(T.OpenComplete(s, seg)));
    FreedGrows(s, T.EnqueueConnect(T.OpenComplete(s, seg)), p);
  }

  lemma ReceiveGrows(s: T.State, p: T.Packet, arp: bool)
    requires T.Named(s.q)
    ensures Grows(s, T.Receive(s, p, arp))
  {
    hide Grows, T.Accept, T.ReceiveSynSent, T.SendPacket, T.Destroy, T.Freed, Wrap32, Wrap16;
    GrowsSame(s, s);
    FreedGrows(s, s, p);
    GrowsSame(s, T.Reset(s, p.seg, arp));
    FreedGrows(s, T.Reset(s, p.seg, arp), p);
    SynSentGrows(s, p, arp);
    AcceptGrows(s, p, arp);
    DestroyedGrows(s, 1);
    var s1 := T.Destroy(s);
    FreedGrows(s, s1.(t := s1.t.(closeReason := 1)), p);
    SendPacketPackets(s, T.Blank(), true, false, arp);
    GrowsSame(s, T.SeqError(T.PureAck(s, false, arp)));
    FreedGrows(s, T.SeqError(T.PureAck(s, false, arp)), p);
  }

  lemma StepGrows(s: T.State, e: T.Event, arp: bool)
    requires TP.PoolInv(s)
    ensures Grows(s, T.Step(s, e, arp))
  {
    hide Grows, TP.PoolInv, T.SendLoop, T.DriveLoop, T.Destroy, T.CloseLocal, T.Enqueue, T.Receive,
         T.SendPacket, Wrap16, Wrap32;
    NamedPool(s);
    var s' := T.Step(s, e, arp);
    match e
    case UserSend(data) => SendLoopPackets(s, data); GrowsSame(s, s');
    case UserGet => GrowsSame(s, s');
    case UserEnqueue(id, data) =>
      if id in s.h.held && id < |s.q.bufs| {
        EnqueuePackets(s.(q := s.q.(bufs := s.q.bufs[id := s.q.bufs[id].(data := data)])), id);
      }
      GrowsSame(s, s');
    case UserReturn(id) => GrowsSame(s, s');
    case UserRecv(n) =>
      forall b | true ensures SamePackets(b, T.SendPacket(b, T.Blank(), true, false, arp).s) {
        SendPacketPackets(b, T.Blank(), true, false, arp);
      }
      GrowsSame(s, s');
    case UserTake =>
      if s.r.incoming == [] { GrowsSame(s, s'); } else { GrowsBy(s, s', [s.r.incoming[0]]); }
    case UserClose =>
      ClosePackets(s);
      GrowsSame(s, s');
    case UserShutRd => GrowsSame(s, s');
    case UserDestroy => ClearGrows(s);
    case Arrive(p) => ReceiveGrows(s, p, arp);
    case Tick(overdue, probeDue) =>
      DestroyedGrows(s, 4);
      DriveLoopPackets(s, probeDue, arp);
      if s.q.sent == [] || !overdue || s.q.bufs[s.q.sent[0]].attempts <= T.RETRANS_COUNT { GrowsSame(s, s'); }
  }

  // ---------------------------------------------------------------- counting packets by buffer

  function Ids(ps: seq<T.Packet>): (ids: seq<nat>)
    ensures |ids| == |ps|
  {
    if ps == [] then [] else Ids(ps[..|ps| - 1]) + [ps[|ps| - 1].id]
  }

  lemma {:induction false} IdsAt(ps: seq<T.Packet>, i: nat)
    requires i < |ps|
    ensures Ids(ps)[i] == ps[i].id
  {
    if i < |ps| - 1 { IdsAt(ps[..|ps| - 1], i); }
  }

  lemma {:induction false} IdsConcat(ps: seq<T.Packet>, qs: seq<T.Packet>)
    ensures Ids(ps + qs) == Ids(ps) + Ids(qs)
  {
    if qs == [] {
      assert ps + qs == ps;
    } else {
      var n := |qs| - 1;
      IdsConcat(ps, qs[..n]);
      assert (ps + qs)[..|ps| + n] == ps + qs[..n];
    }
  }

  lemma IdsOne(p: T.Packet, x: nat)
    ensures Ids([p]) == [p.id] && Occ(Ids([p]), x) == if p.id == x then 1 else 0
  {
    IdsAt([p], 0);
    OccOne(p.id, x);
  }

  lemma RemoveAt(qs: seq<T.Packet>, i: nat, x: nat)
    requires i < |qs|
    ensures multiset(qs) == multiset(qs[..i] + qs[i + 1..]) + multiset{qs[i]}
    ensures Occ(Ids(qs), x) == Occ(Ids(qs[..i] + qs[i + 1..]), x) + (if qs[i].id == x then 1 else 0)
  {
    hide Occ, Ids;
    var a, p, b := qs[..i], qs[i], qs[i + 1..];
    assert qs == a + [p] + b;
    IdsConcat(a, [p]);
    IdsConcat(a + [p], b);
    IdsConcat(a, b);
    OccConcat(Ids(a), Ids([p]), x);
    OccConcat(Ids(a) + Ids([p]), Ids(b), x);
    OccConcat(Ids(a), Ids(b), x);
    IdsOne(p, x);
  }

  lemma Cancel(a: multiset<T.Packet>, b: multiset<T.Packet>, p: T.Packet)
    requires a + multiset{p} == b + multiset{p}
    ensures a == b
  {
    assert a == (a + multiset{p}) - multiset{p};
    assert b == (b + multiset{p}) - multiset{p};
  }

  /** Equal bags of packets name each buffer equally often. */
  lemma {:induction false} SameBagSameCount(ps: seq<T.Packet>, qs: seq<T.Packet>, x: nat)
    requires multiset(ps) == multiset(qs)
    ensures Occ(Ids(ps), x) == Occ(Ids(qs), x)
    decreases |ps|
  {
    hide Occ, Ids;
    if ps == [] {
      assert |multiset(qs)| == 0;
      assert qs == [];
    } else {
      assert ps[0] in multiset(qs);
      var i :| 0 <= i < |qs| && qs[i] == ps[0];
      RemoveAt(ps, 0, x);
      RemoveAt(qs, i, x);
      Cancel(multiset(ps[..0] + ps[1..]), multiset(qs[..i] + qs[i + 1..]), ps[0]);
      SameBagSameCount(ps[..0] + ps[1..], qs[..i] + qs[i + 1..], x);
    }
  }

  /** How often TCP has a buffer: waiting for the user, or freed. */
  ghost function InTcp(s: T.State, x: nat): nat { Occ(Ids(s.r.incoming), x) + Occ(Ids(s.h.freed), x) }

  lemma StepInTcp(s: T.State, e: T.Event, arp: bool, x: nat)
    requires TP.PoolInv(s)
    ensures InTcp(T.Step(s, e, arp), x) == InTcp(s, x) + (if e.Arrive? && e.p.id == x then 1 else 0)
  {
    hide T.Step, TP.PoolInv, Occ, Ids;
    NamedPool(s);
    var s' := T.Step(s, e, arp);
    StepAccounts(s, e, arp);
    var before := s.h.freed + s.r.incoming;
    var after := s'.h.freed + s'.r.incoming;
    IdsConcat(s.h.freed, s.r.incoming);
    OccConcat(Ids(s.h.freed), Ids(s.r.incoming), x);
    IdsConcat(s'.h.freed, s'.r.incoming);
    OccConcat(Ids(s'.h.freed), Ids(s'.r.incoming), x);
    if e.Arrive? {
      SameBagSameCount(after, before + [e.p], x);
      IdsConcat(before, [e.p]);
      IdsOne(e.p, x);
      OccConcat(Ids(before), Ids([e.p]), x);
    } else {
      SameBagSameCount(after, before, x);
    }
  }

  // ---------------------------------------------------------------- room for what arrives

  /** The receive ring holds no more than its size. */
  predicate RoomOk(s: T.State, n: U16) { |s.r.data| <= s.r.size == n }

  lemma AcceptRoom(s: T.State, n: U16, p: T.Packet, arp: bool)
    requires T.Named(s.q) && RoomOk(s, n)
    ensures RoomOk(T.Accept(s, p, arp), n)
  {
    hide T.EnqueueConnect, T.Credit, T.Advance, T.TakeData, Wrap16, Wrap32;
    TcpRuns.CreditFrame(s, p.seg);
    var s1 := T.Credit(s, p.seg);
    TakenRoom(s1, n, p);
    var k := if p.seg.data == [] then T.Taken(s1, true, false) else T.TakeData(s1, p);
    AdvanceRoom(k.s, n, p.seg, p.seg.ack == s.t.seqNum, arp);
    ConnectPackets(T.Advance(k.s, p.seg, p.seg.ack == s.t.seqNum, arp));
  }

  lemma TakenRoom(s: T.State, n: U16, p: T.Packet)
    requires RoomOk(s, n)
    ensures RoomOk(T.TakeData(s, p).s, n)
  {
    hide Wrap32;
  }

  lemma AdvanceRoom(s: T.State, n: U16, seg: T.Segment, current: bool, arp: bool)
    requires T.Named(s.q) && RoomOk(s, n)
    ensures RoomOk(T.Advance(s, seg, current, arp), n)
  {
    hide T.ClearQueues, T.Reset, Wrap16, Wrap32;
    ClearedRoom(s);
    ResetRoom(T.ClearQueues(s), seg, arp);
  }

  lemma ClearedRoom(s: T.State)
    requires T.Named(s.q)
    ensures T.ClearQueues(s).r == s.r.(incoming := [])
  {
    hide Wrap16;
  }

  lemma ResetRoom(s: T.State, seg: T.Segment, arp: bool)
    ensures T.Reset(s, seg, arp).r == s.r
  {
  }

  lemma DestroyRoom(s: T.State)
    requires T.Named(s.q)
    ensures T.Destroy(s).r == s.r.(incoming := [], live := false)
  {
    hide T.ClearQueues;
    ClearedRoom(s);
  }

  lemma SynSentRoom(s: T.State, n: U16, p: T.Packet, arp: bool)
    requires T.Named(s.q) && RoomOk(s, n)
    ensures RoomOk(T.ReceiveSynSent(s, p, arp), n)
  {
    hide T.EnqueueConnect, T.RemoveSent, T.ClearQueues, T.Destroy, T.Reset, Wrap32, Wrap16;
    var seg := p.seg;
    DestroyRoom(s);
    ResetRoom(s, seg, arp);
    var t1 := s.t.(phase := T.SynRecved, ackNum := Wrap32(seg.num + 1),
                   maxEnqueue := T.MaxEnqueueFor(s.t, seg), seqNum := Wrap32(s.t.seqNum - 1));
    var s1 := s.(t := t1, h := s.h.(iss := t1.seqNum, synSent := false));
    ClearedRoom(s1);
    ConnectPackets(T.ClearQueues(s1));
    TcpRuns.RemoveSentFrame(s, seg.ack);
    ConnectPackets(T.OpenComplete(s, seg));
  }

  lemma ReceiveRoom(s: T.State, n: U16, p: T.Packet, arp: bool)
    requires T.Named(s.q) && RoomOk(s, n)
    ensures RoomOk(T.Receive(s, p, arp), n)
  {
    hide T.Accept, T.ReceiveSynSent, T.SendPacket, T.Destroy, T.Reset, Wrap32, Wrap16;
    ResetRoom(s, p.seg, arp);
    SynSentRoom(s, n, p, arp);
    AcceptRoom(s, n, p, arp);
    DestroyRoom(s);
    SendPacketPackets(s, T.Blank(), true, false, arp);
  }

  /** No step of any kind overfills the receive ring. */
  lemma StepRoom(s: T.State, n: U16, e: T.Event, arp: bool)
    requires TP.PoolInv(s) && RoomOk(s, n)
    ensures RoomOk(T.Step(s, e, arp), n)
  {
    hide TP.PoolInv, T.SendLoop, T.DriveLoop, T.Destroy, T.CloseLocal, T.Enqueue, T.Receive, T.SendPacket,
         Wrap16, Wrap32;
    NamedPool(s);
    match e
    case UserSend(data) => SendLoopPackets(s, data);
    case UserGet =>
    case UserEnqueue(id, data) =>
      if id in s.h.held && id < |s.q.bufs| {
        EnqueuePackets(s.(q := s.q.(bufs := s.q.bufs[id := s.q.bufs[id].(data := data)])), id);
      }
    case UserReturn(id) =>
    case UserRecv(k) =>
      forall b | true ensures SamePackets(b, T.SendPacket(b, T.Blank(), true, false, arp).s) {
        SendPacketPackets(b, T.Blank(), true, false, arp);
      }
    case UserTake =>
    case UserClose => ClosePackets(s);
    case UserShutRd =>
    case UserDestroy => DestroyRoom(s);
    case Arrive(p) => ReceiveRoom(s, n, p, arp);
    case Tick(overdue, probeDue) =>
      DestroyRoom(s);
      DriveLoopPackets(s, probeDue, arp);
  }

  lemma {:induction false} RunRoom(s: T.State, n: U16, es: seq<(T.Event, bool)>)
    requires TP.PoolInv(s) && RoomOk(s, n)
    ensures RoomOk(TP.Run(s, es), n)
    decreases |es|
  {
    hide T.Step, TP.PoolInv, RoomOk;
    if es != [] {
      RunRoom(s, n, es[..|es| - 1]);
      var (e, arp) := es[|es| - 1];
      TP.StepKeeps(TP.Run(s, es[..|es| - 1]), e, arp);
      StepRoom(TP.Run(s, es[..|es| - 1]), n, e, arp);
    }
  }

  /**
   * In every run of a socket with a receive buffer: the window it would advertise never exceeds the
   * free room, nor a segment that fits the advertised window is refused; and data is refused exactly
   * if it does not fit the free room.
   */
  lemma WindowIsRoom(iss: U32, pool: nat, mss: U16, rcvSize: U16, es: seq<(T.Event, bool)>, p: T.Packet)
    requires rcvSize != 0
    ensures TP.PoolInv(T.Connect(T.Fresh(iss, pool, mss, rcvSize)))
    ensures var s := TP.Run(T.Connect(T.Fresh(iss, pool, mss, rcvSize)), es);
            && s.r.size == rcvSize && |s.r.data| <= rcvSize
            && T.AdvertisedWindow(s.t, s.r) <= rcvSize - |s.r.data|
            && (!s.t.smallWindow ==> T.AdvertisedWindow(s.t, s.r) == rcvSize - |s.r.data|)
            && (s.r.live && !s.t.disableReads ==>
                    (T.TakeData(s, p).playDead <==> |p.seg.data| > rcvSize - |s.r.data|)
                    && (|p.seg.data| <= T.AdvertisedWindow(s.t, s.r) ==> !T.TakeData(s, p).playDead))
  {
    hide TP.PoolInv, TP.Run, T.EnqueueConnect;
    TP.FreshKeeps(iss, pool, mss, rcvSize);
    var f := T.Fresh(iss, pool, mss, rcvSize);
    ConnectPackets(f.(t := f.t.(phase := T.SynSent)));
    RunRoom(T.Connect(f), rcvSize, es);
  }
}
