/**
 * The send-side invariant of TcpStream.dfy through every step of an actively opened connection,
 * and what it says about whole runs.
 */
module TcpRuns {
  import opened Machine
  import opened TcpModel
  import opened TcpPool
  import opened TcpStream

  /** A requested FIN still has a packet to ride on; `oldest` is where the unremoved stream starts. */
  ghost predicate Tidy(s: State) {
    && (IsSendFin(s.t.phase) ==> s.q.outgoing != [])
    && (StreamPhase(s.t.phase) ==> s.t.oldest == Wrap32(Base(s.h) + s.h.una))
  }

  ghost predicate StreamInv(s: State) { Core(s) && Tidy(s) }

  // ---------------------------------------------------------------- drivePackets2

  lemma TransmittedPhase(s: State, s': State, w: Segment, onSent: bool)
    requires Core(s) && !s.h.aborted && s.q.outgoing != [] && Ordinary(s) && Transmitted(s, s', w, onSent)
    requires Named(s'.q)
    ensures PhaseOk(s')
  {
    hide Data, Wrap32, WireOk, SentAll, Places;
    if s.t.phase == Closed { OnlyAcksLeft(s, s', w, onSent); }
  }

  lemma HeadSentOrdinary(s: State, arp: bool)
    requires HeadReady(s, arp) && !Opening(s)
    ensures Core(HeadSent(s, arp))
  {
    hide Data, Wrap32;
    assert OutOk(s, 0);
    var s' := HeadSent(s, arp);
    HeadSentPool(s, arp);
    TransmittedHolds(s, arp);
    var w: Segment, onSent: bool :| Transmitted(s, s', w, onSent);
    HeadSentParts(s, s', w, onSent);
  }

  lemma HeadSentParts(s: State, s': State, w: Segment, onSent: bool)
    requires Core(s) && !s.h.aborted && s.q.outgoing != [] && Ordinary(s) && Transmitted(s, s', w, onSent)
    requires PoolInv(s')
    ensures Core(s')
  {
    hide Data, Wrap32;
    TransmittedPhase(s, s', w, onSent);
    TransmittedData(s, s', w, onSent);
    TransmittedAccounts(s, s', w, onSent);
    TransmittedWire(s, s', w, onSent);
    TransmittedOut(s, s', w, onSent);
    assert SentAll(s') by {
      forall i | 0 <= i < |s'.q.sent| ensures SentOk(s', i) {
        if i < |s.q.sent| { TransmittedOld(s, s', w, onSent, i); } else { TransmittedNew(s, s', w); }
      }
    }
  }

  /** What one transmission leaves alone. */
  lemma HeadSentFrame(s: State, arp: bool)
    requires Named(s.q) && s.q.outgoing != [] && s.t.phase != SynRecved && s.t.phase != SendFin3
    ensures var s' := HeadSent(s, arp);
            && s'.t.oldest == s.t.oldest && s'.h.una == s.h.una && s'.h.iss == s.h.iss
            && s'.h.aborted == s.h.aborted
            && (s.t.phase != SynSent ==> s'.h.synSent == s.h.synSent)
            && (s.t.macCached ==> s'.t.macCached) && (s'.t.phase == SynSent <==> s.t.phase == SynSent)
            && (StreamPhase(s'.t.phase) || IsSendFin(s'.t.phase) ==> s'.t.phase == s.t.phase)
            && (IsSendFin(s'.t.phase) && !s.q.bufs[s.q.outgoing[0]].pendingArp && (s.t.macCached || arp) ==>
                  s'.q.outgoing != [])
  {
    hide Wrap32, Wrap16;
  }

  lemma FirstOutOk(s: State)
    requires Core(s) && !s.h.aborted && s.q.outgoing != []
    ensures OutOk(s, 0)
  {
  }

  lemma HeadStepTidy(s: State, arp: bool)
    requires StreamInv(s) && HeadReady(s, arp)
    ensures Tidy(HeadSent(s, arp)) && ArpSettled(HeadSent(s, arp), arp)
  {
    hide SentAll, WireOk, PoolInv, HeadSent, Accounts, Data, Wrap32;
    FirstOutOk(s);
    HeadSentFrame(s, arp);
  }

  lemma HeadStep(s: State, arp: bool)
    requires StreamInv(s) && HeadReady(s, arp)
    ensures StreamInv(HeadSent(s, arp)) && ArpSettled(HeadSent(s, arp), arp)
  {
    hide PoolInv, PhaseOk, WireOk, Live, HeadSent, Tidy;
    HeadStepTidy(s, arp);
    if Opening(s) { HeadSentOpening(s, arp); } else { HeadSentOrdinary(s, arp); }
  }

  lemma {:induction false} DriveLoopStream(s: State, probeDue: bool, arp: bool)
    requires StreamInv(s) && ArpSettled(s, arp)
    ensures StreamInv(DriveLoop(s, probeDue, arp))
    decreases |s.q.outgoing|
  {
    hide PhaseOk, Live, WireOk, Places, Tidy, SendPacket, Wrap32, Wrap16;
    if s.q.outgoing != [] && |s.q.sent| < RING {
      if |s.q.bufs[s.q.outgoing[0]].data| > s.t.remoteWindow {
        PureAckStream(s, true, arp);
        PureAckTidy(s, true, arp);
      } else {
        HeadStep(s, arp);
        HeadShorter(s, arp);
        if !SendPacket(s, s.q.bufs[s.q.outgoing[0]], false, false, arp).pending {
          DriveLoopStream(HeadSent(s, arp), probeDue, arp);
        }
      }
    }
  }

  lemma PureAckTidy(s: State, probe: bool, arp: bool)
    requires StreamInv(s)
    ensures Tidy(PureAck(s, probe, arp))
  {
    hide PhaseOk, Live, WireOk, Places, Wrap32, Wrap16;
    PureAckStream(s, probe, arp);
  }

  lemma HeadShorter(s: State, arp: bool)
    requires Named(s.q) && s.q.outgoing != []
    ensures !SendPacket(s, s.q.bufs[s.q.outgoing[0]], false, false, arp).pending ==>
              |HeadSent(s, arp).q.outgoing| < |s.q.outgoing|
  {
  }

  // ---------------------------------------------------------------- acknowledgements

  lemma PopSentSent(s: State, i: nat)
    requires Named(s.q) && SentAll(s) && s.q.sent != [] && i < |s.q.sent| - 1
    requires s.q.sent[0] != Conn(s.q)
    ensures SentOk(PopSent(s), i)
  {
    hide Data, Wrap32;
    var s' := PopSent(s);
    assert SentOk(s, i + 1);
    var front := s.q.sent[..i + 1];
    DataFirst(s.q.bufs, front);
    assert front[1..] == s'.q.sent[..i];
  }

  lemma PopSentAccounts(s: State)
    requires Named(s.q) && Accounts(s) && s.q.sent != []
    ensures Accounts(PopSent(s)) && Sent(PopSent(s)) == Sent(s)
  {
    hide Data, Wrap32;
    DataFirst(s.q.bufs, s.q.sent);
    var b, rest := s.q.bufs[s.q.sent[0]].data, Data(s.q.bufs, s.q.sent[1..]);
    assert s.h.accepted[s.h.una..] == b + (rest + OutData(s.q)) by {
      assert (b + rest) + OutData(s.q) == b + (rest + OutData(s.q));
    }
    assert s.h.accepted[s.h.una + |b|..] == s.h.accepted[s.h.una..][|b|..];
  }

  lemma PopSentStream(s: State)
    requires Core(s) && s.q.sent != [] && s.t.phase != SynSent
    ensures Core(PopSent(s))
  {
    hide Data, Wrap32, Wrap16;
    var s' := PopSent(s);
    PopSentKeeps(s);
    PopSentAccounts(s);
    WireGrows(s.h, s'.h);
    assert SentAll(s') by {
      forall i | 0 <= i < |s'.q.sent| ensures SentOk(s', i) {
        assert SentOk(s, 0);
        PopSentSent(s, i);
      }
    }
    assert OutAll(s') by {
      forall i | 0 <= i < |s'.q.outgoing| ensures OutOk(s', i) { assert OutOk(s, i); }
    }
  }

  lemma {:induction false} RemoveSentFrame(s: State, target: U32)
    requires Named(s.q)
    ensures var s' := RemoveSent(s, target);
            && s'.t == s.t.(oldest := s'.t.oldest) && s'.r == s.r && s'.h == s.h.(una := s'.h.una)
            && s'.q.outgoing == s.q.outgoing && s'.q.bufs == s.q.bufs
    decreases |s.q.sent|
  {
    hide Wrap32, Wrap16;
    if s.q.sent != [] && Removable(s.q.bufs[s.q.sent[0]].last, target, s.t.oldest) {
      RemoveSentFrame(PopSent(s), target);
    }
  }

  /** The loop stops with `oldest` at the first unremoved byte. */
  lemma OldestFound(s: State)
    requires Core(s) && StreamPhase(s.t.phase)
    ensures s.q.sent == [] ==> s.t.seqNum == Wrap32(Base(s.h) + s.h.una)
    ensures s.q.sent != [] ==> s.q.bufs[s.q.sent[0]].header.num == Wrap32(Base(s.h) + s.h.una)
  {
    hide Wrap32, PoolInv;
    if s.q.sent != [] {
      assert SentOk(s, 0);
      assert s.q.sent[..0] == [];
    }
  }

  lemma RemoveSentDone(s: State, target: U32)
    requires Core(s) && s.t.phase != SynSent && s.t.phase != Closed
    requires s.q.sent == [] || !Removable(s.q.bufs[s.q.sent[0]].last, target, s.t.oldest)
    ensures Core(RemoveSent(s, target))
    ensures StreamPhase(s.t.phase) ==>
              RemoveSent(s, target).t.oldest == Wrap32(Base(s.h) + RemoveSent(s, target).h.una)
  {
    hide PoolInv, WireOk, Live, Data, Wrap32, Wrap16, Removable;
    if StreamPhase(s.t.phase) { OldestFound(s); }
    SamePool(s, RemoveSent(s, target));
    Still(s, RemoveSent(s, target));
  }

  lemma {:induction false} RemoveSentStream(s: State, target: U32)
    requires Core(s) && s.t.phase != SynSent && s.t.phase != Closed
    ensures Core(RemoveSent(s, target))
    ensures StreamPhase(s.t.phase) ==>
              RemoveSent(s, target).t.oldest == Wrap32(Base(s.h) + RemoveSent(s, target).h.una)
    decreases |s.q.sent|
  {
    hide PoolInv, PhaseOk, WireOk, Live, Data, Wrap32, Wrap16, Removable;
    if s.q.sent != [] && Removable(s.q.bufs[s.q.sent[0]].last, target, s.t.oldest) {
      PopSentStream(s);
      RemoveSentStream(PopSent(s), target);
    } else {
      RemoveSentDone(s, target);
    }
  }

  // ---------------------------------------------------------------- process2

  lemma AdoptStream(s: State, ack: U32, window: U16)
    requires Core(s) && s.t.phase != SynSent && s.t.phase != Closed
    ensures Core(Adopt(s, ack, window))
  {
    hide Data, Wrap32, Wrap16;
    var s' := Adopt(s, ack, window);
    SamePool(s, s');
    WireGrows(s.h, s'.h);
    SentKept(s, s');
    OutKept(s, s');
  }

  /** Counting the packet and noting that our FIN is acked changes no account. */
  lemma NotedStream(s: State, seg: Segment)
    requires StreamInv(s) && !s.h.aborted && s.t.phase != SynSent
    ensures StreamInv(Noted(s, seg))
  {
    hide PoolInv, WireOk, SentAll, OutAll, Data, Wrap32, Wrap16;
    var s1 := Noted(s, seg);
    SamePool(s, s1);
    WireGrows(s.h, s1.h);
    SentKept(s, s1);
    OutKept(s, s1);
  }

  lemma CreditFrame(s: State, seg: Segment)
    requires Named(s.q)
    ensures var s' := Credit(s, seg);
            && s'.t.phase == s.t.phase && s'.t.seqNum == s.t.seqNum && s'.t.ackNum == s.t.ackNum && s'.r == s.r
            && s'.t.disableReads == s.t.disableReads && s'.q.outgoing == s.q.outgoing && s'.q.bufs == s.q.bufs
            && s'.h == s.h.(una := s'.h.una, edge := s'.h.edge, behind := s'.h.behind, edgeFins := s'.h.edgeFins,
                            finAcked := s'.h.finAcked)
            && (seg.ack == s.t.seqNum && s.h.fins > 0 ==> s'.h.finAcked)
  {
    hide Data, Wrap32, Wrap16;
    RemoveSentFrame(Noted(s, seg), seg.ack);
  }

  lemma CreditStream(s: State, seg: Segment)
    requires StreamInv(s) && s.t.phase != SynSent && s.t.phase != Closed
    ensures StreamInv(Credit(s, seg))
  {
    hide PoolInv, WireOk, Live, PhaseOk, Data, Wrap32, Wrap16, RemoveSent;
    var s1 := Noted(s, seg);
    NotedStream(s, seg);
    var s2 := if s1.q.sent != [] then RemoveSent(s1, seg.ack) else s1;
    if s1.q.sent != [] { RemoveSentTidy(s1, seg.ack); }
    AdoptStream(s2, seg.ack, seg.window);
  }

  lemma RemoveSentTidy(s: State, target: U32)
    requires StreamInv(s) && s.t.phase != SynSent && s.t.phase != Closed
    ensures StreamInv(RemoveSent(s, target)) && RemoveSent(s, target).t.phase == s.t.phase
  {
    hide PoolInv, PhaseOk, WireOk, Live, Data, Wrap32, RemoveSent;
    RemoveSentStream(s, target);
    RemoveSentFrame(s, target);
  }

  lemma TakeDataStream(s: State, p: Packet)
    requires StreamInv(s)
    ensures StreamInv(TakeData(s, p).s)
    ensures TakeData(s, p).s.t == s.t.(ackNum := TakeData(s, p).s.t.ackNum)
    ensures TakeData(s, p).s.h == s.h.(delivered := TakeData(s, p).s.h.delivered)
  {
    hide StreamInv, Wrap32, Wrap16;
    StreamNamed(s);
    TakenStream(s, TakeData(s, p).s);
  }

  lemma TakenStream(s: State, s': State)
    requires StreamInv(s) && s'.q == s.q && s'.t == s.t.(ackNum := s'.t.ackNum)
    requires s'.h == s.h.(delivered := s'.h.delivered)
    ensures StreamInv(s')
  {
    hide PoolInv, WireOk, Live, Data, Wrap32, Wrap16, OnStream;
    WireGrows(s.h, s'.h);
    SameSend(s, s');
  }

  /** A phase the history allows disturbs nothing else. */
  lemma NewPhase(s: State, s': State)
    requires Core(s) && !s.h.aborted && s'.q == s.q && PhaseOk(s')
    requires s'.t.seqNum == s.t.seqNum && s'.t.remoteWindow == s.t.remoteWindow
    requires s'.h == s.h.(finsRcvd := s'.h.finsRcvd)
    requires s.t.phase == SynSent || s.t.phase == Closed ==> s'.t.phase == Closed
    requires s'.t.phase == Closed ==> forall i :: 0 <= i < |s.q.outgoing| ==> s.q.outgoing[i] == Conn(s.q)
    ensures Core(s')
  {
    hide Data, Wrap32, Wrap16;
    SamePool(s, s');
    WireGrows(s.h, s'.h);
    SentKept(s, s');
    OutKept(s, s');
  }

  lemma AdvanceStream(s: State, seg: Segment, current: bool, arp: bool)
    requires StreamInv(s) && !s.h.aborted && s.t.phase != SynSent && s.t.phase != Closed
    requires current && s.h.fins == 1 ==> s.h.finAcked
    ensures StreamInv(Advance(s, seg, current, arp))
  {
    hide PoolInv, WireOk, Live, PhaseOk, Data, Advance, Wrap32, Wrap16;
    var s' := Advance(s, seg, current, arp);
    AdvancePhase(s, seg, current, arp);
    if s'.t.phase == Closed { OnlyConnQueued(s); }
    NewPhase(s, s');
  }

  lemma AdvancePhase(s: State, seg: Segment, current: bool, arp: bool)
    requires Named(s.q) && PhaseOk(s) && s.t.phase != SynSent && s.t.phase != Closed
    requires current && s.h.fins == 1 ==> s.h.finAcked
    ensures var s' := Advance(s, seg, current, arp);
            && PhaseOk(s') && s'.q == s.q && s'.h == s.h.(finsRcvd := s'.h.finsRcvd)
            && s'.t == s.t.(phase := s'.t.phase, ackNum := s'.t.ackNum)
            && (IsSendFin(s'.t.phase) ==> IsSendFin(s.t.phase))
            && (StreamPhase(s'.t.phase) ==> StreamPhase(s.t.phase))
            && (s'.t.phase == Closed ==> s.h.fins == 1)
  {
    hide ClearQueues, Reset, Adopt, Wrap32, Wrap16, AllResets;
  }

  lemma OnlyConnQueued(s: State)
    requires Core(s) && !s.h.aborted && (s.h.fins == 1 || s.t.phase == Closed)
    ensures forall i :: 0 <= i < |s.q.outgoing| ==> s.q.outgoing[i] == Conn(s.q)
  {
    hide PoolInv, WireOk, SentAll, Accounts;
    forall i | 0 <= i < |s.q.outgoing| ensures s.q.outgoing[i] == Conn(s.q) { assert OutOk(s, i); }
  }

  /** Bookkeeping of packets and errors is invisible to the send side. */
  lemma SameSend(s: State, s': State)
    requires StreamInv(s) && s'.q == s.q && WireOk(s'.h)
    requires s'.t.phase == s.t.phase && s'.t.seqNum == s.t.seqNum && s'.t.oldest == s.t.oldest
    requires s'.t.remoteWindow == s.t.remoteWindow
    requires SameHistory(s.h, s'.h) && s'.h.held == s.h.held && s'.h.replaced == s.h.replaced
    requires s.t.phase == SynSent && !s.h.synSent && AllResets(s.h.wire) ==> AllResets(s'.h.wire)
    requires s'.h.finsRcvd == s.h.finsRcvd
    ensures StreamInv(s')
  {
    hide PoolInv, WireOk, Live, Data, Wrap32, Wrap16;
    SamePool(s, s');
    Still(s, s');
  }

  lemma FreedStream(s: State, p: Packet)
    requires StreamInv(s)
    ensures StreamInv(Freed(s, p))
  {
    hide PoolInv, PhaseOk, Live, OnStream, Tidy;
    WireGrows(s.h, Freed(s, p).h);
    SameSend(s, Freed(s, p));
  }

  lemma ResetStream(s: State, seg: Segment, arp: bool)
    requires StreamInv(s)
    ensures StreamInv(Reset(s, seg, arp))
  {
    hide PoolInv, PhaseOk, Live, Wrap32;
    var s' := Reset(s, seg, arp);
    if s' != s {
      var w := s'.h.wire[|s.h.wire|];
      assert OnStream(s.h, w);
      EmitOk(s.h, w);
      SameSend(s, s');
    }
  }

  lemma ConnectTidy(s: State)
    requires StreamInv(s) && s.t.phase != SynSent
    ensures StreamInv(EnqueueConnect(s))
  {
    hide PoolInv, PhaseOk, WireOk, Live, EnqueueConnect, Data, Wrap32, Wrap16;
    EnqueueConnectStream(s);
    EnqueueConnectFrame(s);
    if s.t.phase != Established { EnqueueConnectFills(s); }
  }

  lemma EnqueueConnectFrame(s: State)
    requires Named(s.q)
    ensures var s' := EnqueueConnect(s);
            && s'.t == s.t && s'.r == s.r
            && s'.h.una == s.h.una && s'.h.iss == s.h.iss && s'.h.synSent == s.h.synSent && s'.h.aborted == s.h.aborted
            && s'.h.delivered == s.h.delivered && s'.h.consumed == s.h.consumed && s'.h.finsRcvd == s.h.finsRcvd
            && s'.h.freed == s.h.freed && s'.h.wire == s.h.wire && SameEdge(s.h, s'.h)
  {
    hide Wrap16;
  }

  lemma DestroyIs(s: State)
    requires Named(s.q)
    ensures var s' := Destroy(s);
            s'.t == s.t.(phase := Closed) && s'.h == s.h.(aborted := true, freed := s'.h.freed)
  {
    hide Wrap16, ReturnAll;
  }

  /** Once aborted, only the wire and the counts are left to answer for. */
  lemma AbortedHolds(s: State, s': State)
    requires Named(s.q) && PoolInv(s') && PhaseOk(s) && WireOk(s.h) && s.h.violations == 0
    requires s'.t == s.t.(phase := Closed) && s'.h == s.h.(aborted := true, freed := s'.h.freed)
    requires s'.q.outgoing == [] && s'.q.sent == []
    ensures StreamInv(s')
  {
    hide Places, Live, Wrap32, Data, OnStream, Wrap16;
    WireGrows(s.h, s'.h);
  }

  lemma DestroyStream(s: State)
    requires StreamInv(s)
    ensures StreamInv(Destroy(s))
  {
    hide Destroy, PoolInv, PhaseOk, WireOk, Live, ClearQueues;
    DestroyKeeps(s);
    DestroyIs(s);
    ClearQueuesKeeps(s);
    DestroyQueues(s);
    AbortedHolds(s, Destroy(s));
  }

  lemma DestroyQueues(s: State)
    requires Named(s.q)
    ensures Destroy(s).q == ClearQueues(s).q
  {
    hide ClearQueues;
  }

  lemma AcceptStream(s: State, p: Packet, arp: bool)
    requires StreamInv(s) && s.t.phase != SynSent && s.t.phase != Closed
    ensures StreamInv(Accept(s, p, arp))
  {
    hide PoolInv, WireOk, Live, Data, Wrap32, Wrap16, EnqueueConnect, Credit, Advance, TakeData;
    var seg := p.seg;
    var s1 := Credit(s, seg);
    CreditStream(s, seg);
    CreditFrame(s, seg);
    var k := if seg.data == [] then Taken(s1, true, false) else TakeData(s1, p);
    if seg.data != [] { TakeDataStream(s1, p); }
    if k.playDead {
      FreedStream(k.s, p);
    } else {
      var s2 := Advance(k.s, seg, seg.ack == s.t.seqNum, arp);
      AdvanceStream(k.s, seg, seg.ack == s.t.seqNum, arp);
      var s3 := if (seg.data != [] && k.s.q.outgoing == []) || AcksFin(k.s.t.phase, seg) then EnqueueConnect(s2) else s2;
      AdvanceOpen(k.s, seg, seg.ack == s.t.seqNum, arp);
      ConnectTidy(s2);
      FreedStream(s3, p);
    }
  }

  lemma AdvanceOpen(s: State, seg: Segment, current: bool, arp: bool)
    requires Named(s.q) && s.t.phase != SynSent
    ensures Advance(s, seg, current, arp).t.phase != SynSent
  {
    hide Wrap32, Wrap16;
  }

  lemma SynchronizedStream(s: State, p: Packet, arp: bool)
    requires StreamInv(s) && s.t.phase != SynSent && s.t.phase != Closed
    ensures StreamInv(ReceiveSynchronized(s, p, arp))
  {
    hide PoolInv, WireOk, Live, PhaseOk, Data, Wrap32, Wrap16, Accept, Destroy;
    if p.seg.bits.rst {
      DestroyStream(s);
      AbortFreed(s, 1, p);
      FreedStream(s, p);
    } else {
      AcceptStream(s, p, arp);
      var s1 := PureAck(s, false, arp);
      PureAckStream(s, false, arp);
      PureAckTidy(s, false, arp);
      ErrorFreed(s1, p);
    }
  }

  lemma AbortFreed(s: State, reason: nat, p: Packet)
    requires StreamInv(s)
    ensures var s1 := Destroy(s); StreamInv(s1.(t := s1.t.(closeReason := reason)))
    ensures var s1 := Destroy(s); StreamInv(Freed(s1.(t := s1.t.(closeReason := reason)), p))
  {
    hide PoolInv, Live, PhaseOk, Data, Wrap32, Wrap16, Destroy;
    DestroyStream(s);
    var s1 := Destroy(s);
    var s2 := s1.(t := s1.t.(closeReason := reason));
    SameSend(s1, s2);
    FreedStream(s2, p);
  }

  lemma ErrorFreed(s: State, p: Packet)
    requires StreamInv(s)
    ensures StreamInv(Freed(SeqError(s), p))
  {
    hide PoolInv, Live, PhaseOk, Data, Wrap32, Wrap16;
    SameSend(s, SeqError(s));
    FreedStream(SeqError(s), p);
  }

  // ---------------------------------------------------------------- opening and closing

  /** The SYN-ACK for our SYN always removes the SYN, whatever the initial number was. */
  lemma SynRemovable(iss: U32)
    ensures Removable(iss, Wrap32(iss + 1), iss)
  {
  }

  lemma OpenQueues(s: State, seg: Segment)
    requires StreamInv(s) && s.t.phase == SynSent && seg.ack == s.t.seqNum
    ensures var s1 := RemoveSent(s, seg.ack);
            && PoolInv(s1) && s1.q.sent == [] && s1.q.outgoing == s.q.outgoing && s1.q.bufs == s.q.bufs
            && s1.t == s.t.(oldest := s.t.seqNum) && s1.h == s.h && s1.r == s.r
  {
    hide Live, WireOk, Data, Wrap16;
    RemoveSentKeeps(s, seg.ack);
    if s.q.sent != [] {
      SynOnSent(s);
      SynRemovable(s.h.iss);
      var s1 := PopSent(s);
      assert s.q.sent[1..] == [];
      assert RemoveSent(s1, seg.ack) == s1.(t := s1.t.(oldest := s1.t.seqNum));
    }
  }

  lemma SynOnSent(s: State)
    requires StreamInv(s) && s.t.phase == SynSent && s.q.sent != []
    ensures s.q.bufs[Conn(s.q)].last == s.h.iss && s.t.seqNum == Wrap32(s.h.iss + 1)
    ensures s.q.bufs[Conn(s.q)].data == []
  {
    hide WireOk, Places;
    assert SentOk(s, 0);
    DataSingle(s.q.bufs, Conn(s.q));
  }

  /** The one packet that may still be queued is our SYN. */
  ghost predicate SynLeft(s: State)
    requires Named(s.q)
  {
    s.q.outgoing == [] || (s.q.outgoing == [Conn(s.q)] && s.q.bufs[Conn(s.q)].data == [])
  }

  lemma SynLeftHolds(s: State)
    requires Core(s) && s.t.phase == SynSent
    ensures SynLeft(s)
  {
    if s.q.outgoing != [] { FirstOutOk(s); }
  }

  /**
   * Entering ESTABLISHED: nothing is on `sent`, the only packet that can be queued is the SYN,
   * and the acknowledgement about to be queued replaces it.
   */
  lemma OpenStream(s: State, seg: Segment)
    requires StreamInv(s) && s.t.phase == SynSent && seg.ack == s.t.seqNum
    ensures StreamInv(EnqueueConnect(OpenComplete(s, seg)))
  {
    hide Live, WireOk, Places, Data, Wrap32, Wrap16, OpenComplete;
    OpenCompleteIs(s, seg);
    SynLeftHolds(s);
    var s1 := OpenComplete(s, seg);
    OpenCompleteKeeps(s, seg);
    EnqueueConnectKeeps(s1);
    OpenedIs(s1);
    OpenedStream(s, s1, EnqueueConnect(s1));
  }

  lemma OpenCompleteIs(s: State, seg: Segment)
    requires StreamInv(s) && s.t.phase == SynSent && seg.ack == s.t.seqNum
    ensures var s1 := OpenComplete(s, seg);
            && s1.q.sent == [] && s1.q.outgoing == s.q.outgoing && s1.q.bufs == s.q.bufs
            && s1.t.phase == Established && s1.t.seqNum == s.t.seqNum && s1.t.oldest == s.t.seqNum
            && s1.t.remoteWindow == seg.window && s1.t.ackNum == Wrap32(seg.num + 1)
            && s1.t.disableReads == s.t.disableReads && s1.r == s.r
            && s1.h == s.h.(edge := s.h.una + seg.window, behind := 0, edgeFins := 0)
  {
    hide PoolInv, WireOk, Live;
    OpenQueues(s, seg);
  }

  lemma OpenedIs(s: State)
    requires Named(s.q) && s.q.sent == [] && s.t.phase == Established && SynLeft(s)
    ensures var s' := EnqueueConnect(s);
            && Named(s'.q) && s'.t == s.t && s'.r == s.r
            && s'.q.sent == [] && s'.q.outgoing == [Conn(s.q)] && |s'.q.bufs| == |s.q.bufs|
            && s'.q.bufs[Conn(s.q)].data == [] && !s'.q.bufs[Conn(s.q)].pendingArp
            && s'.h == s.h.(accepted := s.h.accepted + [], held := s'.h.held, replaced := s'.h.replaced)
  {
    hide Wrap16;
  }

  lemma OpenedStream(s: State, s1: State, s': State)
    requires StreamInv(s) && s.t.phase == SynSent && PoolInv(s')
    requires s1.t.seqNum == s.t.seqNum && s1.t.oldest == s.t.seqNum && s1.t.phase == Established
    requires s1.h == s.h.(edge := s.h.una + s1.t.remoteWindow, behind := 0, edgeFins := 0)
    requires s'.t == s1.t && s'.q.sent == [] && s'.q.outgoing == [Conn(s.q)] && |s'.q.bufs| == |s.q.bufs|
    requires s'.q.bufs[Conn(s.q)].data == [] && !s'.q.bufs[Conn(s.q)].pendingArp
    requires s'.h == s1.h.(accepted := s1.h.accepted + [], held := s'.h.held, replaced := s'.h.replaced)
    ensures StreamInv(s')
  {
    hide Places, Wrap16, Wrap32;
    DataSingle(s'.q.bufs, Conn(s.q));
    OpeningBytes(s);
    WireGrows(s.h, s'.h);
  }

  lemma OpeningBytes(s: State)
    requires Core(s) && s.t.phase == SynSent
    ensures s.h.una == 0 && s.h.accepted == [] && s.t.seqNum == Wrap32(Base(s.h))
  {
    hide Places, WireOk;
    if s.q.sent != [] { DataSingle(s.q.bufs, Conn(s.q)); }
  }

  lemma SynSentStream(s: State, p: Packet, arp: bool)
    requires StreamInv(s) && s.t.phase == SynSent && ActiveOpen(s, p.seg)
    ensures StreamInv(ReceiveSynSent(s, p, arp))
  {
    hide PoolInv, PhaseOk, WireOk, Live, Data, Wrap32, Wrap16, Destroy, OpenComplete, EnqueueConnect;
    var seg := p.seg;
    if seg.bits.rst {
      AbortFreed(s, 1, p);
      FreedStream(s, p);
    } else if seg.bits.syn && seg.ack == s.t.seqNum {
      OpenStream(s, seg);
      FreedStream(EnqueueConnect(OpenComplete(s, seg)), p);
    } else {
      ResetStream(s, seg, arp);
      FreedStream(Reset(s, seg, arp), p);
    }
  }

  /** Not the SYN of a peer that is opening at the same time. */
  predicate ActiveOpen(s: State, seg: Segment) {
    s.t.phase == SynSent && !seg.bits.rst && seg.bits.syn ==> seg.bits.ack
  }

  lemma ArriveStream(s: State, p: Packet, arp: bool)
    requires StreamInv(s) && ActiveOpen(s, p.seg)
    ensures StreamInv(Receive(s, p, arp))
  {
    hide PoolInv, PhaseOk, WireOk, Live, Data, Wrap32, Wrap16, ReceiveSynSent, ReceiveSynchronized;
    if s.t.phase == Closed || s.t.phase == TimeWait {
      ResetStream(s, p.seg, arp);
      FreedStream(Reset(s, p.seg, arp), p);
    } else if s.t.phase == SynSent {
      SynSentStream(s, p, arp);
    } else {
      SynchronizedStream(s, p, arp);
    }
  }

  lemma CloseStream(s: State)
    requires StreamInv(s)
    ensures StreamInv(CloseLocal(s))
  {
    hide PoolInv, WireOk, Data, Wrap32, Wrap16, EnqueueConnect;
    match s.t.phase
    case TimeWait => CloseNow(s);
    case SynSent => CloseNow(s);
    case Established => CloseAsk(s, SendFin1);
    case CloseWait => CloseAsk(s, SendFin2);
    case _ =>
  }

  lemma CloseNow(s: State)
    requires StreamInv(s) && (s.t.phase == TimeWait || s.t.phase == SynSent)
    ensures StreamInv(s.(t := s.t.(phase := Closed)))
  {
    hide PoolInv, WireOk, Data, Wrap32, Wrap16;
    forall i | 0 <= i < |s.q.outgoing| ensures s.q.outgoing[i] == Conn(s.q) { assert OutOk(s, i); }
    NewPhase(s, s.(t := s.t.(phase := Closed)));
  }

  lemma CloseAsk(s: State, p: Phase)
    requires StreamInv(s)
    requires (s.t.phase == Established && p == SendFin1) || (s.t.phase == CloseWait && p == SendFin2)
    ensures StreamInv(CloseWithFin(s, p))
  {
    hide PoolInv, WireOk, Live, Data, Wrap32, Wrap16, EnqueueConnect;
    var s1 := s.(t := s.t.(phase := p));
    NewPhase(s, s1);
    if s.q.outgoing == [] {
      EnqueueConnectStream(s1);
      EnqueueConnectFrame(s1);
      EnqueueConnectFills(s1);
    }
  }

  // ---------------------------------------------------------------- the user's calls

  /**
   * What the properties of a run assume of its steps: the user queues packets of his own only
   * while the stream is open, the peer does not open at the same time, and once SYN_SENT is over
   * the next hop's hardware address is known.
   */
  ghost predicate GoodStep(s: State, e: Event, arp: bool) {
    match e
    case UserEnqueue(id, data) => StreamPhase(s.t.phase) || EnqueueRefused(s, id)
    case Arrive(p) => ActiveOpen(s, p.seg)
    case Tick(overdue, probeDue) => ArpSettled(s, arp)
    case _ => true
  }

  /** Changing a buffer the user holds, or who holds which free buffer, is invisible to the queues. */
  lemma HeldStream(s: State, s': State)
    requires StreamInv(s) && PoolInv(s') && s'.t == s.t && |s'.q.bufs| == |s.q.bufs|
    requires s'.q.outgoing == s.q.outgoing && s'.q.sent == s.q.sent
    requires s'.h == s.h.(held := s'.h.held)
    requires forall x :: 0 <= x < |s.q.bufs| && x !in s.h.held ==> s'.q.bufs[x] == s.q.bufs[x]
    ensures StreamInv(s')
  {
    hide WireOk, Live, PhaseOk, Data, Wrap32, Wrap16;
    var q, held := s.q, s.h.held;
    forall i | 0 <= i < |q.sent| ensures q.sent[i] !in held {
      if q.sent[i] in held { HeldUnique(q, held, q.sent[i]); }
    }
    forall i | 0 <= i < |q.outgoing| ensures q.outgoing[i] !in held {
      if q.outgoing[i] in held { HeldUnique(q, held, q.outgoing[i]); }
    }
    HeldPhase(s, s');
    WireGrows(s.h, s'.h);
    Still(s, s');
  }

  lemma HeldPhase(s: State, s': State)
    requires Named(s.q) && Named(s'.q) && PhaseOk(s) && s'.t == s.t && |s'.q.bufs| == |s.q.bufs|
    requires s'.q.outgoing == s.q.outgoing && s'.q.sent == s.q.sent && s'.h == s.h.(held := s'.h.held)
    requires forall i :: 0 <= i < |s.q.outgoing| ==> s'.q.bufs[s.q.outgoing[i]] == s.q.bufs[s.q.outgoing[i]]
    ensures PhaseOk(s')
  {
    if s.t.phase == SynSent && s.q.outgoing != [] {
      assert s.q.outgoing[0] == Conn(s.q);
    }
  }

  lemma GetBufferStream(s: State)
    requires StreamInv(s)
    ensures StreamInv(GetBuffer(s).0)
  {
    hide PoolInv, WireOk, Live, PhaseOk, Wrap32, Wrap16;
    GetBufferKeeps(s);
    HeldStream(s, GetBuffer(s).0);
  }

  lemma FillHeldStream(s: State, id: nat, data: seq<Byte>)
    requires StreamInv(s) && id in s.h.held && id < |s.q.bufs|
    ensures var s' := s.(q := s.q.(bufs := s.q.bufs[id := s.q.bufs[id].(data := data)]));
            StreamInv(s') && PoolInv(s')
  {
    hide WireOk, Live, PhaseOk, Places, Wrap32, Wrap16;
    var s' := s.(q := s.q.(bufs := s.q.bufs[id := s.q.bufs[id].(data := data)]));
    SamePlaces(s.q, s'.q, s.h.held);
    HeldStream(s, s');
  }

  lemma EnqueueFrame(s: State, id: nat)
    requires Named(s.q) && id < |s.q.bufs|
    ensures var s' := Enqueue(s, id).0;
            && s'.t == s.t && s'.r == s.r
            && s'.h.una == s.h.una && s'.h.iss == s.h.iss && s'.h.synSent == s.h.synSent && s'.h.aborted == s.h.aborted
            && (s.q.outgoing != [] && s.t.phase != Established ==> s'.q.outgoing != [])
  {
    hide Wrap16;
  }

  lemma EnqueueTidy(s: State, id: nat)
    requires StreamInv(s) && id < |s.q.bufs| && Queueable(s, id)
    ensures StreamInv(Enqueue(s, id).0)
  {
    hide PoolInv, WireOk, Live, PhaseOk, Wrap32, Wrap16, Enqueue;
    EnqueueStream(s, id);
    EnqueueFrame(s, id);
  }

  /** send(): the packet it has just filled is always accepted. */
  lemma SendAccepted(s: State, id: nat)
    requires Named(s.q) && id < |s.q.bufs| && s.t.phase == Established && |s.q.outgoing| < RING
    requires |s.q.bufs[id].data| <= s.t.maxEnqueue
    ensures Enqueue(s, id).1 == RC_GOOD
    ensures Enqueue(s, id).0.h.accepted == s.h.accepted + s.q.bufs[id].data
  {
    hide Wrap16;
  }

  lemma {:induction false} SendLoopStream(s: State, rest: seq<Byte>)
    requires StreamInv(s) && s.t.phase == Established && !s.h.aborted
    ensures StreamInv(SendLoop(s, rest).0) && SendLoop(s, rest).0.t == s.t
    ensures |SendLoop(s, rest).1| <= |rest|
    ensures SendLoop(s, rest).0.h.accepted == s.h.accepted + rest[..|rest| - |SendLoop(s, rest).1|]
    decreases |rest|, |s.q.free|
  {
    hide StreamInv, SendTurn, Spins;
    StreamNamed(s);
    if SendGoes(s, rest) && !Spins(s, rest) {
      SendTurnShrinks(s, rest);
      SendTurnStream(s, rest);
      var (s1, left) := SendTurn(s, rest);
      SendLoopStream(s1, left);
      var n := |rest| - |left|;
      var sent := |rest| - |SendLoop(s, rest).1|;
      assert rest[..n] + rest[n..][..sent - n] == rest[..sent];
    } else {
      assert rest[..0] == [];
    }
  }

  lemma StreamNamed(s: State)
    requires StreamInv(s)
    ensures Named(s.q)
  {
  }

  lemma SendTurnStream(s: State, rest: seq<Byte>)
    requires StreamInv(s) && s.t.phase == Established && !s.h.aborted && SendGoes(s, rest)
    ensures var (s', left) := SendTurn(s, rest);
            && StreamInv(s') && s'.t == s.t && !s'.h.aborted
            && |left| <= |rest| && left == rest[|rest| - |left|..]
            && s'.h.accepted == s.h.accepted + rest[..|rest| - |left|]
  {
    hide StreamInv, GetBuffer, Enqueue;
    StreamNamed(s);
    var n := Min(SendSize(s.t), |rest|);
    SendOne(s, n, rest[..n]);
  }

  /** One turn of the loop: take a buffer, copy in `data`, queue it. */
  lemma SendOne(s: State, n: nat, data: seq<Byte>)
    requires StreamInv(s) && s.t.phase == Established && !s.h.aborted && s.q.free != [] && |s.q.outgoing| < RING
    requires |data| == n <= SendSize(s.t)
    ensures var s1 := GetBuffer(s).0;
            var id := GetBuffer(s).1.value;
            var s2 := s1.(q := s1.q.(bufs := s1.q.bufs[id := s1.q.bufs[id].(data := data)]));
            var s3 := Enqueue(s2, id).0;
            && StreamInv(s3) && s3.t == s.t && !s3.h.aborted
            && s3.h.accepted == s.h.accepted + data
  {
    hide PoolInv, WireOk, Live, Enqueue, Wrap32, Wrap16;
    GetBufferStream(s);
    GetBufferKeeps(s);
    var s1 := GetBuffer(s).0;
    var id := GetBuffer(s).1.value;
    FillHeldStream(s1, id, data);
    var s2 := s1.(q := s1.q.(bufs := s1.q.bufs[id := s1.q.bufs[id].(data := data)]));
    EnqueueTidy(s2, id);
    EnqueueFrame(s2, id);
    SendAccepted(s2, id);
  }

  lemma UserEnqueueStream(s: State, id: nat, data: seq<Byte>, arp: bool)
    requires StreamInv(s) && GoodStep(s, UserEnqueue(id, data), arp)
    ensures StreamInv(Step(s, UserEnqueue(id, data), arp))
  {
    hide PoolInv, WireOk, Live, Wrap32, Wrap16;
    if id in s.h.held && id < |s.q.bufs| {
      FillHeldStream(s, id, data);
      var s1 := s.(q := s.q.(bufs := s.q.bufs[id := s.q.bufs[id].(data := data)]));
      if !EnqueueRefused(s1, id) && |data| <= s.t.maxEnqueue { EnqueueTidy(s1, id); }
    }
  }

  lemma RecvStream(s: State, n: nat, arp: bool)
    requires StreamInv(s)
    ensures StreamInv(Recv(s, n, arp).0)
  {
    hide PoolInv, PhaseOk, Live, Wrap32, PureAck;
    if !RecvRefused(s.t.phase) && s.r.data != [] && n != 0 {
      var k := Min(n, |s.r.data|);
      var s1 := s.(r := s.r.(data := s.r.data[k..]), h := s.h.(consumed := s.h.consumed + s.r.data[..k]));
      WireGrows(s.h, s1.h);
      SameSend(s, s1);
      PureAckStream(s1, false, arp);
      PureAckTidy(s1, false, arp);
    }
  }

  lemma TickStream(s: State, overdue: bool, probeDue: bool, arp: bool)
    requires StreamInv(s) && ArpSettled(s, arp)
    ensures StreamInv(Drive(s, overdue, probeDue, arp))
  {
    hide PoolInv, WireOk, Live, PhaseOk, Wrap32, Wrap16, Destroy, DriveLoop;
    if s.q.sent != [] && overdue {
      var b := s.q.bufs[s.q.sent[0]];
      if b.attempts > RETRANS_COUNT {
        AbortFreed(s, 4, Packet(0, b.header));
      } else {
        ResendStream(s);
      }
    } else {
      DriveLoopStream(s, probeDue, arp);
    }
  }

  /** A retransmission is the same slice of the stream at the same sequence number. */
  lemma ResendOnStream(s: State)
    requires Core(s) && !s.h.aborted && s.q.sent != []
    ensures OnStream(s.h, s.q.bufs[s.q.sent[0]].header.(data := s.q.bufs[s.q.sent[0]].data))
  {
    hide Places, WireOk, OutOk, Data, SentOk, Wrap32;
    var b := s.q.bufs[s.q.sent[0]];
    var w := b.header.(data := b.data);
    FirstSent(s);
    EmptyOnStream(s);
    if w.data != [] || w.bits.fin { assert OnStreamAt(s.h, w, s.h.una); }
  }

  /** An empty packet on `sent` is our SYN, or the FIN packet with the header of a later ack. */
  lemma EmptyOnStream(s: State)
    requires Core(s) && !s.h.aborted && s.q.sent != []
    ensures var b := s.q.bufs[s.q.sent[0]];
            && (b.header.bits.syn ==> b.header.num == s.h.iss)
            && (b.data == [] && !b.header.bits.fin ==> BesideStream(s.h, b.header.(data := [])))
  {
    hide Places, WireOk, OutOk, Data;
    assert SentOk(s, 0);
    if s.h.fins == 1 {
      NothingQueued(s);
      assert Sent(s) == |s.h.accepted|;
    }
  }

  /** The oldest sent packet starts the unremoved part of the stream; a FIN ends it. */
  lemma FirstSent(s: State)
    requires Core(s) && !s.h.aborted && s.q.sent != []
    ensures var b := s.q.bufs[s.q.sent[0]];
            && s.h.una + |b.data| <= |s.h.accepted|
            && s.h.accepted[s.h.una..s.h.una + |b.data|] == b.data
            && (b.data != [] || b.header.bits.fin ==> b.header.num == Wrap32(Base(s.h) + s.h.una))
            && (b.header.bits.fin ==> s.h.fins == 1 && s.h.una + |b.data| == |s.h.accepted|)
  {
    hide Places, WireOk, OutOk, Data, SentOk, Wrap32;
    var b := s.q.bufs[s.q.sent[0]];
    DataFirst(s.q.bufs, s.q.sent);
    var rest := Data(s.q.bufs, s.q.sent[1..]);
    assert (b.data + rest) + OutData(s.q) == [] + (b.data + (rest + OutData(s.q)));
    Slice(s.h.accepted, s.h.una, [], b.data, rest + OutData(s.q));
    FirstHeader(s);
    if b.header.bits.fin { NothingQueued(s); }
  }

  lemma FirstHeader(s: State)
    requires Core(s) && !s.h.aborted && s.q.sent != []
    ensures var b := s.q.bufs[s.q.sent[0]];
            && (b.data != [] || b.header.bits.fin ==> b.header.num == Wrap32(Base(s.h) + s.h.una))
            && (b.header.bits.fin ==> s.h.fins == 1 && Data(s.q.bufs, s.q.sent[1..]) == [])
  {
    hide Places, WireOk, OutOk, PhaseOk;
    assert SentOk(s, 0) && s.q.sent[..0] == [];
    if s.q.bufs[s.q.sent[0]].header.bits.fin {
      assert s.q.sent[1..] == [];
      DataFirst(s.q.bufs, s.q.sent);
    }
  }

  lemma ResendStream(s: State)
    requires StreamInv(s) && s.q.sent != []
    ensures StreamInv(Drive(s, true, false, true)) || s.q.bufs[s.q.sent[0]].attempts > RETRANS_COUNT
  {
    hide Live, Wrap32, Wrap16, Destroy, Places, PhaseOk;
    var id := s.q.sent[0];
    var b := s.q.bufs[id];
    if b.attempts <= RETRANS_COUNT {
      var s1 := s.(q := s.q.(bufs := s.q.bufs[id := b.(attempts := b.attempts + 1)]));
      var w := b.header.(data := b.data);
      SamePlaces(s.q, s1.q, s.h.held);
      ResendOnStream(s);
      EmitOk(s.h, w);
      CountResend(s, s1);
      if s.t.phase == SynSent { SynOut(s); }
      SameSend(s1, s1.(h := Emit(s.h, w)));
    }
  }

  lemma SynOut(s: State)
    requires Core(s) && s.t.phase == SynSent && s.q.sent != []
    ensures s.h.synSent
  {
    hide PoolInv, WireOk, Live, AllResets;
  }

  lemma CountResend(s: State, s1: State)
    requires StreamInv(s) && s.q.sent != [] && PoolInv(s1)
    requires var id := s.q.sent[0];
             s1 == s.(q := s.q.(bufs := s.q.bufs[id := s.q.bufs[id].(attempts := s.q.bufs[id].attempts + 1)]))
    ensures StreamInv(s1)
  {
    hide WireOk, Wrap32, Wrap16, PoolInv, PhaseOk, Live;
    CountPhase(s, s1);
    CountLive(s, s1);
  }

  /** The same packets are queued, and `id` has been sent once more. */
  ghost predicate Recounted(s: State, s1: State, id: nat)
    requires Named(s.q)
  {
    id < |s.q.bufs| && s1 == s.(q := s.q.(bufs := s.q.bufs[id := s.q.bufs[id].(attempts := s.q.bufs[id].attempts + 1)]))
  }

  lemma CountPhase(s: State, s1: State)
    requires Core(s) && s.q.sent != [] && Named(s1.q) && Recounted(s, s1, s.q.sent[0])
    ensures PhaseOk(s1)
  {
    hide WireOk, Live, PoolInv, AllResets;
  }

  lemma CountLive(s: State, s1: State)
    requires Core(s) && !s.h.aborted && s.q.sent != [] && Named(s1.q) && Recounted(s, s1, s.q.sent[0])
    ensures Live(s1)
  {
    hide WireOk, PhaseOk, PoolInv, Data, Sequenced, Flow, Wrap32;
    SentKept(s, s1);
    DataFrame(s.q.bufs, s1.q.bufs, s.q.outgoing);
    assert OutData(s1.q) == OutData(s.q) + [] && s1.h.accepted == s.h.accepted + [];
    AccountsKept(s, s1, []);
    assert OutAll(s1) by {
      forall i | 0 <= i < |s1.q.outgoing| ensures OutOk(s1, i) { assert OutOk(s, i); }
    }
  }

  // ---------------------------------------------------------------- every step, every run

  lemma StepStream(s: State, e: Event, arp: bool)
    requires StreamInv(s) && GoodStep(s, e, arp)
    ensures StreamInv(Step(s, e, arp))
  {
    hide PoolInv, WireOk, Live, PhaseOk, Wrap32, Wrap16;
    match e
    case UserSend(data) =>
      if s.t.phase == Established && s.t.remoteWindow != 0 { SendLoopStream(s, data); }
    case UserGet => GetBufferStream(s);
    case UserEnqueue(id, data) => UserEnqueueStream(s, id, data, arp);
    case UserReturn(id) =>
      UserReturnKeeps(s, id, arp);
      HeldStream(s, Step(s, e, arp));
    case UserRecv(n) => RecvStream(s, n, arp);
    case UserTake =>
      TakePacketStream(s);
    case UserClose => CloseStream(s);
    case UserShutRd =>
      ShutStream(s);
    case UserDestroy => DestroyStream(s);
    case Arrive(p) => ArriveStream(s, p, arp);
    case Tick(overdue, probeDue) => TickStream(s, overdue, probeDue, arp);
  }

  lemma TakePacketStream(s: State)
    requires StreamInv(s)
    ensures StreamInv(TakePacket(s))
  {
    hide PoolInv, Live, PhaseOk, Wrap32;
    WireGrows(s.h, TakePacket(s).h);
    SameSend(s, TakePacket(s));
  }

  lemma ShutStream(s: State)
    requires StreamInv(s)
    ensures StreamInv(s.(t := s.t.(disableReads := true)))
  {
    hide PoolInv, Live, PhaseOk, Wrap32;
    SameSend(s, s.(t := s.t.(disableReads := true)));
  }

  lemma OpeningStream(iss: U32, pool: nat, mss: U16, rcvSize: U16)
    ensures StreamInv(Connect(Fresh(iss, pool, mss, rcvSize)))
  {
    hide Connect, StreamInv, PoolInv;
    FreshKeeps(iss, pool, mss, rcvSize);
    SynQueuedFirst(iss, pool, mss, rcvSize);
    BegunStream(Connect(Fresh(iss, pool, mss, rcvSize)));
  }

  /** Our SYN is queued and nothing has happened. */
  ghost predicate Begun(s: State) {
    && 0 < |s.q.bufs|
    && s.q.outgoing == [|s.q.bufs| - 1] && s.q.sent == []
    && s.q.bufs[Conn(s.q)].data == [] && !s.q.bufs[Conn(s.q)].pendingArp && !s.q.bufs[Conn(s.q)].ackOnly
    && s.t.phase == SynSent && s.t.seqNum == s.h.iss && s.t.oldest == s.h.iss && s.t.remoteWindow == 0
    && s.h.accepted == [] && s.h.wire == [] && s.h.una == 0 && !s.h.synSent && s.h.fins == 0 && s.h.finsRcvd == 0
    && s.h.edge == 0 && s.h.behind == 0 && s.h.edgeFins == 0 && s.h.violations == 0 && !s.h.finAcked && !s.h.aborted
  }

  lemma SynQueuedFirst(iss: U32, pool: nat, mss: U16, rcvSize: U16)
    ensures Named(Fresh(iss, pool, mss, rcvSize).q) && Begun(Connect(Fresh(iss, pool, mss, rcvSize)))
  {
    hide Wrap16;
  }

  lemma BegunStream(s: State)
    requires Begun(s) && PoolInv(s)
    ensures StreamInv(s)
  {
    hide Places;
    DataSingle(s.q.bufs, Conn(s.q));
  }

  /** Every step of the run meets GoodStep in the state it is taken from. */
  ghost predicate GoodRun(s: State, es: seq<(Event, bool)>)
    requires PoolInv(s)
    decreases |es|
  {
    es == [] ||
    (var n := |es| - 1;
     GoodRun(s, es[..n]) && GoodStep(Run(s, es[..n]), es[n].0, es[n].1))
  }

  lemma {:induction false} RunStream(s: State, es: seq<(Event, bool)>)
    requires StreamInv(s) && GoodRun(s, es)
    ensures StreamInv(Run(s, es))
    decreases |es|
  {
    if es != [] {
      var n := |es| - 1;
      RunStream(s, es[..n]);
      StepStream(Run(s, es[..n]), es[n].0, es[n].1);
    }
  }

  // ---------------------------------------------------------------- what it means

  /** The socket reached from a fresh one by connect and then the steps `es`. */
  ghost function After(iss: U32, pool: nat, mss: U16, rcvSize: U16, es: seq<(Event, bool)>): (s: State)
    ensures PoolInv(s)
  {
    FreshKeeps(iss, pool, mss, rcvSize);
    Run(Connect(Fresh(iss, pool, mss, rcvSize)), es)
  }

  ghost predicate GoodHistory(iss: U32, pool: nat, mss: U16, rcvSize: U16, es: seq<(Event, bool)>) {
    FreshKeeps(iss, pool, mss, rcvSize);
    GoodRun(Connect(Fresh(iss, pool, mss, rcvSize)), es)
  }

  lemma AfterStream(iss: U32, pool: nat, mss: U16, rcvSize: U16, es: seq<(Event, bool)>)
    requires GoodHistory(iss, pool, mss, rcvSize, es)
    ensures StreamInv(After(iss, pool, mss, rcvSize, es))
  {
    FreshKeeps(iss, pool, mss, rcvSize);
    OpeningStream(iss, pool, mss, rcvSize);
    RunStream(Connect(Fresh(iss, pool, mss, rcvSize)), es);
  }

  /**
   * Send stream.  Whatever was queued is, in order, the part already removed, then the packets on
   * `sent`, then the packets on `outgoing`; replacing a queued ack never drops data.  And every
   * segment ever put on the wire, first time or again, is the slice of that one stream that its
   * sequence number names, or empty and right beside the stream, or a reset.
   */
  lemma SendStream(iss: U32, pool: nat, mss: U16, rcvSize: U16, es: seq<(Event, bool)>)
    requires GoodHistory(iss, pool, mss, rcvSize, es)
    ensures var s := After(iss, pool, mss, rcvSize, es);
            && (!s.h.aborted ==>
                  && s.h.una <= |s.h.accepted|
                  && s.h.accepted == s.h.accepted[..s.h.una] + SentData(s.q) + OutData(s.q)
                  && s.t.seqNum == Wrap32(Base(s.h) + Sent(s) + s.h.fins))
            && forall i :: 0 <= i < |s.h.wire| ==> OnStream(s.h, s.h.wire[i])
  {
    hide StreamInv, PoolInv, After, GoodHistory, Wrap32, Data;
    AfterStream(iss, pool, mss, rcvSize, es);
    StreamParts(After(iss, pool, mss, rcvSize, es));
  }

  lemma StreamParts(s: State)
    requires StreamInv(s)
    ensures Named(s.q) && forall i :: 0 <= i < |s.h.wire| ==> OnStream(s.h, s.h.wire[i])
    ensures !s.h.aborted ==>
              && s.h.una <= |s.h.accepted|
              && s.h.accepted == s.h.accepted[..s.h.una] + SentData(s.q) + OutData(s.q)
              && s.t.seqNum == Wrap32(Base(s.h) + Sent(s) + s.h.fins)
  {
    hide PoolInv, PhaseOk, OutAll, SentAll, Wrap32, Data, Flow;
    if !s.h.aborted {
      assert s.h.accepted == s.h.accepted[..s.h.una] + s.h.accepted[s.h.una..];
      assert s.h.accepted[..s.h.una] + (SentData(s.q) + OutData(s.q))
          == s.h.accepted[..s.h.una] + SentData(s.q) + OutData(s.q);
    }
  }

  /**
   * While the connection is open the packets on `sent` tile [oldestUnackedSeq, seqNum) without gap or
   * overlap: each starts where the data before it ends, and the last ends at seqNum.
   */
  lemma SentTiles(iss: U32, pool: nat, mss: U16, rcvSize: U16, es: seq<(Event, bool)>, i: nat)
    requires GoodHistory(iss, pool, mss, rcvSize, es) && StreamPhase(After(iss, pool, mss, rcvSize, es).t.phase)
    ensures var s := After(iss, pool, mss, rcvSize, es);
            && s.t.seqNum == Wrap32(s.t.oldest + |SentData(s.q)|)
            && (i < |s.q.sent| ==>
                  var b := s.q.bufs[s.q.sent[i]];
                  && b.data != [] && b.header.data == b.data
                  && b.header.num == Wrap32(s.t.oldest + |Data(s.q.bufs, s.q.sent[..i])|)
                  && b.last == Wrap32(s.t.oldest + |Data(s.q.bufs, s.q.sent[..i])| + |b.data| - 1))
  {
    hide Data, StreamInv, PoolInv, Wrap32, After, SentData, GoodHistory;
    AfterStream(iss, pool, mss, rcvSize, es);
    TilesAt(After(iss, pool, mss, rcvSize, es), i);
  }

  lemma TilesAt(s: State, i: nat)
    requires StreamInv(s) && StreamPhase(s.t.phase)
    ensures s.t.seqNum == Wrap32(s.t.oldest + |SentData(s.q)|)
    ensures i < |s.q.sent| ==>
              var b := s.q.bufs[s.q.sent[i]];
              && b.data != [] && b.header.data == b.data
              && b.header.num == Wrap32(s.t.oldest + |Data(s.q.bufs, s.q.sent[..i])|)
              && b.last == Wrap32(s.t.oldest + |Data(s.q.bufs, s.q.sent[..i])| + |b.data| - 1)
  {
    hide Places, OutAll, WireOk, Data, Bytes, Flow, Wrap32;
    WrapAdd(Base(s.h) + s.h.una, |SentData(s.q)|);
    if i < |s.q.sent| {
      assert SentOk(s, i);
      var k := |Data(s.q.bufs, s.q.sent[..i])|;
      WrapAdd(Base(s.h) + s.h.una, k);
      WrapAdd(Base(s.h) + s.h.una, k + |s.q.bufs[s.q.sent[i]].data| - 1);
    }
  }

  /** A FIN stands after the last byte of the stream. */
  ghost predicate FinLast(h: History, w: Segment) {
    w.bits.fin ==> |w.data| <= |h.accepted| && OnStreamAt(h, w, |h.accepted| - |w.data|)
  }

  /**
   * Teardown.  At most one FIN is ever added; the FIN on the wire stands after every byte ever
   * queued, and nothing is queued after it; FIN_WAIT_2 and TIME_WAIT are reached only after an ack
   * of everything sent, FIN included; TIME_WAIT only after the peer's FIN, which is counted once.
   */
  lemma Teardown(iss: U32, pool: nat, mss: U16, rcvSize: U16, es: seq<(Event, bool)>)
    requires GoodHistory(iss, pool, mss, rcvSize, es)
    ensures var s := After(iss, pool, mss, rcvSize, es);
            && s.h.fins <= 1 && s.h.finsRcvd <= 1
            && (StreamPhase(s.t.phase) ==> s.h.fins == 0) && (FinSentPhase(s.t.phase) ==> s.h.fins == 1)
            && (forall i :: 0 <= i < |s.h.wire| ==> FinLast(s.h, s.h.wire[i]))
            && (s.h.fins == 1 && !s.h.aborted ==> OutData(s.q) == [] && Sent(s) == |s.h.accepted|)
            && (s.t.phase == FinWait2 || s.t.phase == TimeWait ==> s.h.finAcked)
            && (s.t.phase == TimeWait ==> s.h.finsRcvd == 1)
  {
    hide StreamInv, After, GoodHistory, Wrap32, OnStream, OnStreamAt, Data;
    AfterStream(iss, pool, mss, rcvSize, es);
    TeardownParts(After(iss, pool, mss, rcvSize, es));
  }

  lemma TeardownParts(s: State)
    requires StreamInv(s)
    ensures Named(s.q) && s.h.fins <= 1 && s.h.finsRcvd <= 1
    ensures (StreamPhase(s.t.phase) ==> s.h.fins == 0) && (FinSentPhase(s.t.phase) ==> s.h.fins == 1)
    ensures forall i :: 0 <= i < |s.h.wire| ==> FinLast(s.h, s.h.wire[i])
    ensures s.h.fins == 1 && !s.h.aborted ==> OutData(s.q) == [] && Sent(s) == |s.h.accepted|
    ensures s.t.phase == FinWait2 || s.t.phase == TimeWait ==> s.h.finAcked
    ensures s.t.phase == TimeWait ==> s.h.finsRcvd == 1
  {
    hide PoolInv, OutAll, SentAll, Wrap32, Data, AllResets;
    forall i | 0 <= i < |s.h.wire| ensures FinLast(s.h, s.h.wire[i]) {
      assert OnStream(s.h, s.h.wire[i]);
    }
    if s.h.fins == 1 && !s.h.aborted { NothingQueued(s); }
  }
}
