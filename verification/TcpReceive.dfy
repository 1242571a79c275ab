/**
 * The receive side of an actively opened connection whose peer sends one byte stream: loss,
 * duplication and reordering never change what is delivered.  Also: what happens to a packet.
 */
module TcpReceive {
  import opened Machine
  import opened TcpModel
  import opened TcpPool
  import opened TcpStream
  import opened TcpRuns

  // ---------------------------------------------------------------- the peer

  /**
   * `seg` is the slice of the peer's stream at `off`; or it is empty and stands behind the peer's FIN;
   * or it stands one number before the stream, like a repeated SYN-ACK or an early probe, and then
   * nothing is asked of what it carries.
   */
  ghost predicate SliceAt(seg: Segment, irs: U32, peer: seq<Byte>, off: int) {
    && seg.num == Wrap32(irs + 1 + off)
    && (|| off == -1
        || (0 <= off && off + |seg.data| <= |peer| && seg.data == peer[off..off + |seg.data|]
            && (seg.bits.fin ==> off + |seg.data| == |peer|))
        || (off == |peer| + 1 && seg.data == [] && !seg.bits.fin))
  }

  /** How much of the peer's sequence space we have taken. */
  ghost function Received(h: History): nat { |h.delivered| + h.finsRcvd }

  /** What may arrive: a reset, or a slice of the peer's stream less than one circle away. */
  ghost predicate FromPeer(s: State, seg: Segment, irs: U32, peer: seq<Byte>) {
    if s.t.phase == SynSent then
      ActiveOpen(s, seg) && (seg.bits.syn ==> seg.num == irs)
    else
      seg.bits.rst || exists off :: SliceAt(seg, irs, peer, off) && -TWO32 < off - Received(s.h) < TWO32
  }

  // ---------------------------------------------------------------- the invariant

  /** Data accepted and not yet read, oldest first. */
  ghost function Payloads(ps: seq<Packet>): seq<Byte> {
    if ps == [] then [] else ps[0].seg.data + Payloads(ps[1..])
  }

  ghost function Unread(r: Receiver): seq<Byte> { Payloads(r.incoming) + r.data }

  /** Raw packets or a receive buffer, never both; and never more than fits. */
  ghost predicate OneStore(r: Receiver) {
    && (if r.live then r.incoming == [] && r.size > 0 else r.data == [])
    && |r.data| <= r.size && |r.incoming| <= RING
  }

  ghost predicate Delivered(s: State, irs: U32, peer: seq<Byte>) {
    && s.h.delivered <= peer && s.h.finsRcvd <= 1
    && (s.h.finsRcvd == 1 ==> s.h.delivered == peer)
    && s.t.phase != SynRecved && s.t.phase != SendFin3
    && (s.t.phase == SynSent ==> s.h.delivered == [] && s.h.finsRcvd == 0)
    && (s.t.phase != SynSent && s.t.phase != Closed ==>
          && s.t.ackNum == Wrap32(irs + 1 + Received(s.h))
          && (s.h.finsRcvd == 1 <==> FinCountedPhase(s.t.phase)))
  }

  ghost predicate ReadSide(s: State) {
    && !s.t.disableReads
    && (s.h.aborted ==> s.t.phase == Closed && s.r.incoming == [])
    && (!s.h.aborted ==> OneStore(s.r) && s.h.delivered == s.h.consumed + Unread(s.r))
    && s.h.consumed <= s.h.delivered
  }

  ghost predicate RecvInv(s: State, irs: U32, peer: seq<Byte>) {
    Named(s.q) && Delivered(s, irs, peer) && ReadSide(s)
  }

  // ---------------------------------------------------------------- steps that receive nothing

  /** A step that leaves the receive side alone. */
  ghost predicate Deaf(s: State, s': State) {
    && s'.r == s.r && s'.t.ackNum == s.t.ackNum && s'.t.disableReads == s.t.disableReads
    && s'.h.delivered == s.h.delivered && s'.h.consumed == s.h.consumed && s'.h.finsRcvd == s.h.finsRcvd
    && s'.h.aborted == s.h.aborted && s'.h.freed == s.h.freed
  }

  /** A local close or the sending of our FIN moves between phases that agree on the peer's FIN. */
  predicate SamePeerSide(p: Phase, p': Phase) {
    || p' == p
    || p' == Closed
    || (p != SynSent && p != Closed && p' != SynSent && p' != SynRecved && p' != SendFin3
        && (FinCountedPhase(p) <==> FinCountedPhase(p')))
  }

  lemma DeafKeeps(s: State, s': State, irs: U32, peer: seq<Byte>)
    requires RecvInv(s, irs, peer) && Deaf(s, s') && SamePeerSide(s.t.phase, s'.t.phase) && Named(s'.q)
    requires s.h.aborted ==> s'.t.phase == Closed
    ensures RecvInv(s', irs, peer)
  {
  }

  lemma SendPacketDeaf(s: State, b: Buffer, forceAck: bool, forceProbe: bool, arp: bool)
    requires s.t.phase != SendFin3 && s.t.phase != SynRecved
    ensures Deaf(s, SendPacket(s, b, forceAck, forceProbe, arp).s)
    ensures SamePeerSide(s.t.phase, SendPacket(s, b, forceAck, forceProbe, arp).s.t.phase)
    ensures s.t.phase == Closed ==> SendPacket(s, b, forceAck, forceProbe, arp).s.t.phase == Closed
  {
    hide Wrap32;
  }

  lemma {:induction false} DriveLoopDeaf(s: State, probeDue: bool, arp: bool, irs: U32, peer: seq<Byte>)
    requires RecvInv(s, irs, peer)
    ensures RecvInv(DriveLoop(s, probeDue, arp), irs, peer)
    ensures DriveLoop(s, probeDue, arp).h.freed == s.h.freed
    decreases |s.q.outgoing|
  {
    hide Delivered, ReadSide, SendPacket, Wrap32, Wrap16;
    if s.q.outgoing != [] && |s.q.sent| < RING {
      var b := s.q.bufs[s.q.outgoing[0]];
      assert s.t.phase != SendFin3 && s.t.phase != SynRecved by { PhaseKnown(s, irs, peer); }
      if |b.data| > s.t.remoteWindow {
        SendPacketDeaf(s, Blank(), true, true, arp);
        SendPacketFrame(s, Blank(), true, true, arp);
        PhaseKnown(s, irs, peer);
        DeafKeeps(s, PureAck(s, true, arp), irs, peer);
      } else {
        var f := SendPacket(s, b, false, false, arp);
        SendPacketDeaf(s, b, false, false, arp);
        SendPacketFrame(s, b, false, false, arp);
        PhaseKnown(s, irs, peer);
        if f.pending {
          DeafKeeps(s, DriveLoop(s, probeDue, arp), irs, peer);
        } else {
          var s1 := AfterSend(f.s, s.q.outgoing[0], f.b);
          DeafKeeps(s, s1, irs, peer);
          DriveLoopDeaf(s1, probeDue, arp, irs, peer);
        }
      }
    }
  }

  lemma PhaseKnown(s: State, irs: U32, peer: seq<Byte>)
    requires RecvInv(s, irs, peer)
    ensures s.t.phase != SendFin3 && s.t.phase != SynRecved
    ensures s.h.aborted ==> s.t.phase == Closed
  {
  }

  // ---------------------------------------------------------------- a packet arrives

  /** In sequence means exactly: the first byte (or the FIN) we have not taken yet. */
  lemma InSequence(s: State, seg: Segment, irs: U32, peer: seq<Byte>, off: int)
    requires RecvInv(s, irs, peer) && s.t.phase != SynSent && s.t.phase != Closed
    requires SliceAt(seg, irs, peer, off) && -TWO32 < off - Received(s.h) < TWO32
    ensures seg.num == s.t.ackNum <==> off == Received(s.h)
  {
    WrapInjective(irs + 1 + off, irs + 1 + Received(s.h));
  }

  lemma {:induction false} PayloadsSnoc(ps: seq<Packet>, p: Packet)
    ensures Payloads(ps + [p]) == Payloads(ps) + p.seg.data
  {
    if ps == [] {
      assert ps + [p] == [p] && [p][1..] == [];
    } else {
      assert (ps + [p])[1..] == ps[1..] + [p];
      PayloadsSnoc(ps[1..], p);
    }
  }

  /** The data of an in-sequence packet extends what was delivered, or the packet is dropped whole. */
  lemma TakeDataKeeps(s: State, p: Packet, irs: U32, peer: seq<Byte>)
    requires RecvInv(s, irs, peer) && s.t.phase != SynSent && s.t.phase != Closed && !s.h.aborted
    requires SliceAt(p.seg, irs, peer, Received(s.h)) && p.seg.data != []
    ensures var k := TakeData(s, p);
            && RecvInv(k.s, irs, peer) && k.s.t.phase == s.t.phase && k.s.h.aborted == s.h.aborted
            && (if k.playDead then k.s == s
                else k.s.h.delivered == s.h.delivered + p.seg.data && k.s.h.finsRcvd == s.h.finsRcvd)
  {
    hide Wrap32, ReadSide, Delivered, SliceAt;
    ReadsOn(s, irs, peer);
    TakeDataStore(s, p);
    if !TakeData(s, p).playDead { SliceDelivered(s, TakeData(s, p).s, p.seg, irs, peer); }
  }

  /** The slice that starts where the delivered data ends makes it longer. */
  lemma SliceDelivered(s: State, s': State, seg: Segment, irs: U32, peer: seq<Byte>)
    requires Delivered(s, irs, peer) && s.t.phase != SynSent && s.t.phase != Closed
    requires SliceAt(seg, irs, peer, Received(s.h)) && seg.data != []
    requires s'.h.delivered == s.h.delivered + seg.data && s'.h.finsRcvd == s.h.finsRcvd
    requires s'.t == s.t.(ackNum := Wrap32(s.t.ackNum + |seg.data|))
    ensures Delivered(s', irs, peer)
  {
    hide Wrap32;
    var n := |s.h.delivered|;
    assert peer[..n + |seg.data|] == peer[..n] + seg.data;
    WrapAdd(irs + 1 + n, |seg.data|);
  }

  lemma TakeDataStore(s: State, p: Packet)
    requires ReadSide(s) && !s.h.aborted
    ensures ReadSide(TakeData(s, p).s)
  {
    hide Wrap32;
    var s' := TakeData(s, p).s;
    PayloadsSnoc(s.r.incoming, p);
    if s' != s {
      var data := p.seg.data;
      if s.r.live {
        assert Unread(s'.r) == Unread(s.r) + data;
      } else {
        assert Unread(s.r) == Payloads(s.r.incoming);
        assert Unread(s'.r) == Unread(s.r) + data;
      }
      assert s.h.consumed + (Unread(s.r) + data) == (s.h.consumed + Unread(s.r)) + data;
    }
  }

  /** The peer's FIN is counted once, and only when all data before it has been taken. */
  lemma AdvanceRecv(s: State, seg: Segment, current: bool, arp: bool, irs: U32, peer: seq<Byte>)
    requires RecvInv(s, irs, peer) && s.t.phase != SynSent && s.t.phase != Closed && !s.h.aborted
    requires seg.bits.fin ==> s.h.delivered == peer && s.h.finsRcvd == 0
    ensures RecvInv(Advance(s, seg, current, arp), irs, peer)
    ensures Advance(s, seg, current, arp).h.freed == s.h.freed && Advance(s, seg, current, arp).r == s.r
    ensures !Advance(s, seg, current, arp).h.aborted
  {
    hide ReadSide, Advance;
    AdvanceReads(s, seg, current, arp);
    AdvanceCounts(s, seg, current, arp);
    AdvancePhases(s, seg, current, arp);
    WrapAdd(irs + 1 + Received(s.h), 1);
  }

  /** The state change counts the peer's FIN exactly on entering the states that say so. */
  lemma AdvancePhases(s: State, seg: Segment, current: bool, arp: bool)
    requires Named(s.q) && s.t.phase != SynRecved
    ensures var s' := Advance(s, seg, current, arp);
            && s'.r == s.r && s'.h.freed == s.h.freed && s'.t.phase != SynRecved
            && (s'.t.phase == SynSent <==> s.t.phase == SynSent) && (s'.t.phase == SendFin3 <==> s.t.phase == SendFin3)
            && (CountsFin(s.t.phase, seg) ==> FinCountedPhase(s'.t.phase))
            && (!CountsFin(s.t.phase, seg) && s'.t.phase != Closed ==>
                  (FinCountedPhase(s'.t.phase) <==> FinCountedPhase(s.t.phase)))
  {
    hide Wrap32;
  }

  lemma AdvanceReads(s: State, seg: Segment, current: bool, arp: bool)
    requires Named(s.q) && ReadSide(s) && !s.h.aborted && s.t.phase != SynRecved
    ensures ReadSide(Advance(s, seg, current, arp)) && !Advance(s, seg, current, arp).h.aborted
  {
    hide OneStore, Unread, Wrap32;
  }

  lemma FreedRecv(s: State, p: Packet, irs: U32, peer: seq<Byte>)
    requires RecvInv(s, irs, peer)
    ensures RecvInv(Freed(s, p), irs, peer)
  {
  }

  lemma ConnectRecv(s: State, irs: U32, peer: seq<Byte>)
    requires RecvInv(s, irs, peer)
    ensures RecvInv(EnqueueConnect(s), irs, peer)
  {
    hide EnqueueConnect, Wrap32;
    EnqueueConnectFrame(s);
    EnqueueConnectNamed(s);
  }

  lemma EnqueueConnectNamed(s: State)
    requires Named(s.q)
    ensures Named(EnqueueConnect(s).q)
  {
  }

  lemma DestroyRecv(s: State, irs: U32, peer: seq<Byte>)
    requires RecvInv(s, irs, peer)
    ensures RecvInv(Destroy(s), irs, peer)
  {
    hide Wrap32, Wrap16;
  }

  /**
   * An in-sequence segment is taken whole or not at all: its data is delivered and acknowledged, and
   * its FIN too in the phases that count it; or there is no room for the data and nothing of it counts.
   */
  lemma AcceptRecv(s: State, p: Packet, arp: bool, irs: U32, peer: seq<Byte>)
    requires RecvInv(s, irs, peer) && s.t.phase != SynSent && s.t.phase != Closed
    requires SliceAt(p.seg, irs, peer, Received(s.h))
    ensures RecvInv(Accept(s, p, arp), irs, peer)
    ensures var s' := Accept(s, p, arp);
            if NoRoom(s, p.seg) then
              s'.h.delivered == s.h.delivered && s'.h.finsRcvd == s.h.finsRcvd && s'.t.ackNum == s.t.ackNum
            else
              && s'.h.delivered == s.h.delivered + p.seg.data
              && s'.h.finsRcvd == s.h.finsRcvd + (if CountsFin(s.t.phase, p.seg) then 1 else 0)
              && s'.t.ackNum == Wrap32(s.t.ackNum + |p.seg.data| + (if CountsFin(s.t.phase, p.seg) then 1 else 0))
  {
    hide Delivered, ReadSide, EnqueueConnect, Credit, Advance, TakeData, NoRoom, Wrap32, Wrap16;
    var seg := p.seg;
    var s1 := Credit(s, seg);
    CreditFrame(s, seg);
    CreditRecv(s, seg, irs, peer);
    ReadsOn(s, irs, peer);
    AcceptCounts(s, p, arp);
    var k := if seg.data == [] then Taken(s1, true, false) else TakeData(s1, p);
    if seg.data != [] { TakeDataKeeps(s1, p, irs, peer); }
    if k.playDead {
      FreedRecv(k.s, p, irs, peer);
    } else {
      FinAfterData(s1, k.s, seg, irs, peer);
      var s2 := Advance(k.s, seg, seg.ack == s.t.seqNum, arp);
      AdvanceRecv(k.s, seg, seg.ack == s.t.seqNum, arp, irs, peer);
      ConnectRecv(s2, irs, peer);
      var s3 := if (seg.data != [] && k.s.q.outgoing == []) || AcksFin(k.s.t.phase, seg) then EnqueueConnect(s2) else s2;
      FreedRecv(s3, p, irs, peer);
    }
  }

  lemma AcceptCounts(s: State, p: Packet, arp: bool)
    requires Named(s.q) && !s.t.disableReads && s.t.phase != SynRecved
    ensures var s' := Accept(s, p, arp);
            if NoRoom(s, p.seg) then
              s'.h.delivered == s.h.delivered && s'.h.finsRcvd == s.h.finsRcvd && s'.t.ackNum == s.t.ackNum
            else
              && s'.h.delivered == s.h.delivered + p.seg.data
              && s'.h.finsRcvd == s.h.finsRcvd + (if CountsFin(s.t.phase, p.seg) then 1 else 0)
              && s'.t.ackNum == Wrap32(s.t.ackNum + |p.seg.data| + (if CountsFin(s.t.phase, p.seg) then 1 else 0))
  {
    hide EnqueueConnect, Credit, Advance, TakeData, NoRoom, Named, Wrap32, Wrap16;
    var seg := p.seg;
    var s1 := Credit(s, seg);
    CreditFrame(s, seg);
    SameRoom(s, s1, seg);
    NoDataRoom(s, seg);
    if seg.data != [] { TakeDataCounts(s1, p); }
    var k := if seg.data == [] then Taken(s1, true, false) else TakeData(s1, p);
    if !k.playDead {
      var s2 := Advance(k.s, seg, seg.ack == s.t.seqNum, arp);
      AdvanceCounts(k.s, seg, seg.ack == s.t.seqNum, arp);
      EnqueueConnectFrame(s2);
      WrapAdd(s.t.ackNum + |seg.data|, if CountsFin(s.t.phase, seg) then 1 else 0);
      WrapNone(s.t.ackNum);
    }
  }

  lemma WrapNone(x: U32)
    ensures Wrap32(x) == x
  {
  }

  lemma NoDataRoom(s: State, seg: Segment)
    ensures seg.data == [] ==> !NoRoom(s, seg)
  {
  }

  /** The data of the packet finds no room: process2 plays dead. */
  predicate NoRoom(s: State, seg: Segment) {
    && seg.data != [] && !s.t.disableReads
    && (if s.r.live then |seg.data| > s.r.size - |s.r.data| else |s.r.incoming| >= RING)
  }

  lemma SameRoom(s: State, s1: State, seg: Segment)
    requires s1.r == s.r && s1.t.disableReads == s.t.disableReads
    ensures NoRoom(s1, seg) <==> NoRoom(s, seg)
  {
  }

  lemma ReadsOn(s: State, irs: U32, peer: seq<Byte>)
    requires RecvInv(s, irs, peer)
    ensures Named(s.q) && !s.t.disableReads && s.t.phase != SynRecved
  {
    hide Wrap32;
  }

  lemma TakeDataCounts(s: State, p: Packet)
    requires p.seg.data != []
    ensures var k := TakeData(s, p);
            && (k.playDead <==> NoRoom(s, p.seg))
            && k.s.t == s.t.(ackNum := if k.playDead then s.t.ackNum else Wrap32(s.t.ackNum + |p.seg.data|))
            && k.s.h.finsRcvd == s.h.finsRcvd
            && (!s.t.disableReads ==>
                  k.s.h.delivered == if k.playDead then s.h.delivered else s.h.delivered + p.seg.data)
  {
    hide Wrap32;
  }

  lemma AdvanceCounts(s: State, seg: Segment, current: bool, arp: bool)
    requires Named(s.q) && s.t.phase != SynRecved
    ensures var s' := Advance(s, seg, current, arp);
            && s'.h.delivered == s.h.delivered
            && s'.h.finsRcvd == s.h.finsRcvd + (if CountsFin(s.t.phase, seg) then 1 else 0)
            && s'.t.ackNum == (if CountsFin(s.t.phase, seg) then Wrap32(s.t.ackNum + 1) else s.t.ackNum)
  {
    hide Wrap32;
  }

  lemma CreditRecv(s: State, seg: Segment, irs: U32, peer: seq<Byte>)
    requires RecvInv(s, irs, peer) && s.t.phase != SynSent && s.t.phase != Closed
    ensures RecvInv(Credit(s, seg), irs, peer) && !Credit(s, seg).h.aborted
    ensures Credit(s, seg).h.delivered == s.h.delivered && Credit(s, seg).h.finsRcvd == s.h.finsRcvd
  {
    hide Credit, Wrap32, Wrap16;
    CreditFrame(s, seg);
  }

  lemma FinAfterData(s1: State, s2: State, seg: Segment, irs: U32, peer: seq<Byte>)
    requires RecvInv(s1, irs, peer) && SliceAt(seg, irs, peer, Received(s1.h)) && s2.h.finsRcvd == s1.h.finsRcvd
    requires s2.h.delivered == s1.h.delivered + seg.data
    ensures seg.bits.fin ==> s2.h.delivered == peer && s2.h.finsRcvd == 0
  {
    hide Wrap32;
    if seg.bits.fin {
      var n := |s1.h.delivered|;
      assert s1.h.finsRcvd == 0;
      assert peer[..n] + peer[n..] == peer;
    }
  }

  lemma OpenCompleteRecv(s: State, seg: Segment, irs: U32, peer: seq<Byte>)
    requires RecvInv(s, irs, peer) && s.t.phase == SynSent && seg.num == irs
    ensures RecvInv(OpenComplete(s, seg), irs, peer)
  {
    hide RemoveSent, ReadSide, Wrap32, Wrap16;
    RemoveSentFrame(s, seg.ack);
    assert Delivered(OpenComplete(s, seg), irs, peer);
    assert ReadSide(s) ==> ReadSide(OpenComplete(s, seg)) by { OpenCompleteReads(s, seg); }
  }

  lemma OpenCompleteReads(s: State, seg: Segment)
    requires Named(s.q) && s.t.phase == SynSent
    ensures ReadSide(s) ==> ReadSide(OpenComplete(s, seg))
  {
    hide RemoveSent, Wrap32, Wrap16;
    RemoveSentFrame(s, seg.ack);
  }

  lemma SynSentRecv(s: State, p: Packet, arp: bool, irs: U32, peer: seq<Byte>)
    requires RecvInv(s, irs, peer) && s.t.phase == SynSent && FromPeer(s, p.seg, irs, peer)
    ensures RecvInv(ReceiveSynSent(s, p, arp), irs, peer)
  {
    hide Delivered, ReadSide, EnqueueConnect, OpenComplete, Destroy, Wrap32, Wrap16;
    var seg := p.seg;
    if seg.bits.rst {
      DestroyFreedRecv(s, p, irs, peer);
      FreedRecv(s, p, irs, peer);
    } else if seg.bits.syn && seg.ack == s.t.seqNum {
      OpenCompleteRecv(s, seg, irs, peer);
      ConnectRecv(OpenComplete(s, seg), irs, peer);
      FreedRecv(EnqueueConnect(OpenComplete(s, seg)), p, irs, peer);
    } else {
      ResetFreedRecv(s, p, arp, irs, peer);
    }
  }

  lemma ReceiveRecv(s: State, p: Packet, arp: bool, irs: U32, peer: seq<Byte>)
    requires RecvInv(s, irs, peer) && FromPeer(s, p.seg, irs, peer)
    ensures RecvInv(Receive(s, p, arp), irs, peer)
  {
    hide Delivered, ReadSide, Accept, ReceiveSynSent, Destroy, PureAck, Wrap32, Wrap16;
    if s.t.phase == Closed || s.t.phase == TimeWait {
      ResetFreedRecv(s, p, arp, irs, peer);
    } else if s.t.phase == SynSent {
      SynSentRecv(s, p, arp, irs, peer);
    } else if p.seg.bits.rst {
      DestroyFreedRecv(s, p, irs, peer);
      FreedRecv(s, p, irs, peer);
    } else {
      PhaseKnown(s, irs, peer);
      var off :| SliceAt(p.seg, irs, peer, off) && -TWO32 < off - Received(s.h) < TWO32;
      InSequence(s, p.seg, irs, peer, off);
      if off == Received(s.h) { AcceptRecv(s, p, arp, irs, peer); }
      ErrorRecv(s, p, arp, irs, peer);
    }
  }

  lemma ResetFreedRecv(s: State, p: Packet, arp: bool, irs: U32, peer: seq<Byte>)
    requires RecvInv(s, irs, peer)
    ensures RecvInv(Freed(Reset(s, p.seg, arp), p), irs, peer)
  {
    hide Wrap32;
  }

  lemma DestroyFreedRecv(s: State, p: Packet, irs: U32, peer: seq<Byte>)
    requires RecvInv(s, irs, peer)
    ensures var s1 := Destroy(s); RecvInv(Freed(s1.(t := s1.t.(closeReason := 1)), p), irs, peer)
  {
    hide Destroy, Wrap32;
    DestroyRecv(s, irs, peer);
  }

  lemma NamedRecv(s: State, irs: U32, peer: seq<Byte>)
    requires RecvInv(s, irs, peer)
    ensures Named(s.q)
  {
  }

  lemma ErrorRecv(s: State, p: Packet, arp: bool, irs: U32, peer: seq<Byte>)
    requires RecvInv(s, irs, peer)
    ensures RecvInv(Freed(SeqError(PureAck(s, false, arp)), p), irs, peer)
  {
    hide RecvInv, SendPacket, Wrap32;
    PhaseKnown(s, irs, peer);
    NamedRecv(s, irs, peer);
    SendPacketDeaf(s, Blank(), true, false, arp);
    SendPacketFrame(s, Blank(), true, false, arp);
    var s1 := PureAck(s, false, arp);
    DeafKeeps(s, s1, irs, peer);
    ReasonRecv(s1, SeqError(s1), irs, peer);
    FreedRecv(SeqError(s1), p, irs, peer);
  }

  // ---------------------------------------------------------------- the user's calls

  lemma EnqueueRecv(s: State, id: nat, irs: U32, peer: seq<Byte>)
    requires RecvInv(s, irs, peer) && id < |s.q.bufs|
    ensures RecvInv(Enqueue(s, id).0, irs, peer) && |Enqueue(s, id).0.q.bufs| == |s.q.bufs|
  {
    hide RecvInv, Enqueue;
    NamedRecv(s, irs, peer);
    PhaseKnown(s, irs, peer);
    EnqueueDeaf(s, id);
    DeafKeeps(s, Enqueue(s, id).0, irs, peer);
  }

  lemma EnqueueDeaf(s: State, id: nat)
    requires Named(s.q) && id < |s.q.bufs|
    ensures var s' := Enqueue(s, id).0; Deaf(s, s') && s'.t == s.t && Named(s'.q) && |s'.q.bufs| == |s.q.bufs|
  {
    hide Wrap16;
  }

  lemma {:induction false} SendLoopRecv(s: State, rest: seq<Byte>, irs: U32, peer: seq<Byte>)
    requires RecvInv(s, irs, peer)
    ensures RecvInv(SendLoop(s, rest).0, irs, peer)
    decreases |rest|, |s.q.free|
  {
    hide Enqueue, OneStore, Unread, Delivered, Wrap32, Wrap16, Spins;
    if SendGoes(s, rest) && s.t.phase == Established && !Spins(s, rest) {
      var n := Min(SendSize(s.t), |rest|);
      var s1 := GetBuffer(s).0;
      var id := GetBuffer(s).1.value;
      var s2 := s1.(q := s1.q.(bufs := s1.q.bufs[id := s1.q.bufs[id].(data := rest[..n])]));
      assert Delivered(s2, irs, peer) by { QuietDelivered(s, s2, irs, peer); }
      EnqueueRecv(s2, id, irs, peer);
      SendTurnShrinks(s, rest);
      SendLoopRecv(SendTurn(s, rest).0, SendTurn(s, rest).1, irs, peer);
    }
  }

  lemma QuietDelivered(s: State, s': State, irs: U32, peer: seq<Byte>)
    requires Delivered(s, irs, peer) && s'.t == s.t && s'.h == s.h.(held := s'.h.held)
    ensures Delivered(s', irs, peer)
  {
  }

  /** Reading takes bytes off the front of what was delivered and not yet read. */
  lemma RecvRecv(s: State, n: nat, arp: bool, irs: U32, peer: seq<Byte>)
    requires RecvInv(s, irs, peer)
    ensures RecvInv(Recv(s, n, arp).0, irs, peer)
    ensures Recv(s, n, arp).0.h.consumed == s.h.consumed + Recv(s, n, arp).2
  {
    hide RecvInv, SendPacket, Wrap32;
    if !RecvRefused(s.t.phase) && s.r.data != [] && n != 0 {
      var k := Min(n, |s.r.data|);
      var s1 := s.(r := s.r.(data := s.r.data[k..]), h := s.h.(consumed := s.h.consumed + s.r.data[..k]));
      ReadSome(s, s1, k, irs, peer);
      PhaseKnown(s1, irs, peer);
      NamedRecv(s1, irs, peer);
      SendPacketDeaf(s1, Blank(), true, false, arp);
      SendPacketFrame(s1, Blank(), true, false, arp);
      DeafKeeps(s1, PureAck(s1, false, arp), irs, peer);
    }
  }

  /** The user has the first `k` bytes. */
  lemma ReadSome(s: State, s1: State, k: nat, irs: U32, peer: seq<Byte>)
    requires RecvInv(s, irs, peer) && s.t.phase != Closed && 0 < k <= |s.r.data|
    requires s1 == s.(r := s.r.(data := s.r.data[k..]), h := s.h.(consumed := s.h.consumed + s.r.data[..k]))
    ensures RecvInv(s1, irs, peer)
  {
    hide Wrap32, Delivered;
    assert !s.h.aborted && s.r.incoming == [];
    assert Unread(s.r) == s.r.data && Unread(s1.r) == s.r.data[k..];
    assert s.r.data == s.r.data[..k] + s.r.data[k..];
    DeliveredSame(s, s1, irs, peer);
  }

  lemma DeliveredSame(s: State, s': State, irs: U32, peer: seq<Byte>)
    requires Delivered(s, irs, peer) && s'.t == s.t
    requires s'.h.delivered == s.h.delivered && s'.h.finsRcvd == s.h.finsRcvd
    ensures Delivered(s', irs, peer)
  {
  }

  lemma TakePacketRecv(s: State, irs: U32, peer: seq<Byte>)
    requires RecvInv(s, irs, peer)
    ensures RecvInv(TakePacket(s), irs, peer)
  {
    hide Wrap32, Delivered;
    if s.r.incoming != [] && !s.h.aborted {
      var p := s.r.incoming[0];
      var s' := TakePacket(s);
      assert Unread(s.r) == p.seg.data + Unread(s'.r);
      assert s.h.consumed + (p.seg.data + Unread(s'.r)) == (s.h.consumed + p.seg.data) + Unread(s'.r);
    }
    DeliveredSame(s, TakePacket(s), irs, peer);
  }

  lemma CloseRecv(s: State, irs: U32, peer: seq<Byte>)
    requires RecvInv(s, irs, peer)
    ensures RecvInv(CloseLocal(s), irs, peer)
  {
    hide Wrap32, EnqueueConnect;
    PhaseKnown(s, irs, peer);
    if s.t.phase == Established || s.t.phase == CloseWait {
      var p := if s.t.phase == Established then SendFin1 else SendFin2;
      var s1 := s.(t := s.t.(phase := p));
      DeafKeeps(s, s1, irs, peer);
      ConnectRecv(s1, irs, peer);
    } else {
      DeafKeeps(s, CloseLocal(s), irs, peer);
    }
  }

  lemma TickRecv(s: State, overdue: bool, probeDue: bool, arp: bool, irs: U32, peer: seq<Byte>)
    requires RecvInv(s, irs, peer)
    ensures RecvInv(Drive(s, overdue, probeDue, arp), irs, peer)
  {
    hide Delivered, ReadSide, Wrap32, DriveLoop, Destroy;
    if s.q.sent != [] && overdue {
      var id := s.q.sent[0];
      if s.q.bufs[id].attempts > RETRANS_COUNT {
        DestroyRecv(s, irs, peer);
        var s1 := Destroy(s);
        ReasonRecv(s1, s1.(t := s1.t.(closeReason := 4)), irs, peer);
      } else {
        ReasonRecv(s, Drive(s, overdue, probeDue, arp), irs, peer);
      }
    } else {
      DriveLoopDeaf(s, probeDue, arp, irs, peer);
    }
  }

  lemma ReasonRecv(s: State, s': State, irs: U32, peer: seq<Byte>)
    requires RecvInv(s, irs, peer) && Deaf(s, s') && s'.t.phase == s.t.phase && Named(s'.q)
    ensures RecvInv(s', irs, peer)
  {
    PhaseKnown(s, irs, peer);
    DeafKeeps(s, s', irs, peer);
  }

  /** Reads stay enabled, and what arrives comes from the peer. */
  ghost predicate FairStep(s: State, e: Event, irs: U32, peer: seq<Byte>) {
    match e
    case UserShutRd => false
    case Arrive(p) => FromPeer(s, p.seg, irs, peer)
    case _ => true
  }

  lemma StepRecv(s: State, e: Event, arp: bool, irs: U32, peer: seq<Byte>)
    requires RecvInv(s, irs, peer) && FairStep(s, e, irs, peer)
    requires Named(Step(s, e, arp).q)
    ensures RecvInv(Step(s, e, arp), irs, peer)
  {
    hide Delivered, ReadSide, Wrap32;
    match e
    case UserSend(data) => SendLoopRecv(s, data, irs, peer);
    case UserGet => QuietRecv(s, Step(s, e, arp), irs, peer);
    case UserEnqueue(id, data) =>
      if id in s.h.held && id < |s.q.bufs| {
        var s1 := s.(q := s.q.(bufs := s.q.bufs[id := s.q.bufs[id].(data := data)]));
        QuietRecv(s, s1, irs, peer);
        EnqueueRecv(s1, id, irs, peer);
      }
    case UserReturn(id) => QuietRecv(s, Step(s, e, arp), irs, peer);
    case UserRecv(n) => RecvRecv(s, n, arp, irs, peer);
    case UserTake => TakePacketRecv(s, irs, peer);
    case UserClose => CloseRecv(s, irs, peer);
    case UserDestroy => DestroyRecv(s, irs, peer);
    case Arrive(p) => ReceiveRecv(s, p, arp, irs, peer);
    case Tick(overdue, probeDue) => TickRecv(s, overdue, probeDue, arp, irs, peer);
  }

  lemma QuietRecv(s: State, s': State, irs: U32, peer: seq<Byte>)
    requires RecvInv(s, irs, peer) && s'.t == s.t && s'.r == s.r && s'.h == s.h.(held := s'.h.held) && Named(s'.q)
    ensures RecvInv(s', irs, peer)
  {
  }

  // ---------------------------------------------------------------- runs

  ghost predicate FairRun(s: State, es: seq<(Event, bool)>, irs: U32, peer: seq<Byte>)
    requires PoolInv(s)
    decreases |es|
  {
    es == [] ||
    (var n := |es| - 1;
     FairRun(s, es[..n], irs, peer) && FairStep(Run(s, es[..n]), es[n].0, irs, peer))
  }

  lemma {:induction false} RunRecv(s: State, es: seq<(Event, bool)>, irs: U32, peer: seq<Byte>)
    requires PoolInv(s) && RecvInv(s, irs, peer) && FairRun(s, es, irs, peer)
    ensures RecvInv(Run(s, es), irs, peer)
    decreases |es|
  {
    hide RecvInv, FairStep, Conserved, Counted;
    if es != [] {
      var n := |es| - 1;
      RunRecv(s, es[..n], irs, peer);
      RunStepRecv(Run(s, es[..n]), es[n].0, es[n].1, irs, peer);
    }
  }

  lemma RunStepRecv(s: State, e: Event, arp: bool, irs: U32, peer: seq<Byte>)
    requires PoolInv(s) && RecvInv(s, irs, peer) && FairStep(s, e, irs, peer)
    ensures RecvInv(Step(s, e, arp), irs, peer)
  {
    hide RecvInv, FairStep;
    StepKeeps(s, e, arp);
    StepRecv(s, e, arp, irs, peer);
  }

  ghost predicate FairHistory(iss: U32, pool: nat, mss: U16, rcvSize: U16, es: seq<(Event, bool)>, irs: U32, peer: seq<Byte>) {
    FreshKeeps(iss, pool, mss, rcvSize);
    FairRun(Connect(Fresh(iss, pool, mss, rcvSize)), es, irs, peer)
  }

  /**
   * Receive stream.  However the network loses, repeats or reorders the peer's segments, the data
   * delivered is exactly the beginning of the peer's stream; the acknowledgement number says how
   * much of it (and the FIN, counted at most once and only after all the data); and what the user
   * has read, followed by what is waiting to be read, is what was delivered.
   */
  lemma ReceiveStream(iss: U32, pool: nat, mss: U16, rcvSize: U16, es: seq<(Event, bool)>, irs: U32, peer: seq<Byte>)
    requires FairHistory(iss, pool, mss, rcvSize, es, irs, peer)
    ensures var s := After(iss, pool, mss, rcvSize, es);
            && s.h.delivered <= peer
            && s.h.finsRcvd <= 1 && (s.h.finsRcvd == 1 ==> s.h.delivered == peer)
            && (s.t.phase != SynSent && s.t.phase != Closed ==>
                  s.t.ackNum == Wrap32(irs + 1 + |s.h.delivered| + s.h.finsRcvd))
            && (!s.h.aborted ==> s.h.delivered == s.h.consumed + Unread(s.r))
  {
    hide PoolInv, After, Run, Connect, Fresh;
    AfterRecv(iss, pool, mss, rcvSize, es, irs, peer);
  }

  lemma AfterRecv(iss: U32, pool: nat, mss: U16, rcvSize: U16, es: seq<(Event, bool)>, irs: U32, peer: seq<Byte>)
    requires FairHistory(iss, pool, mss, rcvSize, es, irs, peer)
    ensures RecvInv(After(iss, pool, mss, rcvSize, es), irs, peer)
  {
    hide Conserved, Counted, FairRun, RecvInv, Run, Connect;
    FreshKeeps(iss, pool, mss, rcvSize);
    OpeningRecv(iss, pool, mss, rcvSize, irs, peer);
    RunRecv(Connect(Fresh(iss, pool, mss, rcvSize)), es, irs, peer);
  }

  lemma OpeningRecv(iss: U32, pool: nat, mss: U16, rcvSize: U16, irs: U32, peer: seq<Byte>)
    ensures RecvInv(Connect(Fresh(iss, pool, mss, rcvSize)), irs, peer)
  {
    hide EnqueueConnect;
    var s := Fresh(iss, pool, mss, rcvSize);
    ConnectRecv(s.(t := s.t.(phase := SynSent)), irs, peer);
  }

  /**
   * The two halves fit: every segment this engine ever puts on the wire - SYN, data, FIN, ack or
   * probe, first time or again - is for a receiver that took our SYN a slice of the stream our user
   * queued, or stands beside it where the receive side expects nothing; and a SYN is always the first
   * number.  Only resets are excepted.
   */
  lemma WireSuitsReceiver(iss: U32, pool: nat, mss: U16, rcvSize: U16, es: seq<(Event, bool)>, i: nat)
    requires GoodHistory(iss, pool, mss, rcvSize, es)
    requires i < |After(iss, pool, mss, rcvSize, es).h.wire| && After(iss, pool, mss, rcvSize, es).h.synSent
    ensures var h := After(iss, pool, mss, rcvSize, es).h;
            var w := h.wire[i];
            && (w.bits.syn ==> w.num == h.iss)
            && (IsReset(w) || exists off :: SliceAt(w, h.iss, h.accepted, off) && -1 <= off <= |h.accepted| + 1)
  {
    hide StreamInv, After, GoodHistory, Wrap32, OnStream;
    AfterStream(iss, pool, mss, rcvSize, es);
    WireSlices(After(iss, pool, mss, rcvSize, es), i);
  }

  lemma WireSlices(s: State, i: nat)
    requires StreamInv(s) && i < |s.h.wire| && s.h.synSent
    ensures var w := s.h.wire[i];
            && (w.bits.syn ==> w.num == s.h.iss)
            && (IsReset(w) || exists off :: SliceAt(w, s.h.iss, s.h.accepted, off) && -1 <= off <= |s.h.accepted| + 1)
  {
    hide PoolInv, Live, PhaseOk, Wrap32;
    assert OnStream(s.h, s.h.wire[i]);
    if !IsReset(s.h.wire[i]) { SliceOfStream(s.h, s.h.wire[i]); }
  }

  lemma SliceOfStream(h: History, w: Segment)
    requires OnStream(h, w) && h.synSent && !IsReset(w)
    ensures exists off :: SliceAt(w, h.iss, h.accepted, off) && -1 <= off <= |h.accepted| + 1
  {
    hide Wrap32;
    if BesideStream(h, w) {
      if w.num == Wrap32(Base(h) - 1) {
        assert SliceAt(w, h.iss, h.accepted, -1);
      } else {
        assert SliceAt(w, h.iss, h.accepted, |h.accepted| + 1);
      }
    } else {
      var k: nat :| OnStreamAt(h, w, k);
      assert SliceAt(w, h.iss, h.accepted, k);
    }
  }

  /**
   * So whatever part of it the network delivers, in whatever order, is what the receive side of a peer
   * running this engine assumes of its packets, as long as the stream is shorter than one circle.
   */
  lemma WireFromPeer(iss: U32, pool: nat, mss: U16, rcvSize: U16, es: seq<(Event, bool)>, i: nat, r: State)
    requires GoodHistory(iss, pool, mss, rcvSize, es)
    requires i < |After(iss, pool, mss, rcvSize, es).h.wire| && After(iss, pool, mss, rcvSize, es).h.synSent
    requires |After(iss, pool, mss, rcvSize, es).h.accepted| + 2 < TWO32
    requires RecvInv(r, After(iss, pool, mss, rcvSize, es).h.iss, After(iss, pool, mss, rcvSize, es).h.accepted) && r.t.phase != SynSent
    ensures FromPeer(r, After(iss, pool, mss, rcvSize, es).h.wire[i], After(iss, pool, mss, rcvSize, es).h.iss,
                     After(iss, pool, mss, rcvSize, es).h.accepted)
  {
    hide StreamInv, After, GoodHistory, Wrap32, SliceAt, ReadSide;
    WireSuitsReceiver(iss, pool, mss, rcvSize, es, i);
  }

  // ---------------------------------------------------------------- what becomes of a packet

  /** Packets freed and packets held for the user. */
  ghost function Accounted(s: State): multiset<Packet> {
    multiset(s.h.freed) + multiset(s.r.incoming)
  }

  lemma FreedAccounts(s: State, s': State, p: Packet)
    requires Accounted(s') == Accounted(s)
    ensures Accounted(Freed(s', p)) == Accounted(s) + multiset{p}
  {
  }

  lemma SameAccounted(s: State, s': State)
    requires s'.r.incoming == s.r.incoming && s'.h.freed == s.h.freed
    ensures Accounted(s') == Accounted(s)
  {
  }

  lemma ClearQueuesAccounts(s: State)
    requires Named(s.q)
    ensures Accounted(ClearQueues(s)) == Accounted(s)
  {
    hide Wrap16;
    assert ClearQueues(s).r.incoming == [] && ClearQueues(s).h.freed == s.h.freed + s.r.incoming;
  }

  lemma DestroyAccounts(s: State)
    requires Named(s.q)
    ensures Accounted(Destroy(s)) == Accounted(s)
  {
    hide ClearQueues;
    ClearQueuesAccounts(s);
    SameAccounted(ClearQueues(s), Destroy(s));
  }

  lemma AdvanceAccounts(s: State, seg: Segment, current: bool, arp: bool)
    requires Named(s.q)
    ensures Accounted(Advance(s, seg, current, arp)) == Accounted(s)
  {
    hide Accounted, ClearQueues, Wrap32, Wrap16;
    ClearQueuesAccounts(s);
    if s.t.phase == SynRecved && !current {
      SameAccounted(ClearQueues(s), Advance(s, seg, current, arp));
    } else {
      SameAccounted(s, Advance(s, seg, current, arp));
    }
  }

  lemma TakeDataAccounts(s: State, p: Packet)
    ensures var k := TakeData(s, p);
            Accounted(k.s) == (if k.freePacket then Accounted(s) else Accounted(s) + multiset{p})
    ensures TakeData(s, p).playDead ==> TakeData(s, p).freePacket
  {
    hide Wrap32;
  }

  lemma AcceptAccounts(s: State, p: Packet, arp: bool)
    requires Named(s.q)
    ensures Accounted(Accept(s, p, arp)) == Accounted(s) + multiset{p}
  {
    hide Accounted, EnqueueConnect, Credit, Advance, TakeData, Freed, Wrap32, Wrap16;
    var s1 := Credit(s, p.seg);
    CreditFrame(s, p.seg);
    SameAccounted(s, s1);
    var k := if p.seg.data == [] then Taken(s1, true, false) else TakeData(s1, p);
    TakeDataAccounts(s1, p);
    if k.playDead {
      FreedAccounts(s, k.s, p);
    } else {
      var s2 := Advance(k.s, p.seg, p.seg.ack == s.t.seqNum, arp);
      AdvanceAccounts(k.s, p.seg, p.seg.ack == s.t.seqNum, arp);
      EnqueueConnectFrame(s2);
      SameAccounted(s2, EnqueueConnect(s2));
      var s3 := if (p.seg.data != [] && k.s.q.outgoing == []) || AcksFin(k.s.t.phase, p.seg) then EnqueueConnect(s2) else s2;
      if k.freePacket { FreedAccounts(s, s3, p); }
    }
  }

  lemma SimultaneousAccounts(s: State, seg: Segment)
    requires Named(s.q)
    ensures Accounted(SimultaneousOpen(s, seg)) == Accounted(s)
  {
    hide Accounted, EnqueueConnect, ClearQueues, Wrap32, Wrap16;
    var t1 := s.t.(phase := SynRecved, ackNum := Wrap32(seg.num + 1),
                   maxEnqueue := MaxEnqueueFor(s.t, seg), seqNum := Wrap32(s.t.seqNum - 1));
    var s1 := s.(t := t1, h := s.h.(iss := t1.seqNum, synSent := false));
    SameAccounted(s, s1);
    ClearQueuesAccounts(s1);
    EnqueueConnectFrame(ClearQueues(s1));
    SameAccounted(ClearQueues(s1), SimultaneousOpen(s, seg));
  }

  lemma SynSentAccounts(s: State, p: Packet, arp: bool)
    requires Named(s.q)
    ensures Accounted(ReceiveSynSent(s, p, arp)) == Accounted(s) + multiset{p}
  {
    hide Accounted, EnqueueConnect, RemoveSent, SimultaneousOpen, Destroy, Freed, Wrap32, Wrap16;
    var seg := p.seg;
    var current := seg.bits.ack && seg.ack == s.t.seqNum;
    if seg.bits.rst {
      var s1 := Destroy(s);
      DestroyAccounts(s);
      SameAccounted(s1, s1.(t := s1.t.(closeReason := 1)));
      FreedAccounts(s, s1.(t := s1.t.(closeReason := 1)), p);
      FreedAccounts(s, s, p);
    } else if seg.bits.syn && !seg.bits.ack {
      SimultaneousAccounts(s, seg);
      FreedAccounts(s, SimultaneousOpen(s, seg), p);
    } else if seg.bits.syn && current {
      RemoveSentFrame(s, seg.ack);
      EnqueueConnectFrame(OpenComplete(s, seg));
      SameAccounted(s, EnqueueConnect(OpenComplete(s, seg)));
      FreedAccounts(s, EnqueueConnect(OpenComplete(s, seg)), p);
    } else {
      SameAccounted(s, Reset(s, seg, arp));
      FreedAccounts(s, Reset(s, seg, arp), p);
    }
  }

  /** On every path of process2 the packet is freed exactly once or queued for the user exactly once. */
  lemma PacketDisposedOnce(s: State, p: Packet, arp: bool)
    requires Named(s.q)
    ensures Accounted(Receive(s, p, arp)) == Accounted(s) + multiset{p}
  {
    hide Accounted, Accept, ReceiveSynSent, SendPacket, Destroy, Freed, Wrap32, Wrap16;
    if s.t.phase == Closed || s.t.phase == TimeWait {
      SameAccounted(s, Reset(s, p.seg, arp));
      FreedAccounts(s, Reset(s, p.seg, arp), p);
    } else if s.t.phase == SynSent {
      SynSentAccounts(s, p, arp);
    } else if p.seg.bits.rst {
      var s1 := Destroy(s);
      DestroyAccounts(s);
      SameAccounted(s1, s1.(t := s1.t.(closeReason := 1)));
      FreedAccounts(s, s1.(t := s1.t.(closeReason := 1)), p);
      FreedAccounts(s, s, p);
    } else {
      AcceptAccounts(s, p, arp);
      SendPacketAccounts(s, Blank(), true, false, arp);
      SameAccounted(s, SeqError(PureAck(s, false, arp)));
      FreedAccounts(s, SeqError(PureAck(s, false, arp)), p);
    }
  }

  lemma SendPacketAccounts(s: State, b: Buffer, forceAck: bool, forceProbe: bool, arp: bool)
    ensures SendPacket(s, b, forceAck, forceProbe, arp).s.r == s.r
    ensures SendPacket(s, b, forceAck, forceProbe, arp).s.h.freed == s.h.freed
  {
    hide Wrap32;
  }
}
