/**
 * The send side of an actively opened connection: byte accounting, sequence numbers, the wire,
 * flow control and teardown, as one invariant kept by every step.
 */
module TcpStream {
  import opened Machine
  import opened Counting
  import opened TcpModel
  import opened TcpPool

  // ---------------------------------------------------------------- the invariant

  ghost predicate Valid(q: Queues, ids: seq<nat>) { forall i :: 0 <= i < |ids| ==> ids[i] < |q.bufs| }

  ghost function SentData(q: Queues): seq<Byte> requires Named(q) { Data(q.bufs, q.sent) }
  ghost function OutData(q: Queues): seq<Byte> requires Named(q) { Data(q.bufs, q.outgoing) }

  /** Sequence number of the first user byte. */
  ghost function Base(h: History): int { h.iss + (if h.synSent then 1 else 0) }

  /** What the user queued, minus what was removed, is on the two queues, in order. */
  ghost predicate Bytes(s: State)
    requires Named(s.q)
  {
    s.h.una <= |s.h.accepted| && s.h.accepted[s.h.una..] == SentData(s.q) + OutData(s.q)
  }

  ghost predicate Sequenced(s: State)
    requires Named(s.q)
  {
    s.t.seqNum == Wrap32(Base(s.h) + Sent(s) + s.h.fins)
  }

  /** Packet `i` of `sent` lies on the stream where its header says. */
  ghost predicate SentOk(s: State, i: nat)
    requires Named(s.q) && i < |s.q.sent|
  {
    var id := s.q.sent[i];
    var b := s.q.bufs[id];
    if id == Conn(s.q) then
      && i == |s.q.sent| - 1 && b.data == []
      && b.last == Wrap32(s.t.seqNum - 1)
      && b.header.data == []
      && (if s.h.fins == 1 then
            !b.header.bits.syn && b.header.num == (if b.header.bits.fin then b.last else s.t.seqNum)
          else
            && s.h.synSent && b.header.num == s.h.iss && !b.header.bits.fin
            && (s.t.phase == SynSent || s.t.phase == Closed))
    else
      var from := Base(s.h) + s.h.una + |Data(s.q.bufs, s.q.sent[..i])|;
      && b.header.num == Wrap32(from) && b.header.data == b.data && !b.header.bits.syn
      && b.last == Wrap32(from + |b.data| + (if b.header.bits.fin then 1 else 0) - 1)
      && (b.header.bits.fin ==> i == |s.q.sent| - 1 && s.h.fins == 1)
      && (b.data != [] || b.header.bits.fin)
      && |b.data| < TWO16
  }

  ghost predicate OutOk(s: State, i: nat)
    requires Named(s.q) && i < |s.q.outgoing|
  {
    var id := s.q.outgoing[i];
    var b := s.q.bufs[id];
    if id == Conn(s.q) then
      && b.data == []
      && (b.pendingArp ==>
            && (s.t.phase == SynSent || s.t.phase == Closed)
            && |s.q.outgoing| == 1 && s.q.sent == [] && s.h.synSent && s.h.fins == 0 && s.h.accepted == []
            && !b.ackOnly && b.header.data == [] && !b.header.bits.fin && b.header.num == s.h.iss
            && b.last == Wrap32(s.t.seqNum - 1))
    else
      !b.pendingArp && !b.ackOnly && s.h.fins == 0 && s.t.phase != Closed && |b.data| < TWO16
  }

  /** The segment carries the slice of the stream at `k`; its FIN, if any, ends the stream. */
  ghost predicate OnStreamAt(h: History, w: Segment, k: nat) {
    && k + |w.data| <= |h.accepted|
    && w.num == Wrap32(Base(h) + k)
    && w.data == h.accepted[k..k + |w.data|]
    && (w.bits.fin ==> h.fins == 1 && k + |w.data| == |h.accepted|)
  }

  /** An empty segment one number before the stream (our SYN, an early probe) or behind our FIN. */
  ghost predicate BesideStream(h: History, w: Segment) {
    && w.data == [] && !w.bits.fin
    && (w.num == Wrap32(Base(h) - 1) || (h.fins == 1 && w.num == Wrap32(Base(h) + |h.accepted| + 1)))
  }

  predicate IsReset(w: Segment) { w.bits.rst && w.data == [] && !w.bits.fin }

  /** Where on the stream a segment belongs; only a reset belongs nowhere. */
  ghost predicate OnStream(h: History, w: Segment) {
    && (w.bits.syn ==> w.num == h.iss)
    && (IsReset(w) || BesideStream(h, w) || exists k: nat :: OnStreamAt(h, w, k))
  }

  ghost predicate AllResets(wire: seq<Segment>) {
    forall i :: 0 <= i < |wire| ==> IsReset(wire[i])
  }

  ghost predicate WireOk(h: History) {
    forall i :: 0 <= i < |h.wire| ==> OnStream(h, h.wire[i])
  }

  /**
   * Flow control: what has been sent and the window left reach `behind` numbers past the right edge
   * the peer last advertised, no more and no less.
   */
  ghost predicate Flow(s: State)
    requires Named(s.q)
  {
    Sent(s) + s.h.edgeFins + s.t.remoteWindow == s.h.edge + s.h.behind && s.h.edgeFins <= s.h.fins
  }

  predicate FinSentPhase(p: Phase) {
    p == FinWait1 || p == FinWait2 || p == Closing || p == TimeWait || p == LastAck
  }

  predicate FinCountedPhase(p: Phase) {
    p == CloseWait || p == SendFin2 || p == LastAck || p == Closing || p == TimeWait
  }

  predicate StreamPhase(p: Phase) {
    p == Established || p == CloseWait || p == SendFin1 || p == SendFin2
  }

  ghost predicate PhaseOk(s: State)
    requires Named(s.q)
  {
    var p := s.t.phase;
    && p != SynRecved && p != SendFin3
    && s.h.fins <= 1 && s.h.finsRcvd <= 1
    && (p == SynSent ==>
          && s.h.accepted == [] && s.h.fins == 0 && s.h.finsRcvd == 0 && s.t.oldest == s.h.iss
          && s.t.remoteWindow == 0 && (!s.h.synSent ==> AllResets(s.h.wire))
          && (|| (s.q.outgoing == [Conn(s.q)] && s.q.sent == []
                  && (s.h.synSent <==> s.q.bufs[Conn(s.q)].pendingArp) && !s.q.bufs[Conn(s.q)].ackOnly)
              || (s.q.outgoing == [] && s.q.sent == [Conn(s.q)] && s.h.synSent)))
    && (p == Closed && s.h.fins == 0 ==> s.q.outgoing == [] || s.q.sent == [])
    && (StreamPhase(p) ==> s.h.fins == 0)
    && (FinSentPhase(p) ==> s.h.fins == 1)
    && (p != Closed ==> (s.h.finsRcvd == 1 <==> FinCountedPhase(p)))
    && (p == FinWait2 || p == TimeWait ==> s.h.finAcked)
    && (s.h.finAcked ==> s.h.fins == 1)
  }

  ghost predicate SentAll(s: State)
    requires Named(s.q)
  {
    forall i :: 0 <= i < |s.q.sent| ==> SentOk(s, i)
  }

  ghost predicate OutAll(s: State)
    requires Named(s.q)
  {
    forall i :: 0 <= i < |s.q.outgoing| ==> OutOk(s, i)
  }

  ghost predicate Accounts(s: State)
    requires Named(s.q)
  {
    Bytes(s) && Sequenced(s) && Flow(s)
  }

  ghost predicate Live(s: State)
    requires Named(s.q)
  {
    Accounts(s) && SentAll(s) && OutAll(s)
  }

  ghost predicate Core(s: State) {
    && Named(s.q)
    && PoolInv(s)
    && PhaseOk(s)
    && WireOk(s.h)
    && s.h.violations == 0
    && (s.h.aborted ==> s.t.phase == Closed && s.q.outgoing == [] && s.q.sent == [])
    && (!s.h.aborted ==> Live(s))
  }

  // ---------------------------------------------------------------- data of a queue

  lemma {:induction false} DataConcat(bufs: seq<Buffer>, xs: seq<nat>, ys: seq<nat>)
    requires forall i :: 0 <= i < |xs| ==> xs[i] < |bufs|
    requires forall i :: 0 <= i < |ys| ==> ys[i] < |bufs|
    ensures Data(bufs, xs + ys) == Data(bufs, xs) + Data(bufs, ys)
  {
    if ys == [] {
      assert xs + ys == xs;
    } else {
      var n := |ys| - 1;
      assert (xs + ys)[..|xs + ys| - 1] == xs + ys[..n];
      DataConcat(bufs, xs, ys[..n]);
    }
  }

  lemma DataSingle(bufs: seq<Buffer>, id: nat)
    requires id < |bufs|
    ensures Data(bufs, [id]) == bufs[id].data
  {
    assert [id][..0] == [];
  }

  lemma DataFirst(bufs: seq<Buffer>, ids: seq<nat>)
    requires ids != [] && forall i :: 0 <= i < |ids| ==> ids[i] < |bufs|
    ensures Data(bufs, ids) == bufs[ids[0]].data + Data(bufs, ids[1..])
  {
    assert ids == [ids[0]] + ids[1..];
    DataConcat(bufs, [ids[0]], ids[1..]);
    DataSingle(bufs, ids[0]);
  }

  lemma DataLast(bufs: seq<Buffer>, ids: seq<nat>, id: nat)
    requires (forall i :: 0 <= i < |ids| ==> ids[i] < |bufs|) && id < |bufs|
    ensures Data(bufs, ids + [id]) == Data(bufs, ids) + bufs[id].data
  {
    assert (ids + [id])[..|ids|] == ids;
  }

  lemma {:induction false} DataFrame(bufs: seq<Buffer>, bufs': seq<Buffer>, ids: seq<nat>)
    requires forall i :: 0 <= i < |ids| ==> ids[i] < |bufs| && ids[i] < |bufs'|
    requires forall i :: 0 <= i < |ids| ==> bufs'[ids[i]].data == bufs[ids[i]].data
    ensures Data(bufs', ids) == Data(bufs, ids)
  {
    if ids != [] { DataFrame(bufs, bufs', ids[..|ids| - 1]); }
  }

  lemma {:induction false} DataPrefix(bufs: seq<Buffer>, ids: seq<nat>, i: nat)
    requires i <= |ids| && forall j :: 0 <= j < |ids| ==> ids[j] < |bufs|
    ensures Data(bufs, ids[..i]) <= Data(bufs, ids)
  {
    if i < |ids| {
      DataPrefix(bufs, ids[..|ids| - 1], i);
      assert ids[..|ids| - 1][..i] == ids[..i];
    } else {
      assert ids[..i] == ids;
    }
  }

  /** A pool buffer is in only one slot of one queue, and not in the user's hands. */
  lemma OutgoingUnique(q: Queues, held: set<nat>, i: nat)
    requires Conserved(q, held) && i < |q.outgoing| && q.outgoing[i] != Conn(q)
    ensures q.outgoing[i] !in held
    ensures forall j :: 0 <= j < |q.sent| ==> q.sent[j] != q.outgoing[i]
    ensures forall j :: 0 <= j < |q.outgoing| && j != i ==> q.outgoing[j] != q.outgoing[i]
  {
    var x := q.outgoing[i];
    assert Places(q, held, x) == 1;
    OccIn(q.outgoing, i);
    forall j | 0 <= j < |q.sent| ensures q.sent[j] != x {
      if q.sent[j] == x { OccIn(q.sent, j); }
    }
    forall j | 0 <= j < |q.outgoing| && j != i ensures q.outgoing[j] != x {
      if q.outgoing[j] == x { OccTwice(q.outgoing, if i < j then i else j, if i < j then j else i); }
    }
  }

  /** A buffer in the user's hands is in no queue. */
  lemma HeldUnique(q: Queues, held: set<nat>, x: nat)
    requires Conserved(q, held) && x in held
    ensures forall j :: 0 <= j < |q.sent| ==> q.sent[j] != x
    ensures forall j :: 0 <= j < |q.outgoing| ==> q.outgoing[j] != x
  {
    assert Places(q, held, x) == 1;
    forall j | 0 <= j < |q.sent| ensures q.sent[j] != x { if q.sent[j] == x { OccIn(q.sent, j); } }
    forall j | 0 <= j < |q.outgoing| ensures q.outgoing[j] != x {
      if q.outgoing[j] == x { OccIn(q.outgoing, j); }
    }
  }

  // ---------------------------------------------------------------- the wire

  /** What is on the wire stays where it is when the stream only grows at its open end. */
  lemma OnStreamGrows(h: History, h': History, w: Segment)
    requires OnStream(h, w) && h'.iss == h.iss && h.accepted <= h'.accepted
    requires h.fins == 1 ==> h'.fins == 1 && h'.accepted == h.accepted
    requires h'.synSent == h.synSent || IsReset(w)
    ensures OnStream(h', w)
  {
    if !IsReset(w) && !BesideStream(h, w) {
      var k: nat :| OnStreamAt(h, w, k);
      assert h'.accepted[k..k + |w.data|] == h.accepted[k..k + |w.data|];
      assert OnStreamAt(h', w, k);
    }
  }

  lemma WireGrows(h: History, h': History)
    requires WireOk(h) && h'.wire == h.wire && h'.iss == h.iss && h.accepted <= h'.accepted
    requires h.fins == 1 ==> h'.fins == 1 && h'.accepted == h.accepted
    requires h'.synSent == h.synSent || AllResets(h.wire)
    ensures WireOk(h')
  {
    hide OnStream;
    forall i | 0 <= i < |h'.wire| ensures OnStream(h', h'.wire[i]) {
      assert OnStream(h, h.wire[i]);
      OnStreamGrows(h, h', h.wire[i]);
    }
  }

  lemma EmitOk(h: History, w: Segment)
    requires WireOk(h) && OnStream(h, w)
    ensures WireOk(Emit(h, w))
  {
    hide OnStream;
    var h' := Emit(h, w);
    forall i | 0 <= i < |h'.wire| ensures OnStream(h', h'.wire[i]) {
      assert OnStream(h, h'.wire[i]);
      OnStreamGrows(h, h', h'.wire[i]);
    }
  }

  lemma Slice(acc: seq<Byte>, una: nat, x: seq<Byte>, b: seq<Byte>, y: seq<Byte>)
    requires una <= |acc| && acc[una..] == x + (b + y)
    ensures una + |x| + |b| + |y| == |acc|
    ensures acc[una + |x|..una + |x| + |b|] == b
  {
    var rest := acc[una..];
    assert |rest| == |x| + |b| + |y|;
    forall i | 0 <= i < |b| ensures acc[una + |x| + i] == b[i] {
      assert rest[|x| + i] == b[i];
    }
  }

  // ---------------------------------------------------------------- frames

  /** Agreement on everything SentOk reads. */
  ghost predicate SentFrame(s: State, s': State)
    requires Named(s.q) && Named(s'.q)
  {
    && s'.q.sent == s.q.sent && |s'.q.bufs| == |s.q.bufs| && s'.t.seqNum == s.t.seqNum
    && s'.h.iss == s.h.iss && s'.h.synSent == s.h.synSent && s'.h.una == s.h.una && s'.h.fins == s.h.fins
    && (s'.t.phase == s.t.phase || s'.t.phase == Closed || (s.t.phase != SynSent && s.t.phase != Closed))
    && forall i :: 0 <= i < |s.q.sent| ==> SameSegment(s.q.bufs[s.q.sent[i]], s'.q.bufs[s.q.sent[i]])
  }

  predicate SameSegment(b: Buffer, b': Buffer) {
    b'.data == b.data && b'.header == b.header && b'.last == b.last
  }

  lemma SentKept(s: State, s': State)
    requires Named(s.q) && Named(s'.q) && SentFrame(s, s') && SentAll(s)
    ensures SentAll(s') && SentData(s'.q) == SentData(s.q)
  {
    DataFrame(s.q.bufs, s'.q.bufs, s.q.sent);
    forall i | 0 <= i < |s'.q.sent| ensures SentOk(s', i) {
      assert SentOk(s, i);
      DataFrame(s.q.bufs, s'.q.bufs, s.q.sent[..i]);
    }
  }

  /** Agreement on everything OutOk reads, for the packets that stay on `outgoing`. */
  ghost predicate OutFrame(s: State, s': State)
    requires Named(s.q) && Named(s'.q)
  {
    && s'.q.outgoing == s.q.outgoing && s'.q.sent == s.q.sent && |s'.q.bufs| == |s.q.bufs|
    && s'.t.seqNum == s.t.seqNum && s'.h.iss == s.h.iss && s'.h.synSent == s.h.synSent && s'.h.fins == s.h.fins
    && s'.h.accepted == s.h.accepted
    && (|| s'.t.phase == s.t.phase
        || (s.t.phase != SynSent && s.t.phase != Closed && s'.t.phase != Closed)
        || (s'.t.phase == Closed && forall i :: 0 <= i < |s.q.outgoing| ==> s.q.outgoing[i] == Conn(s.q)))
    && forall i :: 0 <= i < |s.q.outgoing| ==> s'.q.bufs[s.q.outgoing[i]] == s.q.bufs[s.q.outgoing[i]]
  }

  lemma OutKept(s: State, s': State)
    requires Named(s.q) && Named(s'.q) && OutFrame(s, s') && OutAll(s)
    ensures OutAll(s') && OutData(s'.q) == OutData(s.q)
  {
    DataFrame(s.q.bufs, s'.q.bufs, s.q.outgoing);
    forall i | 0 <= i < |s'.q.outgoing| ensures OutOk(s', i) { assert OutOk(s, i); }
  }

  ghost predicate SameEdge(h: History, h': History) {
    h'.edge == h.edge && h'.behind == h.behind && h'.edgeFins == h.edgeFins
  }

  /** The byte accounts only read the data of the two queues. */
  lemma AccountsKept(s: State, s': State, data: seq<Byte>)
    requires Named(s.q) && Named(s'.q) && Accounts(s)
    requires s'.t.seqNum == s.t.seqNum && s'.t.remoteWindow == s.t.remoteWindow
    requires s'.h.iss == s.h.iss && s'.h.synSent == s.h.synSent && s'.h.fins == s.h.fins
    requires s'.h.una == s.h.una && SameEdge(s.h, s'.h)
    requires SentData(s'.q) == SentData(s.q)
    requires s'.h.accepted == s.h.accepted + data && OutData(s'.q) == OutData(s.q) + data
    ensures Accounts(s')
  {
    var una := s.h.una;
    assert s'.h.accepted[una..] == s.h.accepted[una..] + data;
  }

  ghost predicate SameHistory(h: History, h': History) {
    && h'.iss == h.iss && h'.synSent == h.synSent && h'.fins == h.fins && h'.accepted == h.accepted
    && h'.una == h.una && SameEdge(h, h') && h'.violations == h.violations && h'.aborted == h.aborted
    && h'.finAcked == h.finAcked
  }

  /** Steps that move no sequence number, no window and nothing on the queues. */
  lemma Still(s: State, s': State)
    requires Core(s) && PoolInv(s') && PhaseOk(s') && WireOk(s'.h) && SameHistory(s.h, s'.h)
    requires s'.t.seqNum == s.t.seqNum && s'.t.remoteWindow == s.t.remoteWindow
    requires SentFrame(s, s') && OutFrame(s, s')
    requires s.h.aborted ==> s'.t.phase == Closed
    ensures Core(s')
  {
    if !s.h.aborted {
      SentKept(s, s');
      OutKept(s, s');
      assert OutData(s'.q) == OutData(s.q) + [] && s'.h.accepted == s.h.accepted + [];
      AccountsKept(s, s', []);
    }
  }

  // ---------------------------------------------------------------- queueing

  lemma DropQueuedAckStream(s: State)
    requires Core(s) && !s.h.aborted && s.t.phase != SynSent
    ensures Core(DropQueuedAck(s))
    ensures DropQueuedAck(s).t == s.t && DropQueuedAck(s).q.bufs == s.q.bufs
    ensures DropQueuedAck(s).h == s.h.(replaced := DropQueuedAck(s).h.replaced)
  {
    var s' := DropQueuedAck(s);
    DropQueuedAckKeeps(s);
    if s' != s {
      DataSingle(s.q.bufs, s.q.outgoing[0]);
      assert s.q.outgoing == [s.q.outgoing[0]];
      SentKept(s, s');
      assert OutData(s'.q) == OutData(s.q) + [] && s'.h.accepted == s.h.accepted + [];
      AccountsKept(s, s', []);
      WireGrows(s.h, s'.h);
    }
  }

  /** A buffer that may be queued: the socket's own empty packet, or one the user holds. */
  ghost predicate Queueable(s: State, id: nat)
    requires Named(s.q) && id < |s.q.bufs|
  {
    && s.t.phase != SynSent && s.t.phase != Closed && !s.h.aborted
    && (|| (id == Conn(s.q) && s.q.bufs[id].data == [])
        || (id in s.h.held && s.h.fins == 0 && |s.q.bufs[id].data| < TWO16))
  }

  lemma AppendOut(s: State, id: nat)
    requires Core(s) && id < |s.q.bufs| && Queueable(s, id)
    ensures var s' := Append(s, id).0; Named(s'.q) && OutAll(s')
  {
    var s' := Append(s, id).0;
    if id in s.h.held { HeldUnique(s.q, s.h.held, id); }
    forall i | 0 <= i < |s'.q.outgoing| ensures OutOk(s', i) {
      if i < |s.q.outgoing| { assert OutOk(s, i); }
    }
  }

  lemma AppendBytes(s: State, id: nat)
    requires Core(s) && id < |s.q.bufs| && Queueable(s, id)
    ensures var s' := Append(s, id).0; Named(s'.q) && SentAll(s') && Accounts(s')
  {
    hide Data;
    var s' := Append(s, id).0;
    if id in s.h.held { HeldUnique(s.q, s.h.held, id); }
    var b := s.q.bufs[id];
    SentKept(s, s');
    DataFrame(s.q.bufs, s'.q.bufs, s.q.outgoing);
    DataLast(s'.q.bufs, s.q.outgoing, id);
    var data := if s'.q.outgoing == s.q.outgoing then [] else b.data;
    assert s'.h.accepted == s.h.accepted + data && OutData(s'.q) == OutData(s.q) + data;
    AccountsKept(s, s', data);
  }

  lemma AppendStream(s: State, id: nat)
    requires Core(s) && id < |s.q.bufs| && Queueable(s, id)
    ensures Core(Append(s, id).0)
  {
    var s' := Append(s, id).0;
    AppendKeeps(s, id);
    AppendOut(s, id);
    AppendBytes(s, id);
    var data := s.q.bufs[id].data;
    assert s.h.fins == 1 ==> data == [];
    assert s'.h.accepted == s.h.accepted || s'.h.accepted == s.h.accepted + data;
    WireGrows(s.h, s'.h);
  }

  lemma EnqueueStream(s: State, id: nat)
    requires Core(s) && id < |s.q.bufs| && Queueable(s, id)
    ensures Core(Enqueue(s, id).0)
  {
    hide Data;
    DropQueuedAckStream(s);
    var s1 := DropQueuedAck(s);
    assert Queueable(s1, id);
    AppendStream(s1, id);
  }

  /** connectPacket never carries data while it is queued, so emptying it changes nothing. */
  lemma ConnEmpty(s: State)
    requires Core(s)
    ensures var c := Conn(s.q);
            var s1 := s.(q := s.q.(bufs := s.q.bufs[c := s.q.bufs[c].(data := [])]));
            Core(s1)
  {
    hide Data;
    var c := Conn(s.q);
    var s1 := s.(q := s.q.(bufs := s.q.bufs[c := s.q.bufs[c].(data := [])]));
    SamePlaces(s.q, s1.q, s.h.held);
    forall i | 0 <= i < |s.q.outgoing| ensures s1.q.bufs[s.q.outgoing[i]] == s.q.bufs[s.q.outgoing[i]] {
      assert !s.h.aborted;
      assert OutOk(s, i);
    }
    forall i | 0 <= i < |s.q.sent| ensures s1.q.bufs[s.q.sent[i]] == s.q.bufs[s.q.sent[i]] {
      assert !s.h.aborted;
      assert SentOk(s, i);
    }
    Still(s, s1);
  }

  lemma EnqueueConnectStream(s: State)
    requires Core(s)
    requires s.t.phase == SynSent || s.t.phase == Closed ==> EnqueueRefused(s, Conn(s.q))
    ensures Core(EnqueueConnect(s))
  {
    var c := Conn(s.q);
    var s1 := s.(q := s.q.(bufs := s.q.bufs[c := s.q.bufs[c].(data := [])]));
    ConnEmpty(s);
    if !EnqueueRefused(s1, c) { EnqueueStream(s1, c); }
  }

  /** Outside ESTABLISHED enqueue never shortens the queue, and fills an empty one. */
  lemma EnqueueConnectFills(s: State)
    requires Named(s.q) && s.t.phase != Established
    ensures EnqueueConnect(s).t == s.t
    ensures s.q.outgoing != [] ==> EnqueueConnect(s).q.outgoing != []
    ensures !EnqueueRefused(s, Conn(s.q)) ==> EnqueueConnect(s).q.outgoing != []
  {
  }

  // ---------------------------------------------------------------- sending

  /** After our FIN only empty packets are queued. */
  lemma {:induction false} NothingQueued(s: State)
    requires Core(s) && !s.h.aborted && s.h.fins == 1
    ensures OutData(s.q) == []
  {
    hide Places, WireOk, SentAll;
    EmptyData(s.q.bufs, s.q.outgoing, Conn(s.q)) by {
      forall i | 0 <= i < |s.q.outgoing| ensures s.q.outgoing[i] == Conn(s.q) && s.q.bufs[s.q.outgoing[i]].data == [] {
        assert OutOk(s, i);
      }
    }
  }

  lemma {:induction false} EmptyData(bufs: seq<Buffer>, ids: seq<nat>, c: nat)
    requires forall i :: 0 <= i < |ids| ==> ids[i] < |bufs| && bufs[ids[i]].data == []
    ensures Data(bufs, ids) == []
  {
    if ids != [] { EmptyData(bufs, ids[..|ids| - 1], c); }
  }

  /** A pure ack stands at the next byte to send; a probe one before, perhaps before the stream. */
  lemma PureAckOnStream(s: State, probe: bool)
    requires Core(s) && s.t.phase == Established
    ensures OnStream(s.h, Header(s, [], true, probe))
  {
    hide Data, PoolInv, SentAll, OutAll, WireOk, Wrap32;
    PureAckHeader(s, probe);
    PositionOnStream(s.h, Header(s, [], true, probe), if probe then Sent(s) - 1 else Sent(s));
  }

  lemma PureAckHeader(s: State, probe: bool)
    requires Named(s.q) && Accounts(s) && s.t.phase == Established && s.h.fins == 0
    ensures var w := Header(s, [], true, probe);
            && w.data == [] && !w.bits.fin && !w.bits.syn
            && w.num == Wrap32(Base(s.h) + Sent(s) + (if probe then -1 else 0))
    ensures Sent(s) <= |s.h.accepted|
  {
    hide Data, Flow;
  }

  lemma PositionOnStream(h: History, w: Segment, k: int)
    requires w.data == [] && !w.bits.fin && !w.bits.syn && w.num == Wrap32(Base(h) + k) && -1 <= k <= |h.accepted|
    ensures OnStream(h, w)
  {
    hide Wrap32;
    if k >= 0 { assert OnStreamAt(h, w, k); }
  }

  /** An empty packet that asks for nothing leaves the connection as it was. */
  lemma PureAckStream(s: State, probe: bool, arp: bool)
    requires Core(s)
    ensures Core(PureAck(s, probe, arp))
    ensures PureAck(s, probe, arp).q == s.q && PureAck(s, probe, arp).t == s.t && PureAck(s, probe, arp).r == s.r
    ensures PureAck(s, probe, arp).h == s.h.(wire := PureAck(s, probe, arp).h.wire)
  {
    hide Data, WireOk, Live;
    var s' := PureAck(s, probe, arp);
    if s.t.phase == Established {
      var w := Header(s, [], true, probe);
      PureAckOnStream(s, probe);
      EmitOk(s.h, w);
      SamePool(s, s');
      Still(s, s');
    }
  }

  /** Only SYN_SENT may still be waiting for ARP. */
  ghost predicate ArpSettled(s: State, arp: bool) {
    s.t.phase == SynSent || s.t.macCached || arp
  }

  /** The head of `outgoing` may go: its data fits the remote window and `sent` has a slot. */
  ghost predicate HeadReady(s: State, arp: bool) {
    && Core(s) && !s.h.aborted && s.q.outgoing != [] && |s.q.sent| < RING && ArpSettled(s, arp)
    && |s.q.bufs[s.q.outgoing[0]].data| <= s.t.remoteWindow
  }

  /** The state after the head of `outgoing` has been handed to sendPacket. */
  ghost function HeadSent(s: State, arp: bool): State
    requires Named(s.q) && s.q.outgoing != []
  {
    var id := s.q.outgoing[0];
    var f := SendPacket(s, s.q.bufs[id], false, false, arp);
    if f.pending then f.s.(q := s.q.(bufs := s.q.bufs[id := f.b])) else AfterSend(f.s, id, f.b)
  }

  lemma HeadSentPool(s: State, arp: bool)
    requires HeadReady(s, arp)
    ensures Kept(s, HeadSent(s, arp))
  {
    hide SendPacket, AfterSend, Places, PhaseOk, WireOk, Live, Wrap16;
    var id := s.q.outgoing[0];
    var f := SendPacket(s, s.q.bufs[id], false, false, arp);
    SendPacketFrame(s, s.q.bufs[id], false, false, arp);
    if f.pending {
      SamePlaces(s.q, s.q.(bufs := s.q.bufs[id := f.b]), s.h.held);
    } else {
      AfterSendKeeps(f.s, id, f.b);
    }
  }

  /** The head is our SYN: not sent yet, or filled in and waiting for ARP. */
  ghost predicate Opening(s: State)
    requires Named(s.q)
  {
    s.q.outgoing != [] && (s.t.phase == SynSent || s.q.bufs[s.q.outgoing[0]].pendingArp)
  }

  lemma OpeningShape(s: State, arp: bool)
    requires HeadReady(s, arp) && Opening(s)
    ensures SynQueued(s)
  {
    assert OutOk(s, 0);
    assert SentData(s.q) == [];
  }

  /** connectPacket alone is queued, and it is the SYN. */
  ghost predicate SynQueued(s: State)
    requires Named(s.q)
  {
    var c := Conn(s.q);
    && s.q.outgoing == [c] && s.q.sent == [] && s.q.bufs[c].data == [] && !s.q.bufs[c].ackOnly
    && s.h.fins == 0 && (s.t.phase == SynSent || s.t.phase == Closed)
    && (s.h.synSent <==> s.q.bufs[c].pendingArp)
    && s.t.seqNum == Wrap32(s.h.iss + (if s.h.synSent then 1 else 0))
    && (s.q.bufs[c].pendingArp ==>
          && s.q.bufs[c].header.data == [] && !s.q.bufs[c].header.bits.fin && s.q.bufs[c].header.num == s.h.iss
          && s.q.bufs[c].last == Wrap32(s.t.seqNum - 1))
    && s.h.una == 0 && s.h.accepted == []
  }

  /** What sending it may do: it is on `sent`, or waiting for ARP where it was. */
  ghost predicate SynMoved(s: State, s': State)
    requires Named(s.q)
  {
    var c := Conn(s.q);
    && |s'.q.bufs| == |s.q.bufs|
    && s'.t.phase == s.t.phase && s'.t.remoteWindow == s.t.remoteWindow && s'.t.oldest == s.t.oldest
    && s'.t.seqNum == Wrap32(s.h.iss + 1)
    && s'.h == s.h.(synSent := true, wire := s'.h.wire)
    && (s'.h.wire == s.h.wire
        || exists w: Segment :: s'.h.wire == s.h.wire + [w] && w.data == [] && !w.bits.fin && w.num == s.h.iss)
    && s'.q.bufs[c].data == [] && !s'.q.bufs[c].ackOnly && s'.q.bufs[c].header.data == []
    && s'.q.bufs[c].header.num == s.h.iss
    && !s'.q.bufs[c].header.bits.fin && s'.q.bufs[c].last == Wrap32(s'.t.seqNum - 1)
    && (|| (s'.q.outgoing == [] && s'.q.sent == [c])
        || (s'.q.outgoing == [c] && s'.q.sent == [] && s'.q.bufs[c].pendingArp))
  }

  lemma SynRetried(s: State, arp: bool)
    requires Named(s.q) && SynQueued(s) && s.q.bufs[Conn(s.q)].pendingArp
    ensures SynMoved(s, HeadSent(s, arp))
  {
    var w := s.q.bufs[Conn(s.q)].header;
    assert arp ==> HeadSent(s, arp).h.wire == s.h.wire + [w];
  }

  lemma SynFilledIn(s: State, arp: bool)
    requires Named(s.q) && SynQueued(s) && s.t.phase == SynSent && !s.q.bufs[Conn(s.q)].pendingArp
    ensures SynMoved(s, HeadSent(s, arp))
  {
    var w := Header(s, [], false, false);
    assert w.data == [] && !w.bits.fin;
    var s' := HeadSent(s, arp);
    assert s'.h.wire == s.h.wire || s'.h.wire == s.h.wire + [w];
  }

  lemma SynMovedWire(s: State, s': State)
    requires WireOk(s.h) && Named(s.q) && SynQueued(s) && SynMoved(s, s')
    requires s.h.synSent || AllResets(s.h.wire)
    ensures WireOk(s'.h)
  {
    hide Data;
    var h1 := s.h.(synSent := true);
    WireGrows(s.h, h1);
    if s'.h.wire != s.h.wire {
      var w: Segment :| s'.h.wire == s.h.wire + [w] && w.data == [] && !w.bits.fin && w.num == s.h.iss;
      assert OnStream(h1, w);
      EmitOk(h1, w);
    }
  }

  lemma SynMovedLive(s: State, s': State)
    requires Named(s.q) && Named(s'.q) && SynQueued(s) && SynMoved(s, s') && Accounts(s)
    ensures Live(s')
  {
    var c := Conn(s.q);
    DataSingle(s.q.bufs, c);
    DataSingle(s'.q.bufs, c);
    assert SentData(s.q) == [] && SentData(s'.q) == [] && OutData(s'.q) == [];
    assert Accounts(s');
    assert SentAll(s') && OutAll(s');
  }

  lemma SynMovedCore(s: State, s': State)
    requires Core(s) && !s.h.aborted && SynQueued(s) && SynMoved(s, s') && PoolInv(s')
    requires s.h.synSent || s.t.phase == SynSent
    ensures Core(s')
  {
    hide WireOk, Places, Data, Wrap32;
    SynMovedWire(s, s');
    SynMovedLive(s, s');
  }

  lemma HeadSentOpening(s: State, arp: bool)
    requires HeadReady(s, arp) && Opening(s)
    ensures Core(HeadSent(s, arp))
  {
    HeadSentPool(s, arp);
    OpeningShape(s, arp);
    if s.h.synSent { SynRetried(s, arp); } else { SynFilledIn(s, arp); }
    SynMovedCore(s, HeadSent(s, arp));
  }

  /**
   * What a first transmission does once ARP is settled: the head of `outgoing` goes on the wire
   * as `w`, and on to `sent` unless it is a bare ack.
   */
  ghost predicate Transmitted(s: State, s': State, w: Segment, onSent: bool)
    requires Named(s.q) && s.q.outgoing != []
  {
    var id := s.q.outgoing[0];
    var b := s.q.bufs[id];
    var fin := if w.bits.fin then 1 else 0;
    && s'.t.seqNum == Wrap32(s.t.seqNum + |b.data| + fin)
    && s'.t.remoteWindow == s.t.remoteWindow - |b.data|
    && s'.h == s.h.(fins := s.h.fins + fin, wire := s.h.wire + [w])
    && (if w.bits.fin then
          && |s.q.outgoing| == 1
          && (if s.t.phase == SendFin2 then s'.t.phase == LastAck else s.t.phase == SendFin1 && s'.t.phase == FinWait1)
        else s'.t.phase == s.t.phase)
    && w.num == s.t.seqNum && w.data == b.data && !w.bits.syn
    && |s'.q.bufs| == |s.q.bufs| && (forall j :: 0 <= j < |s.q.bufs| && j != id ==> s'.q.bufs[j] == s.q.bufs[j])
    && s'.q.bufs[id].data == b.data && s'.q.bufs[id].header == w && !s'.q.bufs[id].pendingArp
    && s'.q.bufs[id].last == Wrap32(s'.t.seqNum - 1)
    && s'.q.outgoing == s.q.outgoing[1..]
    && s'.q.sent == (if onSent then s.q.sent + [id] else s.q.sent)
    && (if onSent then b.data != [] || w.bits.fin else b.data == [] && (w.bits.fin ==> id == Conn(s.q)))
  }

  /** The head is an ordinary packet: data, a bare ack or the FIN. */
  ghost predicate Ordinary(s: State)
    requires Named(s.q) && s.q.outgoing != []
  {
    var b := s.q.bufs[s.q.outgoing[0]];
    && s.t.phase != SynSent && s.t.phase != SynRecved && s.t.phase != SendFin3 && !b.pendingArp
    && (b.ackOnly ==> s.q.outgoing[0] == Conn(s.q) && b.data == [])
    && |b.data| <= s.t.remoteWindow
  }

  lemma TransmittedHolds(s: State, arp: bool)
    requires Named(s.q) && s.q.outgoing != [] && Ordinary(s) && (s.t.macCached || arp)
    ensures exists w: Segment, onSent: bool :: Transmitted(s, HeadSent(s, arp), w, onSent)
  {
    hide SendPacket, Wrap32, Wrap16;
    var id := s.q.outgoing[0];
    var b := s.q.bufs[id];
    var f := SendPacket(s, b, false, false, arp);
    OrdinarySent(s, arp);
    assert HeadSent(s, arp) == AfterSend(f.s, id, f.b);
    assert Transmitted(s, HeadSent(s, arp), f.b.header, !f.b.ackOnly);
  }

  /** sendPacket on an ordinary packet whose way is known. */
  lemma OrdinarySent(s: State, arp: bool)
    requires Named(s.q) && s.q.outgoing != [] && Ordinary(s) && (s.t.macCached || arp)
    ensures var b := s.q.bufs[s.q.outgoing[0]];
            var f := SendPacket(s, b, false, false, arp);
            var w := f.b.header;
            var fin := if w.bits.fin then 1 else 0;
            && !f.pending && f.b.data == b.data && !f.b.pendingArp && f.b.attempts == b.attempts
            && f.b.last == Wrap32(f.s.t.seqNum - 1)
            && w.num == s.t.seqNum && w.data == b.data && !w.bits.syn
            && (f.b.ackOnly ==> b.data == [] && (w.bits.fin ==> s.q.outgoing[0] == Conn(s.q)))
            && (!f.b.ackOnly ==> b.data != [] || w.bits.fin)
            && f.s == s.(t := f.s.t, h := s.h.(fins := s.h.fins + fin, wire := s.h.wire + [w]))
            && f.s.t.seqNum == Wrap32(s.t.seqNum + |b.data| + fin)
            && f.s.t.remoteWindow == s.t.remoteWindow - |b.data|
            && (if w.bits.fin then
                  && |s.q.outgoing| == 1
                  && (if s.t.phase == SendFin2 then f.s.t.phase == LastAck
                      else s.t.phase == SendFin1 && f.s.t.phase == FinWait1)
                else f.s.t.phase == s.t.phase)
  {
    hide Wrap32, Wrap16, AdvertisedWindow;
  }

  /** The data of the packet moves from the front of `outgoing` to the back of `sent`. */
  lemma TransmittedData(s: State, s': State, w: Segment, onSent: bool)
    requires Named(s.q) && Named(s'.q) && s.q.outgoing != [] && Transmitted(s, s', w, onSent)
    ensures SentData(s'.q) == SentData(s.q) + w.data
    ensures OutData(s.q) == w.data + OutData(s'.q)
  {
    var id := s.q.outgoing[0];
    DataFirst(s.q.bufs, s.q.outgoing);
    DataFrame(s.q.bufs, s'.q.bufs, s.q.outgoing[1..]);
    DataFrame(s.q.bufs, s'.q.bufs, s.q.sent);
    if onSent { DataLast(s'.q.bufs, s.q.sent, id); }
  }

  lemma TransmittedAccounts(s: State, s': State, w: Segment, onSent: bool)
    requires Named(s.q) && Named(s'.q) && s.q.outgoing != [] && Accounts(s) && Transmitted(s, s', w, onSent)
    requires SentData(s'.q) == SentData(s.q) + w.data
    requires OutData(s.q) == w.data + OutData(s'.q)
    ensures Accounts(s')
  {
    hide Data;
    assert SentData(s.q) + (w.data + OutData(s'.q)) == (SentData(s.q) + w.data) + OutData(s'.q);
    WrapAdd(Base(s.h) + Sent(s) + s.h.fins, |w.data| + (if w.bits.fin then 1 else 0));
  }

  /** The next packet to go out is the next slice of the stream. */
  lemma NextSlice(s: State)
    requires Core(s) && !s.h.aborted && s.q.outgoing != []
    ensures var k, n := Sent(s), |s.q.bufs[s.q.outgoing[0]].data|;
            && k + n <= |s.h.accepted|
            && s.h.accepted[k..k + n] == s.q.bufs[s.q.outgoing[0]].data
            && (|s.q.outgoing| == 1 ==> k + n == |s.h.accepted|)
  {
    DataFirst(s.q.bufs, s.q.outgoing);
    var rest := Data(s.q.bufs, s.q.outgoing[1..]);
    Slice(s.h.accepted, s.h.una, SentData(s.q), s.q.bufs[s.q.outgoing[0]].data, rest);
    if |s.q.outgoing| == 1 { assert s.q.outgoing[1..] == []; }
  }

  /** Once our FIN is out, or the socket is closed, only bare acks are left to send. */
  lemma OnlyAcksLeft(s: State, s': State, w: Segment, onSent: bool)
    requires Core(s) && !s.h.aborted && s.q.outgoing != [] && Transmitted(s, s', w, onSent)
    requires s.h.fins == 1 || s.t.phase == Closed
    ensures s.q.outgoing[0] == Conn(s.q) && w.data == [] && !w.bits.fin && !onSent && s'.t.seqNum == s.t.seqNum
  {
    assert OutOk(s, 0);
  }

  lemma NextOnStream(s: State, s': State, w: Segment, onSent: bool)
    requires Core(s) && !s.h.aborted && s.q.outgoing != [] && Transmitted(s, s', w, onSent)
    requires s.h.fins == 0 && s.t.phase != Closed
    ensures OnStreamAt(s'.h, w, Sent(s))
  {
    hide Data, PoolInv, WireOk, SentAll, OutAll, PhaseOk, Flow, Wrap32;
    NextSlice(s);
  }

  /** A bare ack after our FIN stands behind it; one of a closed socket stands at the next byte. */
  lemma AckOnStream(s: State, s': State, w: Segment, onSent: bool)
    requires Core(s) && !s.h.aborted && s.q.outgoing != [] && Transmitted(s, s', w, onSent)
    requires s.h.fins == 1 || s.t.phase == Closed
    ensures OnStream(s'.h, w)
  {
    hide Data, Wrap32, WireOk, PoolInv, SentAll;
    OnlyAcksLeft(s, s', w, onSent);
    if s.h.fins == 1 {
      NothingQueued(s);
      assert Sent(s) == |s.h.accepted|;
    } else {
      assert OnStreamAt(s'.h, w, Sent(s));
    }
  }

  lemma TransmittedWire(s: State, s': State, w: Segment, onSent: bool)
    requires Core(s) && !s.h.aborted && s.q.outgoing != [] && Transmitted(s, s', w, onSent)
    ensures WireOk(s'.h)
  {
    hide Data, Wrap32, Places, OnStreamAt, BesideStream;
    var h1 := s'.h.(wire := s.h.wire);
    if s.h.fins == 1 || s.t.phase == Closed {
      AckOnStream(s, s', w, onSent);
    } else {
      NextOnStream(s, s', w, onSent);
    }
    OnStreamGrows(s'.h, h1, w);
    WireGrows(s.h, h1);
    EmitOk(h1, w);
    assert Emit(h1, w) == s'.h;
  }

  lemma TransmittedOld(s: State, s': State, w: Segment, onSent: bool, i: nat)
    requires Core(s) && !s.h.aborted && s.q.outgoing != [] && Ordinary(s) && Transmitted(s, s', w, onSent)
    requires Named(s'.q) && i < |s.q.sent|
    ensures SentOk(s', i)
  {
    hide Core, SentOk, Transmitted, Ordinary, OnStream;
    SentOkAt(s, i);
    if s.q.sent[i] == Conn(s.q) {
      OldConn(s, s', w, onSent, i);
    } else {
      OldPool(s, s', w, onSent, i);
    }
  }

  lemma SentOkAt(s: State, i: nat)
    requires Core(s) && !s.h.aborted && i < |s.q.sent|
    ensures SentOk(s, i) && s.h.fins <= 1
  {
    hide PoolInv, WireOk, OutAll, Accounts, SentOk;
  }

  /** A pool packet on `sent` is not the one that goes out. */
  lemma OldPool(s: State, s': State, w: Segment, onSent: bool, i: nat)
    requires Core(s) && !s.h.aborted && s.q.outgoing != [] && Ordinary(s) && Transmitted(s, s', w, onSent)
    requires Named(s'.q) && i < |s.q.sent| && SentOk(s, i) && s.q.sent[i] != Conn(s.q)
    ensures SentOk(s', i)
  {
    hide Places, Data, Wrap32, WireOk, OnStream, Live, PhaseOk;
    var id := s.q.outgoing[0];
    if id != Conn(s.q) { OutgoingUnique(s.q, s.h.held, 0); }
    if s.h.fins == 1 { FinsOut(s, s', w, onSent); }
    assert s'.q.sent[..i] == s.q.sent[..i];
    DataFrame(s.q.bufs, s'.q.bufs, s.q.sent[..i]);
  }

  /** After our FIN nothing more goes on `sent`, and no number moves. */
  lemma FinsOut(s: State, s': State, w: Segment, onSent: bool)
    requires Core(s) && !s.h.aborted && s.q.outgoing != [] && Transmitted(s, s', w, onSent) && s.h.fins == 1
    ensures !onSent && !w.bits.fin && s'.h.fins == 1 && s'.t.seqNum == s.t.seqNum && s.q.outgoing[0] == Conn(s.q)
  {
    hide Core, Data;
    OnlyAcksLeft(s, s', w, onSent);
  }

  /** connectPacket on `sent`: our FIN, whose header may have been overwritten just now. */
  lemma OldConn(s: State, s': State, w: Segment, onSent: bool, i: nat)
    requires Core(s) && !s.h.aborted && s.q.outgoing != [] && Ordinary(s) && Transmitted(s, s', w, onSent)
    requires Named(s'.q) && i < |s.q.sent| && SentOk(s, i) && s.q.sent[i] == Conn(s.q)
    ensures SentOk(s', i)
  {
    hide PoolInv, Data, Wrap32, WireOk, OnStream, Live;
    if s.h.fins == 1 { FinsOut(s, s', w, onSent); }
  }

  lemma TransmittedNew(s: State, s': State, w: Segment)
    requires Core(s) && !s.h.aborted && s.q.outgoing != [] && Ordinary(s) && Transmitted(s, s', w, true)
    requires Named(s'.q)
    ensures SentOk(s', |s.q.sent|)
  {
    hide Data, Wrap32, WireOk, PoolInv, SentAll;
    var n := |s.q.sent|;
    assert OutOk(s, 0);
    assert s'.q.sent[..n] == s.q.sent;
    DataFrame(s.q.bufs, s'.q.bufs, s.q.sent);
    WrapAdd(Base(s.h) + Sent(s), |w.data| + (if w.bits.fin then 1 else 0));
    WrapAdd(Base(s.h) + Sent(s) + |w.data| + (if w.bits.fin then 1 else 0), -1);
  }

  lemma TransmittedOut(s: State, s': State, w: Segment, onSent: bool)
    requires Core(s) && !s.h.aborted && s.q.outgoing != [] && Ordinary(s) && Transmitted(s, s', w, onSent)
    requires Named(s'.q)
    ensures OutAll(s')
  {
    var id := s.q.outgoing[0];
    if id != Conn(s.q) { OutgoingUnique(s.q, s.h.held, 0); }
    forall i | 0 <= i < |s'.q.outgoing| ensures OutOk(s', i) {
      assert OutOk(s, i + 1);
    }
  }
}