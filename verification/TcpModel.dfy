/**
 * The TCP engine of code/TCPLIB/TCP.CPP as a state machine over values.
 *
 * Every function is one routine of the engine: same branches, same tests on wrapped 32-bit
 * numbers, same queue limits.  The clock, ARP answers and the network are inputs of the steps.
 * `History` records what happened so that properties of whole runs can be stated; no routine
 * ever reads it.  TcpSocket.dfy proves that the imperative engine computes these functions.
 */
module TcpModel {
  import opened Machine

  /** Slots of each packet queue (TCP_SOCKET_RING_SIZE). */
  const RING: nat := 4
  /** Attempts allowed before the socket is torn down (TCP_RETRANS_COUNT). */
  const RETRANS_COUNT: nat := 10
  /** MSS assumed when the peer sends no option. */
  const DEFAULT_MSS: U16 := 536

  const RC_GOOD := 0
  const RC_BAD := -1
  const RC_TOO_MUCH_DATA := -5
  const RC_RECV_BAD_STATE := -6

  datatype Phase =
    | Closed | SynSent | SynRecved | Established | CloseWait | LastAck
    | FinWait1 | FinWait2 | Closing | TimeWait
    | SendFin1 | SendFin2 | SendFin3

  datatype Bits = Bits(syn: bool, ack: bool, psh: bool, rst: bool, fin: bool)

  datatype Segment = Segment(num: U32, ack: U32, bits: Bits, window: U16, mss: Option<U16>, data: seq<Byte>)

  /** A transmit buffer: user data, the header filled in by the last send, and the bookkeeping. */
  datatype Buffer = Buffer(data: seq<Byte>, header: Segment, last: U32, attempts: nat, pendingArp: bool, ackOnly: bool)

  /** A received packet, named by the receive buffer that holds it. */
  datatype Packet = Packet(id: nat, seg: Segment)

  datatype Tcb = Tcb(
    phase: Phase, seqNum: U32, ackNum: U32, oldest: U32,
    remoteWindow: U16, maxEnqueue: U16, mss: U16,
    disableReads: bool, goodPackets: Byte, seqErrs: Byte, smallWindow: bool,
    macCached: bool, closeReason: nat)

  /** Buffers are named by index; the last index is the socket's own connectPacket. */
  datatype Queues = Queues(
    bufs: seq<Buffer>, free: seq<nat>, outgoing: seq<nat>, sent: seq<nat>,
    pendingSent: U16, pendingOutgoing: U16)

  datatype Receiver = Receiver(size: U16, live: bool, data: seq<Byte>, incoming: seq<Packet>)

  datatype History = History(
    iss: U32,                // sequence number the connection started from
    synSent: bool,           // our SYN took a sequence number
    fins: nat,               // how often sendPacket added a FIN
    accepted: seq<Byte>,     // every byte queued by the user, in order
    una: nat,                // how many of them have been removed from `sent`
    edge: int,               // right edge of the last adopted window: its ack plus the window
    behind: nat,             // how far seqNum stood past that ack when it was adopted
    edgeFins: nat,           // FINs in seqNum at that time
    violations: nat,         // times the "violated their remote window" branch was taken
    replaced: nat,           // acks dropped by enqueue without adjusting Pending_Outgoing
    held: set<nat>,          // pool buffers in the user's hands
    wire: seq<Segment>,      // segments put on the wire
    delivered: seq<Byte>,    // data accepted from the peer, in order
    consumed: seq<Byte>,     // the part of it the user has read
    finsRcvd: nat,           // how often the peer's FIN advanced ackNum
    finAcked: bool,          // an acceptable ack of everything arrived after our FIN
    aborted: bool,           // destroy() has run
    freed: seq<Packet>)      // packets passed to Buffer_free

  datatype State = State(t: Tcb, q: Queues, r: Receiver, h: History)

  const ACK_BITS := Bits(false, true, false, false, false)

  function Blank(): Buffer {
    Buffer([], Segment(0, 0, ACK_BITS, 0, None, []), 0, 0, false, false)
  }

  /** Index of connectPacket. */
  function Conn(q: Queues): int { |q.bufs| - 1 }

  predicate IsSendFin(p: Phase) { p == SendFin1 || p == SendFin2 || p == SendFin3 }

  /** Concatenated user data of the listed buffers. */
  function Data(bufs: seq<Buffer>, ids: seq<nat>): seq<Byte>
    requires forall i :: 0 <= i < |ids| ==> ids[i] < |bufs|
  {
    if ids == [] then [] else Data(bufs, ids[..|ids| - 1]) + bufs[ids[|ids| - 1]].data
  }

  // ---------------------------------------------------------------- buffer pool

  /** Every name in a queue is a buffer, and the free stack holds pool buffers only. */
  predicate Named(q: Queues) {
    && 0 < |q.bufs|
    && (forall i :: 0 <= i < |q.free| ==> q.free[i] < |q.bufs| - 1)
    && (forall i :: 0 <= i < |q.outgoing| ==> q.outgoing[i] < |q.bufs|)
    && (forall i :: 0 <= i < |q.sent| ==> q.sent[i] < |q.bufs|)
  }

  /** returnXmitBuf: connectPacket is not pool managed. */
  function Return(q: Queues, id: nat): Queues {
    if id < Conn(q) then q.(free := q.free + [id]) else q
  }

  function ReturnAll(q: Queues, ids: seq<nat>): Queues
    decreases |ids|
  {
    if ids == [] then q else ReturnAll(Return(q, ids[0]), ids[1..])
  }

  /** getXmitBuf: the free list is a stack. */
  function GetBuffer(s: State): (State, Option<nat>)
    requires Named(s.q)
  {
    if s.q.free == [] then (s, None)
    else
      var id := s.q.free[|s.q.free| - 1];
      (s.(q := s.q.(free := s.q.free[..|s.q.free| - 1]), h := s.h.(held := s.h.held + {id})), Some(id))
  }

  // ---------------------------------------------------------------- enqueue

  /** Replace a lone queued ack while ESTABLISHED. */
  function DropQueuedAck(s: State): State
    requires Named(s.q)
  {
    if |s.q.outgoing| == 1 && s.t.phase == Established && s.q.bufs[s.q.outgoing[0]].data == [] then
      s.(q := Return(s.q.(outgoing := []), s.q.outgoing[0]), h := s.h.(replaced := s.h.replaced + 1))
    else s
  }

  predicate EnqueueRefused(s: State, id: nat) {
    || s.t.phase == Closed || s.t.phase == Closing
    || (s.t.phase == TimeWait && id != Conn(s.q))
  }

  function Enqueue(s: State, id: nat): (State, int)
    requires Named(s.q) && id < |s.q.bufs|
  {
    if EnqueueRefused(s, id) then (s, RC_BAD)
    else if |s.q.bufs[id].data| > s.t.maxEnqueue then (s, RC_TOO_MUCH_DATA)
    else Append(DropQueuedAck(s), id)
  }

  /** Reset the buffer's bookkeeping and put it on the outgoing ring if there is a slot. */
  function Append(s: State, id: nat): (State, int)
    requires Named(s.q) && id < |s.q.bufs|
  {
    var b := s.q.bufs[id].(attempts := 0, pendingArp := false, ackOnly := false);
    var q1 := s.q.(bufs := s.q.bufs[id := b]);
    if |q1.outgoing| >= RING then (s.(q := q1), RC_BAD)
    else
      (s.(q := q1.(outgoing := q1.outgoing + [id], pendingOutgoing := Wrap16(q1.pendingOutgoing + 1)),
          h := s.h.(accepted := s.h.accepted + b.data, held := s.h.held - {id})), RC_GOOD)
  }

  /** Queue the socket's own empty packet. */
  function EnqueueConnect(s: State): State
    requires Named(s.q)
  {
    var c := Conn(s.q);
    Enqueue(s.(q := s.q.(bufs := s.q.bufs[c := s.q.bufs[c].(data := [])])), c).0
  }

  // ---------------------------------------------------------------- sending

  /** The window to advertise: room in the receive buffer, perhaps shrunk to one packet. */
  function AdvertisedWindow(t: Tcb, r: Receiver): U16 {
    var w := if r.size != 0 then Wrap16(r.size - |r.data|) else Wrap16(4 * t.mss);
    if t.smallWindow then Min(w / 2, t.mss) else w
  }

  predicate AddsSyn(s: State) { s.t.phase == SynSent || s.t.phase == SynRecved }

  predicate AddsFin(s: State, forceAck: bool) {
    IsSendFin(s.t.phase) && !forceAck && |s.q.outgoing| == 1
  }

  function CodeBits(s: State, hasData: bool, forceAck: bool): Bits {
    if s.t.phase == SynSent then Bits(true, false, false, false, false)
    else if s.t.phase == SynRecved then Bits(true, true, false, false, false)
    else if AddsFin(s, forceAck) then Bits(false, true, false, false, true)
    else Bits(false, true, s.t.phase == Established && hasData, false, false)
  }

  function PhaseAfterSend(s: State, forceAck: bool): Phase {
    if AddsFin(s, forceAck) then (if s.t.phase == SendFin2 then LastAck else FinWait1) else s.t.phase
  }

  datatype Filled = Filled(s: State, b: Buffer, pending: bool)

  function Emit(h: History, w: Segment): History { h.(wire := h.wire + [w]) }

  /** The header sendPacket writes for a buffer it has not filled in before. */
  function Header(s: State, data: seq<Byte>, forceAck: bool, forceProbe: bool): Segment {
    var seq1 := Wrap32(s.t.seqNum + |data|);
    Segment(
      if forceProbe then Wrap32(seq1 - 1) else s.t.seqNum,
      s.t.ackNum, CodeBits(s, data != [], forceAck), AdvertisedWindow(s.t, s.r),
      if AddsSyn(s) then Some(if s.r.size != 0 then Min(s.r.size, s.t.mss) else s.t.mss) else None,
      data)
  }

  /** sendPacket.  `arp` says whether the next hop's hardware address is known right now. */
  function SendPacket(s: State, b: Buffer, forceAck: bool, forceProbe: bool, arp: bool): Filled {
    if b.pendingArp then
      if arp then
        Filled(s.(t := s.t.(macCached := true), h := Emit(s.h, b.header)), b.(pendingArp := false), false)
      else Filled(s, b, true)
    else
      var len := |b.data|;
      var ctl := if AddsSyn(s) || AddsFin(s, forceAck) then 1 else 0;
      var header := Header(s, b.data, forceAck, forceProbe);
      var seq2 := Wrap32(s.t.seqNum + len + ctl);
      var pending := !s.t.macCached && !arp;
      var t' := s.t.(seqNum := seq2, phase := PhaseAfterSend(s, forceAck),
                     remoteWindow := if len <= s.t.remoteWindow then s.t.remoteWindow - len else 0);
      var h' := s.h.(synSent := s.h.synSent || AddsSyn(s),
                     fins := s.h.fins + (if AddsFin(s, forceAck) then 1 else 0),
                     violations := s.h.violations + (if len <= s.t.remoteWindow then 0 else 1));
      Filled(s.(t := t', h := if pending then h' else Emit(h', header)),
             b.(header := header, last := Wrap32(seq2 - 1), pendingArp := pending,
                ackOnly := b.ackOnly || (len == 0 && header.bits == ACK_BITS)),
             pending)
  }

  /** sendPureAck: a throw-away empty packet, only while ESTABLISHED. */
  function PureAck(s: State, probe: bool, arp: bool): State {
    if s.t.phase != Established then s else SendPacket(s, Blank(), true, probe, arp).s
  }

  /** sendResetPacket */
  function Reset(s: State, seg: Segment, arp: bool): State {
    if seg.bits.rst || !arp then s
    else
      s.(h := Emit(s.h, Segment(if seg.bits.ack then seg.ack else 0,
                                Wrap32(seg.num + |seg.data| + (if seg.bits.syn then 1 else 0)),
                                Bits(false, true, false, true, false), 0, None, [])))
  }

  /** The loop of drivePackets2 over the outgoing queue. */
  function DriveLoop(s: State, probeDue: bool, arp: bool): State
    requires Named(s.q)
    decreases |s.q.outgoing|
  {
    if s.q.outgoing == [] || |s.q.sent| >= RING then s
    else
      var id := s.q.outgoing[0];
      if |s.q.bufs[id].data| > s.t.remoteWindow then
        if probeDue then PureAck(s, true, arp) else s
      else
        var f := SendPacket(s, s.q.bufs[id], false, false, arp);
        if f.pending then f.s.(q := s.q.(bufs := s.q.bufs[id := f.b]))
        else DriveLoop(AfterSend(f.s, id, f.b), probeDue, arp)
  }

  /** Bookkeeping after a first transmission: on to `sent`, or back to the pool for a bare ack. */
  function AfterSend(s: State, id: nat, b: Buffer): State
    requires Named(s.q) && s.q.outgoing != [] && id == s.q.outgoing[0]
    ensures Named(AfterSend(s, id, b).q)
    ensures |AfterSend(s, id, b).q.outgoing| < |s.q.outgoing|
  {
    var q1 := s.q.(bufs := s.q.bufs[id := b.(attempts := b.attempts + 1)],
                   outgoing := s.q.outgoing[1..], pendingOutgoing := Wrap16(s.q.pendingOutgoing - 1));
    s.(q := if b.ackOnly then Return(q1, id)
            else q1.(sent := q1.sent + [id], pendingSent := Wrap16(q1.pendingSent + 1)))
  }

  /** drivePackets2 for one socket.  `overdue`: the oldest sent packet's timer has run out. */
  function Drive(s: State, overdue: bool, probeDue: bool, arp: bool): State
    requires Named(s.q)
  {
    if s.q.sent != [] && overdue then
      var id := s.q.sent[0];
      var b := s.q.bufs[id];
      if b.attempts > RETRANS_COUNT then
        var s1 := Destroy(s);
        s1.(t := s1.t.(closeReason := 4))
      else
        s.(q := s.q.(bufs := s.q.bufs[id := b.(attempts := b.attempts + 1)]),
           h := Emit(s.h, b.header.(data := b.data)))
    else DriveLoop(s, probeDue, arp)
  }

  // ---------------------------------------------------------------- acknowledgements

  /** process2's test that an incoming ack is within what we have sent. */
  predicate AckProper(oldest: U32, seqNum: U32, ack: U32) {
    if oldest < seqNum then oldest <= ack <= seqNum else oldest <= ack || ack <= seqNum
  }

  /** removeSentPackets' test that a packet whose last sequence number is `last` can go. */
  predicate Removable(last: U32, target: U32, oldest: U32) {
    last < target || (last > target && target < oldest && last >= oldest)
  }

  function RemoveSent(s: State, target: U32): State
    requires Named(s.q)
    ensures Named(RemoveSent(s, target).q)
    decreases |s.q.sent|
  {
    if s.q.sent == [] then s.(t := s.t.(oldest := s.t.seqNum))
    else
      var id := s.q.sent[0];
      var b := s.q.bufs[id];
      if Removable(b.last, target, s.t.oldest) then
        RemoveSent(PopSent(s), target)
      else s.(t := s.t.(oldest := b.header.num))
  }

  /** Dequeue the oldest sent packet and give it back to the pool. */
  function PopSent(s: State): State
    requires Named(s.q) && s.q.sent != []
    ensures Named(PopSent(s).q) && |PopSent(s).q.sent| < |s.q.sent|
  {
    var id := s.q.sent[0];
    s.(q := Return(s.q.(sent := s.q.sent[1..], pendingSent := Wrap16(s.q.pendingSent - 1)), id),
       h := s.h.(una := s.h.una + |s.q.bufs[id].data|))
  }

  // ---------------------------------------------------------------- teardown

  /** clearQueues */
  function ClearQueues(s: State): State
    requires Named(s.q)
    ensures Named(ClearQueues(s).q)
  {
    var q1 := ReturnAll(s.q.(outgoing := [], pendingOutgoing := Wrap16(s.q.pendingOutgoing - |s.q.outgoing|)), s.q.outgoing);
    var q2 := ReturnAll(q1.(sent := [], pendingSent := Wrap16(s.q.pendingSent - |s.q.sent|)), s.q.sent);
    ReturnAllKeeps(s.q.(outgoing := [], pendingOutgoing := Wrap16(s.q.pendingOutgoing - |s.q.outgoing|)), s.q.outgoing);
    ReturnAllKeeps(q1.(sent := [], pendingSent := Wrap16(s.q.pendingSent - |s.q.sent|)), s.q.sent);
    s.(q := q2, r := s.r.(incoming := []), h := s.h.(freed := s.h.freed + s.r.incoming))
  }

  lemma ReturnAllKeeps(q: Queues, ids: seq<nat>)
    requires Named(q)
    ensures Named(ReturnAll(q, ids))
    ensures ReturnAll(q, ids) == q.(free := ReturnAll(q, ids).free)
    decreases |ids|
  {
    if ids != [] { ReturnAllKeeps(Return(q, ids[0]), ids[1..]); }
  }

  /** destroy */
  function Destroy(s: State): State
    requires Named(s.q)
    ensures Named(Destroy(s).q)
  {
    var s1 := ClearQueues(s);
    s1.(t := s1.t.(phase := Closed), r := s1.r.(live := false), h := s1.h.(aborted := true))
  }

  /** closeLocal */
  function CloseLocal(s: State): State
    requires Named(s.q)
  {
    match s.t.phase
    case Closed => s
    case TimeWait => s.(t := s.t.(phase := Closed))
    case SynSent => s.(t := s.t.(phase := Closed))
    case SynRecved => CloseWithFin(s, SendFin3)
    case Established => CloseWithFin(s, SendFin1)
    case CloseWait => CloseWithFin(s, SendFin2)
    case _ => s
  }

  /** Ask for a FIN: it rides on the last queued packet, or on a packet of its own. */
  function CloseWithFin(s: State, p: Phase): State
    requires Named(s.q)
  {
    var s1 := s.(t := s.t.(phase := p));
    if s.q.outgoing == [] then EnqueueConnect(s1) else s1
  }

  // ---------------------------------------------------------------- receiving

  function Freed(s: State, p: Packet): State { s.(h := s.h.(freed := s.h.freed + [p])) }

  function ReadMss(seg: Segment): U16 { seg.mss.GetOr(DEFAULT_MSS) }

  /** setMaxEnqueueSize */
  function MaxEnqueueFor(t: Tcb, seg: Segment): U16 { Min(ReadMss(seg), t.mss) }

  /** Number of user bytes first sent so far. */
  function Sent(s: State): nat
    requires Named(s.q)
  {
    s.h.una + |Data(s.q.bufs, s.q.sent)|
  }

  /**
   * Take over the window the peer has just advertised along with `ack`.  The history keeps what the
   * peer meant: ack + window, counted from the first user byte.
   */
  function Adopt(s: State, ack: U32, window: U16): State
    requires Named(s.q)
  {
    var behind := Ahead(ack, s.t.seqNum);
    s.(t := s.t.(remoteWindow := window),
       h := s.h.(edge := Sent(s) + s.h.fins - behind + window, behind := behind, edgeFins := s.h.fins))
  }

  /** process2: one packet for this socket, including the routing in process(). */
  function Receive(s: State, p: Packet, arp: bool): State
    requires Named(s.q)
  {
    if s.t.phase == Closed || s.t.phase == TimeWait then Freed(Reset(s, p.seg, arp), p)
    else if s.t.phase == SynSent then ReceiveSynSent(s, p, arp)
    else ReceiveSynchronized(s, p, arp)
  }

  function ReceiveSynSent(s: State, p: Packet, arp: bool): State
    requires Named(s.q)
  {
    var seg := p.seg;
    var current := seg.bits.ack && seg.ack == s.t.seqNum;
    if seg.bits.rst then
      if current then
        var s1 := Destroy(s);
        Freed(s1.(t := s1.t.(closeReason := 1)), p)
      else Freed(s, p)
    else if !seg.bits.syn then Freed(Reset(s, seg, arp), p)
    else if !seg.bits.ack then Freed(SimultaneousOpen(s, seg), p)
    else if current then Freed(EnqueueConnect(OpenComplete(s, seg)), p)
    else Freed(Reset(s, seg, arp), p)
  }

  /** SYN-ACK for our SYN: the connection is up. */
  function OpenComplete(s: State, seg: Segment): State
    requires Named(s.q)
    ensures Named(OpenComplete(s, seg).q)
  {
    var s1 := RemoveSent(s, seg.ack);
    Adopt(s1.(t := s1.t.(phase := Established, ackNum := Wrap32(seg.num + 1),
                         maxEnqueue := MaxEnqueueFor(s.t, seg))), seg.ack, seg.window)
  }

  /** SYN without an ACK: both sides opened; start over with a SYN-ACK. */
  function SimultaneousOpen(s: State, seg: Segment): State
    requires Named(s.q)
  {
    var t1 := s.t.(phase := SynRecved, ackNum := Wrap32(seg.num + 1),
                   maxEnqueue := MaxEnqueueFor(s.t, seg), seqNum := Wrap32(s.t.seqNum - 1));
    var s1 := ClearQueues(s.(t := t1, h := s.h.(iss := t1.seqNum, synSent := false)));
    EnqueueConnect(s1)
  }

  predicate SeqProper(t: Tcb, seg: Segment) {
    seg.num == t.ackNum || (t.phase == SynRecved && seg.num == Wrap32(t.ackNum - 1))
  }

  function ReceiveSynchronized(s: State, p: Packet, arp: bool): State
    requires Named(s.q)
  {
    var seg := p.seg;
    if seg.bits.rst then
      if SeqProper(s.t, seg) then
        var s1 := Destroy(s);
        Freed(s1.(t := s1.t.(closeReason := 1)), p)
      else Freed(s, p)
    else if seg.bits.ack && AckProper(s.t.oldest, s.t.seqNum, seg.ack) && SeqProper(s.t, seg) then Accept(s, p, arp)
    else Freed(SeqError(PureAck(s, false, arp)), p)
  }

  /** Count a sequence error and shrink the window after the fifth in a row. */
  function SeqError(s: State): State {
    var n := if s.t.seqErrs < 255 then s.t.seqErrs + 1 else 255;
    s.(t := s.t.(goodPackets := 0, seqErrs := n, smallWindow := s.t.smallWindow || n > 4))
  }

  /** Count an acceptable packet; more than fifty in a row lift the window restriction. */
  function Noted(s: State, seg: Segment): State {
    var n := if s.t.goodPackets < 255 then s.t.goodPackets + 1 else 255;
    s.(t := s.t.(goodPackets := n, seqErrs := 0, smallWindow := s.t.smallWindow && n <= 50),
       h := s.h.(finAcked := s.h.finAcked || (s.h.fins > 0 && seg.ack == s.t.seqNum)))
  }

  /** The bookkeeping of an acceptable packet before its data is looked at. */
  function Credit(s: State, seg: Segment): State
    requires Named(s.q)
    ensures Named(Credit(s, seg).q)
  {
    var s1 := Noted(s, seg);
    var s2 := if s1.q.sent != [] then RemoveSent(s1, seg.ack) else s1;
    if s2.q.sent == [] then Adopt(s2, seg.ack, seg.window) else s2
  }

  datatype Taken = Taken(s: State, freePacket: bool, playDead: bool)

  /** processPacketData */
  function TakeData(s: State, p: Packet): Taken
    ensures TakeData(s, p).s.q == s.q
  {
    var data := p.seg.data;
    var t1 := s.t.(ackNum := Wrap32(s.t.ackNum + |data|));
    var h1 := s.h.(delivered := s.h.delivered + data);
    if s.t.disableReads then Taken(s.(t := t1), true, false)
    else if !s.r.live then
      if |s.r.incoming| < RING then Taken(s.(t := t1, r := s.r.(incoming := s.r.incoming + [p]), h := h1), false, false)
      else Taken(s, true, true)
    else if |data| > s.r.size - |s.r.data| then Taken(s, true, true)
    else Taken(s.(t := t1, r := s.r.(data := s.r.data + data), h := h1), true, false)
  }

  /** A packet whose sequence and ack numbers are both acceptable. */
  function Accept(s: State, p: Packet, arp: bool): State
    requires Named(s.q)
  {
    var seg := p.seg;
    var s1 := Credit(s, seg);
    var k := if seg.data == [] then Taken(s1, true, false) else TakeData(s1, p);
    if k.playDead then Freed(k.s, p)
    else
      var ackData := seg.data != [] && k.s.q.outgoing == [];
      var s2 := Advance(k.s, seg, seg.ack == s.t.seqNum, arp);
      var s3 := if ackData || AcksFin(k.s.t.phase, seg) then EnqueueConnect(s2) else s2;
      if k.freePacket then Freed(s3, p) else s3
  }

  /** The phases in which an incoming FIN makes process2 generate a packet. */
  predicate AcksFin(p: Phase, seg: Segment) {
    seg.bits.fin && (p == Established || p == FinWait1 || p == FinWait2)
  }

  /** The phases in which an incoming FIN is counted. */
  predicate CountsFin(p: Phase, seg: Segment) {
    seg.bits.fin && (p == Established || p == SendFin1 || p == FinWait1 || p == FinWait2)
  }

  function CountFin(s: State): State {
    s.(t := s.t.(ackNum := Wrap32(s.t.ackNum + 1)), h := s.h.(finsRcvd := s.h.finsRcvd + 1))
  }

  /** The state changes of an acceptable packet.  `current`: it acks everything we sent. */
  function Advance(s: State, seg: Segment, current: bool, arp: bool): State
    requires Named(s.q)
    ensures Named(Advance(s, seg, current, arp).q)
  {
    var s1 := if CountsFin(s.t.phase, seg) then CountFin(s) else s;
    match s.t.phase
    case Established => if seg.bits.fin then s1.(t := s1.t.(phase := CloseWait)) else s
    case SendFin1 => if seg.bits.fin then s1.(t := s1.t.(phase := SendFin2)) else s
    case SynRecved =>
      if current then Adopt(s.(t := s.t.(phase := Established)), seg.ack, seg.window)
      else Reset(ClearQueues(s), seg, arp)
    case LastAck => s.(t := s.t.(phase := Closed))
    case FinWait1 =>
      if seg.bits.fin then s1.(t := s1.t.(phase := if current then TimeWait else Closing))
      else if current then s.(t := s.t.(phase := FinWait2)) else s
    case FinWait2 => if seg.bits.fin then s1.(t := s1.t.(phase := TimeWait)) else s
    case Closing => if current then s.(t := s.t.(phase := TimeWait)) else s
    case _ => s
  }

  // ---------------------------------------------------------------- the user's calls

  /** getSuggestedSendSize */
  function SendSize(t: Tcb): U16 { Min(t.maxEnqueue, t.remoteWindow) }

  /** The guards of the loop of send(): data left, a slot on the ring and a free buffer. */
  predicate SendGoes(s: State, rest: seq<Byte>) { rest != [] && |s.q.outgoing| < RING && s.q.free != [] }

  /** One turn of that loop: fill the next free buffer and queue it. */
  function SendTurn(s: State, rest: seq<Byte>): (r: (State, seq<Byte>))
    requires Named(s.q) && SendGoes(s, rest)
    ensures Named(r.0.q)
  {
    var n := Min(SendSize(s.t), |rest|);
    var (s1, got) := GetBuffer(s);
    var id := got.value;
    var s2 := s1.(q := s1.q.(bufs := s1.q.bufs[id := s1.q.bufs[id].(data := rest[..n])]));
    (Enqueue(s2, id).0, rest[n..])
  }

  /**
   * The states from which the loop of send() never ends: the send size is zero, and every turn only
   * replaces the lone empty packet on `outgoing` by another one.  TcpLimits proves that it never
   * ends exactly here.
   */
  predicate Spins(s: State, rest: seq<Byte>)
    requires Named(s.q)
  {
    && s.t.phase == Established && SendSize(s.t) == 0 && SendGoes(s, rest)
    && if s.q.outgoing == [] then |s.q.free| >= 2
       else
         var head := s.q.outgoing[0];
         && |s.q.outgoing| == 1 && (s.q.bufs[head].data == [] || head == s.q.free[|s.q.free| - 1])
         && (head < Conn(s.q) || |s.q.free| >= 2)
  }

  lemma SendTurnShrinks(s: State, rest: seq<Byte>)
    requires Named(s.q) && SendGoes(s, rest) && s.t.phase == Established && !Spins(s, rest)
    ensures var (s', left) := SendTurn(s, rest);
            && s'.t == s.t && !Spins(s', left)
            && (|left| < |rest| || (left == rest && |s'.q.free| < |s.q.free|))
  {
    hide Wrap16;
  }

  /** The loop of send(): data still to copy in, bytes left over out.  It is not followed where it never ends. */
  function SendLoop(s: State, rest: seq<Byte>): (State, seq<Byte>)
    requires Named(s.q)
    decreases |rest|, |s.q.free|
  {
    if !SendGoes(s, rest) || s.t.phase != Established || Spins(s, rest) then (s, rest)
    else
      SendTurnShrinks(s, rest);
      var (s1, left) := SendTurn(s, rest);
      SendLoop(s1, left)
  }

  /** send: the new state and the return code. */
  function Send(s: State, data: seq<Byte>): (State, int)
    requires Named(s.q)
  {
    if s.t.phase != Established then (s, RC_BAD)
    else if s.t.remoteWindow == 0 then (s, 0)
    else
      var (s1, left) := SendLoop(s, data);
      (s1, |data| - |left|)
  }

  predicate RecvRefused(p: Phase) { p == Closed || p == SynSent || p == SynRecved }

  /** recv: the new state, the return code and the bytes copied out. */
  function Recv(s: State, n: nat, arp: bool): (State, int, seq<Byte>) {
    if RecvRefused(s.t.phase) then (s, RC_RECV_BAD_STATE, [])
    else if s.r.data == [] || n == 0 then (s, 0, [])
    else
      var k := Min(n, |s.r.data|);
      var out := s.r.data[..k];
      var s1 := s.(r := s.r.(data := s.r.data[k..]), h := s.h.(consumed := s.h.consumed + out));
      (if Wrap16(s.r.size - |s.r.data|) == 0 then PureAck(s1, false, arp) else s1, k, out)
  }

  /** The user takes the next raw packet and frees its buffer. */
  function TakePacket(s: State): State {
    if s.r.incoming == [] then s
    else
      var p := s.r.incoming[0];
      s.(r := s.r.(incoming := s.r.incoming[1..]),
         h := s.h.(consumed := s.h.consumed + p.seg.data, freed := s.h.freed + [p]))
  }

  // ---------------------------------------------------------------- runs

  /** A socket after reinit() and setRecvBuffer(), with `pool` transmit buffers. */
  function Fresh(iss: U32, pool: nat, mss: U16, rcvSize: U16): State {
    State(
      Tcb(Closed, iss, 0, iss, 0, 0, mss, false, 0, 0, false, false, 0),
      Queues(seq(pool + 1, _ => Blank()), seq(pool, i => i), [], [], 0, 0),
      Receiver(rcvSize, rcvSize != 0, [], []),
      History(iss, false, 0, [], 0, 0, 0, 0, 0, 0, {}, [], [], [], 0, false, false, []))
  }

  /** connect2 on a closed socket. */
  function Connect(s: State): State
    requires Named(s.q)
  {
    if s.t.phase != Closed then s else EnqueueConnect(s.(t := s.t.(phase := SynSent)))
  }

  datatype Event =
    | UserSend(data: seq<Byte>)
    | UserGet
    | UserEnqueue(id: nat, data: seq<Byte>)
    | UserReturn(id: nat)
    | UserRecv(n: nat)
    | UserTake
    | UserClose
    | UserShutRd
    | UserDestroy
    | Arrive(p: Packet)
    | Tick(overdue: bool, probeDue: bool)

  /** One step.  `arp`: what an ARP lookup would answer during it. */
  function Step(s: State, e: Event, arp: bool): State
    requires Named(s.q)
  {
    match e
    case UserSend(data) => Send(s, data).0
    case UserGet => GetBuffer(s).0
    case UserEnqueue(id, data) =>
      if id in s.h.held && id < |s.q.bufs| then
        Enqueue(s.(q := s.q.(bufs := s.q.bufs[id := s.q.bufs[id].(data := data)])), id).0
      else s
    case UserReturn(id) =>
      if id in s.h.held then s.(q := Return(s.q, id), h := s.h.(held := s.h.held - {id})) else s
    case UserRecv(n) => Recv(s, n, arp).0
    case UserTake => TakePacket(s)
    case UserClose => CloseLocal(s)
    case UserShutRd => s.(t := s.t.(disableReads := true))
    case UserDestroy => Destroy(s)
    case Arrive(p) => Receive(s, p, arp)
    case Tick(overdue, probeDue) => Drive(s, overdue, probeDue, arp)
  }
}
