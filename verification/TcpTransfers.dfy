/**
 * What the engine does send: everything that is queued and allowed, in order, and the FIN with the
 * last of it; and what the user is told about the bytes that were taken or handed over.
 */
module TcpTransfers {
  import opened Machine
  import opened Counting
  import opened TcpModel
  import opened TcpPool
  import opened TcpStream
  import opened TcpRuns
  import opened TcpAnswers

  // ---------------------------------------------------------------- one packet

  /** The head of `outgoing` may go at once: its data fits, and the hardware address is known. */
  ghost predicate Goes(s: State, arp: bool) {
    && Named(s.q) && s.q.outgoing != [] && |s.q.sent| < 4 && !AddsSyn(s) && (s.t.macCached || arp)
    && (s.r.size == 0 || |s.r.data| <= s.r.size)
    && var b := s.q.bufs[s.q.outgoing[0]];
    && !b.pendingArp && |b.data| <= s.t.remoteWindow
  }

  /** A segment with the present numbers that carries `data`, and FIN if it is the last. */
  predicate Carries(s: State, w: Segment, num: U32, data: seq<Byte>, last: bool)
    requires s.r.size == 0 || |s.r.data| <= s.r.size
  {
    && w.num == num && w.ack == s.t.ackNum && w.data == data && w.mss == None && Offers(s.t, Room(s), w.window)
    && w.bits == (if IsSendFin(s.t.phase) && last then Bits(false, true, false, false, true)
                  else Bits(false, true, s.t.phase == Established && data != [], false, false))
  }

  /** The state once a FIN that was due has gone. */
  function FinGone(p: Phase): Phase { if p == SendFin2 then LastAck else if IsSendFin(p) then FinWait1 else p }

  /** What changes when the head goes: once on the wire, in sequence. */
  ghost predicate HeadWent(s: State, s': State)
    requires Named(s.q) && s.q.outgoing != [] && (s.r.size == 0 || |s.r.data| <= s.r.size)
  {
    var b := s.q.bufs[s.q.outgoing[0]];
    var last := |s.q.outgoing| == 1;
    && |b.data| <= s.t.remoteWindow
    && Named(s'.q) && s'.r == s.r && s'.q.outgoing == s.q.outgoing[1..] && |s'.q.sent| <= |s.q.sent| + 1
    && |s'.h.wire| == |s.h.wire| + 1 && s'.h.wire[..|s.h.wire|] == s.h.wire
    && Carries(s, s'.h.wire[|s.h.wire|], s.t.seqNum, b.data, last)
    && s'.t == s.t.(seqNum := Wrap32(s.t.seqNum + |b.data| + (if IsSendFin(s.t.phase) && last then 1 else 0)),
                    remoteWindow := s.t.remoteWindow - |b.data|,
                    phase := if last then FinGone(s.t.phase) else s.t.phase)
    && |s'.q.bufs| == |s.q.bufs|
    && forall i :: 0 <= i < |s.q.bufs| ==>
         s'.q.bufs[i].data == s.q.bufs[i].data && (!s.q.bufs[i].pendingArp ==> !s'.q.bufs[i].pendingArp)
  }

  lemma HeadGoes(s: State, probeDue: bool, arp: bool)
    requires Goes(s, arp)
    ensures HeadWent(s, HeadSent(s, arp)) && DriveLoop(s, probeDue, arp) == DriveLoop(HeadSent(s, arp), probeDue, arp)
  {
    hide Wrap32, Wrap16, Header, Carries;
    var b := s.q.bufs[s.q.outgoing[0]];
    HeaderCarries(s, b.data);
  }

  lemma HeaderCarries(s: State, data: seq<Byte>)
    requires !AddsSyn(s) && s.q.outgoing != [] && (s.r.size == 0 || |s.r.data| <= s.r.size)
    ensures Carries(s, Header(s, data, false, false), s.t.seqNum, data, |s.q.outgoing| == 1)
  {
  }

  // ---------------------------------------------------------------- all that is queued

  /** Everything on `outgoing` may go at once. */
  ghost predicate AllGo(s: State, arp: bool) {
    && Named(s.q) && !AddsSyn(s) && (s.t.macCached || arp) && (s.r.size == 0 || |s.r.data| <= s.r.size)
    && |s.q.sent| + |s.q.outgoing| <= 4 && |Data(s.q.bufs, s.q.outgoing)| <= s.t.remoteWindow
    && forall i :: 0 <= i < |s.q.outgoing| ==> !s.q.bufs[s.q.outgoing[i]].pendingArp
  }

  /** The sequence number of packet `i` of `outgoing`. */
  ghost function NumAt(s: State, i: nat): U32
    requires Named(s.q) && i <= |s.q.outgoing|
  {
    Wrap32(s.t.seqNum + |Data(s.q.bufs, s.q.outgoing[..i])|)
  }

  /** Packet `i` of `outgoing` is segment `i` after those on the wire before. */
  ghost predicate WentAt(s: State, s': State, i: nat)
    requires Named(s.q) && (s.r.size == 0 || |s.r.data| <= s.r.size) && i < |s.q.outgoing|
  {
    |s.h.wire| + i < |s'.h.wire| &&
    Carries(s, s'.h.wire[|s.h.wire| + i], NumAt(s, i), s.q.bufs[s.q.outgoing[i]].data, i == |s.q.outgoing| - 1)
  }

  /** All packets of `outgoing` went out, each once and in order, the FIN that was due with the last. */
  ghost predicate AllWent(s: State, s': State)
    requires Named(s.q) && (s.r.size == 0 || |s.r.data| <= s.r.size)
  {
    var n := |s.q.outgoing|;
    && s'.q.outgoing == [] && s'.r == s.r
    && |s'.h.wire| == |s.h.wire| + n && s'.h.wire[..|s.h.wire|] == s.h.wire
    && (forall i :: 0 <= i < n ==> WentAt(s, s', i))
    && s'.t == s.t.(seqNum := Wrap32(NumAt(s, n) + (if IsSendFin(s.t.phase) && n > 0 then 1 else 0)),
                    remoteWindow := s'.t.remoteWindow,
                    phase := if n > 0 then FinGone(s.t.phase) else s.t.phase)
    && s'.t.remoteWindow == s.t.remoteWindow - |Data(s.q.bufs, s.q.outgoing)|
  }

  /** The rest of the data after the first packet. */
  lemma RestData(s: State, s1: State)
    requires Named(s.q) && s.q.outgoing != [] && (s.r.size == 0 || |s.r.data| <= s.r.size) && HeadWent(s, s1)
    ensures forall i: nat :: i < |s.q.outgoing| ==>
              |Data(s.q.bufs, s.q.outgoing[..i + 1])|
                == |s.q.bufs[s.q.outgoing[0]].data| + |Data(s1.q.bufs, s1.q.outgoing[..i])|
  {
    hide Carries, Wrap32;
    forall i: nat | i < |s.q.outgoing|
      ensures |Data(s.q.bufs, s.q.outgoing[..i + 1])|
                == |s.q.bufs[s.q.outgoing[0]].data| + |Data(s1.q.bufs, s1.q.outgoing[..i])|
    {
      var ids := s.q.outgoing[..i + 1];
      DataFirst(s.q.bufs, ids);
      assert ids[1..] == s1.q.outgoing[..i];
      DataFrame(s.q.bufs, s1.q.bufs, s1.q.outgoing[..i]);
    }
  }

  lemma NumNext(s: State, s1: State, i: nat)
    requires Named(s.q) && (s.r.size == 0 || |s.r.data| <= s.r.size) && i < |s.q.outgoing| && |s.q.outgoing| > 1
    requires HeadWent(s, s1)
    ensures NumAt(s1, i) == NumAt(s, i + 1)
  {
    hide Carries, Data;
    RestData(s, s1);
    WrapAdd(s.t.seqNum + |s.q.bufs[s.q.outgoing[0]].data|, |Data(s1.q.bufs, s1.q.outgoing[..i])|);
  }

  lemma AllMore(s: State, s1: State, s': State)
    requires Named(s.q) && (s.r.size == 0 || |s.r.data| <= s.r.size) && |s.q.outgoing| > 1
    requires HeadWent(s, s1) && AllWent(s1, s')
    ensures AllWent(s, s')
  {
    hide Data, Wrap32, Carries;
    var n := |s.q.outgoing|;
    assert s'.h.wire[..|s.h.wire|] == s'.h.wire[..|s1.h.wire|][..|s.h.wire|];
    forall i | 0 <= i < n ensures WentAt(s, s', i) {
      if i == 0 {
        assert s'.h.wire[..|s1.h.wire|][|s.h.wire|] == s'.h.wire[|s.h.wire|];
        NumZero(s);
      } else {
        NumNext(s, s1, i - 1);
        assert WentAt(s1, s', i - 1) && s1.q.outgoing[i - 1] == s.q.outgoing[i];
        SameCarries(s, s1, s'.h.wire[|s.h.wire| + i], NumAt(s, i), s.q.bufs[s.q.outgoing[i]].data, i == n - 1);
      }
    }
    NumNext(s, s1, n - 1);
    RestData(s, s1);
    assert s.q.outgoing[..n] == s.q.outgoing && s1.q.outgoing[..n - 1] == s1.q.outgoing;
  }

  lemma SameCarries(s: State, s1: State, w: Segment, num: U32, data: seq<Byte>, last: bool)
    requires (s.r.size == 0 || |s.r.data| <= s.r.size) && s1.r == s.r
    requires s1.t == s.t.(seqNum := s1.t.seqNum, remoteWindow := s1.t.remoteWindow)
    ensures Carries(s1, w, num, data, last) == Carries(s, w, num, data, last)
  {
  }

  lemma NumZero(s: State)
    requires Named(s.q)
    ensures NumAt(s, 0) == s.t.seqNum
  {
    assert s.q.outgoing[..0] == [];
  }

  lemma AllOne(s: State, s': State)
    requires Named(s.q) && (s.r.size == 0 || |s.r.data| <= s.r.size) && |s.q.outgoing| == 1
    requires HeadWent(s, s')
    ensures AllWent(s, s')
  {
    hide Wrap32, Data, Carries;
    NumZero(s);
    assert s.q.outgoing == [s.q.outgoing[0]] && s.q.outgoing[..1] == s.q.outgoing;
    DataSingle(s.q.bufs, s.q.outgoing[0]);
    WrapAdd(s.t.seqNum + |Data(s.q.bufs, s.q.outgoing)|, if IsSendFin(s.t.phase) then 1 else 0);
  }

  lemma AllNone(s: State)
    requires Named(s.q) && (s.r.size == 0 || |s.r.data| <= s.r.size) && s.q.outgoing == []
    ensures AllWent(s, s)
  {
    NumZero(s);
    assert Data(s.q.bufs, []) == [];
  }

  lemma StillGo(s: State, s1: State, arp: bool)
    requires AllGo(s, arp) && s.q.outgoing != [] && HeadWent(s, s1)
    ensures Named(s1.q) && !AddsSyn(s1) ==> AllGo(s1, arp)
    ensures |s.q.outgoing| > 1 ==> !AddsSyn(s1)
  {
    hide Carries, Data, Wrap32;
    RestData(s, s1);
    var n := |s.q.outgoing|;
    assert s.q.outgoing[..n] == s.q.outgoing && s1.q.outgoing[..n - 1] == s1.q.outgoing;
    forall i | 0 <= i < |s1.q.outgoing| ensures !s1.q.bufs[s1.q.outgoing[i]].pendingArp {
      assert s1.q.outgoing[i] == s.q.outgoing[i + 1];
    }
  }

  lemma FirstGoes(s: State, arp: bool)
    requires AllGo(s, arp) && s.q.outgoing != []
    ensures Goes(s, arp)
  {
    DataFirst(s.q.bufs, s.q.outgoing);
  }

  lemma {:induction false} LoopSendsAll(s: State, probeDue: bool, arp: bool)
    requires AllGo(s, arp)
    ensures AllWent(s, DriveLoop(s, probeDue, arp))
    decreases |s.q.outgoing|
  {
    hide AllWent, HeadWent, HeadSent, Data;
    if s.q.outgoing == [] {
      AllNone(s);
    } else {
      FirstGoes(s, arp);
      HeadGoes(s, probeDue, arp);
      var s1 := HeadSent(s, arp);
      StillGo(s, s1, arp);
      assert |s1.q.outgoing| == |s.q.outgoing| - 1 && Named(s1.q) by { HeadShape(s, s1); }
      if |s.q.outgoing| == 1 {
        AllOne(s, s1);
      } else {
        LoopSendsAll(s1, probeDue, arp);
        HeadShape(s, s1);
        AllMore(s, s1, DriveLoop(s1, probeDue, arp));
      }
    }
  }

  lemma HeadShape(s: State, s1: State)
    requires Named(s.q) && s.q.outgoing != [] && (s.r.size == 0 || |s.r.data| <= s.r.size) && HeadWent(s, s1)
    ensures Named(s1.q) && |s1.q.outgoing| == |s.q.outgoing| - 1 && s1.r == s.r
  {
    hide Carries;
  }

  /**
   * One tick sends all that is queued if it fits the peer's window and the slots of `sent`: each packet
   * once, in order, with consecutive numbers and the present ack and window; and a FIN that is due goes
   * with the last of them.
   */
  lemma TickSendsAll(s: State, overdue: bool, probeDue: bool, arp: bool)
    requires AllGo(s, arp) && (s.q.sent == [] || !overdue)
    ensures AllWent(s, Drive(s, overdue, probeDue, arp))
  {
    hide AllWent, DriveLoop, AllGo;
    LoopSendsAll(s, probeDue, arp);
  }

  // ---------------------------------------------------------------- what the user's data becomes

  /** The queue is not waiting for a hardware address. */
  ghost predicate Settled(q: Queues)
    requires Named(q)
  {
    forall i :: 0 <= i < |q.outgoing| ==> !q.bufs[q.outgoing[i]].pendingArp
  }

  /** `data` was added at the end of what is queued, and nothing else the peer could notice happened. */
  ghost predicate Queued(s: State, s': State, data: seq<Byte>) {
    && PoolInv(s) && PoolInv(s') && s'.t == s.t && s'.r == s.r && s'.q.sent == s.q.sent
    && s'.h == s.h.(accepted := s.h.accepted + data, replaced := s'.h.replaced)
    && Data(s'.q.bufs, s'.q.outgoing) == Data(s.q.bufs, s.q.outgoing) + data
    && (Settled(s.q) ==> Settled(s'.q))
  }

  /** The next free buffer is on neither queue. */
  lemma FreeIsElsewhere(s: State)
    requires PoolInv(s) && s.q.free != []
    ensures var id := s.q.free[|s.q.free| - 1];
            && id !in s.h.held && (forall i :: 0 <= i < |s.q.outgoing| ==> s.q.outgoing[i] != id)
  {
    var id := s.q.free[|s.q.free| - 1];
    assert Places(s.q, s.h.held, id) == 1;
    OccIn(s.q.free, |s.q.free| - 1);
    forall i | 0 <= i < |s.q.outgoing| ensures s.q.outgoing[i] != id { OccIn(s.q.outgoing, i); }
  }

  lemma TurnQueues(s: State, rest: seq<Byte>)
    requires PoolInv(s) && s.t.phase == Established && SendGoes(s, rest)
    ensures var n := Min(SendSize(s.t), |rest|);
            var (s1, left) := SendTurn(s, rest);
            left == rest[n..] && Queued(s, s1, rest[..n])
  {
    hide PoolInv, Wrap16, Data;
    PoolNamed(s);
    SendTurnKeeps(s, rest);
    FreeIsElsewhere(s);
    var n := Min(SendSize(s.t), |rest|);
    var id := s.q.free[|s.q.free| - 1];
    var s1 := SendTurn(s, rest).0;
    if s1.q.outgoing == s.q.outgoing + [id] {
      DataLast(s1.q.bufs, s.q.outgoing, id);
      DataFrame(s.q.bufs, s1.q.bufs, s.q.outgoing);
    } else {
      var head := s.q.outgoing[0];
      assert s.q.outgoing == [head] && s1.q.outgoing == [id];
      DataSingle(s.q.bufs, head);
      DataSingle(s1.q.bufs, id);
    }
  }

  lemma QueuedThen(s: State, s1: State, s2: State, a: seq<Byte>, b: seq<Byte>)
    requires Queued(s, s1, a) && Queued(s1, s2, b)
    ensures Queued(s, s2, a + b)
  {
    hide Places, Data;
    assert s.h.accepted + a + b == s.h.accepted + (a + b);
    assert Data(s.q.bufs, s.q.outgoing) + a + b == Data(s.q.bufs, s.q.outgoing) + (a + b);
  }

  lemma {:induction false} LoopQueues(s: State, rest: seq<Byte>)
    requires PoolInv(s) && s.t.phase == Established && !Spins(s, rest)
    ensures var (s', left) := SendLoop(s, rest);
            && |left| <= |rest| && Queued(s, s', rest[..|rest| - |left|]) && !SendGoes(s', left)
    decreases |rest|, |s.q.free|
  {
    hide Queued, PoolInv, SendTurn, SendGoes, Spins;
    PoolNamed(s);
    if SendGoes(s, rest) {
      var n := Min(SendSize(s.t), |rest|);
      SendTurnShrinks(s, rest);
      TurnQueues(s, rest);
      var (s1, left) := SendTurn(s, rest);
      QueuedPool(s, s1, rest[..n]);
      LoopQueues(s1, left);
      var (s', last) := SendLoop(s1, left);
      QueuedThen(s, s1, s', rest[..n], left[..|left| - |last|]);
      SlicesJoin(rest, n, |left| - |last|);
    } else {
      assert rest[..0] == [];
      NothingQueuedYet(s);
    }
  }

  lemma SlicesJoin(rest: seq<Byte>, n: nat, k: nat)
    requires n + k <= |rest|
    ensures rest[..n] + rest[n..][..k] == rest[..n + k]
  {
  }

  lemma QueuedPool(s: State, s1: State, data: seq<Byte>)
    requires Queued(s, s1, data)
    ensures PoolInv(s1) && s1.t == s.t
  {
  }

  lemma NothingQueuedYet(s: State)
    requires PoolInv(s)
    ensures Queued(s, s, [])
  {
    assert s.h.accepted + [] == s.h.accepted;
    assert Data(s.q.bufs, s.q.outgoing) + [] == Data(s.q.bufs, s.q.outgoing);
  }

  /**
   * send answers -1 unless ESTABLISHED, and otherwise with the number of bytes it has queued: the first
   * ones of the data, all of them unless the peer's window is zero, the queue is full or no buffer is free.
   */
  lemma SendTold(s: State, data: seq<Byte>)
    requires PoolInv(s) && !Spins(s, data)
    ensures var (s', code) := Send(s, data);
            && (code < 0 <==> s.t.phase != Established) && (code < 0 ==> code == -1 && s' == s)
            && (code >= 0 ==> code <= |data| && Queued(s, s', data[..code]))
            && (0 <= code < |data| ==> s.t.remoteWindow == 0 || |s'.q.outgoing| == 4 || s'.q.free == [])
  {
    hide Queued, SendLoop, Spins, PoolInv;
    PoolNamed(s);
    if s.t.phase == Established {
      assert data[..0] == [];
      PoolNamed(s);
      NothingQueuedYet(s);
      LoopQueues(s, data);
      QueuedPool(s, SendLoop(s, data).0, data[..|data| - |SendLoop(s, data).1|]);
      PoolBounds(SendLoop(s, data).0);
    }
  }

  lemma PoolBounds(s: State)
    requires PoolInv(s)
    ensures Named(s.q) && |s.q.outgoing| <= 4
  {
  }

  /** All packets queued carry `n` bytes, but for the last, which may carry fewer. */
  ghost predicate CutInto(q: Queues, n: nat, last: bool)
    requires Named(q)
  {
    forall i :: 0 <= i < |q.outgoing| ==>
      var d := |q.bufs[q.outgoing[i]].data|;
      if last && i == |q.outgoing| - 1 then d <= n else d == n
  }

  lemma TurnCuts(s: State, rest: seq<Byte>, n: nat)
    requires PoolInv(s) && s.t.phase == Established && SendGoes(s, rest) && n == Min(s.t.maxEnqueue, s.t.remoteWindow) > 0
    requires CutInto(s.q, n, false) || (|s.q.outgoing| == 1 && s.q.bufs[s.q.outgoing[0]].data == [])
    ensures var (s1, left) := SendTurn(s, rest);
            && s1.t == s.t && CutInto(s1.q, n, |rest| < n) && |left| == (if |rest| < n then 0 else |rest| - n)
  {
    hide Places, Wrap16;
    FreeIsElsewhere(s);
  }

  lemma {:induction false} LoopCuts(s: State, rest: seq<Byte>, n: nat)
    requires PoolInv(s) && s.t.phase == Established && n == Min(s.t.maxEnqueue, s.t.remoteWindow) > 0
    requires CutInto(s.q, n, false) || (SendGoes(s, rest) && |s.q.outgoing| == 1 && s.q.bufs[s.q.outgoing[0]].data == [])
    ensures var s' := SendLoop(s, rest).0; Named(s'.q) && CutInto(s'.q, n, true)
    decreases |rest|, |s.q.free|
  {
    hide PoolInv, SendTurn, CutInto, SendGoes, Spins;
    PoolNamed(s);
    NotSpinning(s, rest);
    if SendGoes(s, rest) {
      SendTurnShrinks(s, rest);
      SendTurnKeeps(s, rest);
      TurnCuts(s, rest, n);
      var (s1, left) := SendTurn(s, rest);
      if |rest| < n { NothingLeft(s1, left); } else { LoopCuts(s1, left, n); }
    } else {
      CutAnyway(s.q, n);
    }
  }

  lemma NotSpinning(s: State, rest: seq<Byte>)
    requires Named(s.q) && Min(s.t.maxEnqueue, s.t.remoteWindow) > 0
    ensures !Spins(s, rest)
  {
  }

  lemma NothingLeft(s: State, rest: seq<Byte>)
    requires Named(s.q) && rest == []
    ensures SendLoop(s, rest).0 == s
  {
  }

  lemma CutAnyway(q: Queues, n: nat)
    requires Named(q) && CutInto(q, n, false)
    ensures CutInto(q, n, true)
  {
  }

  /**
   * On an idle queue, or one that holds only an ack, send cuts the data into packets of the smaller of maxEnqueue
   * and the peer's window; the last one may be shorter.
   */
  lemma SendCuts(s: State, data: seq<Byte>)
    requires PoolInv(s) && s.t.phase == Established && s.q.free != [] && data != []
    requires s.q.outgoing == [] || (|s.q.outgoing| == 1 && s.q.bufs[s.q.outgoing[0]].data == [])
    requires s.t.maxEnqueue > 0 && s.t.remoteWindow > 0
    ensures var s' := Send(s, data).0;
            var n := if s.t.maxEnqueue < s.t.remoteWindow then s.t.maxEnqueue else s.t.remoteWindow;
            Named(s'.q) && s'.q.outgoing != [] && CutInto(s'.q, n, true)
  {
    hide Places, SendLoop, Spins;
    LoopCuts(s, data, Min(s.t.maxEnqueue, s.t.remoteWindow));
    NotSpinning(s, data);
    LoopQueues(s, data);
    LoopStops(s, data);
  }

  lemma LoopStops(s: State, data: seq<Byte>)
    requires PoolInv(s) && s.t.phase == Established && !Spins(s, data) && SendGoes(s, data) && SendSize(s.t) > 0
    ensures SendLoop(s, data).0.q.outgoing != []
  {
    hide PoolInv, Spins;
    PoolNamed(s);
    var (s1, left) := SendTurn(s, data);
    SendTurnKeeps(s, data);
    SendTurnShrinks(s, data);
    StaysQueued(s1, left);
  }

  lemma {:induction false} StaysQueued(s: State, rest: seq<Byte>)
    requires PoolInv(s) && s.q.outgoing != []
    ensures SendLoop(s, rest).0.q.outgoing != []
    decreases |rest|, |s.q.free|
  {
    hide PoolInv, Spins, SendGoes;
    PoolNamed(s);
    if SendGoes(s, rest) && s.t.phase == Established && !Spins(s, rest) {
      SendTurnShrinks(s, rest);
      SendTurnKeeps(s, rest);
      TurnNotEmpty(s, rest);
      StaysQueued(SendTurn(s, rest).0, SendTurn(s, rest).1);
    }
  }

  lemma TurnNotEmpty(s: State, rest: seq<Byte>)
    requires Named(s.q) && SendGoes(s, rest) && s.t.phase == Established
    ensures SendTurn(s, rest).0.q.outgoing != []
  {
    hide Wrap16;
  }

  /** The data of the segments that were put on the wire after the first `from`. */
  function Payloads(wire: seq<Segment>, from: nat): seq<Byte>
    requires from <= |wire|
    decreases |wire| - from
  {
    if from == |wire| then [] else wire[from].data + Payloads(wire, from + 1)
  }

  lemma {:induction false} WentPayloads(s: State, s': State, i: nat)
    requires Named(s.q) && (s.r.size == 0 || |s.r.data| <= s.r.size) && AllWent(s, s') && i <= |s.q.outgoing|
    ensures Payloads(s'.h.wire, |s.h.wire| + i) == Data(s.q.bufs, s.q.outgoing[i..])
    decreases |s.q.outgoing| - i
  {
    hide Data, Carries;
    if i < |s.q.outgoing| {
      WentPayloads(s, s', i + 1);
      assert WentAt(s, s', i);
      CarriesData(s, s'.h.wire[|s.h.wire| + i], NumAt(s, i), s.q.bufs[s.q.outgoing[i]].data, i == |s.q.outgoing| - 1);
      var ids := s.q.outgoing[i..];
      DataFirst(s.q.bufs, ids);
      assert ids[1..] == s.q.outgoing[i + 1..] && ids[0] == s.q.outgoing[i];
    } else {
      DataNone(s.q.bufs, s.q.outgoing[i..]);
    }
  }

  lemma CarriesData(s: State, w: Segment, num: U32, data: seq<Byte>, last: bool)
    requires (s.r.size == 0 || |s.r.data| <= s.r.size) && Carries(s, w, num, data, last)
    ensures w.data == data
  {
  }

  lemma DataNone(bufs: seq<Buffer>, ids: seq<nat>)
    requires ids == []
    ensures Data(bufs, ids) == []
  {
  }

  /**
   * From an idle connection: the bytes that send takes are, in order, exactly what the next tick puts on
   * the wire, from seqNum on.
   */
  lemma SentAtNextTick(s: State, data: seq<Byte>, probeDue: bool, arp: bool)
    requires PoolInv(s) && s.t.phase == Established && s.q.outgoing == [] && s.q.sent == []
    requires (s.t.macCached || arp) && (s.r.size == 0 || |s.r.data| <= s.r.size)
    requires !Spins(s, data) && |data| <= s.t.remoteWindow
    ensures var (s1, code) := Send(s, data);
            && Named(s1.q) && 0 <= code <= |data|
            && var s2 := Step(s1, Tick(false, probeDue), arp);
            && |s.h.wire| <= |s2.h.wire| && s2.h.wire[..|s.h.wire|] == s.h.wire
            && Payloads(s2.h.wire, |s.h.wire|) == data[..code]
            && s2.q.outgoing == [] && s2.t.seqNum == Wrap32(s.t.seqNum + code)
            && s2.t.remoteWindow == s.t.remoteWindow - code
            && (|s2.h.wire| > |s.h.wire| ==> s2.h.wire[|s.h.wire|].num == s.t.seqNum)
  {
    hide Send, Spins, Queued, PoolInv, AllGo, AllWent, Drive;
    PoolNamed(s);
    SendTold(s, data);
    var (s1, code) := Send(s, data);
    QueuedPool(s, s1, data[..code]);
    PoolBounds(s1);
    QueueGoes(s, s1, data[..code], arp);
    TickSendsAll(s1, false, probeDue, arp);
    AllWentThen(s, s1, Drive(s1, false, probeDue, arp), data[..code]);
  }

  lemma QueueGoes(s: State, s1: State, data: seq<Byte>, arp: bool)
    requires Queued(s, s1, data) && s.t.phase == Established && s.q.outgoing == [] && s.q.sent == []
    requires (s.t.macCached || arp) && (s.r.size == 0 || |s.r.data| <= s.r.size) && |data| <= s.t.remoteWindow
    ensures AllGo(s1, arp)
  {
    hide Data, Places;
    DataNone(s.q.bufs, s.q.outgoing);
  }

  lemma AllWentThen(s: State, s1: State, s2: State, data: seq<Byte>)
    requires Queued(s, s1, data) && s.t.phase == Established && s.q.outgoing == []
    requires (s.r.size == 0 || |s.r.data| <= s.r.size) && AllWent(s1, s2)
    ensures |s.h.wire| <= |s2.h.wire| && s2.h.wire[..|s.h.wire|] == s.h.wire
    ensures Payloads(s2.h.wire, |s.h.wire|) == data && s2.q.outgoing == []
    ensures s2.t.seqNum == Wrap32(s.t.seqNum + |data|) && s2.t.remoteWindow == s.t.remoteWindow - |data|
    ensures |s2.h.wire| > |s.h.wire| ==> s2.h.wire[|s.h.wire|].num == s.t.seqNum
  {
    hide Data, Places, Carries, Wrap32;
    DataNone(s.q.bufs, s.q.outgoing);
    WentPayloads(s1, s2, 0);
    assert s1.q.outgoing[0..] == s1.q.outgoing && s1.q.outgoing[..|s1.q.outgoing|] == s1.q.outgoing;
    NumZero(s1);
    if s1.q.outgoing != [] {
      assert WentAt(s1, s2, 0);
      CarriesNum(s1, s2.h.wire[|s.h.wire|], NumAt(s1, 0), s1.q.bufs[s1.q.outgoing[0]].data, 0 == |s1.q.outgoing| - 1);
    }
    WrapAdd(s.t.seqNum + |data|, 0);
  }

  lemma CarriesNum(s: State, w: Segment, num: U32, data: seq<Byte>, last: bool)
    requires (s.r.size == 0 || |s.r.data| <= s.r.size) && Carries(s, w, num, data, last)
    ensures w.num == num
  {
  }

  /**
   * enqueue answers 0 and has the data at the end of the stream, or changes no queue: -5 if the packet is larger
   * than maxEnqueue, and -1 in CLOSED and CLOSING, in TIME_WAIT but for connectPacket, and when four are queued.
   */
  lemma EnqueueTold(s: State, id: nat)
    requires Named(s.q) && id < |s.q.bufs|
    ensures var (s', code) := Enqueue(s, id);
            var b := s.q.bufs[id];
            var refused := s.t.phase in {Closed, Closing} || (s.t.phase == TimeWait && id != |s.q.bufs| - 1);
            && code in {0, -1, -5}
            && (code == -5 <==> !refused && |b.data| > s.t.maxEnqueue)
            && (code == -1 <==> refused || (|b.data| <= s.t.maxEnqueue && |s.q.outgoing| >= 4))
            && (code == 0 ==> s'.h.accepted == s.h.accepted + b.data && |s'.q.outgoing| > 0
                              && s'.q.outgoing[|s'.q.outgoing| - 1] == id
                              && s'.q.bufs[id] == b.(attempts := 0, pendingArp := false, ackOnly := false))
            && (code != 0 ==> s'.q.outgoing == s.q.outgoing && s'.h.accepted == s.h.accepted)
  {
    hide Wrap16;
  }

  /** recv answers -6 before the connection is up or after it is gone, and otherwise with what it copied out. */
  lemma RecvTold(s: State, n: nat, arp: bool)
    ensures var (s', code, out) := Recv(s, n, arp);
            && (code < 0 <==> s.t.phase in {Closed, SynSent, SynRecved}) && (code < 0 ==> code == -6 && s' == s)
            && (code >= 0 ==>
                  && code == |out| <= n && s.r.data == out + s'.r.data && (code < n ==> s'.r.data == [])
                  && s'.h.consumed == s.h.consumed + out && s'.h.delivered == s.h.delivered)
  {
    hide SendPacket;
    if !RecvRefused(s.t.phase) && s.r.data != [] && n != 0 {
      var k := Min(n, |s.r.data|);
      var s1 := s.(r := s.r.(data := s.r.data[k..]), h := s.h.(consumed := s.h.consumed + s.r.data[..k]));
      PureAckReader(s1, false, arp);
    }
  }

  lemma PureAckReader(s: State, probe: bool, arp: bool)
    ensures var s' := PureAck(s, probe, arp);
            s'.r == s.r && s'.h.consumed == s.h.consumed && s'.h.delivered == s.h.delivered
  {
  }

  // ---------------------------------------------------------------- the life of a packet

  /** A packet that enqueue has just put at the head, with data or not, and nothing outstanding. */
  ghost predicate FreshHead(s: State) {
    && Named(s.q) && |s.q.outgoing| == 1 && s.q.sent == [] && !AddsSyn(s) && (s.r.size == 0 || |s.r.data| <= s.r.size)
    && var b := s.q.bufs[s.q.outgoing[0]];
    && !b.pendingArp && !b.ackOnly && b.attempts == 0 && |b.data| <= s.t.remoteWindow
    && (b.data != [] || IsSendFin(s.t.phase))
  }

  lemma FirstSending(s: State, probeDue: bool, arp: bool)
    requires FreshHead(s) && (s.t.macCached || arp)
    ensures var s1 := Step(s, Tick(false, probeDue), arp);
            var id := s.q.outgoing[0];
            && HeadWent(s, s1) && s1.q.sent == [id] && s1.q.bufs[id].attempts == 1
            && s1.q.bufs[id].last == Wrap32(s1.t.seqNum - 1)
            && s1.q.bufs[id].header.(data := s1.q.bufs[id].data) == s1.h.wire[|s.h.wire|]
  {
    hide Carries, Header, Wrap32, Wrap16;
    var b := s.q.bufs[s.q.outgoing[0]];
    HeadGoes(s, probeDue, arp);
    HeaderParts(s, b.data);
    assert DriveLoop(HeadSent(s, arp), probeDue, arp) == HeadSent(s, arp);
  }

  lemma HeaderParts(s: State, data: seq<Byte>)
    requires data != [] || IsSendFin(s.t.phase)
    ensures var w := Header(s, data, false, false);
            w.data == data && (s.q.outgoing != [] && |s.q.outgoing| == 1 ==> data != [] || w.bits != ACK_BITS)
  {
  }

  /**
   * A packet that is never acknowledged is put on the wire eleven times, the same segment each time: at the
   * first tick that may send it and at ten timeouts.  The eleventh timeout closes the socket with reason 4.
   */
  lemma ElevenSendings(s: State, probeDue: bool, arp: bool, es: Steps)
    requires PoolInv(s) && FreshHead(s) && (s.t.macCached || arp) && AllOverdue(es) && |es| == 11
    ensures PoolInv(Step(s, Tick(false, probeDue), arp))
    ensures var s1 := Step(s, Tick(false, probeDue), arp);
            var s2 := Run(s1, es);
            && |s1.h.wire| == |s.h.wire| + 1 && s1.h.wire[..|s.h.wire|] == s.h.wire
            && (var w := s1.h.wire[|s.h.wire|];
                && Carries(s, w, s.t.seqNum, s.q.bufs[s.q.outgoing[0]].data, true)
                && s2.h.wire == s.h.wire + seq(11, _ => w))
            && s1.t.phase == FinGone(s.t.phase) && s2.t.phase == Closed && s2.t.closeReason == 4
  {
    hide PoolInv, Step, Carries, Run;
    StepKeeps(s, Tick(false, probeDue), arp);
    FirstSending(s, probeDue, arp);
    var s1 := Step(s, Tick(false, probeDue), arp);
    GivesUp(s1, es);
    var w := s1.h.wire[|s.h.wire|];
    assert s1.h.wire == s.h.wire + [w];
    assert s.h.wire + [w] + seq(10, _ => w) == s.h.wire + seq(11, _ => w);
  }

  /**
   * While the hardware address is unknown nothing goes out; the numbers are taken, though, and once ARP has
   * answered the packet goes out as it was made up then, whatever the state has become.
   */
  lemma ArpLate(s: State, t: State, probeDue: bool)
    requires Goes(s, true) && !s.t.macCached && |s.q.outgoing| == 1
    requires Named(t.q) && t.q.outgoing == s.q.outgoing && |t.q.sent| < 4
    requires |t.q.bufs[t.q.outgoing[0]].data| <= t.t.remoteWindow
    requires t.q.bufs[t.q.outgoing[0]] == DriveLoop(s, probeDue, false).q.bufs[s.q.outgoing[0]]
    ensures var s1 := DriveLoop(s, probeDue, false);
            && s1.h.wire == s.h.wire && s1.q.outgoing == s.q.outgoing && s1.t.seqNum == HeadSent(s, true).t.seqNum
    ensures var t1 := DriveLoop(t, probeDue, true);
            && |t1.h.wire| == |t.h.wire| + 1 && t1.h.wire[..|t.h.wire|] == t.h.wire
            && Carries(s, t1.h.wire[|t.h.wire|], s.t.seqNum, s.q.bufs[s.q.outgoing[0]].data, true)
            && t1.q.outgoing == [] && t1.t == t.t.(macCached := true)
  {
    hide Wrap32, Wrap16, Header, Carries;
    HeaderCarries(s, s.q.bufs[s.q.outgoing[0]].data);
    var id := s.q.outgoing[0];
    assert t.q.bufs[id].pendingArp && t.q.bufs[id].header == Header(s, s.q.bufs[id].data, false, false);
    var f := SendPacket(t, t.q.bufs[id], false, false, true);
    assert DriveLoop(t, probeDue, true) == AfterSend(f.s, id, f.b);
  }

  // ---------------------------------------------------------------- closing

  /** What close leads to at once: the FIN that is due. */
  function CloseDue(p: Phase): Phase
    requires p in {Established, CloseWait, SynRecved}
  {
    match p case Established => SendFin1 case CloseWait => SendFin2 case _ => SendFin3
  }

  /** The packets waiting, or the one that close adds if there are none. */
  function Waiting(s: State): nat { if s.q.outgoing == [] then 1 else |s.q.outgoing| }

  lemma CloseQueues(s: State, arp: bool)
    requires AllGo(s, arp) && s.t.phase in {Established, CloseWait} && |s.q.sent| + Waiting(s) <= 4
    ensures var s1 := Step(s, UserClose, arp);
            && AllGo(s1, arp) && s1.t == s.t.(phase := CloseDue(s.t.phase)) && s1.q.outgoing != []
            && |s1.q.outgoing| == Waiting(s) && s1.q.sent == s.q.sent && s1.r == s.r && s1.h.wire == s.h.wire
            && Data(s1.q.bufs, s1.q.outgoing) == Data(s.q.bufs, s.q.outgoing)
  {
    hide EnqueueConnect, Data;
    if s.q.outgoing == [] {
      var s0 := s.(t := s.t.(phase := CloseDue(s.t.phase)));
      ConnectAlone(s0);
      var s1 := EnqueueConnect(s0);
      DataSingle(s1.q.bufs, s1.q.outgoing[0]);
      DataNone(s.q.bufs, s.q.outgoing);
    }
  }

  /** connectPacket, queued on its own. */
  lemma ConnectAlone(s: State)
    requires Named(s.q) && s.q.outgoing == [] && s.t.phase !in {Closed, Closing}
    ensures var s' := EnqueueConnect(s);
            && Named(s'.q) && s'.t == s.t && s'.r == s.r && s'.h.wire == s.h.wire && s'.q.sent == s.q.sent
            && s'.q.outgoing == [Conn(s.q)] && |s'.q.bufs| == |s.q.bufs| && s'.h.fins == s.h.fins
            && var b := s'.q.bufs[Conn(s.q)];
            && b.data == [] && !b.pendingArp && !b.ackOnly && b.attempts == 0
  {
    hide Wrap16;
  }

  /**
   * close, and a tick that may send all that is queued: the queued data goes out in order, and the FIN with
   * the last of it, on a packet of its own if there was none.
   */
  lemma CloseSendsFin(s: State, probeDue: bool, arp: bool)
    requires AllGo(s, arp) && s.t.phase in {Established, CloseWait} && |s.q.sent| + Waiting(s) <= 4
    ensures Named(Step(s, UserClose, arp).q)
    ensures var s1 := Step(s, UserClose, arp);
            var s2 := Step(s1, Tick(false, probeDue), arp);
            var n := |Data(s.q.bufs, s.q.outgoing)|;
            && s2.t.phase == (if s.t.phase == Established then FinWait1 else LastAck)
            && s2.t.seqNum == Wrap32(s.t.seqNum + n + 1) && s2.q.outgoing == []
            && |s2.h.wire| == |s.h.wire| + Waiting(s) && s2.h.wire[..|s.h.wire|] == s.h.wire
            && Payloads(s2.h.wire, |s.h.wire|) == Data(s.q.bufs, s.q.outgoing)
            && forall i :: |s.h.wire| <= i < |s2.h.wire| ==> (s2.h.wire[i].bits.fin <==> i == |s2.h.wire| - 1)
  {
    hide AllGo, AllWent, Step, Drive, Data, Payloads;
    ReadyNamed(s, arp);
    CloseQueues(s, arp);
    ReadyNamed(Step(s, UserClose, arp), arp);
    var s1 := Step(s, UserClose, arp);
    TickSendsAll(s1, false, probeDue, arp);
    TickDrives(s1, false, probeDue, arp);
    FinLast(s1, Drive(s1, false, probeDue, arp));
  }

  lemma TickDrives(s: State, overdue: bool, probeDue: bool, arp: bool)
    requires Named(s.q)
    ensures Step(s, Tick(overdue, probeDue), arp) == Drive(s, overdue, probeDue, arp)
  {
  }

  lemma ReadyNamed(s: State, arp: bool)
    requires AllGo(s, arp)
    ensures Named(s.q) && (s.r.size == 0 || |s.r.data| <= s.r.size)
  {
  }

  lemma FinLast(s: State, s': State)
    requires Named(s.q) && (s.r.size == 0 || |s.r.data| <= s.r.size) && AllWent(s, s')
    requires IsSendFin(s.t.phase) && s.q.outgoing != []
    ensures |s'.h.wire| == |s.h.wire| + |s.q.outgoing| && s'.h.wire[..|s.h.wire|] == s.h.wire
    ensures Payloads(s'.h.wire, |s.h.wire|) == Data(s.q.bufs, s.q.outgoing)
    ensures forall i :: |s.h.wire| <= i < |s'.h.wire| ==> (s'.h.wire[i].bits.fin <==> i == |s'.h.wire| - 1)
    ensures s'.t.phase == (if s.t.phase == SendFin2 then LastAck else FinWait1) && s'.q.outgoing == []
    ensures s'.t.seqNum == Wrap32(s.t.seqNum + |Data(s.q.bufs, s.q.outgoing)| + 1)
  {
    hide Data, Wrap32;
    WentPayloads(s, s', 0);
    assert s.q.outgoing[0..] == s.q.outgoing && s.q.outgoing[..|s.q.outgoing|] == s.q.outgoing;
    WrapAdd(s.t.seqNum + |Data(s.q.bufs, s.q.outgoing)|, 1);
    forall i | |s.h.wire| <= i < |s'.h.wire| ensures s'.h.wire[i].bits.fin <==> i == |s'.h.wire| - 1 {
      assert WentAt(s, s', i - |s.h.wire|);
    }
  }
}
