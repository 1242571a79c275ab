/**
 * Who owns a receive buffer.  The packet driver's interrupt, the foreground loop, IP reassembly, the
 * TCP socket and the user all pass buffers around; every interleaving of their atomic steps keeps
 * each buffer in exactly one place.
 */
module Ownership {
  import opened Machine
  import opened Counting
  import opened TcpPackets
  import PB = PacketBuffers
  import IP = Reassembly
  import T = TcpModel
  import TP = TcpPool

  // ---------------------------------------------------------------- the whole machine

  /** Names: 0 to BUFFERS-1 are receive buffers, the next MAX_DATAGRAMS are BigPackets (isIpBigPacket). */
  predicate IsBig(id: nat) { PB.BUFFERS <= id < PB.BUFFERS + IP.MAX_DATAGRAMS }

  function BigId(slot: nat): nat { PB.BUFFERS + slot }

  /**
   * `hands` is the packet a handler is working on, `looked` says that the foreground has seen the
   * ring not empty, and `returned` lists every buffer given back by Buffer_free so far.
   */
  datatype System = System(pool: PB.Pool, hands: Option<nat>, looked: bool, ip: IP.State, tcp: T.State, returned: seq<nat>)

  /** What a handler finds in a packet. */
  datatype Content = Fragment(key: IP.Key, offset: U16, last: bool, data: seq<Byte>) | TcpSegment(seg: T.Segment) | Other

  datatype Event =
    | Offer(len: U16)                          // interrupt: the driver wants a buffer
    | Copied(len: U16)                         // interrupt: the driver has filled it
    | Look                                     // foreground: is there work?
    | Take                                     // foreground: dequeue a packet
    | Handle(c: Content, arp: bool)            // foreground: run the handler of the packet at hand
    | Free(id: nat)                            // foreground: one Buffer_free that the code has decided on
    | TcpStep(e: T.Event, arp: bool)           // foreground: the user or the clock
    | Overdue(overdue: set<nat>)               // foreground: purgeOverdue

  /** Buffers IP and TCP have decided to free, less those already given back. */
  ghost function Owed(s: System, id: nat): int {
    Occ(Ids(s.tcp.h.freed), id) + Occ(s.ip.freed, id) - Occ(s.returned, id)
  }

  /** May this happen now?  The driver alternates its calls; the foreground is sequential. */
  ghost predicate Possible(s: System, e: Event) {
    match e
    case Offer(_) => s.pool.copying.None?
    case Copied(_) => s.pool.copying.Some?
    case Look => true
    case Take => s.looked && s.hands.None?
    case Handle(c, _) => s.hands.Some? && (c.Fragment? ==> !IsBig(s.hands.value))
    case Free(id) => Owed(s, id) > 0
    case TcpStep(e, _) => !e.Arrive?
    case Overdue(_) => true
  }

  /** Buffer_free: BigPackets go to IP's own stack. */
  function Give(s: System, id: nat): System {
    var s1 := s.(returned := s.returned + [id]);
    if IsBig(id) then s1.(ip := IP.ReturnBig(s.ip, id - PB.BUFFERS)) else s1.(pool := PB.Release(s.pool, id))
  }

  function HandlePacket(s: System, id: nat, c: Content, arp: bool): System
    requires T.Named(s.tcp.q)
  {
    match c
    case Fragment(key, offset, last, data) =>
      var (ip, out) := IP.ProcessFragment(s.ip, IP.Fragment(id, key, offset, last, data));
      s.(ip := ip, hands := if out.Some? then Some(BigId(out.value.slot)) else None)
    case TcpSegment(seg) => s.(tcp := T.Step(s.tcp, T.Arrive(T.Packet(id, seg)), arp), hands := None)
    case Other =>
      // Every other handler frees the packet itself.
      s.(ip := IP.FreeBuffer(s.ip, id), hands := None)
  }

  ghost function Step(s: System, e: Event): System
    requires Possible(s, e) && T.Named(s.tcp.q) && |s.ip.controls| == IP.MAX_DATAGRAMS
    requires s.looked ==> s.pool.ring != []
  {
    match e
    case Offer(len) => s.(pool := PB.Offer(s.pool, len).0)
    case Copied(len) => s.(pool := PB.Copied(s.pool, len))
    case Look => s.(looked := s.pool.ring != [])
    case Take => s.(pool := PB.Take(s.pool).0, hands := Some(PB.Take(s.pool).1.buffer), looked := false)
    case Handle(c, arp) => HandlePacket(s, s.hands.value, c, arp)
    case Free(id) => Give(s, id)
    case TcpStep(e, arp) => s.(tcp := T.Step(s.tcp, e, arp))
    case Overdue(overdue) => s.(ip := IP.Purge(s.ip, overdue, 0))
  }

  function RingIds(ring: seq<PB.Arrived>): (ids: seq<nat>)
    ensures |ids| == |ring|
  {
    if ring == [] then [] else RingIds(ring[..|ring| - 1]) + [ring[|ring| - 1].buffer]
  }

  ghost function One(o: Option<nat>, id: nat): nat { if o == Some(id) then 1 else 0 }

  /** How often a name occurs with IP: in a control, owed, or on the BigPacket stack. */
  ghost function InIp(ip: IP.State, id: nat): nat {
    IP.Seen(ip, id) + (if IsBig(id) then Occ(ip.bigFree, id - PB.BUFFERS) else 0)
  }

  ghost function InPool(p: PB.Pool, id: nat): nat {
    Occ(p.free, id) + One(p.copying, id) + Occ(RingIds(p.ring), id)
  }

  /** All the places a buffer can be, less the times it has been given back. */
  ghost function Places(s: System, id: nat): int {
    InPool(s.pool, id) + One(s.hands, id) + InIp(s.ip, id) + InTcp(s.tcp, id) - Occ(s.returned, id)
  }

  ghost predicate Named(p: PB.Pool) {
    && (forall k :: 0 <= k < |p.free| ==> p.free[k] < PB.BUFFERS)
    && (p.copying.Some? ==> p.copying.value < PB.BUFFERS)
    && (forall k :: 0 <= k < |p.ring| ==> p.ring[k].buffer < PB.BUFFERS)
  }

  ghost predicate Inv(s: System) {
    && Named(s.pool) && (s.hands.Some? ==> s.hands.value < PB.BUFFERS + IP.MAX_DATAGRAMS)
    && (forall id: nat :: Places(s, id) == if id < PB.BUFFERS + IP.MAX_DATAGRAMS then 1 else 0)
    && (forall id: nat :: Owed(s, id) >= 0)
    && IP.Inv(s.ip) && TP.PoolInv(s.tcp)
    && (forall k :: 0 <= k < |s.ip.bigFree| ==> s.ip.bigFree[k] < IP.MAX_DATAGRAMS)
    && (s.looked ==> s.pool.ring != [])
    && s.pool.processed + s.pool.ring == s.pool.arrived
  }

  // ---------------------------------------------------------------- each atomic step

  lemma {:induction false} RingIdsSnoc(ring: seq<PB.Arrived>, a: PB.Arrived, x: nat)
    ensures Occ(RingIds(ring + [a]), x) == Occ(RingIds(ring), x) + (if a.buffer == x then 1 else 0)
  {
    assert (ring + [a])[..|ring|] == ring;
    OccSnoc(RingIds(ring), a.buffer, x);
  }

  lemma {:induction false} RingIdsTail(ring: seq<PB.Arrived>)
    requires ring != []
    ensures RingIds(ring) == [ring[0].buffer] + RingIds(ring[1..])
  {
    var n := |ring| - 1;
    if n > 0 {
      RingIdsTail(ring[..n]);
      assert ring[..n][1..] == ring[1..][..n - 1];
    }
  }

  lemma OfferMoves(p: PB.Pool, len: U16, x: nat)
    requires p.copying.None?
    ensures InPool(PB.Offer(p, len).0, x) == InPool(p, x)
  {
    if p.free != [] { OccSnoc(p.free[..|p.free| - 1], p.free[|p.free| - 1], x); assert p.free == p.free[..|p.free| - 1] + [p.free[|p.free| - 1]]; }
  }

  lemma CopiedMoves(p: PB.Pool, len: U16, x: nat)
    requires p.copying.Some?
    ensures InPool(PB.Copied(p, len), x) == InPool(p, x)
  {
    RingIdsSnoc(p.ring, PB.Arrived(p.copying.value, len), x);
  }

  lemma TakeMoves(p: PB.Pool, x: nat)
    requires p.ring != []
    ensures InPool(PB.Take(p).0, x) + One(Some(PB.Take(p).1.buffer), x) == InPool(p, x)
  {
    RingIdsTail(p.ring);
    OccConcat([p.ring[0].buffer], RingIds(p.ring[1..]), x);
    OccOne(p.ring[0].buffer, x);
  }

  lemma FreeOfPool(p: PB.Pool, id: nat, x: nat)
    ensures InPool(PB.Release(p, id), x) == InPool(p, x) + (if x == id then 1 else 0)
  {
    OccSnoc(p.free, id, x);
  }

  lemma ReturnBigMoves(ip: IP.State, slot: nat, x: nat)
    requires slot < IP.MAX_DATAGRAMS
    ensures InIp(IP.ReturnBig(ip, slot), x) == InIp(ip, x) + (if x == BigId(slot) then 1 else 0)
  {
    if IsBig(x) { OccSnoc(ip.bigFree, slot, x - PB.BUFFERS); }
  }

  /** processFragment takes a BigPacket from its stack exactly when it passes one on. */
  lemma FragmentBig(ip: IP.State, f: IP.Fragment)
    ensures var (ip', out) := IP.ProcessFragment(ip, f);
            if out.Some? then ip.bigFree == ip'.bigFree + [out.value.slot] else ip'.bigFree == ip.bigFree
  {
    hide IP.Contiguous, IP.Inserted, IP.InsertPos, IP.Overlaps, IP.IsDuplicate, IP.TooBig, IP.Payload, IP.Buffers;
  }

  lemma FragmentMoves(ip: IP.State, f: IP.Fragment, x: nat)
    requires IP.Inv(ip)
    ensures var (ip', out) := IP.ProcessFragment(ip, f);
            InIp(ip', x) + (if out.Some? && IsBig(x) && x == BigId(out.value.slot) then 1 else 0)
              == InIp(ip, x) + (if x == f.buffer then 1 else 0)
  {
    hide IP.ProcessFragment, IP.Inv, IP.Seen;
    IP.ProcessKeeps(ip, f);
    FragmentBig(ip, f);
    var (ip', out) := IP.ProcessFragment(ip, f);
    assert IP.Seen(ip', x) == IP.Seen(ip, x) + Occ([f.buffer], x);
    OccOne(f.buffer, x);
    if out.Some? && IsBig(x) { OccSnoc(ip'.bigFree, out.value.slot, x - PB.BUFFERS); }
  }

  // ---------------------------------------------------------------- what IP has freed stays freed

  ghost predicate FreedMore(ip: IP.State, ip': IP.State) {
    forall x: nat :: Occ(ip'.freed, x) >= Occ(ip.freed, x)
  }

  lemma MoreBy(ip: IP.State, ip': IP.State, more: seq<nat>)
    requires ip'.freed == ip.freed + more
    ensures FreedMore(ip, ip')
  {
    forall x: nat ensures Occ(ip'.freed, x) >= Occ(ip.freed, x) { OccConcat(ip.freed, more, x); }
  }

  lemma MoreThen(ip: IP.State, ip1: IP.State, ip2: IP.State)
    requires FreedMore(ip, ip1) && FreedMore(ip1, ip2)
    ensures FreedMore(ip, ip2)
  {
    forall x: nat ensures Occ(ip2.freed, x) >= Occ(ip.freed, x) {
      assert Occ(ip2.freed, x) >= Occ(ip1.freed, x);
    }
  }

  lemma KillMore(ip: IP.State, ip1: IP.State, i: nat)
    requires FreedMore(ip, ip1) && i < |ip1.controls| && ip1.controls[i].Collecting?
    ensures FreedMore(ip, IP.Kill(ip1, i))
  {
    MoreBy(ip1, IP.Kill(ip1, i), IP.Buffers(ip1.controls[i].frags));
    MoreThen(ip, ip1, IP.Kill(ip1, i));
  }

  lemma SameMore(ip: IP.State, ip': IP.State)
    requires ip'.freed == ip.freed
    ensures FreedMore(ip, ip')
  {
  }

  lemma FragmentMore(ip: IP.State, f: IP.Fragment)
    ensures FreedMore(ip, IP.ProcessFragment(ip, f).0)
  {
    hide FreedMore, IP.Contiguous, IP.Inserted, IP.InsertPos, IP.Overlaps, IP.IsDuplicate, IP.TooBig,
         IP.Payload, IP.Buffers, IP.Kill;
    var ip' := IP.ProcessFragment(ip, f).0;
    MoreBy(ip, IP.FreeBuffer(ip, f.buffer), [f.buffer]);
    SameMore(ip, ip);
    var found := IP.Find(ip.controls, f.key);
    if found.None? {
      var open := IP.FindOpen(ip.controls);
      if open.Some? { SameMore(ip, IP.Start(ip, f).(freed := ip.freed)); }
    } else {
      var i := found.value;
      var c := ip.controls[i];
      var s1 := ip.(controls := ip.controls[i := c.(lastRcvd := c.lastRcvd || f.last)]);
      var s2 := ip.(controls := ip.controls[i := c.(lastRcvd := c.lastRcvd || f.last, frags := IP.Inserted(c.frags, f))]);
      MoreBy(ip, IP.FreeBuffer(s1, f.buffer), [f.buffer]);
      SameMore(ip, s2);
      KillMore(ip, IP.FreeBuffer(ip, f.buffer), i);
      KillMore(ip, IP.FreeBuffer(s1, f.buffer), i);
      KillMore(ip, s2, i);
      var n := |ip.bigFree| - 1;
      if n >= 0 {
        SameMore(ip, s2.(bigFree := ip.bigFree[..n]));
        KillMore(ip, s2.(bigFree := ip.bigFree[..n]), i);
      }
    }
  }

  lemma {:induction false} PurgeMore(ip: IP.State, overdue: set<nat>, i: nat)
    requires i <= |ip.controls|
    ensures FreedMore(ip, IP.Purge(ip, overdue, i))
    ensures IP.Purge(ip, overdue, i).bigFree == ip.bigFree
    decreases |ip.controls| - i
  {
    hide FreedMore;
    SameMore(ip, ip);
    if i < |ip.controls| {
      var ip1 := if ip.controls[i].Collecting? && i in overdue then IP.Kill(ip, i) else ip;
      if ip.controls[i].Collecting? { KillMore(ip, ip, i); }
      PurgeMore(ip1, overdue, i + 1);
      MoreThen(ip, ip1, IP.Purge(ip1, overdue, i + 1));
    }
  }

  // ---------------------------------------------------------------- every atomic step

  lemma OwedFrom(s: System, s': System, id: nat)
    requires Grows(s.tcp, s'.tcp) && FreedMore(s.ip, s'.ip) && s'.returned == s.returned
    ensures Owed(s', id) >= Owed(s, id)
  {
    var more :| s'.tcp.h.freed == s.tcp.h.freed + more;
    IdsConcat(s.tcp.h.freed, more);
    OccConcat(Ids(s.tcp.h.freed), Ids(more), id);
  }

  lemma PoolStep(s: System, e: Event)
    requires Inv(s) && Possible(s, e) && (e.Offer? || e.Copied? || e.Look? || e.Take?)
    ensures Inv(Step(s, e))
  {
    hide IP.Inv, TP.PoolInv, Occ, IP.Seen, Ids, InPool, InIp;
    InvNamed(s);
    var s' := Step(s, e);
    forall id: nat ensures Places(s', id) == Places(s, id) {
      match e {
        case Offer(len) => OfferMoves(s.pool, len, id);
        case Copied(len) => CopiedMoves(s.pool, len, id);
        case Look =>
        case Take => TakeMoves(s.pool, id);
      }
    }
    if e.Take? {
      assert s.pool.processed + s.pool.ring == (s.pool.processed + [s.pool.ring[0]]) + s.pool.ring[1..];
    }
    if e.Copied? {
      var a := PB.Arrived(s.pool.copying.value, e.len);
      assert (s.pool.processed + s.pool.ring) + [a] == s.pool.processed + (s.pool.ring + [a]);
    }
    forall id: nat ensures Owed(s', id) == Owed(s, id) {
    }
  }

  lemma InvNamed(s: System)
    requires Inv(s)
    ensures T.Named(s.tcp.q) && |s.ip.controls| == IP.MAX_DATAGRAMS
  {
  }

  lemma TcpStepKeeps(s: System, e: T.Event, arp: bool)
    requires Inv(s) && !e.Arrive?
    ensures Inv(s.(tcp := T.Step(s.tcp, e, arp)))
  {
    hide IP.Inv, TP.PoolInv, T.Step, Occ, IP.Seen, Ids, InPool, InIp, InTcp;
    InvNamed(s);
    var s' := s.(tcp := T.Step(s.tcp, e, arp));
    TP.StepKeeps(s.tcp, e, arp);
    StepGrows(s.tcp, e, arp);
    SameMore(s.ip, s.ip);
    forall id: nat ensures Places(s', id) == Places(s, id) && Owed(s', id) >= 0 {
      StepInTcp(s.tcp, e, arp, id);
      OwedFrom(s, s', id);
    }
  }

  lemma SegmentKeeps(s: System, seg: T.Segment, arp: bool)
    requires Inv(s) && s.hands.Some?
    ensures Inv(s.(tcp := T.Step(s.tcp, T.Arrive(T.Packet(s.hands.value, seg)), arp), hands := None))
  {
    hide IP.Inv, TP.PoolInv, T.Step, Occ, IP.Seen, Ids, InPool, InIp, InTcp;
    InvNamed(s);
    var e := T.Arrive(T.Packet(s.hands.value, seg));
    var s' := s.(tcp := T.Step(s.tcp, e, arp), hands := None);
    TP.StepKeeps(s.tcp, e, arp);
    StepGrows(s.tcp, e, arp);
    SameMore(s.ip, s.ip);
    forall id: nat ensures Places(s', id) == Places(s, id) && Owed(s', id) >= 0 {
      StepInTcp(s.tcp, e, arp, id);
      OwedFrom(s, s', id);
    }
  }

  lemma FragmentKeeps(s: System, f: IP.Fragment)
    requires Inv(s) && s.hands == Some(f.buffer) && !IsBig(f.buffer)
    ensures var (ip, out) := IP.ProcessFragment(s.ip, f);
            Inv(s.(ip := ip, hands := if out.Some? then Some(BigId(out.value.slot)) else None))
  {
    hide IP.Inv, TP.PoolInv, IP.ProcessFragment, Occ, IP.Seen, Ids, InPool, InIp, InTcp;
    var (ip, out) := IP.ProcessFragment(s.ip, f);
    var s' := s.(ip := ip, hands := if out.Some? then Some(BigId(out.value.slot)) else None);
    IP.ProcessKeeps(s.ip, f);
    FragmentBig(s.ip, f);
    FragmentMore(s.ip, f);
    GrowsSame(s.tcp, s.tcp);
    SlotsBelow(s.ip, ip, out);
    forall id: nat ensures Places(s', id) == Places(s, id) && Owed(s', id) >= 0 {
      FragmentMoves(s.ip, f, id);
      OwedFrom(s, s', id);
    }
  }

  lemma SlotsBelow(ip: IP.State, ip': IP.State, out: Option<IP.Datagram>)
    requires forall k :: 0 <= k < |ip.bigFree| ==> ip.bigFree[k] < IP.MAX_DATAGRAMS
    requires if out.Some? then ip.bigFree == ip'.bigFree + [out.value.slot] else ip'.bigFree == ip.bigFree
    ensures forall k :: 0 <= k < |ip'.bigFree| ==> ip'.bigFree[k] < IP.MAX_DATAGRAMS
    ensures out.Some? ==> out.value.slot < IP.MAX_DATAGRAMS
  {
    if out.Some? {
      assert ip.bigFree[|ip'.bigFree|] == out.value.slot;
      forall k | 0 <= k < |ip'.bigFree| ensures ip'.bigFree[k] < IP.MAX_DATAGRAMS { assert ip.bigFree[k] == ip'.bigFree[k]; }
    }
  }

  lemma OtherKeeps(s: System)
    requires Inv(s) && s.hands.Some?
    ensures Inv(s.(ip := IP.FreeBuffer(s.ip, s.hands.value), hands := None))
  {
    hide TP.PoolInv, Occ, Ids, InPool, InTcp;
    var id0 := s.hands.value;
    var s' := s.(ip := IP.FreeBuffer(s.ip, id0), hands := None);
    MoreBy(s.ip, s'.ip, [id0]);
    GrowsSame(s.tcp, s.tcp);
    forall id: nat ensures Places(s', id) == Places(s, id) && Owed(s', id) >= 0 {
      OccSnoc(s.ip.freed, id0, id);
      OwedFrom(s, s', id);
    }
  }

  lemma OverdueKeeps(s: System, overdue: set<nat>)
    requires Inv(s)
    ensures Inv(s.(ip := IP.Purge(s.ip, overdue, 0)))
  {
    hide IP.Inv, TP.PoolInv, IP.Purge, Occ, IP.Seen, Ids, InPool, InTcp;
    InvNamed(s);
    var s' := s.(ip := IP.Purge(s.ip, overdue, 0));
    IP.PurgeKeeps(s.ip, overdue, 0);
    PurgeMore(s.ip, overdue, 0);
    GrowsSame(s.tcp, s.tcp);
    NoneOcc();
    forall id: nat ensures Places(s', id) == Places(s, id) && Owed(s', id) >= 0 {
      assert IP.Seen(s'.ip, id) == IP.Seen(s.ip, id) + Occ([], id);
      OwedFrom(s, s', id);
    }
  }

  lemma NoneOcc()
    ensures forall x: nat :: Occ([], x) == 0
  {
  }

  /** A name that is owed is a buffer, and giving it back puts it where it belongs. */
  lemma FreeKeeps(s: System, id: nat)
    requires Inv(s) && Owed(s, id) > 0
    ensures id < PB.BUFFERS + IP.MAX_DATAGRAMS && Inv(Give(s, id))
  {
    hide TP.PoolInv, Occ, Ids, InPool, InIp, IP.Find;
    OwedIsOne(s, id);
    var s' := Give(s, id);
    forall x: nat ensures Places(s', x) == Places(s, x) && Owed(s', x) >= 0 {
      OccSnoc(s.returned, id, x);
      assert Owed(s, x) >= 0;
      if IsBig(id) { ReturnBigMoves(s.ip, id - PB.BUFFERS, x); } else { FreeOfPool(s.pool, id, x); }
    }
  }

  /** An owed buffer is nowhere else. */
  lemma OwedIsOne(s: System, id: nat)
    requires Inv(s) && Owed(s, id) > 0
    ensures id < PB.BUFFERS + IP.MAX_DATAGRAMS && Owed(s, id) == 1
    ensures InPool(s.pool, id) == 0 && (IsBig(id) ==> Occ(s.ip.bigFree, id - PB.BUFFERS) == 0)
  {
    hide IP.Inv, TP.PoolInv, Occ, Ids, InPool;
    assert Places(s, id) == if id < PB.BUFFERS + IP.MAX_DATAGRAMS then 1 else 0;
  }

  // ---------------------------------------------------------------- runs

  /** Every atomic step, of the interrupt or of the foreground, keeps every buffer in exactly one place. */
  lemma StepKeeps(s: System, e: Event)
    requires Inv(s) && Possible(s, e)
    ensures T.Named(s.tcp.q) && |s.ip.controls| == IP.MAX_DATAGRAMS && Inv(Step(s, e))
  {
    hide Inv, IP.ProcessFragment, T.Step, IP.Purge, IP.FreeBuffer, Give;
    InvNamed(s);
    LookedWork(s);
    match e
    case Offer(len) => PoolStep(s, e);
    case Copied(len) => PoolStep(s, e);
    case Look => PoolStep(s, e);
    case Take => PoolStep(s, e);
    case Handle(c, arp) =>
      match c {
        case Fragment(key, offset, last, data) => FragmentKeeps(s, IP.Fragment(s.hands.value, key, offset, last, data));
        case TcpSegment(seg) => SegmentKeeps(s, seg, arp);
        case Other => OtherKeeps(s);
      }
    case Free(id) => FreeKeeps(s, id);
    case TcpStep(e, arp) => TcpStepKeeps(s, e, arp);
    case Overdue(overdue) => OverdueKeeps(s, overdue);
  }

  lemma LookedWork(s: System)
    requires Inv(s)
    ensures s.looked ==> s.pool.ring != []
  {
  }

  /** Any interleaving of possible steps. */
  ghost predicate PossibleRun(s: System, es: seq<Event>)
    requires Inv(s)
    decreases |es|
  {
    es != [] ==>
      && Possible(s, es[0])
      && (StepKeeps(s, es[0]); PossibleRun(Step(s, es[0]), es[1..]))
  }

  ghost function Run(s: System, es: seq<Event>): (r: System)
    requires Inv(s) && PossibleRun(s, es)
    ensures Inv(r)
    decreases |es|
  {
    if es == [] then s
    else
      StepKeeps(s, es[0]);
      Run(Step(s, es[0]), es[1..])
  }

  /** The machine once the stack is up and receiving, and the socket is connecting. */
  ghost function Started(iss: U32, pool: nat, mss: U16, rcvSize: U16): System {
    System(PB.Pool(seq(PB.BUFFERS, i => i), None, [], [], []), None, false, IP.Initial(),
           T.Connect(T.Fresh(iss, pool, mss, rcvSize)), [])
  }

  lemma StartedInv(iss: U32, pool: nat, mss: U16, rcvSize: U16)
    ensures Inv(Started(iss, pool, mss, rcvSize))
  {
    hide T.Connect, T.Fresh, TP.PoolInv, IP.Inv, IP.Seen, Occ;
    var s := Started(iss, pool, mss, rcvSize);
    TP.FreshKeeps(iss, pool, mss, rcvSize);
    IP.InitialInv(0);
    StartedTcp(iss, pool, mss, rcvSize);
    NoneOcc();
    forall id: nat ensures Places(s, id) == (if id < PB.BUFFERS + IP.MAX_DATAGRAMS then 1 else 0) && Owed(s, id) >= 0 {
      TP.IdentityOcc(PB.BUFFERS, id);
      IP.InitialInv(id);
      StartedBig(id);
    }
  }

  lemma StartedTcp(iss: U32, pool: nat, mss: U16, rcvSize: U16)
    ensures var t := T.Connect(T.Fresh(iss, pool, mss, rcvSize)); t.r.incoming == [] && t.h.freed == []
  {
    hide T.EnqueueConnect;
    var f := T.Fresh(iss, pool, mss, rcvSize);
    ConnectPackets(f.(t := f.t.(phase := T.SynSent)));
  }

  lemma StartedBig(id: nat)
    ensures IP.Initial().freed == []
    ensures IsBig(id) ==> Occ(IP.Initial().bigFree, id - PB.BUFFERS) == 1
  {
    if IsBig(id) {
      TP.IdentityOcc(IP.MAX_DATAGRAMS, id - PB.BUFFERS);
      assert IP.Initial().bigFree == seq(IP.MAX_DATAGRAMS, i => i);
    }
  }

  /**
   * Whatever the interrupt, the peers, the user and the clock do, in any order: every receive buffer
   * and every BigPacket is in exactly one of the free stack (BigPackets: IP's own), the driver's
   * hands, the ring, a handler's hands, a fragment control, the socket's incoming queue, or on its
   * way to Buffer_free; packets are processed in the order they arrived; and fragsInReassembly
   * counts the controls in use.
   */
  lemma OwnershipOnEveryRun(iss: U32, pool: nat, mss: U16, rcvSize: U16, es: seq<Event>)
    ensures Inv(Started(iss, pool, mss, rcvSize))
    ensures PossibleRun(Started(iss, pool, mss, rcvSize), es) ==>
              var s := Run(Started(iss, pool, mss, rcvSize), es);
              && (forall id: nat :: id < 14 ==>
                    InPool(s.pool, id) + One(s.hands, id) + IP.Held(s.ip.controls, id)
                      + (if IsBig(id) then Occ(s.ip.bigFree, id - PB.BUFFERS) else 0)
                      + Occ(Ids(s.tcp.r.incoming), id) + Owed(s, id) == 1)
              && (forall k :: 0 <= k < |s.pool.free| ==> !IsBig(s.pool.free[k]))
              && s.pool.processed + s.pool.ring == s.pool.arrived
              && s.ip.inReassembly == IP.InUse(s.ip.controls)
  {
    StartedInv(iss, pool, mss, rcvSize);
    if PossibleRun(Started(iss, pool, mss, rcvSize), es) {
      OnePlace(Run(Started(iss, pool, mss, rcvSize), es));
    }
  }

  lemma OnePlace(s: System)
    requires Inv(s)
    ensures forall id: nat :: id < PB.BUFFERS + IP.MAX_DATAGRAMS ==>
              InPool(s.pool, id) + One(s.hands, id) + IP.Held(s.ip.controls, id)
                + (if IsBig(id) then Occ(s.ip.bigFree, id - PB.BUFFERS) else 0)
                + Occ(Ids(s.tcp.r.incoming), id) + Owed(s, id) == 1
    ensures forall k :: 0 <= k < |s.pool.free| ==> !IsBig(s.pool.free[k])
    ensures s.pool.processed + s.pool.ring == s.pool.arrived && s.ip.inReassembly == IP.InUse(s.ip.controls)
  {
    hide TP.PoolInv, Occ, Ids, InPool, IP.Held;
    forall id: nat | id < PB.BUFFERS + IP.MAX_DATAGRAMS
      ensures InPool(s.pool, id) + One(s.hands, id) + IP.Held(s.ip.controls, id)
                + (if IsBig(id) then Occ(s.ip.bigFree, id - PB.BUFFERS) else 0)
                + Occ(Ids(s.tcp.r.incoming), id) + Owed(s, id) == 1
    {
      assert Places(s, id) == 1;
    }
  }

  // ---------------------------------------------------------------- nothing overruns

  /** When the driver has filled a buffer the ring has a slot for it besides the one kept empty. */
  lemma RingNeverOverrun(s: System)
    requires Inv(s) && s.pool.copying.Some?
    ensures |s.pool.ring| < 10
  {
    hide IP.Inv, TP.PoolInv, Occ, Ids, IP.Seen, InIp, InTcp;
    var id := s.pool.copying.value;
    PlacedOnce(s);
    assert Occ(RingIds(s.pool.ring), id) == 0 by { assert InPool(s.pool, id) <= 1; }
    forall y: nat | y < PB.BUFFERS ensures Occ(RingIds(s.pool.ring), y) <= 1 { assert InPool(s.pool, y) <= 1; }
    RingIdsBelow(s.pool.ring);
    FreeFits(RingIds(s.pool.ring), PB.BUFFERS, id);
  }

  lemma PlacedOnce(s: System)
    requires Inv(s)
    ensures forall id: nat :: id < PB.BUFFERS ==> InPool(s.pool, id) <= 1
  {
    hide IP.Inv, TP.PoolInv, Occ, Ids, InPool;
    forall id: nat | id < PB.BUFFERS ensures InPool(s.pool, id) <= 1 {
      assert Places(s, id) == 1 && Owed(s, id) >= 0;
    }
  }

  lemma {:induction false} RingIdsBelow(ring: seq<PB.Arrived>)
    requires forall k :: 0 <= k < |ring| ==> ring[k].buffer < PB.BUFFERS
    ensures forall k :: 0 <= k < |ring| ==> RingIds(ring)[k] < PB.BUFFERS
  {
    if ring != [] { RingIdsBelow(ring[..|ring| - 1]); }
  }

  /** Buffer_free always finds a slot, on whichever stack it uses. */
  lemma FreeStackNeverOverrun(s: System, id: nat)
    requires Inv(s) && Owed(s, id) > 0
    ensures if IsBig(id) then |s.ip.bigFree| < 4 else id < 10 && |s.pool.free| < 10
  {
    hide IP.Inv, TP.PoolInv, Occ, Ids, IP.Seen, InTcp;
    OwedIsOne(s, id);
    if IsBig(id) {
      forall y: nat | y < IP.MAX_DATAGRAMS ensures Occ(s.ip.bigFree, y) <= 1 { BigOnce(s, y); }
      FreeFits(s.ip.bigFree, IP.MAX_DATAGRAMS, id - PB.BUFFERS);
    } else {
      PlacedOnce(s);
      forall y: nat | y < PB.BUFFERS ensures Occ(s.pool.free, y) <= 1 { assert InPool(s.pool, y) <= 1; }
      FreeFits(s.pool.free, PB.BUFFERS, id);
    }
  }

  lemma BigOnce(s: System, slot: nat)
    requires Inv(s) && slot < IP.MAX_DATAGRAMS
    ensures Occ(s.ip.bigFree, slot) <= 1
  {
    hide IP.Inv, TP.PoolInv, Occ, Ids, InPool, IP.Seen;
    assert Places(s, BigId(slot)) == 1 && Owed(s, BigId(slot)) >= 0;
    SeenFreed(s.ip, BigId(slot));
  }

  lemma SeenFreed(ip: IP.State, id: nat)
    ensures IP.Seen(ip, id) >= Occ(ip.freed, id)
  {
  }

  // ---------------------------------------------------------------- who gets a buffer

  /** One possible step. */
  ghost function Moved(s: System, e: Event): (r: System)
    requires Inv(s) && Possible(s, e)
    ensures Inv(r)
  {
    StepKeeps(s, e);
    Step(s, e)
  }

  /** The driver gets a buffer exactly for a packet of at most 1514 bytes while one is free: the top of the stack. */
  lemma OfferGranted(s: System, len: U16)
    requires Inv(s) && s.pool.copying.None?
    ensures var s' := Moved(s, Offer(len));
            && (s'.pool.copying.Some? <==> len <= 1514 && s.pool.free != [])
            && (s'.pool.copying.Some? ==> s.pool.free == s'.pool.free + [s'.pool.copying.value])
            && (s'.pool.copying.None? ==> s' == s)
  {
    hide Inv;
    StepKeeps(s, Offer(len));
  }

  /** The driver's second call has the length of its first, which was `offered`. */
  ghost predicate SameLengths(s: System, es: seq<Event>, offered: U16)
    requires Inv(s) && PossibleRun(s, es)
    decreases |es|
  {
    es != [] ==>
      && (es[0].Copied? ==> es[0].len == offered)
      && (StepKeeps(s, es[0]); SameLengths(Step(s, es[0]), es[1..], if es[0].Offer? then es[0].len else offered))
  }

  /** Every packet is at most as long as its buffer. */
  ghost predicate AllFit(p: PB.Pool) { forall k :: 0 <= k < |p.arrived| ==> p.arrived[k].len <= 1514 }

  lemma {:induction false} FitsFrom(s: System, es: seq<Event>, offered: U16)
    requires Inv(s) && PossibleRun(s, es) && SameLengths(s, es, offered)
    requires AllFit(s.pool) && (s.pool.copying.Some? ==> offered <= 1514)
    ensures AllFit(Run(s, es).pool)
    decreases |es|
  {
    hide Inv, Step, AllFit;
    if es != [] {
      StepKeeps(s, es[0]);
      FitsStep(s, es[0], offered);
      FitsFrom(Step(s, es[0]), es[1..], if es[0].Offer? then es[0].len else offered);
    }
  }

  lemma FitsStep(s: System, e: Event, offered: U16)
    requires Inv(s) && Possible(s, e) && (e.Copied? ==> e.len == offered)
    requires AllFit(s.pool) && (s.pool.copying.Some? ==> offered <= 1514)
    ensures T.Named(s.tcp.q) && |s.ip.controls| == IP.MAX_DATAGRAMS && (s.looked ==> s.pool.ring != [])
    ensures AllFit(Step(s, e).pool)
    ensures Step(s, e).pool.copying.Some? ==> (if e.Offer? then e.len else offered) <= 1514
  {
    hide Inv, IP.ProcessFragment, T.Step, IP.Purge;
    InvNamed(s);
    LookedWork(s);
  }

  /** On every run in which the driver is consistent no packet is longer than its buffer of 1514 bytes. */
  lemma PacketsFit(iss: U32, pool: nat, mss: U16, rcvSize: U16, es: seq<Event>, first: U16)
    ensures Inv(Started(iss, pool, mss, rcvSize))
    ensures var s := Started(iss, pool, mss, rcvSize);
            PossibleRun(s, es) && SameLengths(s, es, first) ==> AllFit(Run(s, es).pool)
  {
    hide Inv, Run, PossibleRun, SameLengths;
    StartedInv(iss, pool, mss, rcvSize);
    var s := Started(iss, pool, mss, rcvSize);
    if PossibleRun(s, es) && SameLengths(s, es, first) { FitsFrom(s, es, first); }
  }

  /** A packet that arrives while nothing else happens goes from the top free buffer into a handler's hands. */
  lemma PacketThrough(s: System, len: U16)
    requires Inv(s) && s.pool.copying.None? && s.pool.ring == [] && s.hands.None?
    requires len <= 1514 && s.pool.free != []
    ensures PossibleRun(s, [Offer(len), Copied(len), Look, Take])
    ensures var s' := Run(s, [Offer(len), Copied(len), Look, Take]);
            var id := s.pool.free[|s.pool.free| - 1];
            && s'.hands == Some(id) && s'.pool.ring == [] && !s'.looked
            && s'.pool.processed == s.pool.processed + [PB.Arrived(id, len)]
            && s.pool.free == s'.pool.free + [id] && s'.tcp == s.tcp && s'.ip == s.ip
  {
    hide Inv, Run, PossibleRun;
    StepKeeps(s, Offer(len));
    var s1 := Moved(s, Offer(len));
    StepKeeps(s1, Copied(len));
    var s2 := Moved(s1, Copied(len));
    StepKeeps(s2, Look);
    var s3 := Moved(s2, Look);
    StepKeeps(s3, Take);
    RunNone(Moved(s3, Take));
    RunMore(s3, Take, []);
    assert [Take] + [] == [Take];
    RunMore(s2, Look, [Take]);
    assert [Look] + [Take] == [Look, Take];
    RunMore(s1, Copied(len), [Look, Take]);
    assert [Copied(len)] + [Look, Take] == [Copied(len), Look, Take];
    RunMore(s, Offer(len), [Copied(len), Look, Take]);
    assert [Offer(len)] + [Copied(len), Look, Take] == [Offer(len), Copied(len), Look, Take];
  }

  lemma RunNone(s: System)
    requires Inv(s)
    ensures PossibleRun(s, []) && Run(s, []) == s
  {
  }

  lemma RunMore(s: System, e: Event, es: seq<Event>)
    requires Inv(s) && Possible(s, e) && PossibleRun(Moved(s, e), es)
    ensures PossibleRun(s, [e] + es) && Run(s, [e] + es) == Run(Moved(s, e), es)
  {
    hide Inv, Step, Possible;
    StepKeeps(s, e);
    assert ([e] + es)[1..] == es;
  }
}
