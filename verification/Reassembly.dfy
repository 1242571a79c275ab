/**
 * IP reassembly (code/TCPLIB/IP.CPP) over values: the control table, the sorted fragment lists, the
 * completeness test and the BigPacket free stack.  FragTable.dfy holds the imperative version.
 */
module Reassembly {
  import opened Machine
  import opened Counting

  /** Datagrams reassembled at once (IP_MAX_FRAG_PACKETS); there are as many BigPackets. */
  const MAX_DATAGRAMS: nat := 4
  /** Fragments a datagram may have (IP_MAX_FRAGS_PER_PACKET). */
  const MAX_FRAGS: nat := 10
  /** Payload bytes of a BigPacket (IP_BIGPACKET_SIZE). */
  const BIG: nat := 2048
  const IP_HEADER: nat := 20

  datatype Key = Key(src: U32, ident: U16)

  /** A received fragment: the receive buffer it is in and what its header says. */
  datatype Fragment = Fragment(buffer: nat, key: Key, offset: U16, last: bool, data: seq<Byte>)

  datatype Control = Unused | Collecting(key: Key, frags: seq<Fragment>, lastRcvd: bool)

  /** The packet passed on: which BigPacket it is in, its payload, and the length field of its header. */
  datatype Datagram = Datagram(slot: nat, key: Key, data: seq<Byte>, totalLength: U16)

  datatype State = State(controls: seq<Control>, inReassembly: int, bigFree: seq<nat>, freed: seq<nat>)

  function Initial(): State {
    State([Unused, Unused, Unused, Unused], 0, [0, 1, 2, 3], [])
  }

  /** findFragControl */
  function Find(cs: seq<Control>, key: Key): (i: Option<nat>)
    ensures i.Some? ==> i.value < |cs| && cs[i.value].Collecting? && cs[i.value].key == key
    ensures i.None? ==> forall j :: 0 <= j < |cs| && cs[j].Collecting? ==> cs[j].key != key
  {
    if cs == [] then None
    else if cs[0].Collecting? && cs[0].key == key then Some(0)
    else match Find(cs[1..], key) case None => None case Some(i) => Some(i + 1)
  }

  /** findOpenFragControl */
  function FindOpen(cs: seq<Control>): (i: Option<nat>)
    ensures i.Some? ==> i.value < |cs| && cs[i.value].Unused?
    ensures i.None? ==> forall j :: 0 <= j < |cs| ==> cs[j].Collecting?
  {
    if cs == [] then None
    else if cs[0].Unused? then Some(0)
    else match FindOpen(cs[1..]) case None => None case Some(i) => Some(i + 1)
  }

  function Buffers(frags: seq<Fragment>): (bs: seq<nat>)
    ensures |bs| == |frags|
    ensures forall j :: 0 <= j < |bs| ==> bs[j] == frags[j].buffer
  {
    if frags == [] then [] else Buffers(frags[..|frags| - 1]) + [frags[|frags| - 1].buffer]
  }

  /** killFragmentControl */
  function Kill(s: State, i: nat): State
    requires i < |s.controls| && s.controls[i].Collecting?
  {
    s.(controls := s.controls[i := Unused], inReassembly := s.inReassembly - 1,
       freed := s.freed + Buffers(s.controls[i].frags))
  }

  function FreeBuffer(s: State, b: nat): State { s.(freed := s.freed + [b]) }

  predicate TooBig(f: Fragment) { Wrap16(f.offset + |f.data|) > BIG }

  /** The first position whose offset is not below `offset`. */
  function InsertPos(frags: seq<Fragment>, offset: U16): (p: nat)
    ensures p <= |frags|
    ensures forall j :: 0 <= j < p ==> frags[j].offset < offset
    ensures p < |frags| ==> offset <= frags[p].offset
  {
    if frags == [] || offset <= frags[0].offset then 0 else 1 + InsertPos(frags[1..], offset)
  }

  predicate IsDuplicate(f: Fragment, g: Fragment) { f.offset == g.offset && |f.data| == |g.data| }

  /** Overlap is tested against the following fragment only. */
  predicate Overlaps(f: Fragment, g: Fragment) { Wrap16(f.offset + |f.data|) > g.offset }

  /** The completeness test: every fragment starts where the one before it ended. */
  predicate Contiguous(frags: seq<Fragment>, start: U16)
    decreases |frags|
  {
    frags == [] || (start == frags[0].offset && Contiguous(frags[1..], Wrap16(start + |frags[0].data|)))
  }

  function Payload(frags: seq<Fragment>): seq<Byte> {
    if frags == [] then [] else Payload(frags[..|frags| - 1]) + frags[|frags| - 1].data
  }

  /** makeBigPacket */
  function MakeBigPacket(s: State, i: nat): (State, Option<Datagram>)
    requires i < |s.controls| && s.controls[i].Collecting?
  {
    if s.bigFree == [] then (Kill(s, i), None)
    else
      var c := s.controls[i];
      var n := |s.bigFree| - 1;
      var data := Payload(c.frags);
      (Kill(s.(bigFree := s.bigFree[..n]), i),
       Some(Datagram(s.bigFree[n], c.key, data, Wrap16(|data| + IP_HEADER))))
  }

  /** A fragment of a datagram not seen so far. */
  function Start(s: State, f: Fragment): State {
    match FindOpen(s.controls)
    case None => FreeBuffer(s, f.buffer)
    case Some(i) =>
      if TooBig(f) then FreeBuffer(s, f.buffer)
      else s.(controls := s.controls[i := Collecting(f.key, [f], f.last)], inReassembly := s.inReassembly + 1)
  }

  /** A fragment of the datagram collected in control `i`. */
  function Add(s: State, i: nat, f: Fragment): (State, Option<Datagram>)
    requires i < |s.controls| && s.controls[i].Collecting?
  {
    if TooBig(f) then (Kill(FreeBuffer(s, f.buffer), i), None)
    else
      var c := s.controls[i];
      var c1 := c.(lastRcvd := c.lastRcvd || f.last);
      var s1 := s.(controls := s.controls[i := c1]);
      var p := InsertPos(c.frags, f.offset);
      if p < |c.frags| && IsDuplicate(f, c.frags[p]) then (FreeBuffer(s1, f.buffer), None)
      else if p < |c.frags| && Overlaps(f, c.frags[p]) then (Kill(FreeBuffer(s1, f.buffer), i), None)
      else
        var c2 := c1.(frags := Inserted(c.frags, f));
        var s2 := s.(controls := s.controls[i := c2]);
        if c2.lastRcvd && Contiguous(c2.frags, 0) then MakeBigPacket(s2, i)
        else if |c2.frags| == MAX_FRAGS then (Kill(s2, i), None)
        else (s2, None)
  }

  function Inserted(frags: seq<Fragment>, f: Fragment): (r: seq<Fragment>)
    ensures |r| == |frags| + 1
  {
    var p := InsertPos(frags, f.offset);
    frags[..p] + [f] + frags[p..]
  }

  /** processFragment: the new state, and the datagram it completed, if any. */
  function ProcessFragment(s: State, f: Fragment): (State, Option<Datagram>) {
    match Find(s.controls, f.key)
    case None => (Start(s, f), None)
    case Some(i) => Add(s, i, f)
  }

  /** purgeOverdue; `overdue` says whose timers have run out. */
  function Purge(s: State, overdue: set<nat>, i: nat): State
    requires i <= |s.controls|
    decreases |s.controls| - i
  {
    if i == |s.controls| then s
    else Purge(if s.controls[i].Collecting? && i in overdue then Kill(s, i) else s, overdue, i + 1)
  }

  /** returnBigPacket */
  function ReturnBig(s: State, slot: nat): State { s.(bigFree := s.bigFree + [slot]) }

  // ---------------------------------------------------------------- invariant

  predicate Sorted(frags: seq<Fragment>) {
    forall a, b :: 0 <= a < b < |frags| ==> frags[a].offset <= frags[b].offset
  }

  /** A list between two calls: not empty, not full, in order, of one datagram. */
  predicate ListOk(c: Control) {
    c.Collecting? ==>
      && 0 < |c.frags| < MAX_FRAGS && Sorted(c.frags)
      && (forall j :: 0 <= j < |c.frags| ==> c.frags[j].key == c.key && !TooBig(c.frags[j]))
  }

  predicate DistinctKeys(cs: seq<Control>) {
    forall i, j :: 0 <= i < j < |cs| && cs[i].Collecting? && cs[j].Collecting? ==> cs[i].key != cs[j].key
  }

  function InUse(cs: seq<Control>): nat {
    if cs == [] then 0 else InUse(cs[..|cs| - 1]) + (if cs[|cs| - 1].Collecting? then 1 else 0)
  }

  predicate Inv(s: State) {
    && |s.controls| == MAX_DATAGRAMS
    && (forall i :: 0 <= i < |s.controls| ==> ListOk(s.controls[i]))
    && DistinctKeys(s.controls)
    && s.inReassembly == InUse(s.controls)
  }

  /** How often a receive buffer is held in the table. */
  ghost function Held(cs: seq<Control>, b: nat): nat {
    if cs == [] then 0 else Held(cs[..|cs| - 1], b) + HeldBy(cs[|cs| - 1], b)
  }

  ghost function HeldBy(c: Control, b: nat): nat {
    if c.Collecting? then Occ(Buffers(c.frags), b) else 0
  }

  lemma {:induction false} InUseUpdate(cs: seq<Control>, i: nat, c: Control)
    requires i < |cs|
    ensures InUse(cs[i := c]) == InUse(cs) - (if cs[i].Collecting? then 1 else 0) + (if c.Collecting? then 1 else 0)
  {
    var n := |cs| - 1;
    if i < n {
      InUseUpdate(cs[..n], i, c);
      assert cs[i := c][..n] == cs[..n][i := c];
    } else {
      assert cs[i := c][..n] == cs[..n];
    }
  }

  lemma {:induction false} HeldUpdate(cs: seq<Control>, i: nat, c: Control, b: nat)
    requires i < |cs|
    ensures Held(cs[i := c], b) == Held(cs, b) - HeldBy(cs[i], b) + HeldBy(c, b)
  {
    var n := |cs| - 1;
    if i < n {
      HeldUpdate(cs[..n], i, c, b);
      assert cs[i := c][..n] == cs[..n][i := c];
    } else {
      assert cs[i := c][..n] == cs[..n];
    }
  }

  lemma BuffersSnoc(xs: seq<Fragment>, f: Fragment)
    ensures Buffers(xs + [f]) == Buffers(xs) + [f.buffer]
  {
    assert (xs + [f])[..|xs|] == xs;
  }

  lemma {:induction false} BuffersInserted(xs: seq<Fragment>, f: Fragment, ys: seq<Fragment>, b: nat)
    ensures Occ(Buffers(xs + [f] + ys), b) == Occ(Buffers(xs + ys), b) + (if f.buffer == b then 1 else 0)
  {
    hide Occ, Buffers;
    if ys == [] {
      assert xs + [f] + ys == xs + [f] && xs + ys == xs;
      BuffersSnoc(xs, f);
      OccSnoc(Buffers(xs), f.buffer, b);
    } else {
      var n := |ys| - 1;
      var g := ys[n];
      BuffersInserted(xs, f, ys[..n], b);
      assert xs + [f] + ys == (xs + [f] + ys[..n]) + [g];
      assert xs + ys == (xs + ys[..n]) + [g];
      BuffersSnoc(xs + [f] + ys[..n], g);
      BuffersSnoc(xs + ys[..n], g);
      OccSnoc(Buffers(xs + [f] + ys[..n]), g.buffer, b);
      OccSnoc(Buffers(xs + ys[..n]), g.buffer, b);
    }
  }

  /** Where a buffer is: in the table or freed. */
  ghost function Seen(s: State, b: nat): nat { Held(s.controls, b) + Occ(s.freed, b) }

  /** Between `s` and `s'` the buffers in the table plus those freed grow by `news` and by nothing else. */
  ghost predicate Balanced(s: State, s': State, news: seq<nat>) {
    forall b: nat :: Seen(s', b) == Seen(s, b) + Occ(news, b)
  }

  /** Killing a control gives back exactly the buffers it held. */
  lemma KillBalanced(s: State, i: nat)
    requires i < |s.controls| && s.controls[i].Collecting?
    ensures Balanced(s, Kill(s, i), [])
  {
    forall b: nat ensures Seen(Kill(s, i), b) == Seen(s, b) + Occ([], b) {
      HeldUpdate(s.controls, i, Unused, b);
      OccConcat(s.freed, Buffers(s.controls[i].frags), b);
    }
  }

  lemma FreeBalanced(s: State, x: nat)
    ensures Balanced(s, FreeBuffer(s, x), [x])
  {
    forall b: nat ensures Seen(FreeBuffer(s, x), b) == Seen(s, b) + Occ([x], b) {
      OccConcat(s.freed, [x], b);
    }
  }

  /** Replacing a control by one that holds one more buffer. */
  lemma HoldBalanced(s: State, i: nat, c: Control, x: nat, s': State)
    requires i < |s.controls| && s'.controls == s.controls[i := c] && s'.freed == s.freed
    requires forall b: nat :: HeldBy(c, b) == HeldBy(s.controls[i], b) + Occ([x], b)
    ensures Balanced(s, s', [x])
  {
    forall b: nat ensures Seen(s', b) == Seen(s, b) + Occ([x], b) {
      HeldUpdate(s.controls, i, c, b);
      assert HeldBy(c, b) == HeldBy(s.controls[i], b) + Occ([x], b);
    }
  }

  lemma BalancedThen(s: State, s1: State, s2: State, news: seq<nat>)
    requires Balanced(s, s1, news) && Balanced(s1, s2, [])
    ensures Balanced(s, s2, news)
  {
    forall b: nat ensures Seen(s2, b) == Seen(s, b) + Occ(news, b) {
      assert Seen(s1, b) == Seen(s, b) + Occ(news, b);
      assert Seen(s2, b) == Seen(s1, b) + Occ([], b);
    }
  }

  /** Only the table and the freed list matter. */
  lemma BalancedSame(s: State, s1: State, s2: State, news: seq<nat>)
    requires Balanced(s, s1, news) && s2.controls == s1.controls && s2.freed == s1.freed
    ensures Balanced(s, s2, news)
  {
    forall b: nat ensures Seen(s2, b) == Seen(s, b) + Occ(news, b) {
      assert Seen(s1, b) == Seen(s, b) + Occ(news, b);
    }
  }

  lemma {:induction false} UnusedHoldNothing(cs: seq<Control>, b: nat)
    requires forall i :: 0 <= i < |cs| ==> cs[i].Unused?
    ensures Held(cs, b) == 0 && InUse(cs) == 0
  {
    if cs != [] { UnusedHoldNothing(cs[..|cs| - 1], b); }
  }

  lemma InitialInv(b: nat)
    ensures Inv(Initial()) && Seen(Initial(), b) == 0
  {
    UnusedHoldNothing(Initial().controls, b);
  }

  // ---------------------------------------------------------------- every step keeps the invariant

  /** All of the invariant but the list in control `i`. */
  predicate InvBut(s: State, i: nat) {
    && |s.controls| == MAX_DATAGRAMS
    && (forall j :: 0 <= j < |s.controls| && j != i ==> ListOk(s.controls[j]))
    && DistinctKeys(s.controls)
    && s.inReassembly == InUse(s.controls)
  }

  lemma KillKeeps(s: State, i: nat)
    requires i < |s.controls| && InvBut(s, i) && s.controls[i].Collecting?
    ensures Inv(Kill(s, i)) && Balanced(s, Kill(s, i), [])
  {
    KillBalanced(s, i);
    InUseUpdate(s.controls, i, Unused);
  }

  lemma StartBalanced(s: State, i: nat, f: Fragment)
    requires i < |s.controls| && s.controls[i].Unused?
    ensures var c := Collecting(f.key, [f], f.last);
            Balanced(s, s.(controls := s.controls[i := c], inReassembly := s.inReassembly + 1), [f.buffer])
  {
    hide Balanced, Occ, Buffers;
    var c := Collecting(f.key, [f], f.last);
    BuffersSnoc([], f);
    NoBuffers();
    assert [] + [f] == [f] && [] + [f.buffer] == [f.buffer];
    HoldBalanced(s, i, c, f.buffer, s.(controls := s.controls[i := c], inReassembly := s.inReassembly + 1));
  }

  lemma NoBuffers()
    ensures Buffers([]) == []
  {
  }

  lemma StartKeeps(s: State, f: Fragment)
    requires Inv(s) && Find(s.controls, f.key).None?
    ensures Inv(Start(s, f)) && Balanced(s, Start(s, f), [f.buffer])
  {
    hide Balanced, InUse, Occ, Buffers, TooBig;
    var open := FindOpen(s.controls);
    if open.Some? && !TooBig(f) {
      var c := Collecting(f.key, [f], f.last);
      InUseUpdate(s.controls, open.value, c);
      StartBalanced(s, open.value, f);
    } else {
      FreeBalanced(s, f.buffer);
    }
  }

  /** Inserting at the first offset not below keeps the list sorted. */
  lemma InsertedSorted(frags: seq<Fragment>, f: Fragment)
    requires Sorted(frags)
    ensures Sorted(Inserted(frags, f))
  {
    var p := InsertPos(frags, f.offset);
    var r := Inserted(frags, f);
    forall a, b | 0 <= a < b < |r| ensures r[a].offset <= r[b].offset {
      assert a < p ==> r[a] == frags[a];
      assert a > p ==> r[a] == frags[a - 1];
      assert b < p ==> r[b] == frags[b];
      assert b > p ==> r[b] == frags[b - 1];
    }
  }

  lemma InsertedMembers(c: Control, f: Fragment)
    requires c.Collecting? && f.key == c.key && !TooBig(f)
    requires forall j :: 0 <= j < |c.frags| ==> c.frags[j].key == c.key && !TooBig(c.frags[j])
    ensures var r := Inserted(c.frags, f); forall j :: 0 <= j < |r| ==> r[j].key == c.key && !TooBig(r[j])
  {
    var p := InsertPos(c.frags, f.offset);
    var r := Inserted(c.frags, f);
    forall j | 0 <= j < |r| ensures r[j].key == c.key && !TooBig(r[j]) {
      assert j < p ==> r[j] == c.frags[j];
      assert j > p ==> r[j] == c.frags[j - 1];
    }
  }

  lemma InsertedBuffers(frags: seq<Fragment>, f: Fragment, b: nat)
    ensures Occ(Buffers(Inserted(frags, f)), b) == Occ(Buffers(frags), b) + Occ([f.buffer], b)
  {
    hide Occ, Buffers;
    var p := InsertPos(frags, f.offset);
    BuffersInserted(frags[..p], f, frags[p..], b);
    assert frags[..p] + frags[p..] == frags;
    OccOne(f.buffer, b);
  }

  lemma SetLastKeeps(s: State, i: nat, last: bool)
    requires Inv(s) && i < |s.controls| && s.controls[i].Collecting?
    ensures var s1 := s.(controls := s.controls[i := s.controls[i].(lastRcvd := last)]);
            Inv(s1) && forall b: nat :: Seen(s1, b) == Seen(s, b)
  {
    var c := s.controls[i].(lastRcvd := last);
    InUseUpdate(s.controls, i, c);
    forall b: nat ensures Held(s.controls[i := c], b) == Held(s.controls, b) { HeldUpdate(s.controls, i, c, b); }
  }

  /** A fragment put in its place: the list may now be full, the rest of the invariant holds. */
  lemma GrowKeeps(s: State, i: nat, f: Fragment)
    requires Inv(s) && i < |s.controls| && s.controls[i].Collecting? && s.controls[i].key == f.key && !TooBig(f)
    ensures var c := s.controls[i];
            var c2 := Collecting(c.key, Inserted(c.frags, f), c.lastRcvd || f.last);
            var s2 := s.(controls := s.controls[i := c2]);
            && InvBut(s2, i) && Balanced(s, s2, [f.buffer])
            && (|c2.frags| < MAX_FRAGS ==> Inv(s2)) && |c2.frags| <= MAX_FRAGS
  {
    hide Inserted, Buffers, Occ, InUse, Balanced, TooBig, Wrap16;
    var c := s.controls[i];
    var c2 := Collecting(c.key, Inserted(c.frags, f), c.lastRcvd || f.last);
    var s2 := s.(controls := s.controls[i := c2]);
    InUseUpdate(s.controls, i, c2);
    InsertedSorted(c.frags, f);
    InsertedMembers(c, f);
    forall b: nat ensures HeldBy(c2, b) == HeldBy(c, b) + Occ([f.buffer], b) { InsertedBuffers(c.frags, f, b); }
    HoldBalanced(s, i, c2, f.buffer, s2);
  }

  /** Free the arriving buffer, and then perhaps the whole list. */
  lemma FreeKillKeeps(s: State, s1: State, i: nat, x: nat)
    requires Inv(s1) && i < |s1.controls| && s1.controls[i].Collecting?
    requires forall b: nat :: Seen(s1, b) == Seen(s, b)
    ensures Inv(FreeBuffer(s1, x)) && Balanced(s, FreeBuffer(s1, x), [x])
    ensures Inv(Kill(FreeBuffer(s1, x), i)) && Balanced(s, Kill(FreeBuffer(s1, x), i), [x])
  {
    FreeBalanced(s1, x);
    BalancedFrom(s, s1, FreeBuffer(s1, x), [x]);
    KillKeeps(FreeBuffer(s1, x), i);
    BalancedThen(s, FreeBuffer(s1, x), Kill(FreeBuffer(s1, x), i), [x]);
  }

  /** Give up or hand over a list that has just grown. */
  lemma GrowKillKeeps(s: State, s2: State, i: nat, x: nat)
    requires i < |s2.controls| && InvBut(s2, i) && s2.controls[i].Collecting? && Balanced(s, s2, [x])
    ensures Inv(Kill(s2, i)) && Balanced(s, Kill(s2, i), [x])
    ensures Inv(MakeBigPacket(s2, i).0) && Balanced(s, MakeBigPacket(s2, i).0, [x])
  {
    KillKeeps(s2, i);
    BalancedThen(s, s2, Kill(s2, i), [x]);
    var n := |s2.bigFree| - 1;
    if n >= 0 { BalancedSame(s, Kill(s2, i), Kill(s2.(bigFree := s2.bigFree[..n]), i), [x]); }
  }

  lemma AddKeeps(s: State, i: nat, f: Fragment)
    requires Inv(s) && i < |s.controls| && s.controls[i].Collecting? && s.controls[i].key == f.key
    ensures Inv(Add(s, i, f).0) && Balanced(s, Add(s, i, f).0, [f.buffer])
  {
    hide Balanced, Inv, InvBut, Seen, Contiguous, Inserted, InsertPos, Overlaps, IsDuplicate, TooBig,
         MakeBigPacket, Kill, FreeBuffer;
    FreeKillKeeps(s, s, i, f.buffer);
    if !TooBig(f) {
      var c := s.controls[i];
      SetLastKeeps(s, i, c.lastRcvd || f.last);
      FreeKillKeeps(s, s.(controls := s.controls[i := c.(lastRcvd := c.lastRcvd || f.last)]), i, f.buffer);
      GrowKeeps(s, i, f);
      var c2 := Collecting(c.key, Inserted(c.frags, f), c.lastRcvd || f.last);
      GrowKillKeeps(s, s.(controls := s.controls[i := c2]), i, f.buffer);
    }
  }

  lemma BalancedFrom(s: State, s1: State, s2: State, news: seq<nat>)
    requires forall b: nat :: Seen(s1, b) == Seen(s, b)
    requires Balanced(s1, s2, news)
    ensures Balanced(s, s2, news)
  {
    forall b: nat ensures Seen(s2, b) == Seen(s, b) + Occ(news, b) {
      assert Seen(s2, b) == Seen(s1, b) + Occ(news, b);
    }
  }

  /**
   * Whatever arrives: lists stay sorted, within bounds and below the slot limit, keys stay distinct,
   * fragsInReassembly counts the controls in use, and the arriving buffer is either held once or
   * freed once, with no other buffer lost or freed twice.
   */
  lemma ProcessKeeps(s: State, f: Fragment)
    requires Inv(s)
    ensures Inv(ProcessFragment(s, f).0)
    ensures Balanced(s, ProcessFragment(s, f).0, [f.buffer])
  {
    var i := Find(s.controls, f.key);
    if i.Some? { AddKeeps(s, i.value, f); } else { StartKeeps(s, f); }
  }

  lemma {:induction false} PurgeKeeps(s: State, overdue: set<nat>, i: nat)
    requires Inv(s) && i <= |s.controls|
    ensures Inv(Purge(s, overdue, i)) && Balanced(s, Purge(s, overdue, i), [])
    ensures forall j :: i <= j < |s.controls| ==>
              Purge(s, overdue, i).controls[j] == if j in overdue then Unused else s.controls[j]
    ensures forall j :: 0 <= j < i ==> Purge(s, overdue, i).controls[j] == s.controls[j]
    decreases |s.controls| - i
  {
    if i < |s.controls| {
      var s1 := if s.controls[i].Collecting? && i in overdue then Kill(s, i) else s;
      if s.controls[i].Collecting? { KillKeeps(s, i); }
      PurgeKeeps(s1, overdue, i + 1);
      BalancedThen(s, s1, Purge(s1, overdue, i + 1), []);
    }
  }
}
