/**
 * IP reassembly as the code has it: control structures with parallel arrays that are searched,
 * shifted and copied in place.  Every method is proved to compute its function in Reassembly.
 */
module FragTables {
  import opened Machine
  import opened Memory
  import opened Counting
  import opened Reassembly
  import opened ReassemblyExact

  /** The search loop of processFragment stops at the only place with these properties. */
  lemma {:induction false} InsertPosIs(frags: seq<Fragment>, offset: U16, p: nat)
    requires p <= |frags|
    requires forall j :: 0 <= j < p ==> frags[j].offset < offset
    requires p < |frags| ==> offset <= frags[p].offset
    ensures InsertPos(frags, offset) == p
  {
    if p > 0 { InsertPosIs(frags[1..], offset, p - 1); }
  }

  /** `a` with slots j to n-1 moved down one; slot j still holds its old item as well. */
  function Slid<T>(a: seq<T>, j: nat, n: nat): (r: seq<T>)
    requires j <= n < |a|
    ensures |r| == |a|
  {
    a[..j + 1] + a[j..n] + a[n + 1..]
  }

  lemma SlidNone<T>(a: seq<T>, n: nat)
    requires n < |a|
    ensures Slid(a, n, n) == a
  {
  }

  lemma SlidStep<T>(a: seq<T>, j: nat, n: nat)
    requires 0 < j <= n < |a|
    ensures Slid(a, j, n)[j := Slid(a, j, n)[j - 1]] == Slid(a, j - 1, n)
  {
  }

  lemma SlidAndFilled<T>(a: seq<T>, p: nat, n: nat, x: T)
    requires p <= n < |a|
    ensures Slid(a, p, n)[p := x][..n + 1] == a[..n][..p] + [x] + a[..n][p..]
  {
  }

  /** The parallel arrays describe the same fragments. */
  ghost predicate Match(os: seq<U16>, ls: seq<U16>, ps: seq<Fragment>) {
    && |os| == |ps| && |ls| == |ps|
    && forall j :: 0 <= j < |ps| ==> os[j] == ps[j].offset && ls[j] == |ps[j].data|
  }

  lemma MatchInserted(os: seq<U16>, ls: seq<U16>, ps: seq<Fragment>, p: nat, f: Fragment)
    requires Match(os, ls, ps) && p <= |ps| && |f.data| < TWO16
    ensures Match(os[..p] + [f.offset] + os[p..], ls[..p] + [|f.data|] + ls[p..], ps[..p] + [f] + ps[p..])
  {
  }

  lemma MatchPrefix(os: seq<U16>, ls: seq<U16>, ps: seq<Fragment>, n: nat)
    requires n <= |os| && n <= |ls| && n <= |ps| && Match(os[..n], ls[..n], ps[..n])
    ensures forall j :: 0 <= j < n ==> os[j] == ps[j].offset && ls[j] == |ps[j].data|
  {
    forall j | 0 <= j < n ensures os[j] == ps[j].offset && ls[j] == |ps[j].data| {
      assert os[..n][j] == os[j] && ls[..n][j] == ls[j] && ps[..n][j] == ps[j];
    }
  }

  class FragControl {
    var inUse: bool
    var fragsRcvd: nat
    var lastFragRcvd: bool
    var srcAddr: U32
    var ident: U16
    const offsets: array<U16>
    const lengths: array<U16>
    const packets: array<Fragment>

    ghost function Repr(): set<object> { {this, offsets, lengths, packets} }

    ghost predicate Valid()
      reads this, offsets, lengths, packets
    {
      && offsets.Length == MAX_FRAGS && lengths.Length == MAX_FRAGS && packets.Length == MAX_FRAGS
      && offsets != lengths && fragsRcvd <= MAX_FRAGS
      && (forall j :: 0 <= j < fragsRcvd ==> offsets[j] == packets[j].offset && lengths[j] == |packets[j].data|)
    }

    ghost function Frags(): (s: seq<Fragment>)
      reads this, offsets, lengths, packets
      requires Valid()
      ensures |s| == fragsRcvd
    {
      packets[..fragsRcvd]
    }

    ghost function Value(): Control
      reads this, offsets, lengths, packets
      requires Valid()
    {
      if inUse then Collecting(Key(srcAddr, ident), Frags(), lastFragRcvd) else Unused
    }

    constructor ()
      ensures Valid() && Value() == Unused && fresh(Repr() - {this})
    {
      inUse, fragsRcvd, lastFragRcvd, srcAddr, ident := false, 0, false, 0, 0;
      offsets := new U16[MAX_FRAGS];
      lengths := new U16[MAX_FRAGS];
      packets := new Fragment[MAX_FRAGS];
    }

    /** Start collecting with the first fragment. */
    method Begin(f: Fragment)
      requires Valid() && |f.data| < TWO16
      modifies Repr()
      ensures Valid() && Value() == Collecting(f.key, [f], f.last)
    {
      inUse := true;
      fragsRcvd := 1;
      lastFragRcvd := f.last;
      srcAddr := f.key.src;
      ident := f.key.ident;
      offsets[0] := f.offset;
      lengths[0] := |f.data|;
      packets[0] := f;
    }

    method Release()
      requires Valid()
      modifies this`inUse, this`fragsRcvd
      ensures Valid() && Value() == Unused
    {
      fragsRcvd := 0;
      inUse := false;
    }

    /** The first slot whose offset is not below `offset`. */
    method FindSlot(offset: U16) returns (insertPos: nat)
      requires Valid()
      ensures insertPos == InsertPos(Frags(), offset)
    {
      insertPos := 0;
      while insertPos < fragsRcvd
        invariant insertPos <= fragsRcvd
        invariant forall j :: 0 <= j < insertPos ==> Frags()[j].offset < offset
      {
        if offset <= offsets[insertPos] { break; }
        insertPos := insertPos + 1;
      }
      InsertPosIs(Frags(), offset, insertPos);
    }

    /** The tests against the fragment that would follow. */
    method CompareAt(insertPos: nat, f: Fragment) returns (repeats: bool, overlaps: bool)
      requires Valid() && insertPos <= fragsRcvd && |f.data| < TWO16
      ensures repeats <==> insertPos < fragsRcvd && IsDuplicate(f, Frags()[insertPos])
      ensures overlaps <==> insertPos < fragsRcvd && Overlaps(f, Frags()[insertPos])
    {
      repeats, overlaps := false, false;
      if insertPos < fragsRcvd {
        repeats := f.offset == offsets[insertPos] && |f.data| == lengths[insertPos];
        overlaps := Wrap16(f.offset + |f.data|) > offsets[insertPos];
      }
    }

    /** Slide the fragments from `insertPos` on down one slot, and fill the gap. */
    method Insert(insertPos: nat, f: Fragment)
      requires Valid() && insertPos <= fragsRcvd < MAX_FRAGS && |f.data| < TWO16
      modifies this`fragsRcvd, offsets, lengths, packets
      ensures Valid()
      ensures Frags() == old(Frags())[..insertPos] + [f] + old(Frags())[insertPos..]
      ensures fragsRcvd == old(fragsRcvd) + 1
    {
      hide Slid, Match;
      var n := fragsRcvd;
      ghost var os, ls, ps := offsets[..], lengths[..], packets[..];
      Slide(insertPos);
      Fill(insertPos, f);
      fragsRcvd := n + 1;
      SlidAndFilled(os, insertPos, n, f.offset);
      SlidAndFilled<U16>(ls, insertPos, n, |f.data|);
      SlidAndFilled(ps, insertPos, n, f);
      MatchInserted(os[..n], ls[..n], ps[..n], insertPos, f);
      assert packets[..][..n + 1] == ps[..n][..insertPos] + [f] + ps[..n][insertPos..];
      assert offsets[..][..n + 1] == os[..n][..insertPos] + [f.offset] + os[..n][insertPos..];
      assert lengths[..][..n + 1] == ls[..n][..insertPos] + [|f.data|] + ls[..n][insertPos..];
      MatchPrefix(offsets[..], lengths[..], packets[..], n + 1);
    }

    method Fill(insertPos: nat, f: Fragment)
      requires insertPos < offsets.Length && insertPos < lengths.Length && insertPos < packets.Length
      requires offsets != lengths && |f.data| < TWO16
      modifies offsets, lengths, packets
      ensures offsets[..] == old(offsets[..])[insertPos := f.offset]
      ensures lengths[..] == old(lengths[..])[insertPos := |f.data|]
      ensures packets[..] == old(packets[..])[insertPos := f]
    {
      offsets[insertPos] := f.offset;
      lengths[insertPos] := |f.data|;
      packets[insertPos] := f;
    }

    method Slide(insertPos: nat)
      requires offsets.Length == MAX_FRAGS && lengths.Length == MAX_FRAGS && packets.Length == MAX_FRAGS
      requires offsets != lengths && insertPos <= fragsRcvd < MAX_FRAGS
      modifies offsets, lengths, packets
      ensures offsets[..] == Slid(old(offsets[..]), insertPos, fragsRcvd)
      ensures lengths[..] == Slid(old(lengths[..]), insertPos, fragsRcvd)
      ensures packets[..] == Slid(old(packets[..]), insertPos, fragsRcvd)
    {
      hide Slid;
      ghost var os, ls, ps := offsets[..], lengths[..], packets[..];
      var j := fragsRcvd;
      SlidNone(os, j);
      SlidNone(ls, j);
      SlidNone(ps, j);
      while j > insertPos
        invariant insertPos <= j <= fragsRcvd
        invariant offsets[..] == Slid(os, j, fragsRcvd)
        invariant lengths[..] == Slid(ls, j, fragsRcvd)
        invariant packets[..] == Slid(ps, j, fragsRcvd)
      {
        SlidStep(os, j, fragsRcvd);
        SlidStep(ls, j, fragsRcvd);
        SlidStep(ps, j, fragsRcvd);
        offsets[j] := offsets[j - 1];
        lengths[j] := lengths[j - 1];
        packets[j] := packets[j - 1];
        j := j - 1;
      }
    }

    /** Does every fragment start where the one before it ended? */
    method IsComplete() returns (complete: bool)
      requires Valid()
      ensures complete <==> Contiguous(Frags(), 0)
    {
      var startOffset: U16 := 0;
      var j := 0;
      assert Frags()[0..] == Frags();
      while j < fragsRcvd
        invariant j <= fragsRcvd
        invariant Contiguous(Frags(), 0) <==> Contiguous(Frags()[j..], startOffset)
      {
        assert Frags()[j..][1..] == Frags()[j + 1..];
        if startOffset != offsets[j] { return false; }
        startOffset := Wrap16(startOffset + lengths[j]);
        j := j + 1;
      }
      return true;
    }
  }

  /** How far behind the start of a BigPacket's payload a copy can reach: offset and length are 16 bits each. */
  const REACH: nat := 2 * 0x1_0000

  /**
   * A buffer for a reassembled datagram: the length field of its header, and its payload of BIG bytes
   * along with the memory behind it, which the copy does not spare.
   */
  class BigPacket {
    const data: array<Byte>
    var totalLength: U16

    ghost function Repr(): set<object> { {this, data} }

    constructor ()
      ensures data.Length == REACH && fresh(data)
    {
      data := new Byte[REACH];
      totalLength := 0;
    }
  }

  lemma {:induction false} PayloadPrefix(frags: seq<Fragment>, k: nat)
    requires k <= |frags|
    ensures |Payload(frags[..k])| <= |Payload(frags)|
    decreases |frags| - k
  {
    if k < |frags| {
      PayloadSnoc(frags[..k], frags[k]);
      assert frags[..k + 1] == frags[..k] + [frags[k]];
      PayloadPrefix(frags, k + 1);
    } else {
      assert frags[..k] == frags;
    }
  }

  lemma PayloadSnoc(frags: seq<Fragment>, f: Fragment)
    ensures Payload(frags + [f]) == Payload(frags) + f.data
  {
    assert (frags + [f])[..|frags|] == frags;
  }

  // ---------------------------------------------------------------- what the copy loop writes

  ghost predicate Short(frags: seq<Fragment>) { forall j :: 0 <= j < |frags| ==> |frags[j].data| < TWO16 }

  /** Where the copy loop puts fragment `j`: startOffset is 16 bits. */
  ghost function PutAt(frags: seq<Fragment>, j: nat): U16
    requires j <= |frags|
  {
    Wrap16(|Payload(frags[..j])|)
  }

  /** Memory after the copy loop. */
  ghost function Laid(a: seq<Byte>, frags: seq<Fragment>): (r: seq<Byte>)
    requires |a| == REACH && Short(frags)
    ensures |r| == REACH
  {
    if frags == [] then a
    else
      var n := |frags| - 1;
      Patched(Laid(a, frags[..n]), PutAt(frags, n), frags[n].data)
  }

  lemma LaidNext(a: seq<Byte>, frags: seq<Fragment>, k: nat)
    requires |a| == REACH && Short(frags) && k < |frags|
    ensures Laid(a, frags[..k + 1]) == Patched(Laid(a, frags[..k]), PutAt(frags, k), frags[k].data)
    ensures Wrap16(PutAt(frags, k) + |frags[k].data|) == PutAt(frags, k + 1)
  {
    hide Payload;
    assert frags[..k + 1][..k] == frags[..k];
    assert frags[..k + 1] == frags[..k] + [frags[k]];
    PayloadSnoc(frags[..k], frags[k]);
  }

  /** Fragments that together fit a BigPacket lie one after the other, and nothing behind them is touched. */
  lemma {:induction false} LaidFits(a: seq<Byte>, frags: seq<Fragment>)
    requires |a| == REACH && Short(frags) && |Payload(frags)| <= BIG
    ensures Laid(a, frags) == Payload(frags) + a[|Payload(frags)|..]
  {
    hide Payload;
    if frags == [] {
      PayloadNone(frags);
    } else {
      var n := |frags| - 1;
      assert frags == frags[..n] + [frags[n]];
      PayloadSnoc(frags[..n], frags[n]);
      LaidFits(a, frags[..n]);
    }
  }

  /** Some fragment is put over byte `q`. */
  ghost predicate Covers(frags: seq<Fragment>, q: nat, j: nat) {
    j < |frags| && PutAt(frags, j) <= q < PutAt(frags, j) + |frags[j].data|
  }

  /** What is left in a byte a fragment was put over does not depend on what was there. */
  lemma {:induction false} LaidCovered(a: seq<Byte>, b: seq<Byte>, frags: seq<Fragment>, q: nat, j: nat)
    requires |a| == |b| == REACH && Short(frags) && q < REACH && Covers(frags, q, j)
    ensures Laid(a, frags)[q] == Laid(b, frags)[q]
  {
    hide Payload;
    var n := |frags| - 1;
    if j < n {
      assert frags[..n][..j] == frags[..j];
      LaidCovered(a, b, frags[..n], q, j);
    }
  }

  /**
   * The copy does not check.  For a complete list it leaves the memory behind the BigPacket alone,
   * whatever is there, if and only if the datagram fits the BigPacket.
   */
  lemma CopyInside(frags: seq<Fragment>)
    requires Contiguous(frags, 0) && Short(frags)
    ensures (forall a: seq<Byte> :: |a| == REACH ==> Laid(a, frags)[BIG..] == a[BIG..]) <==> |Payload(frags)| <= BIG
  {
    hide Payload, Contiguous, Laid;
    if |Payload(frags)| <= BIG {
      forall a: seq<Byte> | |a| == REACH ensures Laid(a, frags)[BIG..] == a[BIG..] { LaidFits(a, frags); }
    } else {
      FitsIffBounded(frags);
      var j :| 0 <= j < |frags| && frags[j].offset + |frags[j].data| > BIG;
      assert StackedAt(frags, 0, j);
      var k := ReachesOut(frags, j);
      CopyOutside(frags, k);
    }
  }

  /** If a fragment ends behind the BigPacket, one with data does. */
  lemma {:induction false} ReachesOut(frags: seq<Fragment>, j: nat) returns (k: nat)
    requires Short(frags) && j < |frags| && PutAt(frags, j) + |frags[j].data| > BIG
    ensures k < |frags| && frags[k].data != [] && PutAt(frags, k) + |frags[k].data| > BIG
  {
    hide Payload, Laid;
    if frags[j].data != [] {
      k := j;
    } else {
      if j == 0 { PayloadNone(frags[..0]); }
      LaidNext(seq(REACH, _ => 0), frags, j - 1);
      k := ReachesOut(frags, j - 1);
    }
  }

  lemma CopyOutside(frags: seq<Fragment>, j: nat)
    requires Short(frags) && j < |frags| && PutAt(frags, j) + |frags[j].data| > BIG
    requires frags[j].data != []
    ensures exists a: seq<Byte> :: |a| == REACH && Laid(a, frags)[BIG..] != a[BIG..]
  {
    hide Payload, Laid;
    var q := PutAt(frags, j) + |frags[j].data| - 1;
    var a, b := seq(REACH, _ => 0), seq(REACH, _ => 1);
    LaidCovered(a, b, frags, q, j);
    assert a[BIG..][q - BIG] == 0 && b[BIG..][q - BIG] == 1;
    assert Laid(a, frags)[BIG..][q - BIG] == Laid(b, frags)[BIG..][q - BIG];
  }

  ghost function Grown(s: State, i: nat): (State, Option<Datagram>)
    requires i < |s.controls| && s.controls[i].Collecting?
  {
    var c := s.controls[i];
    if c.lastRcvd && Contiguous(c.frags, 0) then Reassembly.MakeBigPacket(s, i)
    else if |c.frags| == MAX_FRAGS then (Kill(s, i), None)
    else (s, None)
  }

  /** Add for a fragment that is not too big, in terms of the list after insertion. */
  ghost function Fitting(s: State, i: nat, f: Fragment): (State, Option<Datagram>)
    requires i < |s.controls| && s.controls[i].Collecting?
  {
    var c := s.controls[i];
    var p := InsertPos(c.frags, f.offset);
    var s1 := s.(controls := s.controls[i := c.(lastRcvd := c.lastRcvd || f.last)]);
    if p < |c.frags| && IsDuplicate(f, c.frags[p]) then (FreeBuffer(s1, f.buffer), None)
    else if p < |c.frags| && Overlaps(f, c.frags[p]) then (Kill(FreeBuffer(s1, f.buffer), i), None)
    else Grown(s.(controls := s.controls[i := Collecting(c.key, Inserted(c.frags, f), c.lastRcvd || f.last)]), i)
  }

  lemma AddIs(s: State, i: nat, f: Fragment)
    requires i < |s.controls| && s.controls[i].Collecting?
    ensures Add(s, i, f) == if TooBig(f) then (Kill(FreeBuffer(s, f.buffer), i), None) else Fitting(s, i, f)
  {
  }

  lemma ListShort(s: State, i: nat)
    requires Inv(s) && i < |s.controls| && s.controls[i].Collecting?
    ensures |s.controls[i].frags| < MAX_FRAGS
  {
  }

  ghost predicate Apart(c: FragControl, d: FragControl) {
    && c != d && c.packets != d.packets && c.offsets != d.offsets && c.lengths != d.lengths
    && c.offsets != d.lengths && c.lengths != d.offsets
  }

  ghost function ControlsRepr(cs: seq<FragControl>): set<object> {
    if cs == [] then {} else ControlsRepr(cs[..|cs| - 1]) + cs[|cs| - 1].Repr()
  }

  ghost function BigsRepr(bs: seq<BigPacket>): set<object> {
    if bs == [] then {} else BigsRepr(bs[..|bs| - 1]) + bs[|bs| - 1].Repr()
  }

  lemma ControlsReprSnoc(cs: seq<FragControl>, c: FragControl)
    ensures ControlsRepr(cs + [c]) == ControlsRepr(cs) + c.Repr()
  {
    assert (cs + [c])[..|cs|] == cs;
  }

  lemma BigsReprSnoc(bs: seq<BigPacket>, b: BigPacket)
    ensures BigsRepr(bs + [b]) == BigsRepr(bs) + b.Repr()
  {
    assert (bs + [b])[..|bs|] == bs;
  }

  /** `n` control structures, none in use. */
  method NewControls(n: nat) returns (cs: seq<FragControl>, ghost repr: set<object>)
    ensures |cs| == n && repr == ControlsRepr(cs) && fresh(repr)
    ensures forall i, j :: 0 <= i < j < n ==> Apart(cs[i], cs[j])
    ensures forall i :: 0 <= i < n ==> cs[i].Repr() <= ControlsRepr(cs) && cs[i].Valid() && cs[i].Value() == Unused
  {
    hide ControlsRepr, FragControl.Valid, FragControl.Value;
    cs, repr := [], {};
    NoRepr();
    for k := 0 to n
      invariant |cs| == k && repr == ControlsRepr(cs) && fresh(repr)
      invariant forall i, j :: 0 <= i < j < k ==> Apart(cs[i], cs[j])
      invariant forall i :: 0 <= i < k ==> cs[i].Repr() <= ControlsRepr(cs) && cs[i].Valid() && cs[i].Value() == Unused
    {
      var c := new FragControl();
      ControlsReprSnoc(cs, c);
      cs, repr := cs + [c], repr + c.Repr();
    }
  }

  /** `n` BigPackets. */
  method NewBigPackets(n: nat) returns (bs: seq<BigPacket>, ghost repr: set<object>)
    ensures |bs| == n && repr == BigsRepr(bs) && fresh(repr)
    ensures forall b :: 0 <= b < n ==> bs[b].Repr() <= BigsRepr(bs) && bs[b].data.Length == REACH
  {
    hide BigsRepr;
    bs, repr := [], {};
    NoRepr();
    for k := 0 to n
      invariant |bs| == k && repr == BigsRepr(bs) && fresh(repr)
      invariant forall b :: 0 <= b < k ==> bs[b].Repr() <= BigsRepr(bs) && bs[b].data.Length == REACH
    {
      var b := new BigPacket();
      BigsReprSnoc(bs, b);
      bs, repr := bs + [b], repr + b.Repr();
    }
  }

  lemma NoRepr()
    ensures ControlsRepr([]) == {} && BigsRepr([]) == {}
  {
  }

  lemma NothingLaid(a: seq<Byte>)
    requires |a| == REACH
    ensures forall frags: seq<Fragment> :: Short(frags) ==> Laid(a, frags[..0]) == a && PutAt(frags, 0) == 0
  {
  }

  lemma LengthsShort(fc: FragControl)
    requires fc.Valid()
    ensures Short(fc.Frags())
  {
    forall j | 0 <= j < fc.fragsRcvd ensures |fc.Frags()[j].data| < TWO16 {
      assert fc.lengths[j] == |fc.packets[j].data|;
    }
  }

  class FragTable {
    const fragControl: seq<FragControl>
    const bigPackets: seq<BigPacket>
    const bigPacketFreeList: array<nat>
    var bigPacketFreeIndex: nat
    var fragsInReassembly: int
    ghost var freed: seq<nat>

    /** The control structures and the arrays they own. */
    ghost function ControlRepr(): set<object> { ControlsRepr(fragControl) }

    ghost function BigRepr(): set<object> { BigsRepr(bigPackets) }

    ghost function Repr(): set<object> { ControlRepr() + BigRepr() + {this, bigPacketFreeList} }

    ghost predicate ControlsValid()
      reads ControlRepr()
    {
      && |fragControl| == MAX_DATAGRAMS
      && (forall i, j :: 0 <= i < j < |fragControl| ==> Apart(fragControl[i], fragControl[j]))
      && (forall i :: 0 <= i < |fragControl| ==> fragControl[i].Repr() <= ControlRepr() && fragControl[i].Valid())
    }

    /** No two structures share memory. */
    ghost predicate Separate() {
      && this !in ControlRepr() && bigPacketFreeList !in ControlRepr() && ControlRepr() !! BigRepr()
      && this !in BigRepr() && bigPacketFreeList !in BigRepr()
      && (forall b :: 0 <= b < |bigPackets| ==> bigPackets[b].Repr() <= BigRepr() && bigPackets[b].data.Length == REACH)
    }

    ghost predicate Valid()
      reads Repr()
    {
      && ControlsValid() && |bigPackets| == MAX_DATAGRAMS && Separate()
      && bigPacketFreeList.Length == MAX_DATAGRAMS && bigPacketFreeIndex <= MAX_DATAGRAMS
      && (forall k :: 0 <= k < bigPacketFreeIndex ==> bigPacketFreeList[k] < MAX_DATAGRAMS)
    }

    ghost function Controls(): (cs: seq<Control>)
      reads ControlRepr()
      requires ControlsValid()
      ensures |cs| == MAX_DATAGRAMS
      ensures forall i :: 0 <= i < MAX_DATAGRAMS ==> cs[i] == fragControl[i].Value()
    {
      [fragControl[0].Value(), fragControl[1].Value(), fragControl[2].Value(), fragControl[3].Value()]
    }

    ghost function Abs(): State
      reads Repr()
      requires Valid()
    {
      State(Controls(), fragsInReassembly, bigPacketFreeList[..bigPacketFreeIndex], freed)
    }

    /** initForReassembly */
    constructor ()
      ensures Valid() && fresh(Repr())
      ensures Abs() == Initial()
    {
      hide ControlsRepr, BigsRepr, FragControl.Valid, FragControl.Value;
      var controls, controlRepr := NewControls(MAX_DATAGRAMS);
      var bigs, bigRepr := NewBigPackets(MAX_DATAGRAMS);
      fragControl := controls;
      bigPackets := bigs;
      var list := new nat[MAX_DATAGRAMS](i => i);
      bigPacketFreeList := list;
      bigPacketFreeIndex := MAX_DATAGRAMS;
      fragsInReassembly := 0;
      freed := [];
      new;
      assert ControlRepr() == controlRepr && BigRepr() == bigRepr;
      assert Controls() == [Unused, Unused, Unused, Unused];
      assert bigPacketFreeList[..bigPacketFreeIndex] == [0, 1, 2, 3];
    }

    method FreeBuffer(buffer: nat)
      requires Valid()
      modifies this`freed
      ensures Valid()
      ensures Abs() == Reassembly.FreeBuffer(old(Abs()), buffer)
    {
      hide ControlRepr, BigRepr, Controls;
      freed := freed + [buffer];
    }

    method FindFragControl(key: Key) returns (i: Option<nat>)
      requires Valid()
      ensures i == Find(Controls(), key)
    {
      hide ControlRepr, BigRepr, Controls;
      var k := 0;
      assert Controls()[0..] == Controls();
      while k < MAX_DATAGRAMS
        invariant k <= MAX_DATAGRAMS
        invariant Find(Controls(), key) == Shifted(Find(Controls()[k..], key), k)
      {
        assert Controls()[k..][0] == fragControl[k].Value();
        assert Controls()[k..][1..] == Controls()[k + 1..];
        var fc := fragControl[k];
        if fc.inUse && fc.srcAddr == key.src && fc.ident == key.ident { return Some(k); }
        k := k + 1;
      }
      return None;
    }

    method FindOpenFragControl() returns (i: Option<nat>)
      requires Valid()
      ensures i == FindOpen(Controls())
    {
      hide ControlRepr, BigRepr, Controls;
      var k := 0;
      assert Controls()[0..] == Controls();
      while k < MAX_DATAGRAMS
        invariant k <= MAX_DATAGRAMS
        invariant FindOpen(Controls()) == Shifted(FindOpen(Controls()[k..]), k)
      {
        assert Controls()[k..][0] == fragControl[k].Value();
        assert Controls()[k..][1..] == Controls()[k + 1..];
        if !fragControl[k].inUse { return Some(k); }
        k := k + 1;
      }
      return None;
    }

    /** Give back every packet on a list. */
    method FreeFragments(fc: FragControl)
      requires fc.Valid()
      modifies this`freed
      ensures freed == old(freed) + Buffers(fc.Frags())
    {
      ghost var frags := fc.Frags();
      assert frags[..0] == [];
      for j := 0 to fc.fragsRcvd
        invariant freed == old(freed) + Buffers(frags[..j])
      {
        assert frags[..j + 1] == frags[..j] + [frags[j]];
        BuffersSnoc(frags[..j], frags[j]);
        freed := freed + [fc.packets[j].buffer];
      }
      assert frags[..|frags|] == frags;
    }

    /** killFragmentControl on the structure at index `i`. */
    method KillFragmentControl(i: nat)
      requires Valid() && i < MAX_DATAGRAMS && fragControl[i].inUse
      modifies fragControl[i], this`freed, this`fragsInReassembly
      ensures Valid()
      ensures Abs() == Kill(old(Abs()), i)
    {
      hide ControlRepr, BigRepr, Controls, Buffers;
      var fc := fragControl[i];
      FreeFragments(fc);
      fc.Release();
      fragsInReassembly := fragsInReassembly - 1;
      assert Controls() == old(Controls())[i := Unused];
    }

    /** Copy the fragments of a list into a BigPacket, one after the other, and fix up its header. */
    method FillBigPacket(bp: BigPacket, fc: FragControl)
      requires fc.Valid() && bp.data.Length == REACH
      modifies bp, bp.data
      ensures Short(fc.Frags()) && bp.data[..] == Laid(old(bp.data[..]), fc.Frags())
      ensures |Payload(fc.Frags())| <= BIG ==>
                bp.data[..] == Payload(fc.Frags()) + old(bp.data[..])[|Payload(fc.Frags())|..]
      ensures bp.totalLength == Wrap16(|Payload(fc.Frags())| + IP_HEADER)
    {
      hide Payload, Laid;
      ghost var frags, was := fc.Frags(), bp.data[..];
      assert Short(frags) by { LengthsShort(fc); }
      var startOffset: U16 := 0;
      NothingLaid(was);
      for k := 0 to fc.fragsRcvd
        invariant fc.Valid() && fc.Frags() == frags
        invariant startOffset == PutAt(frags, k) && bp.data[..] == Laid(was, frags[..k])
      {
        LaidNext(was, frags, k);
        CopyIn(bp.data, startOffset, fc.packets[k].data);
        startOffset := Wrap16(startOffset + fc.lengths[k]);
      }
      assert frags[..|frags|] == frags;
      bp.totalLength := Wrap16(startOffset + IP_HEADER);
      if |Payload(frags)| <= BIG { LaidFits(was, frags); }
    }

    /** BigPacket `slot` holds the datagram, if that fits; its length field is the datagram's in any case. */
    ghost predicate Holds(slot: nat, d: Datagram)
      reads Repr()
      requires Valid()
    {
      && slot == d.slot < MAX_DATAGRAMS && bigPackets[slot].totalLength == d.totalLength
      && (|d.data| <= BIG ==> bigPackets[slot].data[..|d.data|] == d.data)
    }

    method MakeBigPacket(i: nat) returns (out: Option<nat>)
      requires Valid() && i < MAX_DATAGRAMS && fragControl[i].inUse
      modifies Repr()
      ensures Valid()
      ensures var (s, d) := Reassembly.MakeBigPacket(old(Abs()), i);
              && Abs() == s && (out.Some? <==> d.Some?) && (out.Some? ==> Holds(out.value, d.value))
    {
      hide Payload, Buffers, Laid, ControlRepr, BigRepr, FragControl.Valid, FragControl.Frags, Controls;
      if bigPacketFreeIndex == 0 {
        KillFragmentControl(i);
        return None;
      }
      ghost var s := Abs();
      ghost var n := bigPacketFreeIndex - 1;
      bigPacketFreeIndex := bigPacketFreeIndex - 1;
      assert bigPacketFreeList[..n] == bigPacketFreeList[..n + 1][..n];
      var slot := bigPacketFreeList[bigPacketFreeIndex];
      FillBigPacket(bigPackets[slot], fragControl[i]);
      assert Controls() == s.controls;
      KillFragmentControl(i);
      return Some(slot);
    }

    method BeginAt(i: nat, f: Fragment)
      requires Valid() && i < MAX_DATAGRAMS && |f.data| < TWO16
      modifies fragControl[i].Repr()
      ensures Valid()
      ensures Abs() == old(Abs()).(controls := old(Controls())[i := Collecting(f.key, [f], f.last)])
    {
      hide ControlRepr, BigRepr, Controls, FragControl.Valid, FragControl.Value, FragControl.Frags;
      fragControl[i].Begin(f);
      assert Controls() == old(Controls())[i := fragControl[i].Value()];
    }

    method InsertAt(fc: FragControl, ghost i: nat, insertPos: nat, f: Fragment)
      requires Valid() && i < MAX_DATAGRAMS && fc == fragControl[i] && |f.data| < TWO16 && fc.inUse
      requires insertPos <= fc.fragsRcvd < MAX_FRAGS
      modifies fc`fragsRcvd, fc.offsets, fc.lengths, fc.packets
      ensures Valid()
      ensures var c := old(Controls())[i];
              Abs() == old(Abs()).(controls := old(Controls())[i :=
                  c.(frags := c.frags[..insertPos] + [f] + c.frags[insertPos..])])
    {
      hide ControlRepr, BigRepr, Controls, FragControl.Valid;
      fc.Insert(insertPos, f);
      assert Controls() == old(Controls())[i := fragControl[i].Value()];
    }

    method MarkLast(fc: FragControl, ghost i: nat)
      requires Valid() && i < MAX_DATAGRAMS && fc == fragControl[i] && fc.inUse
      modifies fc`lastFragRcvd
      ensures Valid()
      ensures Abs() == old(Abs()).(controls := old(Controls())[i := old(Controls())[i].(lastRcvd := true)])
      ensures fc.Frags() == old(fc.Frags()) && fc.inUse
    {
      hide ControlRepr, BigRepr, Controls;
      fc.lastFragRcvd := true;
      assert Controls() == old(Controls())[i := fragControl[i].Value()];
    }

    /** A fragment of a datagram not seen so far. */
    method StartReassembly(f: Fragment)
      requires Valid() && |f.data| < TWO16
      modifies Repr()
      ensures Valid()
      ensures Abs() == Start(old(Abs()), f)
    {
      hide ControlRepr, BigRepr, FragControl.Valid, FragControl.Value, FragControl.Frags, FindOpen, Apart;
      var i := FindOpenFragControl();
      if i.None? {
        FreeBuffer(f.buffer);
        return;
      }
      if Wrap16(f.offset + |f.data|) > BIG {
        FreeBuffer(f.buffer);
        return;
      }
      fragsInReassembly := fragsInReassembly + 1;
      BeginAt(i.value, f);
    }

    /** What becomes of a list that has just grown: passed on, given up as full, or kept. */
    method FinishAdd(i: nat) returns (out: Option<nat>)
      requires Valid() && i < MAX_DATAGRAMS && fragControl[i].inUse
      modifies Repr()
      ensures Valid()
      ensures var (s, d) := Grown(old(Abs()), i);
              && Abs() == s && (out.Some? <==> d.Some?) && (out.Some? ==> Holds(out.value, d.value))
    {
      hide ControlRepr, BigRepr, Payload, Contiguous, Kill, Reassembly.MakeBigPacket;
      var fc := fragControl[i];
      if fc.lastFragRcvd {
        var complete := fc.IsComplete();
        if complete {
          out := MakeBigPacket(i);
          return out;
        }
      }
      if fc.fragsRcvd == MAX_FRAGS { KillFragmentControl(i); }
      return None;
    }

    /** Find a fragment's place and test it against what follows there; `done` if that dealt with it. */
    method Search(i: nat, f: Fragment) returns (done: bool, insertPos: nat)
      requires Valid() && |f.data| < TWO16 && i < MAX_DATAGRAMS && fragControl[i].inUse
      modifies fragControl[i], this`freed, this`fragsInReassembly
      ensures Valid()
      ensures var s := old(Abs());
              var frags := s.controls[i].frags;
              var s1 := Reassembly.FreeBuffer(s, f.buffer);
              && insertPos == InsertPos(frags, f.offset)
              && (done ==> insertPos < |frags|)
              && (!done ==> fragControl[i].inUse && fragControl[i].Frags() == frags)
              && (done <==> insertPos < |frags| && (IsDuplicate(f, frags[insertPos]) || Overlaps(f, frags[insertPos])))
              && Abs() == if !done then s else if IsDuplicate(f, frags[insertPos]) then s1 else Kill(s1, i)
    {
      hide ControlRepr, BigRepr, Kill, InsertPos, IsDuplicate, Overlaps, FragControl.Valid, Buffers;
      var fc := fragControl[i];
      assert Controls()[i] == fc.Value();
      insertPos := fc.FindSlot(f.offset);
      var repeats, overlaps := fc.CompareAt(insertPos, f);
      if repeats {
        FreeBuffer(f.buffer);
        return true, insertPos;
      }
      if overlaps {
        FreeBuffer(f.buffer);
        KillFragmentControl(i);
        return true, insertPos;
      }
      return false, insertPos;
    }

    /** Put a fragment in its place and see what becomes of the list. */
    method Place(i: nat, insertPos: nat, f: Fragment) returns (out: Option<nat>)
      requires Valid() && i < MAX_DATAGRAMS && fragControl[i].inUse && fragControl[i].fragsRcvd < MAX_FRAGS
      requires |f.data| < TWO16 && insertPos == InsertPos(fragControl[i].Frags(), f.offset)
      modifies Repr()
      ensures Valid()
      ensures var s := old(Abs());
              var c := s.controls[i];
              var (s', d) := Grown(s.(controls := s.controls[i := c.(frags := Inserted(c.frags, f))]), i);
              && Abs() == s' && (out.Some? <==> d.Some?) && (out.Some? ==> Holds(out.value, d.value))
    {
      hide ControlRepr, BigRepr, Controls, Payload, Contiguous, Grown, InsertPos;
      InsertAt(fragControl[i], i, insertPos, f);
      assert Controls()[i].frags == fragControl[i].Frags();
      out := FinishAdd(i);
    }

    /** A fragment that fits a BigPacket, for the datagram collected at index `i`. */
    method AddFitting(i: nat, f: Fragment) returns (out: Option<nat>)
      requires Valid() && i < MAX_DATAGRAMS && fragControl[i].inUse && fragControl[i].fragsRcvd < MAX_FRAGS
      requires |f.data| < TWO16
      modifies Repr()
      ensures Valid()
      ensures var (s, d) := Fitting(old(Abs()), i, f);
              && Abs() == s && (out.Some? <==> d.Some?) && (out.Some? ==> Holds(out.value, d.value))
    {
      hide ControlRepr, BigRepr, Controls, Payload, Contiguous, InsertPos, Kill, Grown, Inserted, IsDuplicate, Overlaps,
           FragControl.Valid;
      var fc := fragControl[i];
      ghost var s := Abs();
      ghost var c := s.controls[i];
      if f.last { MarkLast(fc, i); }
      ghost var c1 := c.(lastRcvd := c.lastRcvd || f.last);
      ghost var s1 := s.(controls := s.controls[i := c1]);
      assert Abs() == s1;
      assert s1.controls[i := c1.(frags := Inserted(c.frags, f))] == s.controls[i := c1.(frags := Inserted(c.frags, f))];
      var done, insertPos := Search(i, f);
      if done { return None; }
      out := Place(i, insertPos, f);
    }

    /** A fragment of the datagram collected at index `i`. */
    method AddFragment(i: nat, f: Fragment) returns (out: Option<nat>)
      requires Valid() && Inv(Abs()) && |f.data| < TWO16 && i < MAX_DATAGRAMS && fragControl[i].inUse
      modifies Repr()
      ensures Valid()
      ensures var (s, d) := Add(old(Abs()), i, f);
              && Abs() == s && (out.Some? <==> d.Some?) && (out.Some? ==> Holds(out.value, d.value))
    {
      hide ControlRepr, BigRepr, Controls, Payload, Contiguous, Kill, Add, Fitting, Inserted, Inv, Holds;
      AddIs(Abs(), i, f);
      ListShort(Abs(), i);
      if Wrap16(f.offset + |f.data|) > BIG {
        FreeBuffer(f.buffer);
        KillFragmentControl(i);
        return None;
      }
      out := AddFitting(i, f);
    }

    /** processFragment: the index of the BigPacket to pass on, if the fragment completed one. */
    method ProcessFragment(f: Fragment) returns (out: Option<nat>)
      requires Valid() && Inv(Abs()) && |f.data| < TWO16
      modifies Repr()
      ensures Valid()
      ensures var (s, d) := Reassembly.ProcessFragment(old(Abs()), f);
              && Abs() == s && (out.Some? <==> d.Some?) && (out.Some? ==> Holds(out.value, d.value))
    {
      hide ControlRepr, BigRepr, Start, Add;
      var i := FindFragControl(f.key);
      if i.None? {
        StartReassembly(f);
        return None;
      }
      out := AddFragment(i.value, f);
    }

    /** purgeOverdue: kill the reassemblies whose timers have run out. */
    method PurgeOverdue(overdue: set<nat>)
      requires Valid()
      modifies Repr()
      ensures Valid()
      ensures Abs() == Purge(old(Abs()), overdue, 0)
    {
      hide ControlRepr, BigRepr, Controls, Kill;
      for i := 0 to MAX_DATAGRAMS
        invariant Valid()
        invariant Purge(Abs(), overdue, i) == Purge(old(Abs()), overdue, 0)
      {
        if fragControl[i].inUse && i in overdue { KillFragmentControl(i); }
      }
    }

    /** returnBigPacket */
    method ReturnBigPacket(slot: nat)
      requires Valid() && slot < MAX_DATAGRAMS && bigPacketFreeIndex < MAX_DATAGRAMS
      modifies this`bigPacketFreeIndex, bigPacketFreeList
      ensures Valid()
      ensures Abs() == ReturnBig(old(Abs()), slot)
    {
      hide ControlRepr, BigRepr, Controls;
      bigPacketFreeList[bigPacketFreeIndex] := slot;
      bigPacketFreeIndex := bigPacketFreeIndex + 1;
    }
  }

  function Shifted(i: Option<nat>, k: nat): Option<nat> {
    match i case None => None case Some(j) => Some(j + k)
  }
}
