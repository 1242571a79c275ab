/** What comes out of reassembly: for any fragments, and for the fragments of one split datagram. */
module ReassemblyExact {
  import opened Machine
  import opened Counting
  import opened Reassembly

  // ---------------------------------------------------------------- any fragments

  predicate Small(f: Fragment) { f.offset + |f.data| < TWO16 }

  /** Every fragment held ends within a BigPacket. */
  predicate Bounded(s: State) {
    forall i :: 0 <= i < |s.controls| && s.controls[i].Collecting? ==> AllBounded(s.controls[i].frags)
  }

  /** `frags` cover `data`, which starts at `start`, one after the other. */
  ghost predicate Tiles(frags: seq<Fragment>, start: nat, data: seq<Byte>) {
    forall j :: 0 <= j < |frags| ==>
      var f := frags[j];
      start <= f.offset && f.offset + |f.data| <= start + |data| && data[f.offset - start..f.offset - start + |f.data|] == f.data
  }

  lemma {:induction false} PayloadFirst(frags: seq<Fragment>)
    requires frags != []
    ensures Payload(frags) == frags[0].data + Payload(frags[1..])
  {
    var n := |frags| - 1;
    if n > 0 {
      PayloadFirst(frags[..n]);
      assert frags[..n][1..] == frags[1..][..n - 1];
    } else {
      assert frags[..0] == [];
    }
  }

  lemma {:induction false} ContiguousTiles(frags: seq<Fragment>, start: U16)
    requires Contiguous(frags, start) && start <= BIG
    requires AllBounded(frags)
    ensures start + |Payload(frags)| <= BIG && Tiles(frags, start, Payload(frags))
    decreases |frags|
  {
    hide Payload;
    if frags != [] {
      var f := frags[0];
      PayloadFirst(frags);
      ContiguousTiles(frags[1..], start + |f.data|);
      TilesMore(frags, start, Payload(frags[1..]));
    } else {
      PayloadNone(frags);
    }
  }

  lemma PayloadNone(frags: seq<Fragment>)
    requires frags == []
    ensures Payload(frags) == []
  {
  }

  lemma LaterSlice(front: seq<Byte>, rest: seq<Byte>, at: nat, n: nat)
    requires at + n <= |rest|
    ensures (front + rest)[at + |front|..at + |front| + n] == rest[at..at + n]
  {
  }

  lemma TilesMore(frags: seq<Fragment>, start: nat, rest: seq<Byte>)
    requires frags != [] && frags[0].offset == start && Tiles(frags[1..], start + |frags[0].data|, rest)
    ensures Tiles(frags, start, frags[0].data + rest)
  {
    var f := frags[0];
    var data := f.data + rest;
    forall j | 0 <= j < |frags|
      ensures var g := frags[j];
              && start <= g.offset && g.offset + |g.data| <= start + |data|
              && data[g.offset - start..g.offset - start + |g.data|] == g.data
    {
      if j > 0 {
        var g := frags[1..][j - 1];
        LaterSlice(f.data, rest, g.offset - start - |f.data|, |g.data|);
      }
    }
  }

  predicate AllBounded(frags: seq<Fragment>) {
    forall j :: 0 <= j < |frags| ==> frags[j].offset + |frags[j].data| <= BIG
  }

  lemma InsertedBounded(frags: seq<Fragment>, f: Fragment)
    requires AllBounded(frags) && Small(f) && !TooBig(f)
    ensures AllBounded(Inserted(frags, f))
  {
    var r := Inserted(frags, f);
    var p := InsertPos(frags, f.offset);
    forall j | 0 <= j < |r| ensures r[j].offset + |r[j].data| <= BIG {
      assert j < p ==> r[j] == frags[j];
      assert j > p ==> r[j] == frags[j - 1];
    }
  }

  lemma InsertedAlone(f: Fragment)
    ensures Inserted([], f) == [f]
  {
  }

  /** Each fragment starts, in 16 bits, where the payload of those before it ends. */
  ghost predicate Stacked(frags: seq<Fragment>) {
    forall j :: 0 <= j < |frags| ==> StackedAt(frags, 0, j)
  }

  ghost predicate StackedAt(frags: seq<Fragment>, start: nat, j: nat)
    requires j < |frags|
  {
    frags[j].offset == Wrap16(start + |Payload(frags[..j])|)
  }

  lemma {:induction false} ContiguousStacked(frags: seq<Fragment>, start: nat, j: nat)
    requires Contiguous(frags, Wrap16(start)) && j < |frags|
    ensures StackedAt(frags, start, j)
    decreases j
  {
    hide Payload;
    if j > 0 {
      var n := |frags[0].data|;
      WrapNext(start, n);
      ContiguousStacked(frags[1..], start + n, j - 1);
      PayloadFirst(frags[..j]);
      assert frags[..j][1..] == frags[1..][..j - 1];
    } else {
      PayloadNone(frags[..0]);
    }
  }

  lemma WrapNext(x: nat, n: nat)
    ensures Wrap16(Wrap16(x) + n) == Wrap16(x + n)
  {
  }

  lemma {:induction false} PayloadPart(frags: seq<Fragment>, j: nat)
    requires j < |frags|
    ensures |Payload(frags[..j])| + |frags[j].data| <= |Payload(frags)|
  {
    var n := |frags| - 1;
    if j < n {
      PayloadPart(frags[..n], j);
      assert frags[..n][..j] == frags[..j];
    }
  }

  /** A contiguous list fits a BigPacket exactly if each of its fragments ends within one. */
  lemma FitsIffBounded(frags: seq<Fragment>)
    requires Contiguous(frags, 0)
    ensures Stacked(frags)
    ensures |Payload(frags)| <= BIG <==> AllBounded(frags)
  {
    hide Payload, Contiguous, StackedAt;
    forall j | 0 <= j < |frags| ensures StackedAt(frags, 0, j) { ContiguousStacked(frags, 0, j); }
    if AllBounded(frags) { ContiguousTiles(frags, 0); }
    if |Payload(frags)| <= BIG {
      forall j | 0 <= j < |frags| ensures frags[j].offset + |frags[j].data| <= BIG {
        PayloadPart(frags, j);
        StackedPlain(frags, j);
      }
    }
  }

  lemma StackedPlain(frags: seq<Fragment>, j: nat)
    requires j < |frags| && StackedAt(frags, 0, j) && |Payload(frags[..j])| <= BIG
    ensures frags[j].offset == |Payload(frags[..j])|
  {
  }

  /**
   * A datagram is only passed on when fragments of its own key, the arriving one among them, follow
   * one another without gap, and its data is theirs, in order.  It fits its BigPacket exactly if each
   * fragment ends within one; then the fragments tile it and its length field is right.
   */
  lemma DatagramTiled(s: State, f: Fragment)
    requires Inv(s) && ProcessFragment(s, f).1.Some?
    ensures var d := ProcessFragment(s, f).1.value;
            var i := Find(s.controls, f.key).value;
            && Find(s.controls, f.key).Some?
            && var frags := Inserted(s.controls[i].frags, f);
            && Stacked(frags) && d.data == Payload(frags) && (s.controls[i].lastRcvd || f.last)
            && (|d.data| <= BIG <==> AllBounded(frags))
            && (|d.data| <= BIG ==> Tiles(frags, 0, d.data) && d.totalLength == |d.data| + IP_HEADER)
            && d.key == f.key
            && s.bigFree != [] && d.slot == s.bigFree[|s.bigFree| - 1]
            && ProcessFragment(s, f).0.bigFree == s.bigFree[..|s.bigFree| - 1]
  {
    hide Inv;
    var i := Find(s.controls, f.key).value;
    var frags := Inserted(s.controls[i].frags, f);
    hide Inserted, Overlaps, IsDuplicate, Contiguous, Payload, Tiles, AllBounded;
    FitsIffBounded(frags);
    if AllBounded(frags) { ContiguousTiles(frags, 0); }
  }

  /** As long as fragments stay below 64 KiB every datagram fits. */
  lemma DatagramFits(s: State, f: Fragment)
    requires Inv(s) && Bounded(s) && Small(f) && ProcessFragment(s, f).1.Some?
    ensures |ProcessFragment(s, f).1.value.data| <= BIG
  {
    hide Inv, Inserted, Stacked, Tiles, Payload, Contiguous, Overlaps, IsDuplicate;
    DatagramTiled(s, f);
    InsertedBounded(s.controls[Find(s.controls, f.key).value].frags, f);
  }

  lemma BoundedKeeps(s: State, f: Fragment)
    requires Inv(s) && Bounded(s) && Small(f)
    ensures Bounded(ProcessFragment(s, f).0)
  {
    hide Inserted, Overlaps, IsDuplicate, Contiguous, Payload, Buffers, AllBounded;
    var found := Find(s.controls, f.key);
    if TooBig(f) {
    } else if found.Some? {
      InsertedBounded(s.controls[found.value].frags, f);
    } else {
      InsertedBounded([], f);
      InsertedAlone(f);
    }
  }

  // ---------------------------------------------------------------- overlaps

  /** Two fragments in the list that overlap. */
  predicate Overlapping(frags: seq<Fragment>) {
    exists a, b :: 0 <= a < b < |frags| && frags[a].offset + |frags[a].data| > frags[b].offset
  }

  lemma {:induction false} ContiguousApart(frags: seq<Fragment>, start: U16, b: nat)
    requires Contiguous(frags, start) && AllBounded(frags) && start <= BIG && b < |frags|
    ensures start <= frags[b].offset
    ensures forall a :: 0 <= a < b ==> frags[a].offset + |frags[a].data| <= frags[b].offset
    decreases b
  {
    if b > 0 {
      var next: U16 := start + |frags[0].data|;
      var rest := frags[1..];
      ContiguousApart(rest, next, b - 1);
      forall a | 0 <= a < b ensures frags[a].offset + |frags[a].data| <= frags[b].offset {
        if a > 0 { assert rest[a - 1] == frags[a]; }
      }
    }
  }

  lemma OverlapStays(frags: seq<Fragment>, f: Fragment)
    requires Overlapping(frags)
    ensures Overlapping(Inserted(frags, f))
  {
    var r := Inserted(frags, f);
    var p := InsertPos(frags, f.offset);
    var a, b :| 0 <= a < b < |frags| && frags[a].offset + |frags[a].data| > frags[b].offset;
    var a' := if a < p then a else a + 1;
    var b' := if b < p then b else b + 1;
    assert r[a'] == frags[a] && r[b'] == frags[b];
  }

  lemma OverlapIncomplete(frags: seq<Fragment>)
    requires Overlapping(frags) && AllBounded(frags)
    ensures !Contiguous(frags, 0)
  {
    var a, b :| 0 <= a < b < |frags| && frags[a].offset + |frags[a].data| > frags[b].offset;
    if Contiguous(frags, 0) { ContiguousApart(frags, 0, b); }
  }

  /** A list with an overlap never completes, whatever arrives: it stays until it is full or overdue. */
  lemma OverlapNeverCompletes(s: State, f: Fragment, i: nat)
    requires |s.controls| == MAX_DATAGRAMS && DistinctKeys(s.controls) && Bounded(s) && Small(f)
    requires i < |s.controls| && s.controls[i].Collecting?
    requires f.key == s.controls[i].key && Overlapping(s.controls[i].frags)
    ensures ProcessFragment(s, f).1.None? && |ProcessFragment(s, f).0.controls| == MAX_DATAGRAMS
    ensures ProcessFragment(s, f).0.controls[i].Collecting? ==>
              Overlapping(ProcessFragment(s, f).0.controls[i].frags)
  {
    hide Contiguous, Overlaps, IsDuplicate, Payload, Buffers, AllBounded, TooBig, Overlapping, Inserted, DistinctKeys;
    FoundAt(s.controls, i, f.key);
    var frags := s.controls[i].frags;
    if !TooBig(f) {
      InsertedBounded(frags, f);
      OverlapStays(frags, f);
      OverlapIncomplete(Inserted(frags, f));
    }
  }

  /** `f` reaches into the fragment it would be put in front of. */
  predicate HitsNext(frags: seq<Fragment>, f: Fragment) {
    var p := InsertPos(frags, f.offset);
    p < |frags| && f.offset + |f.data| > frags[p].offset
  }

  /** A fragment already in the list reaches into `f`. */
  predicate HitsBefore(frags: seq<Fragment>, f: Fragment) {
    exists j :: 0 <= j < InsertPos(frags, f.offset) && frags[j].offset + |frags[j].data| > f.offset
  }

  predicate Repeats(frags: seq<Fragment>, f: Fragment) {
    var p := InsertPos(frags, f.offset);
    p < |frags| && IsDuplicate(f, frags[p])
  }

  /**
   * "Overlap aborts the reassembly" holds exactly for an overlap with the fragment that follows: with
   * room in the list and a BigPacket free, a fragment that is no repetition makes the list go without
   * a datagram if and only if it reaches into its successor.
   */
  lemma OverlapAborts(s: State, f: Fragment, i: nat)
    requires i < |s.controls| && s.controls[i].Collecting? && Find(s.controls, f.key) == Some(i)
    requires Small(f) && !TooBig(f) && !Repeats(s.controls[i].frags, f)
    requires |s.controls[i].frags| + 1 < MAX_FRAGS && s.bigFree != []
    ensures var (s', out) := ProcessFragment(s, f);
            && i < |s'.controls|
            && (s'.controls[i].Unused? && out.None? <==> HitsNext(s.controls[i].frags, f))
  {
    hide Contiguous, Payload, Buffers, Inserted, InsertPos, IsDuplicate;
  }

  /** A fragment that only an earlier one reaches into goes unnoticed: both are kept, and nothing is passed on. */
  lemma OverlapUnnoticed(s: State, f: Fragment, i: nat)
    requires Bounded(s) && i < |s.controls| && s.controls[i].Collecting? && Find(s.controls, f.key) == Some(i)
    requires Small(f) && !TooBig(f) && !Repeats(s.controls[i].frags, f)
    requires HitsBefore(s.controls[i].frags, f) && !HitsNext(s.controls[i].frags, f)
    ensures var (s', out) := ProcessFragment(s, f);
            var c := s.controls[i];
            && out.None? && i < |s'.controls| && Overlapping(Inserted(c.frags, f))
            && s'.controls[i] == if |c.frags| + 1 == MAX_FRAGS then Unused
                                 else Collecting(c.key, Inserted(c.frags, f), c.lastRcvd || f.last)
  {
    hide Contiguous, Payload, Buffers, Inserted, InsertPos, IsDuplicate, Overlapping, AllBounded;
    var frags := s.controls[i].frags;
    InsertedBounded(frags, f);
    HitInserted(frags, f);
    OverlapIncomplete(Inserted(frags, f));
  }

  lemma HitInserted(frags: seq<Fragment>, f: Fragment)
    requires HitsBefore(frags, f)
    ensures Overlapping(Inserted(frags, f))
  {
    var p := InsertPos(frags, f.offset);
    var j :| 0 <= j < p && frags[j].offset + |frags[j].data| > f.offset;
    var r := Inserted(frags, f);
    assert r[j] == frags[j] && r[p] == f;
  }

  /** Bytes 0-15 are there; bytes 8-23, the last fragment, arrive: 24 bytes in all, but the datagram never comes out. */
  lemma UnnoticedExample()
    ensures var a := Fragment(0, Key(1, 2), 0, false, seq(16, _ => 7));
            var f := Fragment(1, Key(1, 2), 8, true, seq(16, _ => 9));
            var s := State([Collecting(Key(1, 2), [a], false), Unused, Unused, Unused], 1, [0, 1, 2, 3], []);
            var (s', out) := ProcessFragment(s, f);
            && Inv(s) && Bounded(s) && out.None? && s'.controls[0] == Collecting(Key(1, 2), [a, f], true)
  {
    hide Payload, Buffers;
    var a := Fragment(0, Key(1, 2), 0, false, seq(16, _ => 7));
    var f := Fragment(1, Key(1, 2), 8, true, seq(16, _ => 9));
    var cs := [Collecting(Key(1, 2), [a], false), Unused, Unused, Unused];
    OneInUse(cs);
    assert InsertPos([a], 8) == 1 && Inserted([a], f) == [a, f];
    assert Find(cs, Key(1, 2)) == Some(0);
    assert !Contiguous([a, f], 0) by { assert [a, f][1..] == [f]; }
  }

  lemma OneInUse(cs: seq<Control>)
    requires |cs| == 4 && cs[0].Collecting? && cs[1].Unused? && cs[2].Unused? && cs[3].Unused?
    ensures InUse(cs) == 1
  {
    assert cs[..3][..2] == cs[..2] && cs[..2][..1] == cs[..1] && cs[..1][..0] == [];
    assert InUse(cs[..1]) == 1 && InUse(cs[..2]) == 1 && InUse(cs[..3]) == 1;
  }

  /**
   * What a further fragment does to its list when it is not simply added: too big in sixteen bits, the list is
   * dropped; the same offset and length once more, it is freed but its last mark counts; reaching into the
   * fragment that follows in sixteen bits, the list is dropped.
   */
  lemma NotAdded(s: State, f: Fragment, i: nat)
    requires i < |s.controls| && s.controls[i].Collecting? && Find(s.controls, f.key) == Some(i)
    ensures var c := s.controls[i];
            var end := (f.offset + |f.data|) % 65536;
            var p := InsertPos(c.frags, f.offset);
            var (s', out) := ProcessFragment(s, f);
            && (end > 2048 ==>
                  out.None? && s'.controls == s.controls[i := Unused] && s'.freed == s.freed + [f.buffer] + Buffers(c.frags))
            && (end <= 2048 && p < |c.frags| && c.frags[p].offset == f.offset && |c.frags[p].data| == |f.data| ==>
                  && out.None? && s'.freed == s.freed + [f.buffer]
                  && s'.controls == s.controls[i := Collecting(c.key, c.frags, c.lastRcvd || f.last)])
            && (end <= 2048 && p < |c.frags| && c.frags[p].offset < end
                && !(c.frags[p].offset == f.offset && |c.frags[p].data| == |f.data|) ==>
                  out.None? && s'.controls == s.controls[i := Unused] && s'.freed == s.freed + [f.buffer] + Buffers(c.frags))
  {
    hide Contiguous, Payload, Buffers, Inserted, InsertPos;
  }

  /** Nine fragments are held at most: a tenth that does not complete the datagram drops the list. */
  lemma TenthDrops(s: State, f: Fragment, i: nat)
    requires i < |s.controls| && s.controls[i].Collecting? && Find(s.controls, f.key) == Some(i)
    requires |s.controls[i].frags| == 9
    ensures var (s', out) := ProcessFragment(s, f);
            && i < |s'.controls|
            && (s'.controls[i].Unused? || s'.controls[i].frags == s.controls[i].frags)
  {
    hide Contiguous, Payload, Buffers, InsertPos;
  }

  /** The size check sees the sum of offset and length as 16 bits: exactly when it lets a fragment by. */
  lemma SizeCheck(f: Fragment)
    requires |f.data| < TWO16
    ensures !TooBig(f) <==> f.offset + |f.data| <= 2048 || 65536 <= f.offset + |f.data| <= 65536 + 2048
  {
  }

  /** Bytes 0-2047, and then 63488 more, the last fragment. */
  function TooLong(): seq<Event> {
    [Arrival(Fragment(0, Key(1, 2), 0, false, seq(2048, _ => 7))),
     Arrival(Fragment(1, Key(1, 2), 2048, true, seq(63488, _ => 9)))]
  }

  /**
   * From the initial table, two fragments that pass the size check complete a datagram of 65536 bytes,
   * which is passed on in a BigPacket of 2048.
   */
  lemma TooLongPassedOn()
    ensures var out := Output(Initial(), TooLong());
            out.Some? && |out.value.data| == 65536 && out.value.totalLength == 20
  {
    hide Payload, Buffers;
    var a := TooLong()[0].f;
    var b := TooLong()[1].f;
    var s1 := ProcessFragment(Initial(), a).0;
    assert After(Initial(), TooLong()[..1]) == s1 by {
      assert TooLong()[..1][..0] == [];
      assert After(Initial(), []) == Initial();
    }
    assert s1.controls == [Collecting(Key(1, 2), [a], false), Unused, Unused, Unused];
    assert Find(s1.controls, Key(1, 2)) == Some(0);
    assert InsertPos([a], 2048) == 1 && Inserted([a], b) == [a, b];
    TwoInARow(a, b);
  }

  lemma TwoInARow(a: Fragment, b: Fragment)
    requires a.offset == 0 && b.offset == Wrap16(|a.data|)
    ensures Contiguous([a, b], 0) && Payload([a, b]) == a.data + b.data
  {
    var rest := [a, b][1..];
    assert rest == [b] && rest[1..] == [];
    assert Contiguous(rest, b.offset);
    PayloadFirst([a, b]);
    PayloadFirst(rest);
  }

  // ---------------------------------------------------------------- one split datagram

  /** A payload cut into `Count` pieces at the listed offsets. */
  datatype Split = Split(key: Key, payload: seq<Byte>, cuts: seq<nat>)

  function Count(sp: Split): int { |sp.cuts| - 1 }

  predicate WellSplit(sp: Split) {
    && 2 <= Count(sp) <= 10
    && sp.cuts[0] == 0 && sp.cuts[Count(sp)] == |sp.payload| <= 2048
    && forall i, j :: 0 <= i < j < |sp.cuts| ==> sp.cuts[i] < sp.cuts[j]
  }

  /** `f` carries piece `i`. */
  predicate IsPiece(sp: Split, f: Fragment, i: nat)
    requires WellSplit(sp)
  {
    && i < Count(sp) && f.key == sp.key && f.offset == sp.cuts[i]
    && f.data == sp.payload[sp.cuts[i]..sp.cuts[i + 1]] && (f.last <==> i == Count(sp) - 1)
  }

  /** `frags` carry the pieces listed in `ix`, which is in increasing order. */
  predicate Carries(sp: Split, frags: seq<Fragment>, ix: seq<nat>)
    requires WellSplit(sp)
  {
    && |frags| == |ix|
    && (forall j :: 0 <= j < |ix| ==> IsPiece(sp, frags[j], ix[j]))
    && (forall j, k :: 0 <= j < k < |ix| ==> ix[j] < ix[k])
  }

  ghost predicate Matches(sp: Split, c: Control, have: set<nat>)
    requires WellSplit(sp)
  {
    && c.Collecting? && c.key == sp.key && (c.lastRcvd <==> Count(sp) - 1 in have)
    && exists ix :: Carries(sp, c.frags, ix) && Elements(ix) == have
  }

  ghost function All(sp: Split): set<nat>
    requires WellSplit(sp)
  {
    Below(Count(sp))
  }

  /** The table holds exactly the pieces in `have`, and not yet all of them. */
  ghost predicate Tracks(s: State, sp: Split, have: set<nat>)
    requires WellSplit(sp)
  {
    && have < All(sp)
    && (have == {} ==> Find(s.controls, sp.key).None?)
    && (have != {} ==> Find(s.controls, sp.key).Some? && Matches(sp, s.controls[Find(s.controls, sp.key).value], have))
  }

  /** An increasing list of indices below `n` that is as long as `n` lists them all. */
  lemma {:induction false} IncreasingAtLeast(ix: seq<nat>, j: nat)
    requires forall a, b :: 0 <= a < b < |ix| ==> ix[a] < ix[b]
    requires j < |ix|
    ensures ix[j] >= j
  {
    if j > 0 { IncreasingAtLeast(ix, j - 1); }
  }

  lemma {:induction false} IncreasingCount(ix: seq<nat>)
    requires forall a, b :: 0 <= a < b < |ix| ==> ix[a] < ix[b]
    ensures |Elements(ix)| == |ix|
  {
    if ix != [] {
      var n := |ix| - 1;
      IncreasingCount(ix[..n]);
      assert Elements(ix) == Elements(ix[..n]) + {ix[n]};
    }
  }

  /** The end of the last of the pieces 0, 1, ..., k-1. */
  predicate Prefix(ix: seq<nat>) { forall j :: 0 <= j < |ix| ==> ix[j] == j }

  lemma ContiguousStep(frags: seq<Fragment>, k: nat, start: U16)
    requires k < |frags|
    ensures Contiguous(frags[k..], start) <==>
              start == frags[k].offset && Contiguous(frags[k + 1..], Wrap16(start + |frags[k].data|))
  {
    assert frags[k..][1..] == frags[k + 1..];
  }

  /** A piece starts and ends where the cuts say. */
  lemma PieceEnds(sp: Split, f: Fragment, i: nat, k: nat)
    requires WellSplit(sp) && IsPiece(sp, f, i) && k <= i
    ensures (f.offset == sp.cuts[k] <==> i == k) && Wrap16(sp.cuts[i] + |f.data|) == sp.cuts[i + 1]
    ensures sp.cuts[k] <= BIG
  {
    assert i + 1 == Count(sp) || sp.cuts[i + 1] < sp.cuts[Count(sp)];
  }

  lemma {:induction false} PrefixContiguous(sp: Split, frags: seq<Fragment>, ix: seq<nat>, k: nat)
    requires WellSplit(sp) && Carries(sp, frags, ix) && k <= |ix| && k <= Count(sp)
    requires forall j :: 0 <= j < k ==> ix[j] == j
    requires sp.cuts[k] <= BIG
    ensures Contiguous(frags[k..], sp.cuts[k]) <==> Prefix(ix)
    decreases |ix| - k
  {
    hide Contiguous, WellSplit, IsPiece, Carries, Prefix;
    if k < |ix| {
      CarriesAt(sp, frags, ix, k);
      PieceEnds(sp, frags[k], ix[k], k);
      ContiguousStep(frags, k, sp.cuts[k]);
      if ix[k] == k {
        PieceIndex(sp, frags[k], k);
        PrefixContiguous(sp, frags, ix, k + 1);
      } else {
        NotPrefix(ix, k);
      }
    } else {
      AllPrefix(ix);
      CarriesLength(sp, frags, ix);
      ContiguousNone(frags[k..], sp.cuts[k]);
    }
  }

  lemma CarriesLength(sp: Split, frags: seq<Fragment>, ix: seq<nat>)
    requires WellSplit(sp) && Carries(sp, frags, ix)
    ensures |frags| == |ix|
  {
  }

  lemma ContiguousNone(frags: seq<Fragment>, start: U16)
    requires frags == []
    ensures Contiguous(frags, start)
  {
  }

  lemma NotPrefix(ix: seq<nat>, k: nat)
    requires k < |ix| && ix[k] != k
    ensures !Prefix(ix)
  {
  }

  lemma AllPrefix(ix: seq<nat>)
    requires forall j :: 0 <= j < |ix| ==> ix[j] == j
    ensures Prefix(ix)
  {
  }

  lemma CarriesAt(sp: Split, frags: seq<Fragment>, ix: seq<nat>, k: nat)
    requires WellSplit(sp) && Carries(sp, frags, ix) && k < |ix|
    ensures |frags| == |ix| && IsPiece(sp, frags[k], ix[k]) && ix[k] >= k
  {
    hide IsPiece, WellSplit;
    IncreasingAtLeast(ix, k);
  }

  lemma PieceIndex(sp: Split, f: Fragment, i: nat)
    requires WellSplit(sp) && IsPiece(sp, f, i)
    ensures i + 1 <= Count(sp) && sp.cuts[i + 1] <= BIG
  {
    assert i + 1 == Count(sp) || sp.cuts[i + 1] < sp.cuts[Count(sp)];
  }

  lemma PieceFollows(sp: Split, f: Fragment, i: nat)
    requires WellSplit(sp) && IsPiece(sp, f, i)
    ensures sp.cuts[i] < sp.cuts[i + 1] <= |sp.payload|
    ensures sp.payload[..sp.cuts[i]] + f.data == sp.payload[..sp.cuts[i + 1]]
  {
  }

  lemma {:induction false} PrefixPayload(sp: Split, frags: seq<Fragment>, ix: seq<nat>)
    requires WellSplit(sp) && Carries(sp, frags, ix) && Prefix(ix) && |ix| <= Count(sp)
    ensures Payload(frags) == sp.payload[..sp.cuts[|ix|]]
    decreases |ix|
  {
    if ix != [] {
      var n := |ix| - 1;
      PrefixPayload(sp, frags[..n], ix[..n]);
      PieceFollows(sp, frags[n], n);
    } else {
      PayloadNone(frags);
    }
  }

  /** The list is complete exactly if every piece is in it. */
  lemma CompleteIff(sp: Split, frags: seq<Fragment>, ix: seq<nat>)
    requires WellSplit(sp) && Carries(sp, frags, ix)
    ensures |ix| <= Count(sp) && Elements(ix) <= All(sp) && |Elements(ix)| == |ix|
    ensures Count(sp) - 1 in Elements(ix) && Contiguous(frags, 0) <==> Elements(ix) == All(sp)
    ensures Elements(ix) == All(sp) <==> |ix| == Count(sp)
    ensures Elements(ix) == All(sp) ==> Payload(frags) == sp.payload
  {
    hide Contiguous;
    var n := Count(sp);
    IncreasingCount(ix);
    if |ix| > 0 { IncreasingAtLeast(ix, |ix| - 1); }
    SubsetEqual(Elements(ix), All(sp));
    assert frags[0..] == frags;
    PrefixContiguous(sp, frags, ix, 0);
    if |ix| == n {
      AllListed(ix, n);
      PrefixPayload(sp, frags, ix);
    }
    if Prefix(ix) && n - 1 in Elements(ix) {
      var j :| 0 <= j < |ix| && ix[j] == n - 1;
      assert |ix| == n;
    }
  }

  lemma {:induction false} AllListed(ix: seq<nat>, n: nat)
    requires forall a, b :: 0 <= a < b < |ix| ==> ix[a] < ix[b]
    requires |ix| == n && forall j :: 0 <= j < n ==> ix[j] < n
    ensures Prefix(ix)
  {
    if n > 0 {
      IncreasingAtLeast(ix, n - 1);
      var before := ix[..n - 1];
      forall j | 0 <= j < n - 1 ensures before[j] < n - 1 { assert before[j] == ix[j] < ix[n - 1]; }
      AllListed(before, n - 1);
      forall j | 0 <= j < n ensures ix[j] == j { if j < n - 1 { assert before[j] == j; } }
    }
  }

  lemma SubsetEqual(a: set<nat>, b: set<nat>)
    requires a <= b
    ensures a == b <==> |a| == |b|
  {
    if a != b {
      var x :| x in b && x !in a;
      SubsetSmaller(a, b, x);
    }
  }

  // ---------------------------------------------------------------- one arrival

  /** Where piece `i` goes in a list that carries `ix`. */
  lemma PlaceOf(sp: Split, frags: seq<Fragment>, ix: seq<nat>, f: Fragment, i: nat)
    requires WellSplit(sp) && Carries(sp, frags, ix) && IsPiece(sp, f, i)
    ensures var p := InsertPos(frags, f.offset);
            && (forall j :: 0 <= j < p ==> ix[j] < i) && (p < |ix| ==> i <= ix[p])
            && (i in Elements(ix) <==> p < |ix| && ix[p] == i)
  {
    var p := InsertPos(frags, f.offset);
    forall j | 0 <= j < p ensures ix[j] < i {
      assert sp.cuts[ix[j]] < sp.cuts[i];
    }
  }

  /** A piece that is already there is recognised as a duplicate. */
  lemma KnownPiece(sp: Split, frags: seq<Fragment>, ix: seq<nat>, f: Fragment, i: nat)
    requires WellSplit(sp) && Carries(sp, frags, ix) && IsPiece(sp, f, i) && i in Elements(ix)
    ensures var p := InsertPos(frags, f.offset); p < |frags| && IsDuplicate(f, frags[p])
  {
    PlaceOf(sp, frags, ix, f, i);
  }

  /** A new piece is neither a duplicate nor overlapping, and takes its place in the order. */
  lemma NewPiece(sp: Split, frags: seq<Fragment>, ix: seq<nat>, f: Fragment, i: nat) returns (ix': seq<nat>)
    requires WellSplit(sp) && Carries(sp, frags, ix) && IsPiece(sp, f, i) && i !in Elements(ix)
    ensures var p := InsertPos(frags, f.offset);
            p < |frags| ==> !IsDuplicate(f, frags[p]) && !Overlaps(f, frags[p])
    ensures Carries(sp, Inserted(frags, f), ix') && Elements(ix') == Elements(ix) + {i}
  {
    PlaceOf(sp, frags, ix, f, i);
    var p := InsertPos(frags, f.offset);
    if p < |frags| {
      assert i < ix[p];
      assert i + 1 == ix[p] || sp.cuts[i + 1] < sp.cuts[ix[p]];
    }
    ix' := ix[..p] + [i] + ix[p..];
    InsertedElements(ix, p, i);
    InsertedCarries(sp, frags, ix, f, i, p);
  }

  lemma InsertedElements(ix: seq<nat>, p: nat, i: nat)
    requires p <= |ix|
    ensures Elements(ix[..p] + [i] + ix[p..]) == Elements(ix) + {i}
  {
    var r := ix[..p] + [i] + ix[p..];
    forall x | x in Elements(ix) + {i} ensures x in r {
      if x == i { assert r[p] == i; }
      else {
        var j :| 0 <= j < |ix| && ix[j] == x;
        assert x == if j < p then r[j] else r[j + 1];
      }
    }
    forall x | x in r ensures x in Elements(ix) + {i} {
      var j :| 0 <= j < |r| && r[j] == x;
      assert j < p ==> x == ix[j];
      assert j > p ==> x == ix[j - 1];
    }
  }

  lemma InsertedCarries(sp: Split, frags: seq<Fragment>, ix: seq<nat>, f: Fragment, i: nat, p: nat)
    requires WellSplit(sp) && Carries(sp, frags, ix) && IsPiece(sp, f, i)
    requires p == InsertPos(frags, f.offset) <= |ix|
    requires (forall j :: 0 <= j < p ==> ix[j] < i) && (p < |ix| ==> i < ix[p])
    ensures Carries(sp, Inserted(frags, f), ix[..p] + [i] + ix[p..])
  {
    hide IsPiece;
    var r := Inserted(frags, f);
    var ix' := ix[..p] + [i] + ix[p..];
    forall j | 0 <= j < |ix'| ensures IsPiece(sp, r[j], ix'[j]) {
      if j < p { assert r[j] == frags[j] && ix'[j] == ix[j]; }
      if j > p { assert r[j] == frags[j - 1] && ix'[j] == ix[j - 1]; }
    }
    forall j, k | 0 <= j < k < |ix'| ensures ix'[j] < ix'[k] {
      var a := if j < p then ix[j] else if j == p then i else ix[j - 1];
      var b := if k < p then ix[k] else if k == p then i else ix[k - 1];
      assert ix'[j] == a && ix'[k] == b;
    }
  }

  lemma PieceFits(sp: Split, f: Fragment, i: nat)
    requires WellSplit(sp) && IsPiece(sp, f, i)
    ensures !TooBig(f) && Small(f)
  {
    assert i + 1 == Count(sp) || sp.cuts[i + 1] < sp.cuts[Count(sp)];
  }

  /** The state of control `i` is known, and keys are distinct: that control is the one found. */
  lemma FoundAt(cs: seq<Control>, i: nat, key: Key)
    requires i < |cs| && cs[i].Collecting? && cs[i].key == key && DistinctKeys(cs)
    ensures Find(cs, key) == Some(i)
  {
    assert Find(cs, key).Some?;
  }

  lemma NotFound(cs: seq<Control>, key: Key)
    requires forall j :: 0 <= j < |cs| && cs[j].Collecting? ==> cs[j].key != key
    ensures Find(cs, key).None?
  {
  }

  /** The first piece of a datagram to arrive starts a reassembly. */
  lemma FirstPiece(s: State, sp: Split, f: Fragment, i: nat)
    requires Inv(s) && WellSplit(sp) && Tracks(s, sp, {}) && IsPiece(sp, f, i) && FindOpen(s.controls).Some?
    ensures ProcessFragment(s, f).1 == None && Tracks(ProcessFragment(s, f).0, sp, {i})
  {
    PieceFits(sp, f, i);
    ProcessKeeps(s, f);
    var s' := ProcessFragment(s, f).0;
    var k := FindOpen(s.controls).value;
    FoundAt(s'.controls, k, sp.key);
    assert Carries(sp, [f], [i]) && Elements([i]) == {i};
    CompleteIff(sp, [f], [i]);
  }

  /** A piece that has arrived before changes nothing. */
  lemma RepeatedPiece(s: State, sp: Split, have: set<nat>, f: Fragment, i: nat)
    requires Inv(s) && WellSplit(sp) && Tracks(s, sp, have) && IsPiece(sp, f, i) && i in have
    ensures ProcessFragment(s, f).1 == None && Tracks(ProcessFragment(s, f).0, sp, have)
  {
    hide Contiguous, Payload, Buffers, Inserted, InsertPos, Elements, Balanced, InUse, Overlaps;
    PieceFits(sp, f, i);
    ProcessKeeps(s, f);
    var k := Find(s.controls, sp.key).value;
    var c := s.controls[k];
    var ix :| Carries(sp, c.frags, ix) && Elements(ix) == have;
    KnownPiece(sp, c.frags, ix, f, i);
    var s' := ProcessFragment(s, f).0;
    FoundAt(s'.controls, k, sp.key);
    assert s'.controls[k].frags == c.frags;
  }

  /** A new piece is held, or completes the datagram. */
  lemma FurtherPiece(s: State, sp: Split, have: set<nat>, f: Fragment, i: nat)
    requires Inv(s) && WellSplit(sp) && Tracks(s, sp, have) && have != {} && IsPiece(sp, f, i) && i !in have
    requires s.bigFree != []
    ensures var (s', out) := ProcessFragment(s, f);
            if have + {i} == All(sp) then
              && out.Some? && out.value.data == sp.payload && out.value.key == sp.key
              && out.value.totalLength == |sp.payload| + IP_HEADER && Tracks(s', sp, {})
            else out == None && Tracks(s', sp, have + {i})
  {
    hide Contiguous, Inserted, InsertPos, Overlaps, IsDuplicate, TooBig, Carries, Payload, Elements, Below;
    PieceFits(sp, f, i);
    ProcessKeeps(s, f);
    var k := Find(s.controls, sp.key).value;
    var c := s.controls[k];
    var ix :| Carries(sp, c.frags, ix) && Elements(ix) == have;
    var ix' := NewPiece(sp, c.frags, ix, f, i);
    var frags := Inserted(c.frags, f);
    CompleteIff(sp, frags, ix');
    var s' := ProcessFragment(s, f).0;
    if have + {i} == All(sp) {
      forall j | 0 <= j < |s'.controls| && s'.controls[j].Collecting? ensures s'.controls[j].key != sp.key {
        assert s'.controls[j] == s.controls[j];
      }
      NotFound(s'.controls, sp.key);
    } else {
      assert s'.controls[k] == Collecting(sp.key, frags, c.lastRcvd || f.last);
      FoundAt(s'.controls, k, sp.key);
    }
  }

  // ---------------------------------------------------------------- everything else that happens

  /** Control `i` and no other carries the key. */
  lemma SameControl(s: State, s': State, sp: Split, have: set<nat>)
    requires Inv(s) && Inv(s') && WellSplit(sp) && Tracks(s, sp, have)
    requires forall j :: 0 <= j < |s.controls| && s.controls[j].Collecting? && s.controls[j].key == sp.key ==>
               s'.controls[j] == s.controls[j]
    requires forall j :: 0 <= j < |s'.controls| && s'.controls[j].Collecting? && s'.controls[j].key == sp.key ==>
               s.controls[j].Collecting? && s.controls[j].key == sp.key
    ensures Tracks(s', sp, have)
  {
    if have == {} {
      NotFound(s'.controls, sp.key);
    } else {
      FoundAt(s'.controls, Find(s.controls, sp.key).value, sp.key);
    }
  }

  /** processFragment touches only the control of the fragment's own key, or an unused one. */
  lemma TouchesOwnKey(s: State, f: Fragment)
    ensures var (s', out) := ProcessFragment(s, f);
            && |s'.controls| == |s.controls|
            && (forall j :: 0 <= j < |s.controls| && s.controls[j].Collecting? && s.controls[j].key != f.key ==>
                  s'.controls[j] == s.controls[j])
            && (forall j :: 0 <= j < |s.controls| && s'.controls[j].Collecting? && s'.controls[j].key != f.key ==>
                  s'.controls[j] == s.controls[j])
            && (out.Some? ==> out.value.key == f.key)
  {
    hide Contiguous, Inserted, InsertPos, Overlaps, IsDuplicate, TooBig, Payload, Buffers;
  }

  /** Fragments of another datagram do not disturb this one. */
  lemma OtherFragment(s: State, sp: Split, have: set<nat>, f: Fragment)
    requires Inv(s) && WellSplit(sp) && Tracks(s, sp, have) && f.key != sp.key
    ensures Tracks(ProcessFragment(s, f).0, sp, have)
    ensures ProcessFragment(s, f).1.Some? ==> ProcessFragment(s, f).1.value.key != sp.key
  {
    hide ProcessFragment, Tracks, ListOk;
    TouchesOwnKey(s, f);
    ProcessKeeps(s, f);
    SameControl(s, ProcessFragment(s, f).0, sp, have);
  }

  /** Neither do other datagrams' timeouts. */
  lemma OtherTimeout(s: State, sp: Split, have: set<nat>, overdue: set<nat>)
    requires Inv(s) && WellSplit(sp) && Tracks(s, sp, have)
    requires have != {} ==> Find(s.controls, sp.key).value !in overdue
    ensures Tracks(Purge(s, overdue, 0), sp, have)
  {
    PurgeKeeps(s, overdue, 0);
    var s' := Purge(s, overdue, 0);
    forall j | 0 <= j < |s.controls| && s.controls[j].Collecting? && s.controls[j].key == sp.key
      ensures s'.controls[j] == s.controls[j]
    {
      FoundAt(s.controls, j, sp.key);
    }
    SameControl(s, s', sp, have);
  }

  // ---------------------------------------------------------------- runs

  datatype Event = Arrival(f: Fragment) | Timeouts(overdue: set<nat>) | Returned(slot: nat)

  function Step(s: State, e: Event): (State, Option<Datagram>)
  {
    match e
    case Arrival(f) => ProcessFragment(s, f)
    case Timeouts(overdue) => (Purge(s, overdue, 0), None)
    case Returned(slot) => (ReturnBig(s, slot), None)
  }

  ghost function After(s: State, es: seq<Event>): State {
    if es == [] then s else Step(After(s, es[..|es| - 1]), es[|es| - 1]).0
  }

  /** What the last event of a run passes on. */
  ghost function Output(s: State, es: seq<Event>): Option<Datagram>
    requires es != []
  {
    Step(After(s, es[..|es| - 1]), es[|es| - 1]).1
  }

  /** The piece an event brings, if it brings one. */
  ghost predicate Brings(sp: Split, e: Event, i: nat)
    requires WellSplit(sp)
  {
    e.Arrival? && IsPiece(sp, e.f, i)
  }

  /** The pieces that have arrived since the datagram was last complete. */
  ghost function Have(sp: Split, es: seq<Event>): set<nat>
    requires WellSplit(sp)
  {
    if es == [] then {}
    else
      var before := Have(sp, es[..|es| - 1]);
      var e := es[|es| - 1];
      if exists i :: Brings(sp, e, i) then
        var i :| Brings(sp, e, i);
        if before + {i} == All(sp) then {} else before + {i}
      else before
  }

  /**
   * What the run must grant the datagram: its fragments are its pieces, a control is free when the
   * first one arrives, a BigPacket is free, and it does not time out.
   */
  ghost predicate Grants(s: State, sp: Split, have: set<nat>, e: Event)
    requires WellSplit(sp)
  {
    match e
    case Arrival(f) =>
      f.key == sp.key ==>
        && (exists i :: IsPiece(sp, f, i)) && s.bigFree != []
        && (have == {} ==> FindOpen(s.controls).Some?)
    case Timeouts(overdue) => have != {} ==> Find(s.controls, sp.key).Some? && Find(s.controls, sp.key).value !in overdue
    case Returned(_) => true
  }

  ghost predicate GrantedRun(s: State, sp: Split, es: seq<Event>)
    requires WellSplit(sp)
  {
    es != [] ==>
      var before := es[..|es| - 1];
      GrantedRun(s, sp, before) && Grants(After(s, before), sp, Have(sp, before), es[|es| - 1])
  }

  /** Only one piece starts at a given offset. */
  lemma OnePiece(sp: Split, f: Fragment, i: nat, j: nat)
    requires WellSplit(sp) && IsPiece(sp, f, i) && IsPiece(sp, f, j)
    ensures i == j
  {
  }

  lemma PieceArrives(s: State, sp: Split, have: set<nat>, f: Fragment, i: nat)
    requires Inv(s) && WellSplit(sp) && Tracks(s, sp, have) && IsPiece(sp, f, i) && s.bigFree != []
    requires have == {} ==> FindOpen(s.controls).Some?
    ensures var (s', out) := ProcessFragment(s, f);
            if have + {i} == All(sp) then
              && out.Some? && out.value.data == sp.payload && out.value.key == sp.key
              && out.value.totalLength == |sp.payload| + IP_HEADER && Tracks(s', sp, {})
            else out == None && Tracks(s', sp, have + {i})
  {
    hide Tracks, IsPiece;
    TracksPart(s, sp, have);
    if have == {} {
      FirstPiece(s, sp, f, i);
      TracksPart(ProcessFragment(s, f).0, sp, {i});
      assert {} + {i} == {i};
    } else if i in have {
      RepeatedPiece(s, sp, have, f, i);
      assert have + {i} == have;
    } else {
      FurtherPiece(s, sp, have, f, i);
    }
  }

  lemma TracksPart(s: State, sp: Split, have: set<nat>)
    requires WellSplit(sp) && Tracks(s, sp, have)
    ensures have < All(sp)
  {
  }

  lemma {:induction false} AfterKeeps(s: State, es: seq<Event>)
    requires Inv(s)
    ensures Inv(After(s, es))
  {
    if es != [] {
      var m := After(s, es[..|es| - 1]);
      AfterKeeps(s, es[..|es| - 1]);
      match es[|es| - 1]
      case Arrival(f) => ProcessKeeps(m, f);
      case Timeouts(overdue) => PurgeKeeps(m, overdue, 0);
      case Returned(_) =>
    }
  }

  /** Along a run that grants the datagram what it needs, the table holds exactly the pieces that have arrived. */
  lemma {:induction false} RunTracks(s: State, sp: Split, es: seq<Event>)
    requires Inv(s) && WellSplit(sp) && Tracks(s, sp, {}) && GrantedRun(s, sp, es)
    ensures Tracks(After(s, es), sp, Have(sp, es))
  {
    hide Tracks, IsPiece, ProcessFragment, Inv;
    if es != [] {
      var before := es[..|es| - 1];
      var m := After(s, before);
      var have := Have(sp, before);
      var e := es[|es| - 1];
      RunTracks(s, sp, before);
      AfterKeeps(s, before);
      match e
      case Arrival(f) =>
        if f.key == sp.key {
          var i :| IsPiece(sp, f, i);
          forall j | Brings(sp, e, j) ensures j == i { OnePiece(sp, f, i, j); }
          assert Brings(sp, e, i);
          PieceArrives(m, sp, have, f, i);
        } else {
          NoPiece(sp, f);
          OtherFragment(m, sp, have, f);
        }
      case Timeouts(overdue) => OtherTimeout(m, sp, have, overdue);
      case Returned(slot) => SameTable(m, ReturnBig(m, slot), sp, have);
    }
  }

  lemma NoPiece(sp: Split, f: Fragment)
    requires WellSplit(sp) && f.key != sp.key
    ensures !exists i :: Brings(sp, Arrival(f), i)
  {
  }

  lemma SameTable(s: State, s': State, sp: Split, have: set<nat>)
    requires WellSplit(sp) && Tracks(s, sp, have) && s'.controls == s.controls
    ensures Tracks(s', sp, have)
  {
  }

  /**
   * Any split of a payload into 2 to 10 nonempty pieces, in any order, with duplicates, among any
   * other traffic: the datagram comes out exactly when its last missing piece arrives, and its data
   * and length field are those of the datagram that was split.
   */
  lemma ReassemblyExactly(s: State, sp: Split, es: seq<Event>)
    requires Inv(s) && WellSplit(sp) && Find(s.controls, sp.key).None? && es != [] && GrantedRun(s, sp, es)
    ensures var out := Output(s, es);
            var before := Have(sp, es[..|es| - 1]);
            && (out.Some? && out.value.key == sp.key <==>
                  exists i :: Brings(sp, es[|es| - 1], i) && before + {i} == All(sp))
            && (out.Some? && out.value.key == sp.key ==>
                  out.value.data == sp.payload && out.value.totalLength == |sp.payload| + IP_HEADER)
  {
    hide Tracks, IsPiece, ProcessFragment, Inv;
    var before := es[..|es| - 1];
    var m := After(s, before);
    var have := Have(sp, before);
    var e := es[|es| - 1];
    NothingYet(s, sp);
    RunTracks(s, sp, before);
    AfterKeeps(s, before);
    match e
    case Arrival(f) =>
      if f.key == sp.key {
        var i :| IsPiece(sp, f, i);
        forall j | Brings(sp, e, j) ensures j == i { OnePiece(sp, f, i, j); }
        assert Brings(sp, e, i);
        PieceArrives(m, sp, have, f, i);
      } else {
        NoPiece(sp, f);
        OtherFragment(m, sp, have, f);
      }
    case Timeouts(overdue) =>
    case Returned(slot) =>
  }

  lemma NothingYet(s: State, sp: Split)
    requires WellSplit(sp) && Find(s.controls, sp.key).None?
    ensures Tracks(s, sp, {})
  {
    assert 0 in All(sp);
  }
}
