/**
 * DNS names (code/TCPLIB/DNS.CPP): the encoding loop of sendRequest and decodeName, which follows
 * compression pointers (RFC 1035, sections 3.1 and 4.1.4).
 */
module DnsName {
  import opened Machine
  import opened Memory

  /** DNS_MAX_NAME_LEN */
  const NAME_LEN: nat := 128
  /** Pointers count from the start of the header; `data` starts after it. */
  const HEADER: nat := 12
  const DOT: Byte := 0x2E
  const TOO_BIG: seq<Byte> := [0x21, 0x54, 0x4F, 0x4F, 0x5F, 0x42, 0x49, 0x47]

  type Label = l: seq<Byte> | 0 < |l| witness [0]

  predicate IsPointer(b: Byte) { b > 191 }

  /** The index in `data` that the pointer at `pos` means. */
  function Target(d: seq<Byte>, pos: nat): int
    requires pos + 1 < |d|
  {
    var lo: int, hi: int := d[pos + 1], d[pos];
    lo - HEADER + 256 * (hi % 64)
  }

  /** What RFC 1035 says the name at `pos` stands for: labels up to a zero byte, pointers followed. */
  ghost predicate Expands(d: seq<Byte>, pos: nat, ls: seq<Label>) {
    exists steps: nat :: ExpandsIn(d, pos, ls, steps)
  }

  /** In at most `steps` labels and pointers. */
  ghost predicate ExpandsIn(d: seq<Byte>, pos: nat, ls: seq<Label>, steps: nat)
    decreases steps
  {
    pos < |d| &&
    var n := d[pos];
    if n == 0 then ls == []
    else if steps == 0 then false
    else if IsPointer(n) then pos + 1 < |d| && 0 <= Target(d, pos) && ExpandsIn(d, Target(d, pos), ls, steps - 1)
    else ls != [] && pos + 1 + n <= |d| && ls[0] == d[pos + 1..pos + 1 + n] && ExpandsIn(d, pos + 1 + n, ls[1..], steps - 1)
  }

  /** The expansion, one label or pointer at a time. */
  lemma ExpandsStep(d: seq<Byte>, pos: nat, ls: seq<Label>)
    ensures Expands(d, pos, ls) <==>
              pos < |d| &&
              (var n := d[pos];
               if n == 0 then ls == []
               else if IsPointer(n) then pos + 1 < |d| && 0 <= Target(d, pos) && Expands(d, Target(d, pos), ls)
               else ls != [] && pos + 1 + n <= |d| && ls[0] == d[pos + 1..pos + 1 + n] && Expands(d, pos + 1 + n, ls[1..]))
  {
    if steps: nat :| ExpandsIn(d, pos, ls, steps) {
      if d[pos] != 0 {
        if IsPointer(d[pos]) {
          assert ExpandsIn(d, Target(d, pos), ls, steps - 1);
        } else {
          assert ExpandsIn(d, pos + 1 + d[pos], ls[1..], steps - 1);
        }
      }
    } else if pos < |d| {
      assert !ExpandsIn(d, pos, ls, 0);
      if d[pos] != 0 && IsPointer(d[pos]) {
        if pos + 1 < |d| && 0 <= Target(d, pos) {
          if m: nat :| ExpandsIn(d, Target(d, pos), ls, m) { assert ExpandsIn(d, pos, ls, m + 1); }
        }
      } else if d[pos] != 0 && ls != [] {
        var next, more := pos + 1 + d[pos], ls[1..];
        if m: nat :| ExpandsIn(d, next, more, m) {
          if next <= |d| && ls[0] == d[pos + 1..next] { assert ExpandsIn(d, pos, ls, m + 1); }
        }
      }
    }
  }

  /** A pointer to offset `o` of the message stands for the name there: the two bytes C0 + o / 256 and o % 256. */
  lemma PointerMeans(d: seq<Byte>, p: nat, o: nat, ls: seq<Label>)
    requires 12 <= o < 16384 && p + 1 < |d| && d[p] == 0xC0 + o / 256 && d[p + 1] == o % 256
    ensures Expands(d, p, ls) <==> Expands(d, o - 12, ls)
    ensures AfterName(d, p) == p + 2
  {
    hide Expands;
    ExpandsStep(d, p, ls);
    assert Target(d, p) == o - 12;
  }

  /** A pointer into the header stands for nothing. */
  lemma HeaderPointerMeans(d: seq<Byte>, p: nat, o: nat, ls: seq<Label>)
    requires o < 12 && p + 1 < |d| && d[p] == 0xC0 && d[p + 1] == o
    ensures !Expands(d, p, ls)
  {
    hide Expands;
    ExpandsStep(d, p, ls);
  }

  /** A length byte from 1 to 63, and as the code has it any up to 191, starts a label; zero ends the name. */
  lemma LabelMeans(d: seq<Byte>, p: nat, ls: seq<Label>)
    requires p < |d| && d[p] < 0xC0
    ensures d[p] == 0 ==> (Expands(d, p, ls) <==> ls == []) && AfterName(d, p) == p + 1
    ensures d[p] > 0 ==>
              var next := p + 1 + d[p];
              && (Expands(d, p, ls) <==> ls != [] && next <= |d| && ls[0] == d[p + 1..next] && Expands(d, next, ls[1..]))
              && AfterName(d, p) == AfterName(d, next)
  {
    hide Expands;
    ExpandsStep(d, p, ls);
  }

  // ---------------------------------------------------------------- the loop of decodeName, turn by turn

  /** Where the loop stands in the message, and how much of the buffer is left. */
  datatype Place = At(pos: nat, room: nat)

  /** The loop is over, it reads outside the message, or it goes on. */
  datatype Turn = Stop | Off | Go(next: Place)

  function TurnAt(d: seq<Byte>, at: Place): (t: Turn)
    ensures t.Go? ==> t.next.room <= at.room
  {
    if at.pos >= |d| then Off
    else
      var n := d[at.pos];
      if n == 0 then Stop
      else if IsPointer(n) then
        if at.pos + 1 < |d| && 0 <= Target(d, at.pos) then Go(At(Target(d, at.pos), at.room)) else Off
      else if n >= at.room then Stop
      else Go(At(at.pos + 1 + n, at.room - n - 1))
  }

  /** The place after `k` turns; it stays where it stops. */
  ghost function Reached(d: seq<Byte>, at: Place, k: nat): Place
    decreases k
  {
    if k == 0 then at
    else match TurnAt(d, at)
      case Go(next) => Reached(d, next, k - 1)
      case _ => at
  }

  ghost predicate EndsIn(d: seq<Byte>, at: Place, k: nat) { TurnAt(d, Reached(d, at, k)) == Stop }

  /** The loop ends, without reading outside the message. */
  ghost predicate Ends(d: seq<Byte>, at: Place) { exists k: nat :: EndsIn(d, at, k) }

  ghost predicate InsideAt(d: seq<Byte>, at: Place, k: nat) { TurnAt(d, Reached(d, at, k)) != Off }

  /** However far it gets, it reads only the message. */
  ghost predicate Inside(d: seq<Byte>, at: Place) { forall k: nat :: InsideAt(d, at, k) }

  predicate PointerAt(d: seq<Byte>, p: nat) { p + 1 < |d| && IsPointer(d[p]) }

  /** Pointers that only lead to each other. */
  ghost predicate PointerLoop(d: seq<Byte>, ring: set<nat>) {
    ring != {} && forall p :: p in ring ==> PointerAt(d, p) && Target(d, p) in ring
  }

  ghost predicate InLoop(d: seq<Byte>, at: Place, k: nat, ring: set<nat>) {
    PointerLoop(d, ring) && Reached(d, at, k).pos in ring
  }

  /** Some turn brings it to such pointers. */
  ghost predicate GoesRound(d: seq<Byte>, at: Place) { exists k: nat, ring: set<nat> :: InLoop(d, at, k, ring) }

  lemma {:induction false} ReachedNext(d: seq<Byte>, at: Place, k: nat)
    ensures var r := Reached(d, at, k);
            Reached(d, at, k + 1) == if TurnAt(d, r).Go? then TurnAt(d, r).next else r
    decreases k
  {
    if k > 0 && TurnAt(d, at).Go? { ReachedNext(d, TurnAt(d, at).next, k - 1); }
  }

  /** It never leaves the place where it stops. */
  lemma {:induction false} StaysStopped(d: seq<Byte>, at: Place, j: nat, k: nat)
    requires j <= k && !TurnAt(d, Reached(d, at, j)).Go?
    ensures Reached(d, at, k) == Reached(d, at, j)
    decreases k
  {
    if j < k {
      StaysStopped(d, at, j, k - 1);
      ReachedNext(d, at, k - 1);
    }
  }

  lemma {:induction false} ReachedThen(d: seq<Byte>, at: Place, j: nat, k: nat)
    ensures Reached(d, Reached(d, at, j), k) == Reached(d, at, j + k)
    decreases k
  {
    if k > 0 {
      ReachedThen(d, at, j, k - 1);
      ReachedNext(d, Reached(d, at, j), k - 1);
      ReachedNext(d, at, j + k - 1);
    }
  }

  /** In a loop of pointers every turn stays in it. */
  lemma {:induction false} StaysInLoop(d: seq<Byte>, at: Place, j: nat, k: nat, ring: set<nat>)
    requires j <= k && InLoop(d, at, j, ring)
    ensures InLoop(d, at, k, ring) && TurnAt(d, Reached(d, at, k)).Go?
    decreases k
  {
    if j < k {
      StaysInLoop(d, at, j, k - 1, ring);
      ReachedNext(d, at, k - 1);
    }
  }

  lemma {:induction false} RoomShrinks(d: seq<Byte>, at: Place, k: nat)
    ensures Reached(d, at, k).room <= at.room
    decreases k
  {
    if k > 0 && TurnAt(d, at).Go? { RoomShrinks(d, TurnAt(d, at).next, k - 1); }
  }

  /** The turn after `k` others takes buffer bytes: it copies a label. */
  ghost predicate TakesRoom(d: seq<Byte>, at: Place, k: nat) { Reached(d, at, k + 1).room < Reached(d, at, k).room }

  /** A loop that goes on for ever comes to a loop of pointers: labels use up the buffer. */
  lemma {:induction false} ForeverRound(d: seq<Byte>, at: Place)
    requires forall k: nat :: TurnAt(d, Reached(d, at, k)).Go?
    ensures GoesRound(d, at)
    decreases at.room
  {
    if j: nat :| TakesRoom(d, at, j) {
      var later := Reached(d, at, j + 1);
      RoomShrinks(d, at, j);
      forall k: nat ensures TurnAt(d, Reached(d, later, k)).Go? { ReachedThen(d, at, j + 1, k); }
      ForeverRound(d, later);
      var k: nat, ring: set<nat> :| InLoop(d, later, k, ring);
      ReachedThen(d, at, j + 1, k);
      assert InLoop(d, at, j + 1 + k, ring);
    } else {
      OnlyPointers(d, at);
    }
  }

  ghost predicate StandsAt(d: seq<Byte>, at: Place, k: nat, p: nat) { Reached(d, at, k).pos == p }

  ghost predicate Visits(d: seq<Byte>, at: Place, p: nat) { exists k: nat :: StandsAt(d, at, k, p) }

  /** Without labels the positions it stands at are such a loop. */
  lemma OnlyPointers(d: seq<Byte>, at: Place)
    requires forall k: nat :: TurnAt(d, Reached(d, at, k)).Go?
    requires forall k: nat :: !TakesRoom(d, at, k)
    ensures GoesRound(d, at)
  {
    var ring := set p | 0 <= p < |d| && Visits(d, at, p);
    assert TurnAt(d, Reached(d, at, 0)).Go?;
    assert StandsAt(d, at, 0, at.pos);
    forall p | p in ring ensures PointerAt(d, p) && Target(d, p) in ring {
      var k: nat :| StandsAt(d, at, k, p);
      ReachedNext(d, at, k);
      assert TurnAt(d, Reached(d, at, k)).Go? && !TakesRoom(d, at, k);
      assert TurnAt(d, Reached(d, at, k + 1)).Go?;
      assert StandsAt(d, at, k + 1, Target(d, p));
    }
    assert InLoop(d, at, 0, ring);
  }

  /**
   * The loop of decodeName ends if and only if it never reads outside the message and never comes to
   * pointers that only lead to each other.  A name given up as too long before it would come to such
   * pointers, or to the end of the message, ends.
   */
  lemma EndsIff(d: seq<Byte>, at: Place)
    ensures Ends(d, at) <==> Inside(d, at) && !GoesRound(d, at)
  {
    if n: nat :| EndsIn(d, at, n) {
      forall k: nat ensures InsideAt(d, at, k) {
        StaysStopped(d, at, n, if n < k then k else n);
        if k < n && !InsideAt(d, at, k) { StaysStopped(d, at, k, n); }
      }
      forall k: nat, ring: set<nat> ensures !InLoop(d, at, k, ring) {
        if InLoop(d, at, k, ring) {
          var m := if n < k then k else n;
          StaysInLoop(d, at, k, m, ring);
          StaysStopped(d, at, n, m);
        }
      }
    } else if Inside(d, at) {
      forall k: nat ensures TurnAt(d, Reached(d, at, k)).Go? {
        assert InsideAt(d, at, k) && !EndsIn(d, at, k);
      }
      ForeverRound(d, at);
    }
  }

  /** A pointer to itself: the loop never ends, though it never leaves the message. */
  lemma SelfPointer()
    ensures var d: seq<Byte> := [0xC0, 12]; Inside(d, At(0, NAME_LEN)) && !Ends(d, At(0, NAME_LEN))
  {
    var d: seq<Byte> := [0xC0, 12];
    var at := At(0, NAME_LEN);
    assert TurnAt(d, at) == Go(at);
    forall k: nat ensures Reached(d, at, k) == at { SelfPointerStays(k); }
    forall k: nat ensures InsideAt(d, at, k) && !EndsIn(d, at, k) { assert Reached(d, at, k) == at; }
  }

  lemma {:induction false} SelfPointerStays(k: nat)
    ensures var d: seq<Byte> := [0xC0, 12]; Reached(d, At(0, NAME_LEN), k) == At(0, NAME_LEN)
  {
    assert TurnAt([0xC0, 12], At(0, NAME_LEN)) == Go(At(0, NAME_LEN));
    if k > 0 { SelfPointerStays(k - 1); }
  }

  /** Two labels of 63 bytes, one of one byte, and a pointer to itself. */
  function LongThenRound(): seq<Byte> {
    [63] + seq(63, _ => 97) + [63] + seq(63, _ => 97) + [1, 97, 0xC0, 0x8E]
  }

  /** There the third label no longer fits, so the loop ends before it comes to the pointer. */
  lemma GivenUpBeforeLoop()
    ensures PointerLoop(LongThenRound(), {130}) && Ends(LongThenRound(), At(0, NAME_LEN))
  {
    var d := LongThenRound();
    assert Target(d, 130) == 130;
    assert TurnAt(d, At(0, 128)) == Go(At(64, 64));
    assert TurnAt(d, At(64, 64)) == Go(At(128, 0));
    assert Reached(d, At(64, 64), 1) == Reached(d, At(128, 0), 0) == At(128, 0);
    assert Reached(d, At(0, 128), 2) == Reached(d, At(64, 64), 1);
    assert EndsIn(d, At(0, 128), 2);
  }

  lemma {:induction false} LeastTurns(d: seq<Byte>, at: Place, k: nat) returns (n: nat)
    requires EndsIn(d, at, k)
    ensures EndsIn(d, at, n) && (n == 0 || !EndsIn(d, at, n - 1))
  {
    if k == 0 || !EndsIn(d, at, k - 1) { n := k; } else { n := LeastTurns(d, at, k - 1); }
  }

  /** Turns still to come. */
  ghost function Left(d: seq<Byte>, at: Place): (n: nat)
    requires Ends(d, at)
    ensures EndsIn(d, at, n) && (n == 0 || !EndsIn(d, at, n - 1))
  {
    assert exists n: nat :: EndsIn(d, at, n) && (n == 0 || !EndsIn(d, at, n - 1)) by {
      var k: nat :| EndsIn(d, at, k);
      var n := LeastTurns(d, at, k);
    }
    var n: nat :| EndsIn(d, at, n) && (n == 0 || !EndsIn(d, at, n - 1));
    n
  }

  lemma LeftFewer(d: seq<Byte>, at: Place)
    requires Ends(d, at)
    ensures at.pos < |d|
    ensures TurnAt(d, at) != Off
    ensures TurnAt(d, at).Go? ==>
              var next := TurnAt(d, at).next;
              Ends(d, next) && next.pos < |d| && Left(d, next) < Left(d, at)
  {
    EndsIff(d, at);
    assert InsideAt(d, at, 0);
    var n := Left(d, at);
    if TurnAt(d, at).Go? {
      var next := TurnAt(d, at).next;
      assert n > 0 by { assert Reached(d, at, 0) == at; }
      assert Reached(d, at, n) == Reached(d, next, n - 1);
      assert EndsIn(d, next, n - 1);
      var m := Left(d, next);
      if m >= n { StaysStopped(d, next, n - 1, m - 1); }
      EndsIff(d, next);
      assert InsideAt(d, next, 0);
    }
  }

  /** Buffer bytes for the labels, each followed by a dot or, in the end, by the terminator. */
  function Size(ls: seq<Label>): nat { if ls == [] then 0 else |ls[0]| + 1 + Size(ls[1..]) }

  /** The labels, each followed by a dot. */
  function Dotted(ls: seq<Label>): (s: seq<Byte>)
    ensures |s| == Size(ls)
  {
    if ls == [] then [] else ls[0] + [DOT] + Dotted(ls[1..])
  }

  /** The name as text: dots between the labels only. */
  function Text(ls: seq<Label>): seq<Byte> {
    if ls == [] then [] else Dotted(ls)[..Size(ls) - 1]
  }

  // ---------------------------------------------------------------- what the decoder walks through

  datatype Walked = Fit(labels: seq<Label>) | TooBig

  function Prefixed(l: Label, w: Walked): Walked { if w.Fit? then Fit([l] + w.labels) else TooBig }

  /** decodeName's loop with `room` bytes of the buffer left. */
  ghost function Walk(d: seq<Byte>, pos: nat, room: nat): Walked
    requires Ends(d, At(pos, room))
    decreases Left(d, At(pos, room))
  {
    LeftFewer(d, At(pos, room));
    var n := d[pos];
    if n == 0 then Fit([])
    else if IsPointer(n) then Walk(d, Target(d, pos), room)
    else if n >= room then TooBig
    else Prefixed(d[pos + 1..pos + 1 + n], Walk(d, pos + 1 + n, room - n - 1))
  }

  /** The walk finds exactly the expansion of RFC 1035, if that fits. */
  lemma {:induction false} WalkExpands(d: seq<Byte>, pos: nat, room: nat, ls: seq<Label>)
    requires Ends(d, At(pos, room))
    ensures Walk(d, pos, room) == Fit(ls) <==> Expands(d, pos, ls) && Size(ls) <= room
    decreases Left(d, At(pos, room))
  {
    LeftFewer(d, At(pos, room));
    ExpandsStep(d, pos, ls);
    var n := d[pos];
    if n == 0 {
    } else if IsPointer(n) {
      WalkExpands(d, Target(d, pos), room, ls);
    } else if n < room {
      var next := pos + 1 + n;
      var l: Label := d[pos + 1..next];
      if ls != [] {
        WalkExpands(d, next, room - n - 1, ls[1..]);
        if ls[0] == l { assert [l] + ls[1..] == ls; }
      }
    } else if ls != [] {
      assert Size(ls) >= |ls[0]| + 1;
    }
  }

  /** It gives up exactly if no expansion fits. */
  lemma WalkTooBig(d: seq<Byte>, pos: nat, room: nat)
    requires Ends(d, At(pos, room))
    ensures Walk(d, pos, room) == TooBig <==> !exists ls :: Expands(d, pos, ls) && Size(ls) <= room
  {
    var w := Walk(d, pos, room);
    if w.Fit? { WalkExpands(d, pos, room, w.labels); }
    forall ls | Expands(d, pos, ls) && Size(ls) <= room ensures w == Fit(ls) { WalkExpands(d, pos, room, ls); }
  }

  /** Where the name ends in the message: after its first pointer, or after its zero byte. */
  ghost function AfterName(d: seq<Byte>, pos: nat): nat
    decreases |d| - pos
  {
    if pos >= |d| then pos
    else if d[pos] == 0 then pos + 1
    else if IsPointer(d[pos]) then pos + 2
    else AfterName(d, pos + 1 + d[pos])
  }

  /** The cursor decodeName returns: it stops where it gives up. */
  ghost function Cursor(d: seq<Byte>, pos: nat, room: nat): nat
    decreases |d| - pos
  {
    if pos >= |d| then pos
    else if d[pos] == 0 then pos + 1
    else if IsPointer(d[pos]) then pos + 2
    else if d[pos] >= room then pos + 2
    else Cursor(d, pos + 1 + d[pos], room - d[pos] - 1)
  }

  /** When the name fits, decoding goes on after the name. */
  lemma {:induction false} FitCursor(d: seq<Byte>, pos: nat, room: nat)
    requires Ends(d, At(pos, room)) && Walk(d, pos, room).Fit?
    ensures Cursor(d, pos, room) == AfterName(d, pos)
    decreases |d| - pos
  {
    LeftFewer(d, At(pos, room));
    var n := d[pos];
    if n != 0 && !IsPointer(n) {
      FitCursor(d, pos + 1 + n, room - n - 1);
    }
  }

  // ---------------------------------------------------------------- the decoder

  /** What decodeName leaves in the buffer, up to and including the terminator. */
  function Decoded(w: Walked): seq<Byte> { if w.Fit? then Text(w.labels) + [0] else TOO_BIG + [0] }

  /** The labels stand one after the other from `pos` on. */
  predicate LabelsAt(d: seq<Byte>, pos: nat, ls: seq<Label>)
    decreases |ls|
  {
    ls == [] ||
    (var n := |ls[0]|;
     n < 0xC0 && pos + 1 + n <= |d| && d[pos] == n && d[pos + 1..pos + 1 + n] == ls[0] && LabelsAt(d, pos + 1 + n, ls[1..]))
  }

  /**
   * A name is given up at the first label that brings it to 128 bytes, and then the cursor does not stand
   * behind the name but one byte behind that label's length.
   */
  lemma {:induction false} CursorGivenUp(d: seq<Byte>, pos: nat, ls: seq<Label>, room: nat)
    requires LabelsAt(d, pos, ls) && Size(ls) <= room && Ends(d, At(pos, room))
    requires pos + Size(ls) < |d| && 0 < d[pos + Size(ls)] < 0xC0 && Size(ls) + d[pos + Size(ls)] >= room
    ensures Walk(d, pos, room) == TooBig && Cursor(d, pos, room) == pos + Size(ls) + 2
    decreases |ls|
  {
    hide Ends, Left, Target;
    LeftFewer(d, At(pos, room));
    if ls != [] { CursorGivenUp(d, pos + 1 + |ls[0]|, ls[1..], room - |ls[0]| - 1); }
  }

  lemma {:induction false} DottedSnoc(ls: seq<Label>, l: Label)
    ensures Dotted(ls + [l]) == Dotted(ls) + l + [DOT]
  {
    hide Dotted, Size;
    DottedFirst(ls + [l]);
    DottedFirst(ls);
    if ls == [] {
      assert ls + [l] == [l] && [l][1..] == [];
      DottedFirst([l][1..]);
    } else {
      assert (ls + [l])[1..] == ls[1..] + [l];
      DottedSnoc(ls[1..], l);
      FourParts(ls[0] + [DOT], Dotted(ls[1..]), l, [DOT]);
    }
  }

  lemma DottedFirst(ls: seq<Label>)
    ensures Dotted(ls) == if ls == [] then [] else ls[0] + [DOT] + Dotted(ls[1..])
  {
  }

  lemma FourParts(a: seq<Byte>, b: seq<Byte>, c: seq<Byte>, d: seq<Byte>)
    ensures a + (b + c + d) == a + b + c + d
  {
  }

  ghost function Append(before: seq<Label>, w: Walked): Walked { if w.Fit? then Fit(before + w.labels) else TooBig }

  /** One label more in front of what the walk finds after it. */
  lemma AppendStep(before: seq<Label>, l: Label, w: Walked)
    ensures Append(before, Prefixed(l, w)) == Append(before + [l], w)
  {
    if w.Fit? { assert before + ([l] + w.labels) == (before + [l]) + w.labels; }
  }

  lemma AppendNone(ls: seq<Label>)
    ensures Append(ls, Fit([])) == Fit(ls) && Append(ls, TooBig) == TooBig
    ensures forall w: Walked :: Append([], w) == w
    ensures Size([]) == 0 && Dotted([]) == [] && (ls == [] <==> Size(ls) == 0)
  {
    forall w: Walked ensures Append([], w) == w {
      if w.Fit? { assert [] + w.labels == w.labels; }
    }
    assert ls + [] == ls;
  }

  lemma DecodedIs(ls: seq<Label>)
    ensures Decoded(Fit(ls)) == Text(ls) + [0] && Decoded(TooBig) == TOO_BIG + [0]
    ensures |Text(ls)| == if ls == [] then 0 else Size(ls) - 1
  {
  }

  /** One turn of the loop, for the walk and for the cursor. */
  lemma WalkStep(d: seq<Byte>, pos: nat, room: nat)
    requires Ends(d, At(pos, room))
    ensures pos < |d|
    ensures d[pos] == 0 ==> Walk(d, pos, room) == Fit([]) && Cursor(d, pos, room) == pos + 1
    ensures d[pos] != 0 && IsPointer(d[pos]) ==>
              && pos + 1 < |d| && 0 <= Target(d, pos) < |d| && Ends(d, At(Target(d, pos), room))
              && Left(d, At(Target(d, pos), room)) < Left(d, At(pos, room))
              && Walk(d, pos, room) == Walk(d, Target(d, pos), room) && Cursor(d, pos, room) == pos + 2
    ensures d[pos] != 0 && !IsPointer(d[pos]) && d[pos] >= room ==>
              Walk(d, pos, room) == TooBig && Cursor(d, pos, room) == pos + 2
    ensures d[pos] != 0 && !IsPointer(d[pos]) && d[pos] < room ==>
              var next := pos + 1 + d[pos];
              && next < |d| && Ends(d, At(next, room - d[pos] - 1))
              && Left(d, At(next, room - d[pos] - 1)) < Left(d, At(pos, room))
              && Walk(d, pos, room) == Prefixed(d[pos + 1..next], Walk(d, next, room - d[pos] - 1))
              && Cursor(d, pos, room) == Cursor(d, next, room - d[pos] - 1)
  {
    LeftFewer(d, At(pos, room));
  }

  /** Copy a label and a dot into the buffer, which starts at `memory[1]` and holds `ls` so far. */
  method PutLabel(memory: array<Byte>, index: nat, l: seq<Byte>, ghost ls: seq<Label>)
    returns (index': nat, ghost ls': seq<Label>)
    requires l != [] && index + |l| + 1 < memory.Length && Size(ls) == index && memory[1..index + 1] == Dotted(ls)
    modifies memory
    ensures ls' == ls + [l] && index' == index + |l| + 1 && Size(ls') == index'
    ensures memory[0] == old(memory[0]) && memory[1..index' + 1] == Dotted(ls')
  {
    hide Dotted, Size;
    ghost var was := memory[..];
    DottedSnoc(ls, l);
    CopyIn(memory, index + 1, l);
    memory[index + 1 + |l|] := DOT;
    assert memory[1..index + 1] == was[1..index + 1];
    index' := index + |l|;
    index' := index' + 1;
    ls' := ls + [l];
    assert memory[1..index' + 1] == was[1..index + 1] + l + [DOT];
  }

  /** strcpy of the marker, which leaves the name unusable. */
  method PutTooBig(memory: array<Byte>)
    requires memory.Length == NAME_LEN + 1
    modifies memory
    ensures memory[0] == old(memory[0]) && memory[1..10] == TOO_BIG + [0]
  {
    CopyIn(memory, 1, TOO_BIG + [0]);
  }

  /**
   * decodeName.  `memory` is the byte before the caller's buffer and the buffer: the terminator goes one
   * place before the end of what was stored, so for a name that is nothing but pointers to a root byte
   * it goes before the buffer, which is left as it was.  What it needs is that its loop ends, which is
   * EndsIff's condition.
   */
  method DecodeName(d: seq<Byte>, start: nat, memory: array<Byte>) returns (cursor: nat)
    requires Inside(d, At(start, NAME_LEN)) && !GoesRound(d, At(start, NAME_LEN)) && memory.Length == NAME_LEN + 1
    modifies memory
    ensures Ends(d, At(start, NAME_LEN)) && start < |d|
    ensures var w := Walk(d, start, NAME_LEN);
            var out := Decoded(w);
            if d[start] != 0 && w == Fit([]) then memory[..] == [0] + old(memory[1..])
            else |out| <= NAME_LEN && memory[0] == old(memory[0]) && memory[1..|out| + 1] == out
    ensures cursor == Cursor(d, start, NAME_LEN)
  {
    hide IsPointer, Left, Expands, Ends, EndsIn, Inside, GoesRound, TurnAt, Target, Walk, Cursor;
    hide Decoded, Dotted, Size, Append, Prefixed, Text;
    EndsIff(d, At(start, NAME_LEN));
    ghost var goal := Walk(d, start, NAME_LEN);
    WalkStep(d, start, NAME_LEN);
    DecodedIs([]);
    if d[start] == 0 {
      memory[1] := 0;
      return start + 1;
    }
    ghost var ls: seq<Label> := [];
    var current, index := start, 0;
    var prePtr, ptrHit := start, false;
    AppendNone([]);
    while d[current] != 0
      invariant 0 <= index <= NAME_LEN && 0 <= current < |d| && Ends(d, At(current, NAME_LEN - index))
      invariant goal == Append(ls, Walk(d, current, NAME_LEN - index))
      invariant Size(ls) == index && memory[1..index + 1] == Dotted(ls) && memory[0] == old(memory[0])
      invariant ls == [] ==> memory[..] == old(memory[..])
      invariant if ptrHit then prePtr + 1 == Cursor(d, start, NAME_LEN)
                else Cursor(d, start, NAME_LEN) == Cursor(d, current, NAME_LEN - index)
      decreases Left(d, At(current, NAME_LEN - index))
    {
      WalkStep(d, current, NAME_LEN - index);
      AppendNone(ls);
      var nextLen := d[current];
      current := current + 1;
      if IsPointer(nextLen) {
        if !ptrHit { prePtr := current; }
        ptrHit := true;
        current := Target(d, current - 1);
        WalkStep(d, current, NAME_LEN - index);
        continue;
      }
      if index + nextLen >= NAME_LEN {
        PutTooBig(memory);
        index := 9;
        if ptrHit { current := prePtr; }
        current := current + 1;
        memory[index] := 0;
        return current;
      }
      AppendStep(ls, d[current..current + nextLen], Walk(d, current + nextLen, NAME_LEN - index - nextLen - 1));
      index, ls := PutLabel(memory, index, d[current..current + nextLen], ls);
      current := current + nextLen;
    }
    WalkStep(d, current, NAME_LEN - index);
    AppendNone(ls);
    DecodedIs(ls);
    if ptrHit { current := prePtr; }
    current := current + 1;
    ghost var full := memory[..];
    memory[index] := 0;
    if ls != [] { Terminated(full, memory[..], ls); }
    return current;
  }

  lemma Terminated(full: seq<Byte>, memory: seq<Byte>, ls: seq<Label>)
    requires ls != [] && 0 < Size(ls) < |full| && full[1..Size(ls) + 1] == Dotted(ls)
    requires memory == full[Size(ls) := 0]
    ensures memory[0] == full[0] && memory[1..Size(ls) + 1] == Text(ls) + [0] && |Text(ls)| == Size(ls) - 1
  {
    var n := Size(ls);
    assert memory[1..n] == full[1..n + 1][..n - 1];
    assert memory[1..n + 1] == memory[1..n] + [memory[n]];
  }

  /**
   * What decodeName leaves behind, in the terms of RFC 1035: the expanded name and the position after
   * it if the name fits the buffer, and otherwise the marker.
   */
  lemma DecodeMeansExpansion(d: seq<Byte>, start: nat)
    requires Ends(d, At(start, NAME_LEN))
    ensures forall ls :: Expands(d, start, ls) && Size(ls) <= 128 ==>
              Decoded(Walk(d, start, NAME_LEN)) == Text(ls) + [0] && Cursor(d, start, NAME_LEN) == AfterName(d, start)
    ensures (!exists ls :: Expands(d, start, ls) && Size(ls) <= 128) <==>
              Walk(d, start, NAME_LEN) == TooBig
    ensures Walk(d, start, NAME_LEN) == TooBig ==> Decoded(Walk(d, start, NAME_LEN)) == [0x21, 0x54, 0x4F, 0x4F, 0x5F, 0x42, 0x49, 0x47, 0]
  {
    WalkTooBig(d, start, NAME_LEN);
    forall ls | Expands(d, start, ls) && Size(ls) <= NAME_LEN
      ensures Decoded(Walk(d, start, NAME_LEN)) == Text(ls) + [0]
              && Cursor(d, start, NAME_LEN) == AfterName(d, start)
    {
      WalkExpands(d, start, NAME_LEN, ls);
      FitCursor(d, start, NAME_LEN);
    }
  }

  /** A name has one expansion. */
  lemma ExpansionUnique(d: seq<Byte>, pos: nat, a: seq<Label>, b: seq<Label>)
    requires Expands(d, pos, a) && Expands(d, pos, b)
    ensures a == b
  {
    var m: nat :| ExpandsIn(d, pos, a, m);
    var n: nat :| ExpandsIn(d, pos, b, n);
    SameExpansion(d, pos, a, m, b, n);
  }

  lemma {:induction false} SameExpansion(d: seq<Byte>, pos: nat, a: seq<Label>, m: nat, b: seq<Label>, n: nat)
    requires ExpandsIn(d, pos, a, m) && ExpandsIn(d, pos, b, n)
    ensures a == b
    decreases m
  {
    if d[pos] != 0 {
      if IsPointer(d[pos]) {
        SameExpansion(d, Target(d, pos), a, m - 1, b, n - 1);
      } else {
        SameExpansion(d, pos + 1 + d[pos], a[1..], m - 1, b[1..], n - 1);
        assert a == [a[0]] + a[1..] && b == [b[0]] + b[1..];
      }
    }
  }

  /** At `pos` is a chain of pointers, perhaps none, that ends at a zero byte. */
  ghost predicate LeadsToRoot(d: seq<Byte>, pos: nat, hops: nat)
    decreases hops
  {
    && pos < |d|
    && (d[pos] == 0 || (hops > 0 && PointerAt(d, pos) && 0 <= Target(d, pos) && LeadsToRoot(d, Target(d, pos), hops - 1)))
  }

  /** The case in which decodeName writes before the buffer: one or more pointers that lead to a root byte. */
  lemma RootByPointer(d: seq<Byte>, start: nat)
    requires Ends(d, At(start, NAME_LEN))
    ensures start < |d|
    ensures d[start] != 0 && Walk(d, start, NAME_LEN) == Fit([]) <==>
              d[start] != 0 && exists hops: nat :: LeadsToRoot(d, start, hops)
  {
    LeftFewer(d, At(start, NAME_LEN));
    WalkExpands(d, start, NAME_LEN, []);
    assert Size([]) == 0;
    if hops: nat :| LeadsToRoot(d, start, hops) { RootExpands(d, start, hops); }
    if steps: nat :| ExpandsIn(d, start, [], steps) { RootExpands(d, start, steps); }
  }

  lemma {:induction false} RootExpands(d: seq<Byte>, pos: nat, hops: nat)
    ensures LeadsToRoot(d, pos, hops) <==> ExpandsIn(d, pos, [], hops)
    decreases hops
  {
    if pos < |d| && d[pos] != 0 && hops > 0 && PointerAt(d, pos) && 0 <= Target(d, pos) {
      RootExpands(d, Target(d, pos), hops - 1);
    }
  }

  /** A three-byte message with such a name at position 1. */
  lemma RootByPointerExample()
    ensures var d: seq<Byte> := [0, 0xC0, 12];
            d[1] != 0 && Ends(d, At(1, NAME_LEN)) && Walk(d, 1, NAME_LEN) == Fit([])
  {
    var d: seq<Byte> := [0, 0xC0, 12];
    assert Target(d, 1) == 0;
    assert TurnAt(d, At(1, NAME_LEN)) == Go(At(0, NAME_LEN));
    assert Reached(d, At(1, NAME_LEN), 1) == Reached(d, At(0, NAME_LEN), 0);
    assert EndsIn(d, At(1, NAME_LEN), 1);
    assert LeadsToRoot(d, 0, 0);
    assert LeadsToRoot(d, 1, 1);
    RootByPointer(d, 1);
  }

  // ---------------------------------------------------------------- the encoder

  /** The parts of a dotted name. */
  function Parts(name: seq<Byte>): (ps: seq<seq<Byte>>)
    ensures |ps| > 0
  {
    if name == [] then [[]]
    else
      var n := |name| - 1;
      var before := Parts(name[..n]);
      if name[n] == DOT then before + [[]]
      else before[..|before| - 1] + [before[|before| - 1] + [name[n]]]
  }

  /** Each part with its length in front. */
  function Wire(parts: seq<seq<Byte>>): seq<Byte> {
    if parts == [] then [] else Wire(parts[..|parts| - 1]) + [|parts[|parts| - 1]| % 256] + parts[|parts| - 1]
  }

  lemma WireSnoc(parts: seq<seq<Byte>>, p: seq<Byte>)
    ensures Wire(parts + [p]) == Wire(parts) + [|p| % 256] + p
  {
    assert (parts + [p])[..|parts|] == parts;
  }

  /** The encoding loop of sendRequest: `lenByte` is where the length of the current part will go. */
  method EncodeName(name: seq<Byte>, data: array<Byte>) returns (end: nat)
    requires |name| < NAME_LEN - 1 && |name| + 2 <= data.Length
    modifies data
    ensures end == |name| + 2 && data[..end] == Wire(Parts(name)) + [0]
  {
    hide Wire, Parts, Encoding;
    var sublen: Byte := 0;
    var lenByte, target := 0, 1;
    assert name[..0] == [];
    FirstPart(data[0]);
    assert data[..1] == [data[0]];
    for index := 0 to |name|
      invariant target == index + 1 && lenByte + sublen + 1 == target && lenByte >= 0
      invariant Encoding(data[..target], lenByte, Parts(name[..index]))
    {
      ghost var before := Parts(name[..index]);
      ghost var was := data[..target];
      NextPart(name, index);
      LastPart(was, lenByte, before);
      if name[index] == DOT {
        data[lenByte] := sublen;
        ClosePart(was, lenByte, before);
        assert data[..target] == was[lenByte := sublen];
        lenByte := target;
        sublen := 0;
        OpenPart(data[..target], data[target], before);
        assert data[..target + 1] == data[..target] + [data[target]];
      } else {
        data[target] := name[index];
        sublen := sublen + 1;
        ExtendPart(was, lenByte, before, name[index]);
        assert data[..target + 1] == was + [name[index]];
      }
      target := target + 1;
    }
    assert name[..|name|] == name;
    ghost var was := data[..target];
    LastPart(was, lenByte, Parts(name));
    ClosePart(was, lenByte, Parts(name));
    data[lenByte] := sublen;
    assert data[..target] == was[lenByte := sublen];
    data[target] := 0;
    assert data[..target + 1] == was[lenByte := sublen] + [0];
    return target + 1;
  }

  lemma NextPart(name: seq<Byte>, index: nat)
    requires index < |name|
    ensures var before := Parts(name[..index]);
            var k := |before| - 1;
            Parts(name[..index + 1]) ==
              if name[index] == DOT then before + [[]] else before[..k] + [before[k] + [name[index]]]
  {
    assert name[..index + 1][..index] == name[..index];
  }

  lemma FirstPart(x: Byte)
    ensures Encoding([x], 0, Parts([]))
  {
    assert Parts([])[..0] == [];
  }

  lemma LastPart(bytes: seq<Byte>, lenByte: int, parts: seq<seq<Byte>>)
    requires Encoding(bytes, lenByte, parts)
    ensures |parts[|parts| - 1]| == |bytes| - lenByte - 1
  {
  }

  /** The bytes written so far: all parts but the last with their lengths, the last still without. */
  ghost predicate Encoding(bytes: seq<Byte>, lenByte: int, parts: seq<seq<Byte>>) {
    && parts != []
    && var k := |parts| - 1;
    && lenByte == |Wire(parts[..k])| && |bytes| == lenByte + 1 + |parts[k]|
    && bytes[..lenByte] == Wire(parts[..k]) && bytes[lenByte + 1..] == parts[k]
  }

  /** Filling in the length byte completes the last part. */
  lemma ClosePart(bytes: seq<Byte>, lenByte: nat, parts: seq<seq<Byte>>)
    requires Encoding(bytes, lenByte, parts) && |parts[|parts| - 1]| < 256
    ensures bytes[lenByte := |parts[|parts| - 1]|] == Wire(parts)
  {
    var k := |parts| - 1;
    assert parts == parts[..k] + [parts[k]];
    WireSnoc(parts[..k], parts[k]);
    var now := bytes[lenByte := |parts[k]|];
    assert now == now[..lenByte] + [now[lenByte]] + now[lenByte + 1..];
  }

  lemma OpenPart(bytes: seq<Byte>, x: Byte, parts: seq<seq<Byte>>)
    requires bytes == Wire(parts)
    ensures Encoding(bytes + [x], |bytes|, parts + [[]])
  {
    assert (parts + [[]])[..|parts|] == parts;
  }

  lemma ExtendPart(bytes: seq<Byte>, lenByte: nat, parts: seq<seq<Byte>>, b: Byte)
    requires Encoding(bytes, lenByte, parts)
    ensures var k := |parts| - 1; Encoding(bytes + [b], lenByte, parts[..k] + [parts[k] + [b]])
  {
    var k := |parts| - 1;
    var more := parts[..k] + [parts[k] + [b]];
    assert more[..k] == parts[..k];
  }

  // ---------------------------------------------------------------- encoding, then decoding

  /** A name the resolver accepts: parts that are not empty. */
  predicate WellFormed(name: seq<Byte>) {
    |name| < NAME_LEN - 1 && forall i :: 0 <= i < |Parts(name)| ==> Parts(name)[i] != []
  }

  /** The name at `at` is spelled out there: no pointer, and its zero byte is in the message. */
  ghost predicate Spelled(d: seq<Byte>, at: nat, ls: seq<Label>)
    decreases |ls|
  {
    at < |d| &&
    if ls == [] then d[at] == 0
    else d[at] == |ls[0]| <= 191 && at + 1 + |ls[0]| <= |d| && d[at + 1..at + 1 + |ls[0]|] == ls[0]
         && Spelled(d, at + 1 + |ls[0]|, ls[1..])
  }

  /** Decoding a spelled-out name reads it back and stops after its zero byte. */
  lemma {:induction false} SpelledExpands(d: seq<Byte>, at: nat, ls: seq<Label>)
    requires Spelled(d, at, ls)
    ensures Expands(d, at, ls) && AfterName(d, at) == at + Size(ls) + 1
    decreases |ls|
  {
    ExpandsStep(d, at, ls);
    if ls != [] { SpelledExpands(d, at + 1 + |ls[0]|, ls[1..]); }
  }

  /** Decoding a spelled-out name that fits takes one turn for each label. */
  lemma {:induction false} SpelledEnds(d: seq<Byte>, at: nat, ls: seq<Label>, room: nat)
    requires Spelled(d, at, ls) && Size(ls) <= room
    ensures EndsIn(d, At(at, room), |ls|)
    decreases |ls|
  {
    if ls != [] {
      var n := |ls[0]|;
      SpelledEnds(d, at + 1 + n, ls[1..], room - n - 1);
      assert TurnAt(d, At(at, room)) == Go(At(at + 1 + n, room - n - 1));
    }
  }

  lemma {:induction false} WireSpells(before: seq<Byte>, parts: seq<Label>, after: seq<Byte>)
    requires forall i :: 0 <= i < |parts| ==> |parts[i]| <= 191
    ensures Spelled(before + Wire(parts) + [0] + after, |before|, parts)
    decreases |parts|
  {
    if parts != [] {
      var l, more := parts[0], parts[1..];
      WireFirst(parts);
      SpellOne(before, l, Wire(more), after);
      WireSpells(before + [|l| % 256] + l, more, after);
    }
  }

  lemma SpellOne(before: seq<Byte>, l: Label, more: seq<Byte>, after: seq<Byte>)
    requires |l| <= 191
    ensures var d := before + ([|l| % 256] + l + more) + [0] + after;
            && d == (before + [|l| % 256] + l) + more + [0] + after
            && |before| + 1 + |l| <= |d| && d[|before|] == |l|
            && d[|before| + 1..|before| + 1 + |l|] == l
  {
    var d := before + ([|l| % 256] + l + more) + [0] + after;
    var head := before + [|l| % 256] + l;
    assert before + ([|l| % 256] + l + more) == head + more;
    assert d[..|head|] == head;
    assert head[|before|] == |l| && head[|before| + 1..] == l;
  }

  lemma {:induction false} WireConcat(a: seq<seq<Byte>>, b: seq<seq<Byte>>)
    ensures Wire(a + b) == Wire(a) + Wire(b)
  {
    hide Wire;
    if b == [] {
      assert a + b == a;
      WireNone();
    } else {
      var k := |b| - 1;
      WireConcat(a, b[..k]);
      assert a + b == (a + b[..k]) + [b[k]];
      assert b == b[..k] + [b[k]];
      WireSnoc(a + b[..k], b[k]);
      WireSnoc(b[..k], b[k]);
    }
  }

  lemma WireNone()
    ensures Wire([]) == []
  {
  }

  lemma WireFirst(parts: seq<seq<Byte>>)
    requires parts != []
    ensures Wire(parts) == [|parts[0]| % 256] + parts[0] + Wire(parts[1..])
  {
    var p := parts[0];
    assert parts == [p] + parts[1..] && [p] == [] + [p];
    WireConcat([p], parts[1..]);
    WireSnoc([], p);
  }

  /** Joining the parts with dots gives the name back. */
  lemma {:induction false} JoinedParts(name: seq<Byte>, ls: seq<Label>)
    requires Parts(name) == ls
    ensures Size(ls) == |name| + 1 && Dotted(ls) == name + [DOT]
  {
    JoinedGeneral(name);
    DottedIsJoin(ls);
  }

  /** The parts, each followed by a dot; parts may be empty. */
  function Join(parts: seq<seq<Byte>>): seq<Byte> {
    if parts == [] then [] else Join(parts[..|parts| - 1]) + parts[|parts| - 1] + [DOT]
  }

  lemma SameBefore(a: seq<Byte>, b: seq<Byte>, x: Byte)
    requires a + [x] == b + [x]
    ensures a == b
  {
    assert a == (a + [x])[..|a|] && b == (b + [x])[..|b|];
  }

  lemma JoinSnoc(ps: seq<seq<Byte>>, p: seq<Byte>)
    ensures Join(ps + [p]) == Join(ps) + p + [DOT]
  {
    assert (ps + [p])[..|ps|] == ps;
  }

  lemma {:induction false} JoinedGeneral(name: seq<Byte>)
    ensures Join(Parts(name)) == name + [DOT]
  {
    hide Join;
    if name == [] {
      JoinNone();
    } else {
      var n := |name| - 1;
      JoinedGeneral(name[..n]);
      var before := Parts(name[..n]);
      assert name == name[..n] + [name[n]];
      if name[n] == DOT {
        JoinSnoc(before, []);
      } else {
        var k := |before| - 1;
        assert before == before[..k] + [before[k]];
        JoinSnoc(before[..k], before[k]);
        SameBefore(Join(before[..k]) + before[k], name[..n], DOT);
        JoinSnoc(before[..k], before[k] + [name[n]]);
      }
    }
  }

  lemma JoinNone()
    ensures Join([[]]) == [DOT]
  {
    var one: seq<seq<Byte>> := [[]];
    assert one[..0] == [];
  }

  lemma {:induction false} DottedIsJoin(ls: seq<Label>)
    ensures Dotted(ls) == Join(ls)
    decreases |ls|
  {
    if ls != [] {
      var k := |ls| - 1;
      assert ls == ls[..k] + [ls[k]];
      DottedIsJoin(ls[..k]);
      DottedSnoc(ls[..k], ls[k]);
      JoinSnoc(ls[..k], ls[k]);
    }
  }

  lemma {:induction false} PartsShort(name: seq<Byte>)
    ensures forall i :: 0 <= i < |Parts(name)| ==> |Parts(name)[i]| <= |name|
  {
    if name != [] { PartsShort(name[..|name| - 1]); }
  }

  /** A spelled-out name that fits decodes to its text. */
  lemma SpelledDecodes(d: seq<Byte>, at: nat, ls: seq<Label>)
    requires Spelled(d, at, ls) && ls != [] && Size(ls) <= NAME_LEN
    ensures Ends(d, At(at, NAME_LEN)) && !Expands(d, at, [])
    ensures && Decoded(Walk(d, at, NAME_LEN)) == Text(ls) + [0]
            && Cursor(d, at, NAME_LEN) == at + Size(ls) + 1
  {
    SpelledExpands(d, at, ls);
    SpelledEnds(d, at, ls, NAME_LEN);
    if Expands(d, at, []) { ExpansionUnique(d, at, ls, []); }
    DecodeMeansExpansion(d, at);
  }

  /** A query's name, wherever it is put in a message, decodes to itself, and decoding ends right after it. */
  lemma EncodeDecode(name: seq<Byte>, before: seq<Byte>, after: seq<Byte>)
    requires WellFormed(name)
    ensures var d := before + (Wire(Parts(name)) + [0]) + after;
            var at := |before|;
            && Ends(d, At(at, NAME_LEN)) && !Expands(d, at, [])
            && Decoded(Walk(d, at, NAME_LEN)) == name + [0]
            && Cursor(d, at, NAME_LEN) == at + |name| + 2
  {
    hide Wire, Parts, Expands, Ends, Walk, Cursor, Spelled, Decoded;
    var ls: seq<Label> := Parts(name);
    PartsShort(name);
    EncodedSpelled(name, ls, before, after);
    SpelledDecodes(before + (Wire(ls) + [0]) + after, |before|, ls);
  }

  lemma EncodedSpelled(name: seq<Byte>, ls: seq<Label>, before: seq<Byte>, after: seq<Byte>)
    requires Parts(name) == ls && |name| < NAME_LEN - 1
    requires forall i :: 0 <= i < |ls| ==> |ls[i]| <= 191
    ensures Spelled(before + (Wire(ls) + [0]) + after, |before|, ls)
    ensures Text(ls) == name && Size(ls) == |name| + 1
  {
    hide Wire, Parts, Spelled, Dotted, Size;
    WireSpells(before, ls, after);
    assert before + (Wire(ls) + [0]) + after == before + Wire(ls) + [0] + after;
    JoinedParts(name, ls);
    assert (name + [DOT])[..|name|] == name;
  }
}
