/**
 * The stream-to-line splitter of code/BOT/state.nas: bytes of received packets are appended to a
 * fixed buffer, and the buffer is dispatched at every line feed.
 */
module Lines {
  import opened Machine

  const LF: Byte := 0x0A
  /** lineBufferLen */
  const LINE: nat := 512

  /** What has been collected of the current line, and the lines dispatched so far. */
  datatype State = State(line: seq<Byte>, out: seq<seq<Byte>>)

  // ---------------------------------------------------------------- the splitter

  /** Bytes of `s` up to and including its first line feed. */
  function UptoLF(s: seq<Byte>): (n: nat)
    ensures n <= |s|
    ensures forall i :: 0 <= i < n - 1 ==> s[i] != LF
    ensures n > 0 && s[n - 1] != LF ==> n == |s|
    ensures s != [] ==> n > 0
  {
    if s == [] then 0 else if s[0] == LF then 1 else 1 + UptoLF(s[1..])
  }

  /**
   * One packet.  A full buffer skips to after the next line feed of this packet, or to its end, and
   * is then dispatched as it stands.
   */
  function Packet(s: State, p: seq<Byte>): State
    decreases |p|, |s.line|
  {
    if p == [] then s
    else if |s.line| >= LINE then Packet(State([], s.out + [s.line]), p[UptoLF(p)..])
    else
      var line := s.line + [p[0]];
      if p[0] == LF then Packet(State([], s.out + [line]), p[1..]) else Packet(State(line, s.out), p[1..])
  }

  function Packets(s: State, ps: seq<seq<Byte>>): State
    decreases |ps|
  {
    if ps == [] then s else Packets(Packet(s, ps[0]), ps[1..])
  }

  // ---------------------------------------------------------------- what a line is

  /** The lines of a stream, each with its line feed. */
  function Split(s: seq<Byte>): seq<seq<Byte>>
    decreases |s|
  {
    var n := UptoLF(s);
    if n == 0 || s[n - 1] != LF then [] else [s[..n]] + Split(s[n..])
  }

  /** What follows the last line feed. */
  function Tail(s: seq<Byte>): seq<Byte>
    decreases |s|
  {
    var n := UptoLF(s);
    if n == 0 || s[n - 1] != LF then s else Tail(s[n..])
  }

  function Concat(ps: seq<seq<Byte>>): seq<Byte> { if ps == [] then [] else ps[0] + Concat(ps[1..]) }

  predicate NoLF(s: seq<Byte>) { forall j :: 0 <= j < |s| ==> s[j] != LF }

  predicate IsLine(l: seq<Byte>) { l != [] && l[|l| - 1] == LF && NoLF(l[..|l| - 1]) }

  predicate AllLines(ls: seq<seq<Byte>>) { forall i :: 0 <= i < |ls| ==> IsLine(ls[i]) }

  predicate AllShort(ls: seq<seq<Byte>>) { forall i :: 0 <= i < |ls| ==> |ls[i]| <= 512 }

  /** Every line, and the unfinished one, fits the buffer. */
  predicate Fits(s: seq<Byte>) { AllShort(Split(s)) && |Tail(s)| <= 512 }

  lemma Cons<T>(x: T, xs: seq<T>)
    ensures ([x] + xs)[0] == x && ([x] + xs)[1..] == xs
  {
  }

  /** The lines and the unfinished line together are the stream, and only lines end in a line feed. */
  lemma {:induction false} SplitIsPartition(s: seq<Byte>)
    ensures Concat(Split(s)) + Tail(s) == s && AllLines(Split(s)) && NoLF(Tail(s))
    decreases |s|
  {
    hide Concat, AllLines, UptoLF, Split, Tail, IsLine, NoLF;
    SplitStep(s);
    var n := UptoLF(s);
    if n > 0 && s[n - 1] == LF {
      SplitIsPartition(s[n..]);
      OneMore(s[..n], Split(s[n..]), Tail(s[n..]));
      assert s[..n] + s[n..] == s;
    } else {
      NoMore();
      assert [] + s == s;
    }
  }

  lemma SplitStep(s: seq<Byte>)
    ensures var n := UptoLF(s);
            if n > 0 && s[n - 1] == LF then
              Split(s) == [s[..n]] + Split(s[n..]) && Tail(s) == Tail(s[n..]) && IsLine(s[..n])
            else Split(s) == [] && Tail(s) == s && NoLF(s)
  {
  }

  lemma OneMore(l: seq<Byte>, more: seq<seq<Byte>>, tail: seq<Byte>)
    requires IsLine(l) && AllLines(more)
    ensures AllLines([l] + more) && Concat([l] + more) + tail == l + (Concat(more) + tail)
  {
    Cons(l, more);
    assert l + Concat(more) + tail == l + (Concat(more) + tail);
    forall i | 0 <= i < |[l] + more| ensures IsLine(([l] + more)[i]) {
      assert i > 0 ==> ([l] + more)[i] == more[i - 1];
    }
  }

  lemma NoMore()
    ensures Concat([]) == [] && AllLines([])
  {
  }

  // ---------------------------------------------------------------- feeding the splitter

  lemma {:induction false} UptoPrefix(a: seq<Byte>, b: seq<Byte>)
    requires NoLF(a)
    ensures UptoLF(a + b) == |a| + UptoLF(b)
  {
    if a == [] {
      assert a + b == b;
    } else {
      assert (a + b)[1..] == a[1..] + b;
      UptoPrefix(a[1..], b);
    }
  }

  /** No line feed: no line. */
  lemma Unfinished(a: seq<Byte>)
    requires NoLF(a)
    ensures Split(a) == [] && Tail(a) == a
  {
  }

  /** The line feed after an unfinished line completes it. */
  lemma Finished(a: seq<Byte>, b: seq<Byte>)
    requires NoLF(a) && b != [] && b[0] == LF
    ensures Split(a + b) == [a + [LF]] + Split(b[1..]) && Tail(a + b) == Tail(b[1..])
  {
    UptoPrefix(a, b);
    var n := |a| + 1;
    assert UptoLF(b) == 1;
    assert (a + b)[..n] == a + [LF] && (a + b)[n..] == b[1..];
  }

  /** An unfinished line longer than the buffer cannot be part of a stream that fits. */
  lemma TooLong(a: seq<Byte>, b: seq<Byte>)
    requires NoLF(a) && Fits(a + b)
    ensures |a| <= LINE && (b != [] ==> |a| < LINE)
  {
    UptoPrefix(a, b);
    var n := UptoLF(a + b);
    if n > 0 && (a + b)[n - 1] == LF {
      Cons((a + b)[..n], Split((a + b)[n..]));
      assert |Split(a + b)[0]| == n <= LINE;
    }
  }

  lemma FitsRest(a: seq<Byte>, b: seq<Byte>)
    requires NoLF(a) && b != [] && b[0] == LF && Fits(a + b)
    ensures Fits(b[1..])
  {
    Finished(a, b);
    var more := Split(b[1..]);
    forall i | 0 <= i < |more| ensures |more[i]| <= LINE {
      assert Split(a + b)[i + 1] == more[i];
    }
  }

  /** One packet of a stream that fits: its lines are dispatched, and the unfinished one is kept. */
  lemma {:induction false} FeedPacket(s: State, p: seq<Byte>)
    requires NoLF(s.line) && Fits(s.line + p)
    ensures Packet(s, p) == State(Tail(s.line + p), s.out + Split(s.line + p))
    decreases |p|
  {
    hide UptoLF;
    if p == [] {
      assert s.line + p == s.line;
      Unfinished(s.line);
      assert s.out + [] == s.out;
    } else {
      TooLong(s.line, p);
      var line := s.line + [p[0]];
      if p[0] == LF {
        Finished(s.line, p);
        FitsRest(s.line, p);
        assert [] + p[1..] == p[1..];
        FeedPacket(State([], s.out + [line]), p[1..]);
        assert s.out + ([line] + Split(p[1..])) == s.out + [line] + Split(p[1..]);
      } else {
        assert line + p[1..] == s.line + p;
        FeedPacket(State(line, s.out), p[1..]);
      }
    }
  }

  /** Lines can be split off part by part. */
  lemma {:induction false} SplitConcat(a: seq<Byte>, b: seq<Byte>)
    ensures Split(a + b) == Split(a) + Split(Tail(a) + b) && Tail(a + b) == Tail(Tail(a) + b)
    decreases |a|
  {
    var n := UptoLF(a);
    if n > 0 && a[n - 1] == LF {
      var line, rest := a[..n - 1], a[n..];
      assert a == line + ([LF] + rest);
      assert a + b == line + ([LF] + (rest + b));
      Finished(line, [LF] + rest);
      Finished(line, [LF] + (rest + b));
      Cons(LF, rest);
      Cons(LF, rest + b);
      SplitConcat(rest, b);
      assert [line + [LF]] + (Split(rest) + Split(Tail(rest) + b)) == [line + [LF]] + Split(rest) + Split(Tail(rest) + b);
    } else {
      assert [] + Split(a + b) == Split(a + b);
    }
  }

  lemma FitsParts(a: seq<Byte>, b: seq<Byte>)
    requires Fits(a + b)
    ensures Fits(a) && Fits(Tail(a) + b)
  {
    SplitConcat(a, b);
    SplitIsPartition(a);
    var first, more := Split(a), Split(Tail(a) + b);
    forall i | 0 <= i < |first| ensures |first[i]| <= LINE { assert Split(a + b)[i] == first[i]; }
    forall i | 0 <= i < |more| ensures |more[i]| <= LINE { assert Split(a + b)[|first| + i] == more[i]; }
    TooLong(Tail(a), b);
  }

  lemma Assoc<T>(a: seq<T>, b: seq<T>, c: seq<T>)
    ensures a + (b + c) == a + b + c
  {
  }

  lemma {:induction false} FeedPackets(s: State, ps: seq<seq<Byte>>)
    requires NoLF(s.line) && Fits(s.line + Concat(ps))
    ensures Packets(s, ps) == State(Tail(s.line + Concat(ps)), s.out + Split(s.line + Concat(ps)))
    decreases |ps|
  {
    if ps == [] {
      NoMore();
      assert s.line + [] == s.line;
      Unfinished(s.line);
      assert s.out + [] == s.out;
    } else {
      hide Split, Tail, Fits, Packet, NoLF;
      var a, b := s.line + ps[0], Concat(ps[1..]);
      Assoc(s.line, ps[0], b);
      FitsParts(a, b);
      FeedPacket(s, ps[0]);
      SplitIsPartition(a);
      SplitConcat(a, b);
      FeedPackets(Packet(s, ps[0]), ps[1..]);
      Assoc(s.out, Split(a), Split(Tail(a) + b));
    }
  }

  /** Nothing the splitter holds or dispatches is longer than its buffer. */
  lemma {:induction false} PacketShort(s: State, p: seq<Byte>)
    requires AllShort(s.out) && |s.line| <= LINE
    ensures AllShort(Packet(s, p).out) && |Packet(s, p).line| <= LINE
    decreases |p|
  {
    if p == [] {
    } else if |s.line| >= LINE {
      PacketShort(State([], s.out + [s.line]), p[UptoLF(p)..]);
    } else {
      var line := s.line + [p[0]];
      if p[0] == LF { PacketShort(State([], s.out + [line]), p[1..]); } else { PacketShort(State(line, s.out), p[1..]); }
    }
  }

  lemma {:induction false} PacketsShort(s: State, ps: seq<seq<Byte>>)
    requires AllShort(s.out) && |s.line| <= LINE
    ensures AllShort(Packets(s, ps).out) && |Packets(s, ps).line| <= LINE
    decreases |ps|
  {
    if ps != [] {
      PacketShort(s, ps[0]);
      PacketsShort(Packet(s, ps[0]), ps[1..]);
    }
  }

  /**
   * However the stream is cut into packets, exactly its lines are dispatched and the unfinished line
   * stays in the buffer, if and only if every line, with its line feed, and the unfinished one are at
   * most 512 bytes long.
   */
  lemma ChunkingDoesNotMatter(ps: seq<seq<Byte>>)
    ensures Packets(State([], []), ps) == State(Tail(Concat(ps)), Split(Concat(ps))) <==> Fits(Concat(ps))
  {
    PacketsShort(State([], []), ps);
    if Fits(Concat(ps)) {
      assert [] + Concat(ps) == Concat(ps);
      FeedPackets(State([], []), ps);
      assert [] + Split(Concat(ps)) == Split(Concat(ps));
    }
  }

  // ---------------------------------------------------------------- one packet, piece by piece

  /** Bytes that complete no line wait in the buffer while there is room. */
  lemma {:induction false} Collects(s: State, a: seq<Byte>, b: seq<Byte>)
    requires (forall j :: 0 <= j < |a| ==> a[j] != 0x0A) && |s.line| + |a| <= 512
    ensures Packet(s, a + b) == Packet(State(s.line + a, s.out), b)
    decreases |a|
  {
    if a == [] {
      assert a + b == b && s.line + a == s.line;
    } else {
      assert (a + b)[1..] == a[1..] + b;
      Collects(State(s.line + [a[0]], s.out), a[1..], b);
      assert s.line + [a[0]] + a[1..] == s.line + a;
    }
  }

  /** A line feed dispatches what has been collected, with the line feed. */
  lemma Dispatches(s: State, b: seq<Byte>)
    requires |s.line| < 512
    ensures Packet(s, [0x0A] + b) == Packet(State([], s.out + [s.line + [0x0A]]), b)
  {
    assert ([0x0A] + b)[1..] == b;
  }

  /** A full buffer is dispatched as it is, and the rest of its line in this packet is dropped. */
  lemma DropsRest(s: State, a: seq<Byte>, b: seq<Byte>)
    requires |s.line| == 512 && forall j :: 0 <= j < |a| ==> a[j] != 0x0A
    ensures Packet(s, a + [0x0A] + b) == Packet(State([], s.out + [s.line]), b)
    ensures a != [] ==> Packet(s, a) == State([], s.out + [s.line])
  {
    UptoPrefix(a, [0x0A] + b);
    assert a + [0x0A] + b == a + ([0x0A] + b);
    assert (a + [0x0A] + b)[|a| + 1..] == b;
    UptoPrefix(a, []);
    assert a + [] == a && a[|a|..] == [];
  }

  // ---------------------------------------------------------------- the loop itself

  /** The line buffer with its two counters, and the lines handed to dispatchLine. */
  class Assembler {
    const lineBuffer: array<Byte>
    var di: nat
    var dx: nat
    ghost var dispatched: seq<seq<Byte>>

    ghost predicate Valid()
      reads this
    {
      lineBuffer.Length == LINE && di + dx == LINE
    }

    ghost function Abs(): State
      reads this, lineBuffer
      requires Valid()
    {
      State(lineBuffer[..di], dispatched)
    }

    constructor ()
      ensures Valid() && Abs() == State([], []) && fresh(lineBuffer)
    {
      lineBuffer := new Byte[LINE];
      di, dx := 0, LINE;
      dispatched := [];
    }

    /** stateDispatch */
    method Dispatch()
      requires Valid()
      modifies this
      ensures Valid() && Abs() == State([], old(Abs()).out + [old(Abs()).line])
    {
      var cx := LINE - dx;
      dispatched := dispatched + [lineBuffer[..cx]];
      di, dx := 0, LINE;
    }

    /** repne scasb: the bytes left after the first line feed, or none. */
    method Skip(p: seq<Byte>, si: nat) returns (at: nat)
      requires si < |p|
      ensures at == si + UptoLF(p[si..]) <= |p|
    {
      at := si;
      while true
        invariant si <= at < |p|
        invariant UptoLF(p[si..]) == at - si + UptoLF(p[at..])
        decreases |p| - at
      {
        assert p[at..][1..] == p[at + 1..];
        at := at + 1;
        if p[at - 1] == LF || at == |p| { break; }
      }
    }

    /** stateAppendLine and what it jumps to, over one packet. */
    method Append(p: seq<Byte>)
      requires Valid()
      modifies this, lineBuffer
      ensures Valid() && Abs() == Packet(old(Abs()), p)
    {
      var si := 0;
      assert p[0..] == p;
      while si < |p|
        invariant Valid() && si <= |p|
        invariant Packet(Abs(), p[si..]) == Packet(old(Abs()), p)
        decreases |p| - si
      {
        if dx == 0 {
          var next := Skip(p, si);
          assert p[si..][UptoLF(p[si..])..] == p[next..];
          si := next;
          Dispatch();
        } else {
          var al := p[si];
          assert p[si..][1..] == p[si + 1..];
          ghost var line := lineBuffer[..di];
          si := si + 1;
          lineBuffer[di] := al;
          di, dx := di + 1, dx - 1;
          assert lineBuffer[..di] == line + [al];
          if al == LF { Dispatch(); }
        }
      }
    }
  }
}
