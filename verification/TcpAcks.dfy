/**
 * When an acknowledgement removes exactly what it acknowledges.
 */
module TcpAcks {
  import opened Machine
  import opened TcpModel
  import opened TcpPool
  import opened TcpStream
  import opened TcpRuns

  /**
   * The ack test is the circular window test, except that with nothing outstanding
   * (oldest == seqNum) it accepts every number.
   */
  lemma AckTest(oldest: U32, seqNum: U32, ack: U32)
    ensures AckProper(oldest, seqNum, ack) <==> oldest == seqNum || Ahead(oldest, ack) <= Ahead(oldest, seqNum)
  {
  }

  /** The removal test is the circular order, except for a number that wrapped when the ack did not. */
  lemma RemovalTest(last: U32, ack: U32, oldest: U32)
    ensures Removable(last, ack, oldest) <==>
              Ahead(oldest, last) < Ahead(oldest, ack) || (last < oldest <= ack)
  {
  }

  /** How many packets at the head of `sent` are wholly acknowledged by `ack`. */
  ghost function Acked(bufs: seq<Buffer>, sent: seq<nat>, oldest: U32, ack: U32): (n: nat)
    requires forall i :: 0 <= i < |sent| ==> sent[i] < |bufs|
    ensures n <= |sent|
  {
    if sent == [] || Ahead(oldest, bufs[sent[0]].last) >= Ahead(oldest, ack) then 0
    else 1 + Acked(bufs, sent[1..], oldest, ack)
  }

  /** The first packet that is not wholly acknowledged has wrapped past zero and the ack has not. */
  ghost predicate Straddles(s: State, ack: U32)
    requires Named(s.q)
  {
    var k := Acked(s.q.bufs, s.q.sent, s.t.oldest, ack);
    k < |s.q.sent| && s.q.bufs[s.q.sent[k]].last < s.t.oldest <= ack
  }

  /** Distance from the start of the unremoved stream to the last byte of packet `i`. */
  lemma LastAhead(s: State, i: nat)
    requires StreamInv(s) && StreamPhase(s.t.phase) && i < |s.q.sent|
    ensures s.q.sent[i] != Conn(s.q)
    ensures var b := s.q.bufs[s.q.sent[i]];
            Ahead(s.t.oldest, b.last) == |Data(s.q.bufs, s.q.sent[..i])| + |b.data| - 1
  {
    hide Places, WireOk, OutOk, Data, Accounts, FinCountedPhase;
    assert SentOk(s, i);
    PrefixShort(s, i);
  }

  /** The packets on `sent` are far from filling the 32-bit circle. */
  lemma {:induction false} PrefixShort(s: State, i: nat)
    requires StreamInv(s) && StreamPhase(s.t.phase) && i <= |s.q.sent|
    ensures |Data(s.q.bufs, s.q.sent[..i])| <= i * TWO16
  {
    hide Places, WireOk, OutOk, Wrap32;
    if i > 0 {
      PrefixShort(s, i - 1);
      assert SentOk(s, i - 1);
      assert s.q.sent[..i][..i - 1] == s.q.sent[..i - 1];
    }
  }

  /** How many packets the loop of removeSentPackets takes off. */
  ghost function Removed(bufs: seq<Buffer>, sent: seq<nat>, oldest: U32, ack: U32): (n: nat)
    requires forall i :: 0 <= i < |sent| ==> sent[i] < |bufs|
    ensures n <= |sent|
  {
    if sent == [] || !Removable(bufs[sent[0]].last, ack, oldest) then 0
    else 1 + Removed(bufs, sent[1..], oldest, ack)
  }

  lemma {:induction false} RemoveSentPops(s: State, ack: U32)
    requires Named(s.q)
    ensures var n := Removed(s.q.bufs, s.q.sent, s.t.oldest, ack);
            && RemoveSent(s, ack).q.sent == s.q.sent[n..]
            && RemoveSent(s, ack).h.una == s.h.una + |Data(s.q.bufs, s.q.sent[..n])|
    decreases |s.q.sent|
  {
    hide Wrap32, Wrap16, Removable, Data;
    var n := Removed(s.q.bufs, s.q.sent, s.t.oldest, ack);
    if n == 0 {
      assert s.q.sent[..0] == [] && s.q.sent[0..] == s.q.sent;
      DataEmpty(s.q.bufs);
    } else {
      var s1 := PopSent(s);
      RemoveSentPops(s1, ack);
      var front := s.q.sent[..n];
      DataFirst(s.q.bufs, front);
      assert front[1..] == s.q.sent[1..][..n - 1];
      assert s.q.sent[1..][n - 1..] == s.q.sent[n..];
    }
  }

  lemma DataEmpty(bufs: seq<Buffer>)
    ensures Data(bufs, []) == []
  {
  }

  /** The loop takes off the acknowledged packets, and stops there exactly when nothing straddles. */
  lemma {:induction false} RemovedIsAcked(bufs: seq<Buffer>, sent: seq<nat>, oldest: U32, ack: U32)
    requires forall i :: 0 <= i < |sent| ==> sent[i] < |bufs|
    ensures var k := Acked(bufs, sent, oldest, ack);
            && Removed(bufs, sent, oldest, ack) >= k
            && (Removed(bufs, sent, oldest, ack) == k <==> !(k < |sent| && bufs[sent[k]].last < oldest <= ack))
    decreases |sent|
  {
    if sent != [] {
      RemovalTest(bufs[sent[0]].last, ack, oldest);
      RemovedIsAcked(bufs, sent[1..], oldest, ack);
    }
  }

  /** If every packet from the first on has wrapped, the loop never stops early. */
  lemma {:induction false} RemovesAll(bufs: seq<Buffer>, sent: seq<nat>, oldest: U32, ack: U32)
    requires forall i :: 0 <= i < |sent| ==> sent[i] < |bufs|
    requires forall i :: 0 <= i < |sent| ==> Removable(bufs[sent[i]].last, ack, oldest)
    ensures Removed(bufs, sent, oldest, ack) == |sent|
    decreases |sent|
  {
    if sent != [] { RemovesAll(bufs, sent[1..], oldest, ack); }
  }

  /** The acknowledged packets are those whose last byte lies before the ack. */
  lemma {:induction false} AckedMeans(bufs: seq<Buffer>, sent: seq<nat>, oldest: U32, ack: U32, i: nat)
    requires forall i :: 0 <= i < |sent| ==> sent[i] < |bufs|
    requires i < |sent| && i <= Acked(bufs, sent, oldest, ack)
    ensures i < Acked(bufs, sent, oldest, ack) <==> Ahead(oldest, bufs[sent[i]].last) < Ahead(oldest, ack)
    decreases |sent|
  {
    if i > 0 { AckedMeans(bufs, sent[1..], oldest, ack, i - 1); }
  }

  /** Ends of packets move forward along the queue. */
  lemma LastMoves(s: State, i: nat, j: nat)
    requires StreamInv(s) && StreamPhase(s.t.phase) && i <= j < |s.q.sent|
    ensures Ahead(s.t.oldest, s.q.bufs[s.q.sent[i]].last) <= Ahead(s.t.oldest, s.q.bufs[s.q.sent[j]].last)
  {
    hide PoolInv, PhaseOk, WireOk, Live, Data, Wrap32;
    LastAhead(s, i);
    LastAhead(s, j);
    if i < j {
      DataPrefix(s.q.bufs, s.q.sent[..j], i + 1);
      assert s.q.sent[..j][..i + 1] == s.q.sent[..i + 1];
      assert s.q.sent[..i + 1] == s.q.sent[..i] + [s.q.sent[i]];
      DataLast(s.q.bufs, s.q.sent[..i], s.q.sent[i]);
    }
  }

  /** With straddling, every later packet has wrapped too, so the queue is emptied. */
  lemma StraddleRemovesAll(s: State, ack: U32)
    requires StreamInv(s) && StreamPhase(s.t.phase) && Straddles(s, ack)
    ensures Removed(s.q.bufs, s.q.sent, s.t.oldest, ack) == |s.q.sent|
  {
    hide PoolInv, PhaseOk, WireOk, Live, Data;
    var bufs, sent, oldest := s.q.bufs, s.q.sent, s.t.oldest;
    var k := Acked(bufs, sent, oldest, ack);
    forall i | 0 <= i < |sent| ensures Removable(bufs[sent[i]].last, ack, oldest) {
      RemovalTest(bufs[sent[i]].last, ack, oldest);
      if i < k {
        AckedMeans(bufs, sent, oldest, ack, i);
      } else {
        LastMoves(s, k, i);
        Wrapped(oldest, bufs[sent[k]].last, bufs[sent[i]].last);
      }
    }
    RemovesAll(bufs, sent, oldest, ack);
  }

  lemma Wrapped(oldest: U32, a: U32, b: U32)
    requires a < oldest && Ahead(oldest, a) <= Ahead(oldest, b)
    ensures b < oldest
  {
  }

  /**
   * Removal is exact if and only if no unacknowledged packet straddles.  Then the packets removed
   * are the wholly acknowledged ones, no byte is dropped before it was acknowledged, and the
   * packet left at the head is not wholly acknowledged.  Otherwise the whole queue is dropped,
   * unacknowledged bytes included.
   */
  lemma AckRemovesExactly(s: State, ack: U32)
    requires StreamInv(s) && StreamPhase(s.t.phase)
    ensures var s' := RemoveSent(s, ack);
            var k := Acked(s.q.bufs, s.q.sent, s.t.oldest, ack);
            && (!Straddles(s, ack) <==> s'.q.sent == s.q.sent[k..])
            && (!Straddles(s, ack) <==> s'.h.una - s.h.una <= Ahead(s.t.oldest, ack))
            && (!Straddles(s, ack) && s'.q.sent != [] ==>
                  s'.h.una - s.h.una + |s.q.bufs[s'.q.sent[0]].data| > Ahead(s.t.oldest, ack))
            && (Straddles(s, ack) ==> s'.q.sent == [])
  {
    hide PoolInv, PhaseOk, WireOk, Live, Data, Removable, Wrap32, RemoveSent, Tidy, Acked, Removed;
    var bufs, sent, oldest := s.q.bufs, s.q.sent, s.t.oldest;
    var k := Acked(bufs, sent, oldest, ack);
    var n := Removed(bufs, sent, oldest, ack);
    RemoveSentPops(s, ack);
    RemovedIsAcked(bufs, sent, oldest, ack);
    if Straddles(s, ack) {
      StraddleRemovesAll(s, ack);
      AckedMeans(bufs, sent, oldest, ack, k);
      PrefixEnd(s, k);
      DataPrefix(bufs, sent, k + 1);
      assert sent[..n] == sent;
    } else {
      assert n == k;
      if k > 0 {
        AckedMeans(bufs, sent, oldest, ack, k - 1);
        PrefixEnd(s, k - 1);
      } else {
        DataEmpty(bufs);
      }
      if k < |sent| {
        AckedMeans(bufs, sent, oldest, ack, k);
        PrefixEnd(s, k);
        assert sent[k..][0] == sent[k];
        assert Data(bufs, sent[..k + 1]) == Data(bufs, sent[..k]) + bufs[sent[k]].data by {
          assert sent[..k + 1] == sent[..k] + [sent[k]];
          DataLast(bufs, sent[..k], sent[k]);
        }
      }
    }
  }

  /** Bytes up to and including packet `i`, measured on the sequence circle. */
  lemma PrefixEnd(s: State, i: nat)
    requires StreamInv(s) && StreamPhase(s.t.phase) && i < |s.q.sent|
    ensures |Data(s.q.bufs, s.q.sent[..i + 1])| == Ahead(s.t.oldest, s.q.bufs[s.q.sent[i]].last) + 1
  {
    hide PoolInv, PhaseOk, WireOk, Live, Data, Wrap32;
    LastAhead(s, i);
    assert s.q.sent[..i + 1] == s.q.sent[..i] + [s.q.sent[i]];
    DataLast(s.q.bufs, s.q.sent[..i], s.q.sent[i]);
  }

  lemma NoWrap(x: int, n: nat, e: nat, oldest: U32, seqNum: U32, last: U32)
    requires oldest == Wrap32(x) && seqNum == Wrap32(x + n) && oldest <= seqNum
    requires Ahead(oldest, last) == e < n < TWO32
    ensures last >= oldest
  {
  }

  /** A window that does not cross zero never straddles: the check a caller could make first. */
  lemma NoWrapNoStraddle(s: State, ack: U32)
    requires StreamInv(s) && StreamPhase(s.t.phase) && s.t.oldest <= s.t.seqNum
    ensures !Straddles(s, ack)
  {
    hide Places, WireOk, OutOk, SentOk, Data, Wrap32;
    var k := Acked(s.q.bufs, s.q.sent, s.t.oldest, ack);
    if k < |s.q.sent| {
      PrefixEnd(s, k);
      DataPrefix(s.q.bufs, s.q.sent, k + 1);
      PrefixShort(s, |s.q.sent|);
      assert s.q.sent[..|s.q.sent|] == s.q.sent;
      var last := s.q.bufs[s.q.sent[k]].last;
      NoWrap(Base(s.h) + s.h.una, |SentData(s.q)|, Ahead(s.t.oldest, last), s.t.oldest, s.t.seqNum, last);
    }
  }
}
