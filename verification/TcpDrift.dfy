/**
 * A run from a fresh socket that reaches the state in which drivePackets skips queued work: one ack is
 * replaced per exchange with the peer, and the counter has drifted once around its sixteen bits.
 */
module TcpDrift {
  import opened Machine
  import opened TcpModel
  import opened TcpPool
  import opened TcpStream
  import opened TcpRuns
  import opened TcpExamples

  type Steps = seq<(Event, bool)>

  /** The socket, one pool buffer and no receive buffer, after the steps. */
  ghost function Now(es: Steps): (s: State)
    ensures PoolInv(s)
  {
    After(0, 1, 536, 0, es)
  }

  /** The clock only ever reached drivePackets2: before each Tick the gate was open. */
  ghost predicate GateHeeded(es: Steps)
    decreases |es|
  {
    es == [] ||
    (var before := es[..|es| - 1];
     GateHeeded(before) && (es[|es| - 1].0.Tick? ==> !GateSkips(Now(before).q)))
  }

  lemma Next(es: Steps, e: Event)
    ensures Now(es + [(e, true)]) == Step(Now(es), e, true)
    ensures GateHeeded(es + [(e, true)]) <==> GateHeeded(es) && (e.Tick? ==> !GateSkips(Now(es).q))
  {
    hide Places, Step, Connect, Fresh, GateSkips;
    FreshKeeps(0, 1, 536, 0);
    assert (es + [(e, true)])[..|es + [(e, true)]| - 1] == es;
  }

  // ---------------------------------------------------------------- one exchange

  /** Established, with `sent` bytes sent, `rcvd` received, and what else differs from step to step as parameters. */
  predicate Talking(s: State, sent: nat, rcvd: nat, window: U16,
                    free: seq<nat>, outgoing: seq<nat>, incoming: seq<Packet>, replaced: nat) {
    && sent < TWO16 && rcvd < TWO16
    && Named(s.q) && |s.q.bufs| == 2 && !s.q.bufs[0].pendingArp
    && s.t.phase == Established && s.t.seqNum == sent + 1 && s.t.ackNum == rcvd + 1
    && s.t.remoteWindow == window && s.t.maxEnqueue == 536 && !s.t.disableReads
    && s.q.free == free && s.q.outgoing == outgoing
    && !s.r.live && s.r.incoming == incoming && s.h.replaced == replaced
  }

  /** Nothing queued, nothing outstanding, after `n` exchanges. */
  predicate Calm(s: State, n: nat) {
    Talking(s, n, n, 1, [0], [], [], n) && s.t.oldest == n + 1 && s.q.sent == []
  }

  /** The peer's byte number `n`. */
  function Line(n: nat): Packet
    requires n < TWO16
  {
    Packet(0, Segment(n + 1, n + 1, ACK_BITS, 1, None, [7]))
  }

  lemma LineCredited(s: State, n: nat)
    requires Calm(s, n)
    ensures Calm(Credit(s, Line(n).seg), n)
  {
    hide Wrap16, Sent;
  }

  lemma AckQueued(s: State, n: nat)
    requires n + 1 < TWO16 && Talking(s, n, n + 1, 1, [0], [], [Line(n)], n)
    ensures var s' := EnqueueConnect(s);
            && Talking(s', n, n + 1, 1, [0], [1], [Line(n)], n) && s'.t == s.t && s'.q.sent == s.q.sent
            && s'.q.bufs[1].data == []
  {
    hide Wrap16;
  }

  lemma Hears(s: State, n: nat)
    requires Calm(s, n) && n + 1 < TWO16
    ensures var s' := Step(s, Arrive(Line(n)), true);
            && Talking(s', n, n + 1, 1, [0], [1], [Line(n)], n) && s'.t.oldest == n + 1 && s'.q.sent == []
            && s'.q.bufs[1].data == []
  {
    hide Wrap16, Credit, EnqueueConnect;
    LineCredited(s, n);
    var k := TakeData(Credit(s, Line(n).seg), Line(n));
    AckQueued(k.s, n);
  }

  lemma Reads(s: State, n: nat)
    requires n + 1 < TWO16 && Talking(s, n, n + 1, 1, [0], [1], [Line(n)], n)
    ensures var s' := Step(s, UserTake, true);
            && Talking(s', n, n + 1, 1, [0], [1], [], n) && s'.t == s.t && s'.q == s.q
  {
  }

  /** The answer replaces the ack that is still queued. */
  lemma Answers(s: State, n: nat)
    requires n + 1 < TWO16 && Talking(s, n, n + 1, 1, [0], [1], [], n) && s.t.oldest == n + 1 && s.q.sent == []
    requires s.q.bufs[1].data == []
    ensures var s' := Step(s, UserSend([8]), true);
            && Talking(s', n, n + 1, 1, [], [0], [], n + 1) && s'.t.oldest == n + 1 && s'.q.sent == []
            && s'.q.bufs[0].data == [8] && !s'.q.bufs[0].ackOnly
  {
    hide Wrap16;
    var data: seq<Byte> := [8];
    var s1 := SendTurn(s, data).0;
    assert data[..1] == data && data[1..] == [];
    assert SendLoop(s, data) == SendLoop(s1, []);
  }

  lemma AnswerGoes(s: State, n: nat)
    requires n + 1 < TWO16 && Talking(s, n, n + 1, 1, [], [0], [], n + 1) && s.t.oldest == n + 1 && s.q.sent == []
    requires s.q.bufs[0].data == [8] && !s.q.bufs[0].ackOnly
    ensures var s' := Step(s, Tick(false, false), true);
            && Talking(s', n + 1, n + 1, 0, [], [], [], n + 1) && s'.t.oldest == n + 1 && s'.q.sent == [0]
            && s'.q.bufs[0].last == n + 1
  {
    hide AdvertisedWindow, Wrap16, Step;
    LastOut(s);
  }

  lemma AnswerAcked(s: State, n: nat)
    requires n + 1 < TWO16 && Talking(s, n + 1, n + 1, 0, [], [], [], n + 1) && s.t.oldest == n + 1 && s.q.sent == [0]
    requires s.q.bufs[0].last == n + 1
    ensures Calm(Step(s, Arrive(Bare(n + 2, n + 2, false, 1)), true), n + 1)
  {
    hide Wrap16, EnqueueConnect, Sent;
    var p := Bare(n + 2, n + 2, false, 1);
    var s1 := Noted(s, p.seg);
    assert PopSent(s1).q.sent == [] && PopSent(s1).q.free == [0];
    assert RemoveSent(s1, n + 2) == RemoveSent(PopSent(s1), n + 2);
  }

  // ---------------------------------------------------------------- the run

  /** Our SYN, the SYN-ACK, our ack. */
  function Opened(): Steps {
    [(Tick(false, false), true), (Arrive(SynAck(1, None)), true), (Tick(false, false), true)]
  }

  /** The peer sends a byte, the user answers it before the ack goes out, and the peer acks the answer. */
  function Exchange(n: nat): Steps
    requires n + 1 < TWO16
  {
    [(Arrive(Line(n)), true), (UserTake, true), (UserSend([8]), true), (Tick(false, false), true),
     (Arrive(Bare(n + 2, n + 2, false, 1)), true)]
  }

  function Exchanges(n: nat): Steps
    requires n < TWO16
  {
    if n == 0 then Opened() else Exchanges(n - 1) + Exchange(n - 1)
  }

  /** The gate in terms of the queues. */
  lemma GateIs(s: State, replaced: nat)
    requires PoolInv(s) && s.h.replaced == replaced
    ensures GateSkips(s.q) <==> s.q.sent == [] && (|s.q.outgoing| + replaced) % TWO16 == 0
  {
    hide Places;
    GateIsSafe(s);
  }

  /** The reply of exchange `n` is queued and the ack it replaced counted. */
  lemma AnswerQueued(es: Steps, n: nat)
    requires n + 1 < TWO16 && Calm(Now(es), n) && GateHeeded(es)
    ensures var es' := es + Exchange(n)[..3];
            var s := Now(es');
            && GateHeeded(es') && Talking(s, n, n + 1, 1, [], [0], [], n + 1) && s.t.oldest == n + 1 && s.q.sent == []
            && s.q.bufs[0].data == [8] && !s.q.bufs[0].ackOnly
  {
    hide Now, Step, GateHeeded;
    var e1 := es + [(Arrive(Line(n)), true)];
    Next(es, Arrive(Line(n)));
    Hears(Now(es), n);
    Next(e1, UserTake);
    Reads(Now(e1), n);
    var e2 := e1 + [(UserTake, true)];
    Next(e2, UserSend([8]));
    Answers(Now(e2), n);
    assert es + Exchange(n)[..3] == e2 + [(UserSend([8]), true)];
  }

  lemma Exchanged(es: Steps, n: nat)
    requires n + 2 < TWO16 && Calm(Now(es), n) && GateHeeded(es)
    ensures Calm(Now(es + Exchange(n)), n + 1) && GateHeeded(es + Exchange(n))
  {
    hide Now, Step, GateHeeded, GateSkips, PoolInv;
    AnswerQueued(es, n);
    var e3 := es + Exchange(n)[..3];
    GateIs(Now(e3), n + 1);
    Next(e3, Tick(false, false));
    AnswerGoes(Now(e3), n);
    var e4 := e3 + [(Tick(false, false), true)];
    Next(e4, Arrive(Bare(n + 2, n + 2, false, 1)));
    AnswerAcked(Now(e4), n);
    assert es + Exchange(n) == e4 + [(Arrive(Bare(n + 2, n + 2, false, 1)), true)];
  }

  lemma {:induction false} Drifts(n: nat)
    requires n + 1 < TWO16
    ensures Calm(Now(Exchanges(n)), n) && GateHeeded(Exchanges(n))
  {
    hide Now, GateHeeded, Calm, Exchange;
    if n == 0 {
      CalmAtFirst();
    } else {
      Drifts(n - 1);
      Exchanged(Exchanges(n - 1), n - 1);
    }
  }

  /** No receive buffer, nothing received, the pool buffer clean. */
  predicate Clean(s: State) {
    && |s.q.bufs| == 2 && !s.q.bufs[0].pendingArp
    && !s.t.disableReads && !s.r.live && s.r.incoming == []
  }

  lemma SynGoesClean(s: State)
    requires At(s, 1, SynSent, 0, 0, 0, [1], []) && Clean(s)
    ensures Clean(Step(s, Tick(false, false), true))
  {
    hide AdvertisedWindow, Wrap16, Step;
    LastOut(s);
  }

  lemma ComesUpClean(s: State)
    requires At(s, 1, SynSent, 1, 0, 0, [], [1]) && s.q.bufs[1].last == 0 && Clean(s)
    ensures Clean(Step(s, Arrive(SynAck(1, None)), true))
  {
    hide Wrap16, Sent;
    assert PopSent(s).q.sent == [];
    assert RemoveSent(s, 1) == RemoveSent(PopSent(s), 1);
  }

  /** Our ack of the SYN-ACK goes out. */
  lemma AckGoes(s: State)
    requires At(s, 1, Established, 1, 1, 1, [1], []) && s.t.ackNum == 1 && s.q.free == [0] && s.t.maxEnqueue == 536
    requires Clean(s) && s.h.replaced == 0
    ensures Calm(Step(s, Tick(false, false), true), 0)
  {
    hide AdvertisedWindow, Wrap16, Step;
    LastOut(s);
  }

  lemma FirstClean()
    ensures GateHeeded([]) && Now([]) == Reached(1, [], 0) && Clean(Now([]))
  {
    hide Places, Wrap16;
    var es: Steps := [];
    assert es[..0] == es;
    FreshKeeps(0, 1, 536, 0);
  }

  lemma CalmAtFirst()
    ensures Calm(Now(Opened()), 0) && GateHeeded(Opened())
  {
    hide Now, Step, GateSkips, PoolInv, GateHeeded, Reached, Clean;
    var e1: Steps := [(Tick(false, false), true)];
    var e2 := e1 + [(Arrive(SynAck(1, None)), true)];
    assert [] + [(Tick(false, false), true)] == e1 && Opened() == e2 + [(Tick(false, false), true)];
    FirstClean();
    SynWaits(1, []);
    assert seq(1, i => i) == [0];
    GateIs(Now([]), 0);
    Next([], Tick(false, false));
    SynGoes(Now([]), 1);
    SynGoesClean(Now([]));
    Next(e1, Arrive(SynAck(1, None)));
    ComesUp(Now(e1), 1, 1, None);
    ComesUpClean(Now(e1));
    GateIs(Now(e2), 0);
    Next(e2, Tick(false, false));
    AckGoes(Now(e2));
  }

  /**
   * After 65534 exchanges the peer sends once more and the user answers: the answer is queued, nothing is
   * outstanding, and drivePackets skips it, although the gate was heeded all along.
   */
  lemma AnswerSkipped()
    ensures var es := Exchanges(TWO16 - 2) + Exchange(TWO16 - 2)[..3];
            var s := Now(es);
            && GateHeeded(es) && s.t.phase == Established && s.q.outgoing == [0] && s.q.sent == [] && Named(s.q)
            && |s.q.bufs| == 2 && s.q.bufs[0].data == [8] && s.t.remoteWindow == 1 && GateSkips(s.q)
  {
    hide Now, GateHeeded, GateSkips, PoolInv, Exchanges;
    Drifts(TWO16 - 2);
    AnswerQueued(Exchanges(TWO16 - 2), TWO16 - 2);
    GateIs(Now(Exchanges(TWO16 - 2) + Exchange(TWO16 - 2)[..3]), TWO16 - 1);
  }
}
