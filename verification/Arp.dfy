/**
 * The ARP cache and its table of pending requests (code/TCPLIB/ARP.CPP, RFC 826): first over
 * values, with every run's invariant, then as the arrays and counters of the code.
 */
module ArpModel {
  import opened Machine

  /** ARP_MAX_ENTRIES, ARP_MAX_PENDING, ARP_RETRIES */
  const ENTRIES: nat := 5
  const PENDING: nat := 2
  const RETRIES: nat := 3

  datatype Rec = Rec(mac: nat, ip: U32, updated: nat)

  /** `attempts` is -1 for a slot not in use; `sends` records how many requests went out for it. */
  datatype Slot = Slot(target: U32, attempts: int, sends: nat)

  /** `latest` and `evicted` record what has been learned and what has been thrown out since. */
  datatype State = State(table: seq<Rec>, pending: seq<Slot>, pendingEntries: int,
                         latest: map<U32, nat>, evicted: set<U32>)

  function Initial(): State { State([], [Slot(0, -1, 0), Slot(0, -1, 0)], 0, map[], {}) }

  /** findEth */
  function FindEth(t: seq<Rec>, ip: U32): (i: Option<nat>)
    ensures i.Some? ==> i.value < |t| && t[i.value].ip == ip
    ensures i.None? ==> forall j :: 0 <= j < |t| ==> t[j].ip != ip
  {
    if t == [] then None
    else if t[0].ip == ip then Some(0)
    else match FindEth(t[1..], ip) case None => None case Some(i) => Some(i + 1)
  }

  /** The first of the entries that were updated least recently. */
  function Oldest(t: seq<Rec>): (i: nat)
    requires t != []
    ensures i < |t| && forall j :: 0 <= j < |t| ==> t[i].updated <= t[j].updated
    ensures forall j :: 0 <= j < i ==> t[i].updated < t[j].updated
  {
    if |t| == 1 then 0
    else
      var k := Oldest(t[..|t| - 1]);
      if t[|t| - 1].updated < t[k].updated then |t| - 1 else k
  }

  /** updateEntry */
  function UpdateEntry(s: State, i: nat, mac: nat, now: nat): State
    requires i < |s.table|
  {
    s.(table := s.table[i := s.table[i].(mac := mac, updated := now)],
       latest := s.latest[s.table[i].ip := mac])
  }

  /** updateOrAddCache */
  function Learn(s: State, mac: nat, ip: U32, now: nat): State {
    match FindEth(s.table, ip)
    case Some(i) => UpdateEntry(s, i, mac, now)
    case None =>
      var r := Rec(mac, ip, now);
      if |s.table| < ENTRIES then
        s.(table := s.table + [r], latest := s.latest[ip := mac], evicted := s.evicted - {ip})
      else
        var k := Oldest(s.table);
        s.(table := s.table[k := r], latest := s.latest[ip := mac], evicted := s.evicted + {s.table[k].ip} - {ip})
  }

  predicate Active(p: Slot) { p.attempts != -1 }

  /** The first active slot for `ip` at or after `i`. */
  function FindPending(ps: seq<Slot>, ip: U32): (i: Option<nat>)
    ensures i.Some? ==> i.value < |ps| && Active(ps[i.value]) && ps[i.value].target == ip
    ensures i.None? ==> forall j :: 0 <= j < |ps| && Active(ps[j]) ==> ps[j].target != ip
  {
    if ps == [] then None
    else if Active(ps[0]) && ps[0].target == ip then Some(0)
    else match FindPending(ps[1..], ip) case None => None case Some(i) => Some(i + 1)
  }

  function FindIdle(ps: seq<Slot>): (i: Option<nat>)
    ensures i.Some? ==> i.value < |ps| && !Active(ps[i.value])
    ensures i.None? ==> forall j :: 0 <= j < |ps| ==> Active(ps[j])
  {
    if ps == [] then None
    else if !Active(ps[0]) then Some(0)
    else match FindIdle(ps[1..]) case None => None case Some(i) => Some(i + 1)
  }

  /** An incoming request (operation 1). */
  function Request(s: State, senderMac: nat, senderIp: U32, targetIp: U32, me: U32, now: nat): State {
    if targetIp == me && senderIp != me then Learn(s, senderMac, senderIp, now) else s
  }

  function Release(s: State, i: nat): State
    requires i < |s.pending|
  {
    s.(pending := s.pending[i := s.pending[i].(attempts := -1)], pendingEntries := s.pendingEntries - 1)
  }

  function Touch(s: State, mac: nat, ip: U32, now: nat): State {
    match FindEth(s.table, ip) case None => s case Some(i) => UpdateEntry(s, i, mac, now)
  }

  /** An incoming reply (operation 2): only what we asked for is learned. */
  function Reply(s: State, senderMac: nat, senderIp: U32, targetMac: nat, targetIp: U32, me: U32, myMac: nat, now: nat): State {
    match FindPending(s.pending, senderIp)
    case None => s
    case Some(i) =>
      if senderIp == me && senderMac == myMac then s
      else Touch(Touch(Release(Learn(s, senderMac, senderIp, now), i), targetMac, targetIp, now), senderMac, senderIp, now)
  }

  /** driveArp2 from slot `i` on; `expired` says whose timers have run out. */
  function Drive(s: State, expired: set<nat>, i: nat): State
    requires i <= |s.pending|
    decreases |s.pending| - i
  {
    if i == |s.pending| then s
    else
      var p := s.pending[i];
      var s1 :=
        if !Active(p) then s
        else if p.attempts == RETRIES then Release(s, i)
        else if i in expired then s.(pending := s.pending[i := p.(attempts := p.attempts + 1, sends := p.sends + 1)])
        else s;
      Drive(s1, expired, i + 1)
  }

  /** sendArpRequest */
  function Ask(s: State, ip: U32): State {
    if FindPending(s.pending, ip).Some? || s.pendingEntries == PENDING then s
    else
      match FindIdle(s.pending)
      case None => s
      case Some(i) => s.(pending := s.pending[i := Slot(ip, 0, 1)], pendingEntries := s.pendingEntries + 1)
  }

  /** resolve: the address, or none with a request on its way. */
  function Resolve(s: State, ip: U32): (State, Option<nat>) {
    match FindEth(s.table, ip)
    case Some(i) => (s, Some(s.table[i].mac))
    case None => (Ask(s, ip), None)
  }

  // ---------------------------------------------------------------- invariant

  predicate UniqueIps(t: seq<Rec>) { forall i, j :: 0 <= i < j < |t| ==> t[i].ip != t[j].ip }

  predicate DistinctTargets(ps: seq<Slot>) {
    forall i, j :: 0 <= i < j < |ps| && Active(ps[i]) && Active(ps[j]) ==> ps[i].target != ps[j].target
  }

  /** At most RETRIES + 1 requests for a pending entry. */
  predicate SlotOk(p: Slot) { Active(p) ==> 0 <= p.attempts <= RETRIES && p.sends == p.attempts + 1 }

  function ActiveCount(ps: seq<Slot>): nat {
    if ps == [] then 0 else ActiveCount(ps[..|ps| - 1]) + (if Active(ps[|ps| - 1]) then 1 else 0)
  }

  /** The table holds what was learned last of every address that has not been thrown out. */
  ghost predicate Tracks(s: State) {
    && (forall i :: 0 <= i < |s.table| ==>
          s.table[i].ip in s.latest && s.table[i].ip !in s.evicted && s.latest[s.table[i].ip] == s.table[i].mac)
    && (forall ip :: ip in s.latest && ip !in s.evicted ==> FindEth(s.table, ip).Some?)
  }

  ghost predicate Inv(s: State) {
    && |s.table| <= ENTRIES && UniqueIps(s.table) && Tracks(s)
    && |s.pending| == PENDING && DistinctTargets(s.pending)
    && (forall i :: 0 <= i < |s.pending| ==> SlotOk(s.pending[i]))
    && s.pendingEntries == ActiveCount(s.pending)
  }

  lemma {:induction false} ActiveUpdate(ps: seq<Slot>, i: nat, p: Slot)
    requires i < |ps|
    ensures ActiveCount(ps[i := p]) == ActiveCount(ps) - (if Active(ps[i]) then 1 else 0) + (if Active(p) then 1 else 0)
  {
    var n := |ps| - 1;
    if i < n {
      ActiveUpdate(ps[..n], i, p);
      assert ps[i := p][..n] == ps[..n][i := p];
    } else {
      assert ps[i := p][..n] == ps[..n];
    }
  }

  lemma {:induction false} AllActive(ps: seq<Slot>)
    requires forall j :: 0 <= j < |ps| ==> Active(ps[j])
    ensures ActiveCount(ps) == |ps|
  {
    if ps != [] { AllActive(ps[..|ps| - 1]); }
  }

  lemma FoundAfter(t: seq<Rec>, t': seq<Rec>, gone: set<U32>)
    requires forall i :: 0 <= i < |t| && t[i].ip !in gone ==> exists j :: 0 <= j < |t'| && t'[j].ip == t[i].ip
    ensures forall ip :: FindEth(t, ip).Some? && ip !in gone ==> FindEth(t', ip).Some?
  {
  }

  lemma UpdateKeeps(s: State, i: nat, mac: nat, now: nat)
    requires Inv(s) && i < |s.table|
    ensures Inv(UpdateEntry(s, i, mac, now))
  {
    hide ActiveCount;
    var s' := UpdateEntry(s, i, mac, now);
    forall j | 0 <= j < |s.table| ensures s'.table[j].ip == s.table[j].ip { }
    FoundAfter(s.table, s'.table, {});
  }

  /** `t` with `r` at `k`, at its end or in place of another. */
  ghost predicate Placed(t: seq<Rec>, t': seq<Rec>, k: nat, r: Rec) {
    && k <= |t| && |t'| == (if k < |t| then |t| else |t| + 1)
    && t'[k] == r && forall i :: 0 <= i < |t| && i != k ==> t'[i] == t[i]
  }

  lemma PlacedUnique(t: seq<Rec>, t': seq<Rec>, k: nat, r: Rec)
    requires Placed(t, t', k, r) && UniqueIps(t) && FindEth(t, r.ip).None?
    ensures UniqueIps(t')
  {
  }

  lemma PlacedFinds(t: seq<Rec>, t': seq<Rec>, k: nat, r: Rec, ip: U32)
    requires Placed(t, t', k, r) && (ip == r.ip || (FindEth(t, ip).Some? && (k < |t| ==> t[k].ip != ip)))
    ensures FindEth(t', ip).Some?
  {
    if ip != r.ip {
      var i := FindEth(t, ip).value;
      assert t'[i] == t[i];
    }
  }

  lemma PlacedTracks(s: State, s': State, k: nat, r: Rec)
    requires Tracks(s) && UniqueIps(s.table) && FindEth(s.table, r.ip).None? && Placed(s.table, s'.table, k, r)
    requires s'.latest == s.latest[r.ip := r.mac]
    requires s'.evicted == s.evicted + (if k < |s.table| then {s.table[k].ip} else {}) - {r.ip}
    ensures Tracks(s')
  {
    hide FindEth;
    forall ip | ip in s'.latest && ip !in s'.evicted ensures FindEth(s'.table, ip).Some? {
      PlacedFinds(s.table, s'.table, k, r, ip);
    }
  }

  lemma LearnKeeps(s: State, mac: nat, ip: U32, now: nat)
    requires Inv(s)
    ensures Inv(Learn(s, mac, ip, now))
  {
    hide UpdateEntry, ActiveCount, DistinctTargets, Tracks, UniqueIps;
    var found := FindEth(s.table, ip);
    var s' := Learn(s, mac, ip, now);
    if found.Some? {
      UpdateKeeps(s, found.value, mac, now);
    } else {
      var k := if |s.table| < ENTRIES then |s.table| else Oldest(s.table);
      var r := Rec(mac, ip, now);
      assert Placed(s.table, s'.table, k, r);
      PlacedUnique(s.table, s'.table, k, r);
      PlacedTracks(s, s', k, r);
    }
  }

  lemma ReleaseKeeps(s: State, i: nat)
    requires Inv(s) && i < |s.pending| && Active(s.pending[i])
    ensures Inv(Release(s, i))
  {
    ActiveUpdate(s.pending, i, s.pending[i].(attempts := -1));
  }

  lemma TouchKeeps(s: State, mac: nat, ip: U32, now: nat)
    requires Inv(s)
    ensures Inv(Touch(s, mac, ip, now))
  {
    hide Inv, UpdateEntry;
    var found := FindEth(s.table, ip);
    if found.Some? { UpdateKeeps(s, found.value, mac, now); }
  }

  lemma LearnPending(s: State, mac: nat, ip: U32, now: nat)
    ensures Learn(s, mac, ip, now).pending == s.pending
  {
  }

  lemma ReplyKeeps(s: State, senderMac: nat, senderIp: U32, targetMac: nat, targetIp: U32, me: U32, myMac: nat, now: nat)
    requires Inv(s)
    ensures Inv(Reply(s, senderMac, senderIp, targetMac, targetIp, me, myMac, now))
  {
    hide Inv, Learn, Release, Touch;
    var found := FindPending(s.pending, senderIp);
    if found.Some? {
      var s1 := Learn(s, senderMac, senderIp, now);
      LearnKeeps(s, senderMac, senderIp, now);
      LearnPending(s, senderMac, senderIp, now);
      var s2 := Release(s1, found.value);
      ReleaseKeeps(s1, found.value);
      TouchKeeps(s2, targetMac, targetIp, now);
      TouchKeeps(Touch(s2, targetMac, targetIp, now), senderMac, senderIp, now);
    }
  }

  lemma {:induction false} DriveKeeps(s: State, expired: set<nat>, i: nat)
    requires Inv(s) && i <= |s.pending|
    ensures Inv(Drive(s, expired, i)) && Drive(s, expired, i).table == s.table
    decreases |s.pending| - i
  {
    if i < |s.pending| {
      var p := s.pending[i];
      if Active(p) {
        ReleaseKeeps(s, i);
        ActiveUpdate(s.pending, i, p.(attempts := p.attempts + 1, sends := p.sends + 1));
      }
      var s1 :=
        if !Active(p) then s
        else if p.attempts == RETRIES then Release(s, i)
        else if i in expired then s.(pending := s.pending[i := p.(attempts := p.attempts + 1, sends := p.sends + 1)])
        else s;
      DriveKeeps(s1, expired, i + 1);
    }
  }

  lemma AskKeeps(s: State, ip: U32)
    requires Inv(s)
    ensures Inv(Ask(s, ip))
    ensures FindPending(s.pending, ip).None? && s.pendingEntries < PENDING ==> FindIdle(s.pending).Some?
  {
    if FindIdle(s.pending).None? { AllActive(s.pending); }
    if FindIdle(s.pending).Some? { ActiveUpdate(s.pending, FindIdle(s.pending).value, Slot(ip, 0, 1)); }
  }

  // ---------------------------------------------------------------- runs

  datatype Event =
    | ARequest(senderMac: nat, senderIp: U32, targetIp: U32, now: nat)
    | AReply(senderMac: nat, senderIp: U32, targetMac: nat, targetIp: U32, now: nat)
    | ATick(expired: set<nat>)
    | AResolve(ip: U32)

  function Step(s: State, e: Event, me: U32, myMac: nat): State {
    match e
    case ARequest(m, ip, t, now) => Request(s, m, ip, t, me, now)
    case AReply(m, ip, tm, t, now) => Reply(s, m, ip, tm, t, me, myMac, now)
    case ATick(expired) => Drive(s, expired, 0)
    case AResolve(ip) => Resolve(s, ip).0
  }

  ghost function Run(es: seq<Event>, me: U32, myMac: nat): State {
    if es == [] then Initial() else Step(Run(es[..|es| - 1], me, myMac), es[|es| - 1], me, myMac)
  }

  lemma {:induction false} NoneActive(ps: seq<Slot>)
    ensures ActiveCount(ps) == 0 <==> forall j :: 0 <= j < |ps| ==> !Active(ps[j])
  {
    if ps != [] { NoneActive(ps[..|ps| - 1]); }
  }

  lemma InitialInv()
    ensures Inv(Initial())
  {
    NoneActive(Initial().pending);
  }

  /** driveArp skips driveArp2 while pendingEntries is zero: it then has nothing to do. */
  lemma {:induction false} IdleDrive(s: State, expired: set<nat>, i: nat)
    requires Inv(s) && s.pendingEntries == 0 && i <= |s.pending|
    ensures Drive(s, expired, i) == s
    decreases |s.pending| - i
  {
    NoneActive(s.pending);
    if i < |s.pending| { IdleDrive(s, expired, i + 1); }
  }

  lemma {:induction false} RunKeeps(es: seq<Event>, me: U32, myMac: nat)
    ensures Inv(Run(es, me, myMac))
  {
    if es == [] {
      InitialInv();
    } else {
      hide Inv;
      var s := Run(es[..|es| - 1], me, myMac);
      RunKeeps(es[..|es| - 1], me, myMac);
      match es[|es| - 1]
      case ARequest(m, ip, t, now) => LearnKeeps(s, m, ip, now);
      case AReply(m, ip, tm, t, now) => ReplyKeeps(s, m, ip, tm, t, me, myMac, now);
      case ATick(expired) => DriveKeeps(s, expired, 0);
      case AResolve(ip) => AskKeeps(s, ip);
    }
  }

  /**
   * In every run: addresses in the table are unique, pendingEntries counts the slots in use, their
   * targets are distinct, and no slot has sent more than RETRIES + 1 requests.
   */
  lemma ArpOnEveryRun(es: seq<Event>, me: U32, myMac: nat)
    ensures var s := Run(es, me, myMac);
            && UniqueIps(s.table) && |s.table| <= 5
            && s.pendingEntries == ActiveCount(s.pending) && DistinctTargets(s.pending)
            && forall i :: 0 <= i < |s.pending| && Active(s.pending[i]) ==> s.pending[i].sends <= 4
  {
    RunKeeps(es, me, myMac);
  }

  /** resolve answers exactly for the addresses learned and not thrown out since, with what was learned last. */
  lemma ResolvesLatest(es: seq<Event>, me: U32, myMac: nat, ip: U32)
    ensures var s := Run(es, me, myMac);
            Resolve(s, ip).1 == if ip in s.latest && ip !in s.evicted then Some(s.latest[ip]) else None
  {
    RunKeeps(es, me, myMac);
  }

  /** What a new address drives out is the entry updated least recently, and nothing else changes. */
  lemma EvictsOldest(s: State, mac: nat, ip: U32, now: nat)
    requires Inv(s) && FindEth(s.table, ip).None?
    ensures var s' := Learn(s, mac, ip, now);
            if |s.table| < 5 then s'.table == s.table + [Rec(mac, ip, now)]
            else exists k :: 0 <= k < |s.table| && s'.table == s.table[k := Rec(mac, ip, now)]
                             && forall j :: 0 <= j < |s.table| ==> s.table[k].updated <= s.table[j].updated
  {
    if |s.table| >= ENTRIES { var k := Oldest(s.table); }
  }

  /** Hearing from an address again saves its entry: a new address then drives out another one. */
  lemma UpdatedStays(s: State, mac: nat, ip: U32, t1: nat, mac': nat, ip': U32, t2: nat)
    requires Inv(s) && |s.table| > 1 && FindEth(s.table, ip).Some? && FindEth(s.table, ip').None?
    requires forall j :: 0 <= j < |s.table| ==> s.table[j].updated < t1
    ensures Resolve(Learn(Learn(s, mac, ip, t1), mac', ip', t2), ip).1 == Some(mac)
  {
    hide ActiveCount, Tracks;
    var i := FindEth(s.table, ip).value;
    var s1 := Learn(s, mac, ip, t1);
    SameFind(s.table, s1.table, ip);
    SameFind(s.table, s1.table, ip');
    var other := if i == 0 then 1 else 0;
    assert s1.table[other].updated < s1.table[i].updated;
    var s2 := Learn(s1, mac', ip', t2);
    assert s2.table[i] == s1.table[i];
    FoundAt(s2.table, i);
  }

  lemma {:induction false} FoundAt(t: seq<Rec>, i: nat)
    requires i < |t|
    ensures var k := FindEth(t, t[i].ip); k.Some? && k.value <= i
  {
    if i > 0 && t[0].ip != t[i].ip { FoundAt(t[1..], i - 1); }
  }

  // ---------------------------------------------------------------- requests and their answers

  /** A request for `ip` is under way in slot `i`. */
  predicate AskingIn(s: State, ip: U32, i: nat) { i < |s.pending| && s.pending[i].attempts != -1 && s.pending[i].target == ip }

  ghost predicate Asking(s: State, ip: U32) { exists i: nat :: AskingIn(s, ip, i) }

  lemma AskingFound(s: State, ip: U32)
    ensures Asking(s, ip) <==> FindPending(s.pending, ip).Some?
  {
    var found := FindPending(s.pending, ip);
    if found.Some? { assert AskingIn(s, ip, found.value); }
  }

  /** Exactly one request more than in `s` went out, the first for `ip`, in a slot that was idle. */
  ghost predicate Asked(s: State, s': State, ip: U32) {
    exists i: nat :: i < |s.pending| && s.pending[i].attempts == -1
                     && s' == s.(pending := s.pending[i := Slot(ip, 0, 1)], pendingEntries := s.pendingEntries + 1)
  }

  /**
   * In every run: when resolve has no answer a request is under way afterwards, or two others are.  If none
   * was and a slot was idle, exactly one goes out.
   */
  lemma ResolveAsks(es: seq<Event>, me: U32, myMac: nat, ip: U32)
    ensures var s := Run(es, me, myMac);
            var (s', mac) := Resolve(s, ip);
            && (mac.Some? ==> s' == s)
            && (mac.None? ==>
                  && (if !Asking(s, ip) && (exists i :: 0 <= i < |s.pending| && s.pending[i].attempts == -1)
                      then Asked(s, s', ip) else s' == s)
                  && (Asking(s', ip)
                      || (|s'.pending| == 2 && forall i :: 0 <= i < 2 ==>
                            s'.pending[i].attempts != -1 && s'.pending[i].target != ip)))
  {
    RunKeeps(es, me, myMac);
    AskAsks(Run(es, me, myMac), ip);
  }

  lemma AskAsks(s: State, ip: U32)
    requires Inv(s)
    ensures var s' := Ask(s, ip);
            && (if !Asking(s, ip) && (exists i :: 0 <= i < |s.pending| && s.pending[i].attempts == -1)
                then Asked(s, s', ip) else s' == s)
            && (Asking(s', ip)
                || (|s'.pending| == 2 && forall i :: 0 <= i < 2 ==>
                      s'.pending[i].attempts != -1 && s'.pending[i].target != ip))
  {
    hide FindEth, ActiveCount, UniqueIps, Tracks;
    AskingFound(s, ip);
    CountTwo(s.pending);
    if FindPending(s.pending, ip).None? && s.pendingEntries < 2 {
      AskKeeps(s, ip);
      var i := FindIdle(s.pending).value;
      assert AskingIn(Ask(s, ip), ip, i);
    }
  }

  lemma CountTwo(ps: seq<Slot>)
    requires |ps| == 2
    ensures ActiveCount(ps) == (if Active(ps[0]) then 1 else 0) + (if Active(ps[1]) then 1 else 0)
  {
    assert ps[..1][..0] == [] && ActiveCount(ps[..1][..0]) == 0;
  }

  /**
   * A reply from an address that was asked for makes resolve answer with its hardware address, and ends that
   * request and no other; a second reply then changes nothing.  A reply nobody asked for is not believed.
   */
  lemma ReplyAnswers(es: seq<Event>, me: U32, myMac: nat, mac: nat, ip: U32, targetMac: nat, targetIp: U32, now: nat)
    ensures var s := Run(es, me, myMac);
            var s' := Reply(s, mac, ip, targetMac, targetIp, me, myMac, now);
            if Asking(s, ip) && (ip != me || mac != myMac) then
              && Resolve(s', ip) == (s', Some(mac)) && !Asking(s', ip) && s'.pendingEntries == s.pendingEntries - 1
              && (forall other: U32 :: other != ip ==> (Asking(s', other) <==> Asking(s, other)))
              && (targetIp != ip && Resolve(s', targetIp).1.Some? ==> Resolve(s', targetIp).1 == Some(targetMac))
              && Reply(s', mac, ip, targetMac, targetIp, me, myMac, now) == s'
            else s' == s
  {
    RunKeeps(es, me, myMac);
    ReplyLearns(Run(es, me, myMac), me, myMac, mac, ip, targetMac, targetIp, now);
  }

  lemma ReplyLearns(s: State, me: U32, myMac: nat, mac: nat, ip: U32, targetMac: nat, targetIp: U32, now: nat)
    requires Inv(s)
    ensures var s' := Reply(s, mac, ip, targetMac, targetIp, me, myMac, now);
            if Asking(s, ip) && (ip != me || mac != myMac) then
              && Resolve(s', ip) == (s', Some(mac)) && !Asking(s', ip) && s'.pendingEntries == s.pendingEntries - 1
              && (forall other: U32 :: other != ip ==> (Asking(s', other) <==> Asking(s, other)))
              && (targetIp != ip && Resolve(s', targetIp).1.Some? ==> Resolve(s', targetIp).1 == Some(targetMac))
              && Reply(s', mac, ip, targetMac, targetIp, me, myMac, now) == s'
            else s' == s
  {
    hide Learn, Touch, ActiveCount;
    AskingFound(s, ip);
    if Asking(s, ip) && (ip != me || mac != myMac) {
      var s' := Reply(s, mac, ip, targetMac, targetIp, me, myMac, now);
      var i := FindPending(s.pending, ip).value;
      LearnPending(s, mac, ip, now);
      var s1 := Touch(Release(Learn(s, mac, ip, now), i), targetMac, targetIp, now);
      LearnFinds(s, mac, ip, now);
      TouchShape(Release(Learn(s, mac, ip, now), i), targetMac, targetIp, now);
      TouchShape(s1, mac, ip, now);
      TouchFinds(s1, mac, ip, now);
      if targetIp != ip { TargetTouched(Release(Learn(s, mac, ip, now), i), targetMac, targetIp, mac, ip, now); }
      Released(s, s', i);
      AskingFound(s', ip);
    }
  }

  lemma LearnFinds(s: State, mac: nat, ip: U32, now: nat)
    ensures var s' := Learn(s, mac, ip, now);
            FindEth(s'.table, ip).Some? && s'.pending == s.pending && s'.pendingEntries == s.pendingEntries
  {
    var found := FindEth(s.table, ip);
    var k := if found.Some? then found.value else if |s.table| < ENTRIES then |s.table| else Oldest(s.table);
    assert Learn(s, mac, ip, now).table[k].ip == ip;
  }

  /** Touching changes no address in the table. */
  lemma TouchShape(s: State, mac: nat, ip: U32, now: nat)
    ensures var s' := Touch(s, mac, ip, now);
            && s'.pending == s.pending && s'.pendingEntries == s.pendingEntries && |s'.table| == |s.table|
            && (forall k :: 0 <= k < |s.table| ==> s'.table[k].ip == s.table[k].ip)
            && (forall other: U32 :: FindEth(s'.table, other).Some? <==> FindEth(s.table, other).Some?)
  {
    var s' := Touch(s, mac, ip, now);
    forall other: U32 ensures FindEth(s'.table, other).Some? <==> FindEth(s.table, other).Some? {
      SameFind(s.table, s'.table, other);
    }
  }

  lemma {:induction false} SameFind(t: seq<Rec>, t': seq<Rec>, ip: U32)
    requires |t'| == |t| && forall k :: 0 <= k < |t| ==> t'[k].ip == t[k].ip
    ensures FindEth(t', ip) == FindEth(t, ip)
  {
    if t != [] { SameFind(t[1..], t'[1..], ip); }
  }

  lemma TouchFinds(s: State, mac: nat, ip: U32, now: nat)
    requires FindEth(s.table, ip).Some?
    ensures Resolve(Touch(s, mac, ip, now), ip) == (Touch(s, mac, ip, now), Some(mac))
  {
    var s' := Touch(s, mac, ip, now);
    SameFind(s.table, s'.table, ip);
  }

  lemma TargetTouched(s: State, targetMac: nat, targetIp: U32, mac: nat, ip: U32, now: nat)
    requires targetIp != ip
    ensures var s' := Touch(Touch(s, targetMac, targetIp, now), mac, ip, now);
            Resolve(s', targetIp).1.Some? ==> Resolve(s', targetIp).1 == Some(targetMac)
  {
    var s1 := Touch(s, targetMac, targetIp, now);
    var s' := Touch(s1, mac, ip, now);
    SameFind(s.table, s1.table, targetIp);
    SameFind(s1.table, s'.table, targetIp);
  }

  lemma Released(s: State, s': State, i: nat)
    requires Inv(s) && i < |s.pending| && Active(s.pending[i])
    requires s'.pending == s.pending[i := s.pending[i].(attempts := -1)]
    ensures !Asking(s', s.pending[i].target)
    ensures forall other: U32 :: other != s.pending[i].target ==> (Asking(s', other) <==> Asking(s, other))
  {
    hide ActiveCount, UniqueIps, Tracks;
    forall other: U32 | other != s.pending[i].target ensures Asking(s', other) <==> Asking(s, other) {
      if j: nat :| AskingIn(s, other, j) { assert AskingIn(s', other, j); }
      if j: nat :| AskingIn(s', other, j) { assert AskingIn(s, other, j); }
    }
  }

  // ---------------------------------------------------------------- repeated requests

  /** The clock drives each slot by itself: repeat when its timer ran out, give up when three repeats are not enough. */
  function Driven(p: Slot, late: bool): Slot {
    if p.attempts == -1 then p
    else if p.attempts == 3 then p.(attempts := -1)
    else if late then Slot(p.target, p.attempts + 1, p.sends + 1)
    else p
  }

  lemma {:induction false} DriveSlots(s: State, expired: set<nat>, i: nat)
    requires i <= |s.pending|
    ensures var s' := Drive(s, expired, i);
            && |s'.pending| == |s.pending| && s'.table == s.table
            && (forall j :: 0 <= j < i ==> s'.pending[j] == s.pending[j])
            && (forall j :: i <= j < |s.pending| ==> s'.pending[j] == Driven(s.pending[j], j in expired))
    decreases |s.pending| - i
  {
    if i < |s.pending| {
      var p := s.pending[i];
      var s1 :=
        if !Active(p) then s
        else if p.attempts == RETRIES then Release(s, i)
        else if i in expired then s.(pending := s.pending[i := p.(attempts := p.attempts + 1, sends := p.sends + 1)])
        else s;
      DriveSlots(s1, expired, i + 1);
    }
  }

  ghost function DriveAll(s: State, clocks: seq<set<nat>>): State {
    if clocks == [] then s else Drive(DriveAll(s, clocks[..|clocks| - 1]), clocks[|clocks| - 1], 0)
  }

  /**
   * A request that is never answered: with its timer run out at each call it is sent again at the first three,
   * four times in all, and given up at the fourth.
   */
  lemma {:induction false} FourRequests(s: State, i: nat, clocks: seq<set<nat>>)
    requires i < |s.pending| && s.pending[i].attempts == 0 && s.pending[i].sends == 1
    requires forall k :: 0 <= k < |clocks| ==> i in clocks[k]
    ensures var p := s.pending[i];
            var s' := DriveAll(s, clocks);
            && |s'.pending| == |s.pending|
            && (|clocks| <= 3 ==> s'.pending[i] == Slot(p.target, |clocks|, 1 + |clocks|))
            && (|clocks| > 3 ==> s'.pending[i] == Slot(p.target, -1, 4))
    decreases |clocks|
  {
    if clocks != [] {
      var n := |clocks| - 1;
      FourRequests(s, i, clocks[..n]);
      DriveSlots(DriveAll(s, clocks[..n]), clocks[n], 0);
    }
  }

  /** While its timer runs a request is left alone. */
  lemma NotYetRepeated(s: State, expired: set<nat>, i: nat)
    requires i < |s.pending| && i !in expired && s.pending[i].attempts != 3
    ensures |Drive(s, expired, 0).pending| == |s.pending| && Drive(s, expired, 0).pending[i] == s.pending[i]
  {
    DriveSlots(s, expired, 0);
  }

  /** A request for our address from somebody else teaches us his; no other request does. */
  lemma RequestTeaches(es: seq<Event>, me: U32, myMac: nat, mac: nat, ip: U32, targetIp: U32, now: nat)
    ensures var s := Run(es, me, myMac);
            var s' := Request(s, mac, ip, targetIp, me, now);
            if targetIp == me && ip != me then Resolve(s', ip) == (s', Some(mac)) else s' == s
  {
    RunKeeps(es, me, myMac);
    LearnResolves(Run(es, me, myMac), mac, ip, now);
  }

  lemma LearnResolves(s: State, mac: nat, ip: U32, now: nat)
    requires Inv(s)
    ensures Resolve(Learn(s, mac, ip, now), ip) == (Learn(s, mac, ip, now), Some(mac))
  {
    hide FindEth;
    LearnKeeps(s, mac, ip, now);
    LearnFinds(s, mac, ip, now);
    LearnLatest(s, mac, ip, now);
  }

  lemma LearnLatest(s: State, mac: nat, ip: U32, now: nat)
    requires Inv(s)
    ensures var s' := Learn(s, mac, ip, now); ip in s'.latest && s'.latest[ip] == mac
  {
  }
}

/** The cache and the pending table as arrays with counters. */
module ArpCaches {
  import opened Machine
  import opened ArpModel

  class ArpCache {
    const arpTable: array<Rec>
    var entries: nat
    const pending: array<Slot>
    var pendingEntries: int
    const myIp: U32
    const myMac: nat
    ghost var latest: map<U32, nat>
    ghost var evicted: set<U32>

    ghost predicate Valid()
      reads this
    {
      arpTable.Length == ENTRIES && entries <= ENTRIES && pending.Length == PENDING
    }

    ghost function Abs(): State
      reads this, arpTable, pending
      requires Valid()
    {
      State(arpTable[..entries], pending[..], pendingEntries, latest, evicted)
    }

    /** init, off a serial line. */
    constructor (myIp: U32, myMac: nat)
      ensures Valid() && Abs() == Initial() && fresh(arpTable) && fresh(pending)
    {
      this.myIp, this.myMac := myIp, myMac;
      arpTable := new Rec[ENTRIES];
      pending := new Slot[PENDING](_ => Slot(0, -1, 0));
      entries, pendingEntries, latest, evicted := 0, 0, map[], {};
      new;
      assert pending[..] == [Slot(0, -1, 0), Slot(0, -1, 0)];
    }

    method FindEth(ip: U32) returns (i: Option<nat>)
      requires Valid()
      ensures i == ArpModel.FindEth(arpTable[..entries], ip)
    {
      ghost var t := arpTable[..entries];
      assert t[0..] == t;
      for k := 0 to entries
        invariant ArpModel.FindEth(t, ip) == Later(ArpModel.FindEth(t[k..], ip), k)
      {
        assert t[k..][1..] == t[k + 1..];
        if arpTable[k].ip == ip { return Some(k); }
      }
      return None;
    }

    method UpdateEntry(i: nat, mac: nat, now: nat)
      requires Valid() && i < entries
      modifies this`latest, arpTable
      ensures Valid()
      ensures Abs() == ArpModel.UpdateEntry(old(Abs()), i, mac, now)
    {
      latest := latest[arpTable[i].ip := mac];
      arpTable[i] := arpTable[i].(mac := mac, updated := now);
    }

    /** The scan for the entry to throw out. */
    method FindOldest() returns (lowest: nat)
      requires Valid() && entries > 0
      ensures lowest == Oldest(arpTable[..entries])
    {
      lowest := 0;
      ghost var t := arpTable[..entries];
      var i := 1;
      while i < entries
        invariant 1 <= i <= entries && lowest == Oldest(t[..i])
      {
        assert t[..i + 1][..i] == t[..i];
        if arpTable[i].updated < arpTable[lowest].updated { lowest := i; }
        i := i + 1;
      }
      assert t[..i] == t;
    }

    method UpdateOrAddCache(mac: nat, ip: U32, now: nat)
      requires Valid()
      modifies this`entries, this`latest, this`evicted, arpTable
      ensures Valid()
      ensures Abs() == Learn(old(Abs()), mac, ip, now)
    {
      var rc := FindEth(ip);
      if rc.Some? {
        UpdateEntry(rc.value, mac, now);
        return;
      }
      var target;
      if entries < ENTRIES {
        target := entries;
        entries := entries + 1;
      } else {
        target := FindOldest();
        evicted := evicted + {arpTable[target].ip};
      }
      arpTable[target] := Rec(mac, ip, now);
      latest := latest[ip := mac];
      evicted := evicted - {ip};
    }

    /** processArp, operation 1; the reply itself is not modelled. */
    method ProcessRequest(senderMac: nat, senderIp: U32, targetIp: U32, now: nat)
      requires Valid()
      modifies this`entries, this`latest, this`evicted, arpTable
      ensures Valid()
      ensures Abs() == Request(old(Abs()), senderMac, senderIp, targetIp, myIp, now)
    {
      if targetIp == myIp && senderIp != myIp { UpdateOrAddCache(senderMac, senderIp, now); }
    }

    method TouchEntry(mac: nat, ip: U32, now: nat)
      requires Valid()
      modifies this`latest, arpTable
      ensures Valid()
      ensures Abs() == Touch(old(Abs()), mac, ip, now)
    {
      var rc := FindEth(ip);
      if rc.Some? { UpdateEntry(rc.value, mac, now); }
    }

    method FindActive(ip: U32) returns (i: Option<nat>)
      requires Valid()
      ensures i == FindPending(pending[..], ip)
    {
      ghost var ps := pending[..];
      assert ps[0..] == ps;
      for k := 0 to PENDING
        invariant FindPending(ps, ip) == Later(FindPending(ps[k..], ip), k)
      {
        assert ps[k..][1..] == ps[k + 1..];
        if pending[k].attempts != -1 && pending[k].target == ip { return Some(k); }
      }
      return None;
    }

    /** processArp, operation 2. */
    method ProcessReply(senderMac: nat, senderIp: U32, targetMac: nat, targetIp: U32, now: nat)
      requires Valid()
      modifies this`entries, this`latest, this`evicted, this`pendingEntries, arpTable, pending
      ensures Valid()
      ensures Abs() == Reply(old(Abs()), senderMac, senderIp, targetMac, targetIp, myIp, myMac, now)
    {
      hide Learn, Touch, FindPending;
      var i := FindActive(senderIp);
      if i.None? || (senderIp == myIp && senderMac == myMac) { return; }
      LearnPending(Abs(), senderMac, senderIp, now);
      UpdateOrAddCache(senderMac, senderIp, now);
      pending[i.value] := pending[i.value].(attempts := -1);
      pendingEntries := pendingEntries - 1;
      TouchEntry(targetMac, targetIp, now);
      TouchEntry(senderMac, senderIp, now);
    }

    /** driveArp2; `expired` is what the clock says about each slot. */
    method DriveArp(expired: set<nat>)
      requires Valid()
      modifies this`pendingEntries, pending
      ensures Valid()
      ensures Abs() == Drive(old(Abs()), expired, 0)
    {
      for i := 0 to PENDING
        invariant Valid()
        invariant Drive(Abs(), expired, i) == Drive(old(Abs()), expired, 0)
      {
        var p := pending[i];
        ghost var s := Abs();
        if p.attempts != -1 {
          if p.attempts == RETRIES {
            pending[i] := p.(attempts := -1);
            pendingEntries := pendingEntries - 1;
            assert Abs() == Release(s, i);
          } else if i in expired {
            pending[i] := p.(attempts := p.attempts + 1, sends := p.sends + 1);
            assert Abs() == s.(pending := s.pending[i := p.(attempts := p.attempts + 1, sends := p.sends + 1)]);
          }
        }
      }
    }

    /** sendArpRequest.  The slot it counts on is there in every reachable state. */
    method SendArpRequest(ip: U32)
      requires Valid() && Inv(Abs())
      modifies this`pendingEntries, pending
      ensures Valid()
      ensures Abs() == Ask(old(Abs()), ip)
    {
      var found := FindActive(ip);
      if found.Some? || pendingEntries == PENDING { return; }
      AskKeeps(Abs(), ip);
      CountBound(pending[..]);
      ghost var ps := pending[..];
      assert ps[0..] == ps;
      var i := 0;
      while i < PENDING
        invariant i <= PENDING && pending[..] == ps
        invariant FindIdle(ps) == Later(FindIdle(ps[i..]), i)
      {
        assert ps[i..][1..] == ps[i + 1..];
        if pending[i].attempts == -1 { break; }
        i := i + 1;
      }
      pending[i] := Slot(ip, 0, 1);
      pendingEntries := pendingEntries + 1;
    }

    method Resolve(ip: U32) returns (mac: Option<nat>)
      requires Valid() && Inv(Abs())
      modifies this`pendingEntries, pending
      ensures Valid()
      ensures (Abs(), mac) == ArpModel.Resolve(old(Abs()), ip)
    {
      var rc := FindEth(ip);
      if rc.Some? { return Some(arpTable[rc.value].mac); }
      SendArpRequest(ip);
      return None;
    }
  }

  function Later(i: Option<nat>, k: nat): Option<nat> {
    match i case None => None case Some(j) => Some(j + k)
  }

  lemma {:induction false} CountBound(ps: seq<Slot>)
    ensures ActiveCount(ps) <= |ps|
  {
    if ps != [] { CountBound(ps[..|ps| - 1]); }
  }
}
