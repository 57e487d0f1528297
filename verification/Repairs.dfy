/** What a receiver with a gap asks for, what a sender resends, and which packet size is found. */
module Repairs {
  import opened Bytes
  import opened Keys
  import opened Fragments
  import opened Buffers
  import opened TafnetNode
  import opened Session
  import opened Recovery
  import opened Schedules
  import Crc32
  import Detection

  // ------------------------------------------------------- asking for what is missing

  /** A's receiver holds fragments behind a gap. */
  predicate HasGap(s: Session) {
    s.a.recv.data != map[]
  }

  /** The step from `s` to `n` brought A the fragment it waited for. */
  predicate Advances(s: Session, n: Session) {
    n.a.recv.nextPop > s.a.recv.nextPop
  }

  /** After the step A has a gap, and may ask: it had not asked yet, or the step has brought it further. */
  predicate Asks(s: Session, n: Session) {
    HasGap(n) && (s.a.askEnabled || Advances(s, n))
  }

  lemma DrainAdvances(b: Buffer, assembly: bytes, pushed: seq<Fragment>, handed: seq<Message>)
    requires Waiting(b, pushed) && |pushed| + 1 < U32
    requires Join(pushed[..b.nextPop - 1]) == Parts(handed, assembly)
    ensures Drained(b, assembly).buffer.nextPop > b.nextPop <==> Ready(b)
  {
    if Ready(b) {
      var n, p := b.nextPop, b.data[b.nextPop];
      assert Tagged(pushed, n, p.action, p.buf);
      JoinNext(pushed, n);
      PoppedWaits(b, pushed);
      if p.action == MORE {
        DrainKeeps(Popped(b), assembly + p.buf, pushed, handed);
      } else {
        DrainKeeps(Popped(b), [], pushed, handed + [Message(p.action, assembly + p.buf)]);
      }
    }
  }

  lemma DeliveredFragment(s: Session, p: Packet, now: int)
    requires Inv(s) && EnabledAtA(s, Deliver(p, now)) && IsData(p.action)
    ensures var b := Inserted(s.a.recv, p.seqno, Payload(p.action, p.data, now));
      Ready(b) <==> Advances(s, NextAtA(s, Deliver(p, now)))
  {
    var b := Inserted(s.a.recv, p.seqno, Payload(p.action, p.data, now));
    assert Tagged(s.fromB.pushed, p.seqno, p.action, p.data);
    InsertingWaits(s.a.recv, p, now, s.fromB.pushed);
    DrainAdvances(b, s.a.assembly, s.fromB.pushed, s.fromB.handed);
  }

  /** How many numbers are missing before the first fragment held, up to ten. */
  function Wanted(e: Endpoint): nat
    requires e.recv.data != map[] && e.recv.nextPop <= Earliest(e.recv.data)
  {
    Min(10, Earliest(e.recv.data) - e.recv.nextPop)
  }

  /** What a receiver holds lies behind what it waits for. */
  lemma GapIsOpen(s: Session)
    requires Inv(s) && HasGap(s)
    ensures s.a.recv.nextPop < Earliest(s.a.recv.data) <= |s.fromB.pushed|
  {
    HeldIsPushed(Flip(s), Earliest(s.a.recv.data));
  }

  /** A fragment is acknowledged; then the first missing ones are asked for, once until there is progress or a timer. */
  lemma AsksExactly(s: Session, p: Packet, now: int)
    requires Inv(s) && EnabledAtA(s, Deliver(p, now)) && IsData(p.action)
    ensures var n := NextAtA(s, Deliver(p, now)); var sent := Received(s.a, p, s.limitA, now).sent;
      && n.toB == s.toB + Set(sent)
      && sent != [] && sent[0] == Packet(TCP_ACK, p.seqno, [])
      && (HasGap(n) ==> n.a.recv.nextPop < Earliest(n.a.recv.data))
      && RequestsFrom(sent[1..], n.a.recv.nextPop, if Asks(s, n) then Wanted(n.a) else 0)
      && n.a.askEnabled == ((s.a.askEnabled || Advances(s, n)) && !HasGap(n))
  {
    var n, r := NextAtA(s, Deliver(p, now)), OnData(s.a, p, now);
    DeliverKeeps(s, p, now);
    DeliveredFragment(s, p, now);
    if HasGap(n) {
      GapIsOpen(n);
      RequestsExactly(n.a.recv.nextPop, Earliest(n.a.recv.data), MAX_REQUESTS);
    }
    assert r.sent[1..] == if Asks(s, n) then Requests(n.a.recv.nextPop, Earliest(n.a.recv.data), MAX_REQUESTS) else [];
  }

  lemma RequestedWithin(sent: seq<Packet>, from: nat, n: nat, q: Packet)
    requires sent != [] && sent[0].action == TCP_ACK && RequestsFrom(sent[1..], from, n)
    requires q in sent && q.action == TCP_RESEND
    ensures from <= q.seqno < from + n
  {
    var i :| 0 <= i < |sent| && sent[i] == q;
    assert sent[1..][i - 1] == q;
  }

  /** What lies in the gap has not arrived, and so the sender still keeps it. */
  lemma GapIsKept(s: Session, k: nat)
    requires Inv(s) && HasGap(s) && s.a.recv.nextPop <= k < Earliest(s.a.recv.data)
    ensures !Arrived(s.a.recv, k) && k in s.b.send.data
  {
    GapIsOpen(s);
    assert Half(Flip(s)) && !Arrived(s.a.recv, k);
  }

  /** Nothing is asked for that has arrived, and all that is asked for the sender still keeps. */
  lemma AsksForMissing(s: Session, p: Packet, now: int, q: Packet)
    requires Inv(s) && EnabledAtA(s, Deliver(p, now)) && IsData(p.action)
    requires q in Received(s.a, p, s.limitA, now).sent && q.action == TCP_RESEND
    ensures var n := NextAtA(s, Deliver(p, now)); !Arrived(n.a.recv, q.seqno) && q.seqno in n.b.send.data
  {
    var n, sent := NextAtA(s, Deliver(p, now)), Received(s.a, p, s.limitA, now).sent;
    AsksExactly(s, p, now);
    RequestedWithin(sent, n.a.recv.nextPop, if Asks(s, n) then Wanted(n.a) else 0, q);
    DeliverKeeps(s, p, now);
    GapIsKept(n, q.seqno);
  }

  /** If it asks at all, the receiver asks for the fragment it waits for. */
  lemma AsksForAwaited(s: Session, p: Packet, now: int)
    requires Inv(s) && EnabledAtA(s, Deliver(p, now)) && IsData(p.action)
    requires Asks(s, NextAtA(s, Deliver(p, now)))
    ensures var n := NextAtA(s, Deliver(p, now)); Packet(TCP_RESEND, n.a.recv.nextPop, []) in n.toB
  {
    AsksExactly(s, p, now);
    var sent := Received(s.a, p, s.limitA, now).sent;
    assert sent[1..][0] in sent;
  }

  /** B's fragment number `k`, as it goes over the wire. */
  function Kept(s: Session, k: nat): Packet
    requires k in s.b.send.data
  {
    Packet(s.b.send.data[k].action, k, s.b.send.data[k].buf)
  }

  function RequestToB(k: nat): Step {
    Step(false, Deliver(Packet(TCP_RESEND, k, []), 0))
  }

  /** A request for a fragment that is kept puts it on the wire, and changes nothing else. */
  lemma RequestIsAnswered(s: Session, k: nat)
    requires Packet(TCP_RESEND, k, []) in s.toB && k in s.b.send.data
    ensures Enabled(s, RequestToB(k)) && Next(s, RequestToB(k)) == s.(toA := s.toA + {Kept(s, k)})
  {
    assert Set([Kept(s, k)]) == {Kept(s, k)};
    assert s.fromA.handed + [] == s.fromA.handed;
  }

  lemma DeliveryArrives(s: Session, p: Packet, now: int)
    requires Inv(s) && EnabledAtA(s, Deliver(p, now)) && IsData(p.action)
    ensures var n := NextAtA(s, Deliver(p, now)); Arrived(n.a.recv, p.seqno) && n.a.recv.nextPop >= s.a.recv.nextPop
  {
    var pushed := s.fromB.pushed;
    assert Tagged(pushed, p.seqno, p.action, p.data);
    var b := Inserted(s.a.recv, p.seqno, Payload(p.action, p.data, now));
    InsertingWaits(s.a.recv, p, now, pushed);
    DrainKeeps(b, s.a.assembly, pushed, s.fromB.handed);
  }

  lemma KeptIsData(s: Session, k: nat)
    requires Inv(s) && k in s.b.send.data
    ensures IsData(Kept(s, k).action)
  {
    assert Tagged(s.fromB.pushed, k, s.b.send.data[k].action, s.b.send.data[k].buf);
  }

  /** The steps by which a request and the fragment it asks for are delivered. */
  function Exchange(s: Session, k: nat): seq<Step>
    requires k in s.b.send.data
  {
    [RequestToB(k), Step(true, Deliver(Kept(s, k), 0))]
  }

  /** The fragment that the receiver waits for takes it on. */
  lemma AwaitedAdvances(s: Session, p: Packet, now: int)
    requires Inv(s) && EnabledAtA(s, Deliver(p, now)) && IsData(p.action) && p.seqno == s.a.recv.nextPop
    ensures Advances(s, NextAtA(s, Deliver(p, now)))
  {
    DeliveryArrives(s, p, now);
    DeliverKeeps(s, p, now);
  }

  lemma InTwo(s: Session, x: Step, y: Step)
    requires Enabled(s, x) && Enabled(Next(s, x), y) && x.event.Deliver? && y.event.Deliver?
    ensures CanRun(s, [x, y]) && Run(s, [x, y]) == Next(Next(s, x), y)
  {
    LeadsByOne(s, x);
    LeadsByOne(Next(s, x), y);
    LeadsOn(s, [x], Next(s, x), [y], Next(Next(s, x), y));
    assert [x] + [y] == [x, y];
  }

  lemma RequestGoesThrough(s: Session, k: nat) returns (t: Session)
    requires Inv(s) && Packet(TCP_RESEND, k, []) in s.toB && k in s.b.send.data
    ensures Enabled(s, RequestToB(k)) && t == Next(s, RequestToB(k)) && Inv(t) && t.a == s.a
    ensures EnabledAtA(t, Deliver(Kept(s, k), 0)) && IsData(Kept(s, k).action)
  {
    RequestIsAnswered(s, k);
    KeptIsData(s, k);
    NextKeeps(s, RequestToB(k));
    t := Next(s, RequestToB(k));
  }

  /** In any state a request for the awaited fragment, delivered and answered, takes the receiver on. */
  lemma RequestRepairs(s: Session)
    requires Inv(s) && Packet(TCP_RESEND, s.a.recv.nextPop, []) in s.toB && s.a.recv.nextPop in s.b.send.data
    ensures var k := s.a.recv.nextPop;
      CanRun(s, Exchange(s, k)) && Advances(s, Run(s, Exchange(s, k)))
  {
    var k := s.a.recv.nextPop;
    var t := RequestGoesThrough(s, k);
    AwaitedAdvances(t, Kept(s, k), 0);
    InTwo(s, RequestToB(k), Step(true, Deliver(Kept(s, k), 0)));
  }

  /** A delivery that leaves a gap and may ask: the request can be delivered and answered, and takes the receiver on. */
  lemma GapCloses(s: Session, p: Packet, now: int)
    requires Inv(s) && EnabledAtA(s, Deliver(p, now)) && IsData(p.action)
    requires Asks(s, NextAtA(s, Deliver(p, now)))
    ensures var n := NextAtA(s, Deliver(p, now)); var k := n.a.recv.nextPop;
      k in n.b.send.data && CanRun(n, Exchange(n, k)) && Advances(n, Run(n, Exchange(n, k)))
  {
    var n := NextAtA(s, Deliver(p, now));
    DeliverKeeps(s, p, now);
    AsksForAwaited(s, p, now);
    GapIsOpen(n);
    AwaitedIsKept(Flip(n));
    RequestRepairs(n);
  }

  /** The timer lets a receiver ask again: whatever fragment comes next, if a gap is left the awaited one is asked for. */
  lemma TimerAsksAgain(s: Session, p: Packet, now: int)
    requires Inv(s) && EnabledAtA(s, Deliver(p, now)) && IsData(p.action)
    ensures var n := NextAtA(NextAtA(s, Reenable), Deliver(p, now));
      HasGap(n) ==> Packet(TCP_RESEND, n.a.recv.nextPop, []) in n.toB
  {
    ReenableKeeps(s);
    var r := NextAtA(s, Reenable);
    if HasGap(NextAtA(r, Deliver(p, now))) {
      AsksForAwaited(r, p, now);
    }
  }

  // ------------------------------------------------------- resending what is overdue

  /** What `b` has and `a` had not was put in at time `now`, behind all that was there. */
  ghost predicate StampedSince(a: Buffer, b: Buffer, now: int) {
    forall k :: k in b.data ==> (k in a.data && b.data[k] == a.data[k]) || (k >= a.nextPush && b.data[k].timestamp == now)
  }

  lemma {:induction false} PushAllStamps(b: Buffer, action: byte, pieces: seq<bytes>, now: int)
    requires b.nextPush + |pieces| < U32
    ensures StampedSince(b, PushAll(b, action, pieces, now), now)
    decreases |pieces|
  {
    if pieces != [] {
      var one := Pushed(b, Payload(PieceAction(action, pieces), pieces[0], now));
      PushAllStamps(one, action, pieces[1..], now);
    }
  }

  /** A message's fragments are not resent before their timeout, counted from when they were first sent. */
  lemma NotResentEarly(s: Session, action: byte, data: bytes, now: int, later: int, timeout: int)
    requires Inv(s) && EnabledAtA(s, Forward(action, data, now)) && later < now + timeout
    ensures var n := NextAtA(s, Forward(action, data, now));
      forall p :: p in TimedOut(n.a, later, timeout).sent ==> p.seqno < s.a.send.nextPush
  {
    var n := NextAtA(s, Forward(action, data, now));
    var sent, ids := TimedOut(n.a, later, timeout).sent, Sorted(n.a.send.data.Keys);
    PushAllStamps(s.a.send, action, Pieces(s.a, data, s.limitA), now);
    ResentExactly(n.a.send.data, later, timeout, MAX_RESEND_AT_ONCE);
    forall p | p in sent
      ensures p.seqno < s.a.send.nextPush
    {
      var i :| 0 <= i < |sent| && sent[i] == p;
      assert Due(n.a.send.data[ids[i]], later, timeout);
      if ids[i] in s.a.send.data && n.a.send.data[ids[i]] == s.a.send.data[ids[i]] {
        assert Tagged(s.fromA.pushed, ids[i], s.a.send.data[ids[i]].action, s.a.send.data[ids[i]].buf);
      }
    }
  }

  // ------------------------------------------------------- the packet size that is found

  predicate IsProbing(action: byte) {
    action == PACKSIZE_TEST || action == PACKSIZE_ACK
  }

  ghost predicate NoProbing(sent: seq<Packet>) {
    forall p :: p in sent ==> !IsProbing(p.action)
  }

  /** A's probes are within its limit, the answers to them also within B's, and A's packet size has been answered. */
  ghost predicate HalfProbed(s: Session) {
    && (forall p :: p in s.toB && p.action == PACKSIZE_TEST ==> LOWER_LIMIT <= p.seqno <= s.limitA)
    && (forall p :: p in s.toA && p.action == PACKSIZE_ACK ==> LOWER_LIMIT <= p.seqno <= Min(s.limitA, s.limitB))
    && (s.a.packetSize == LOWER_LIMIT || Answered(s))
  }

  predicate Answered(s: Session) {
    exists p :: p in s.toA && p.action == PACKSIZE_ACK && p.seqno == s.a.packetSize
  }

  ghost predicate Probed(s: Session) {
    HalfProbed(s) && HalfProbed(Flip(s))
  }

  lemma DataIsNoProbing(e: Endpoint, p: Packet, now: int)
    ensures NoProbing(OnData(e, p, now).sent)
  {
    var d := Drained(Inserted(e.recv, p.seqno, Payload(p.action, p.data, now)), e.assembly);
    if d.buffer.data != map[] {
      RequestsAreRequests(d.buffer.nextPop, Earliest(d.buffer.data), MAX_REQUESTS);
    }
  }

  /** Packets that have nothing to do with probing change nothing about it. */
  lemma OthersKeepProbed(s: Session, n: Session, sent: seq<Packet>)
    requires Probed(s) && NoProbing(sent) && n.toB == s.toB + Set(sent) && n.toA == s.toA
    requires n.a.packetSize == s.a.packetSize && n.b == s.b && n.limitA == s.limitA && n.limitB == s.limitB
    ensures Probed(n)
  {
    if Answered(s) {
      var p :| p in s.toA && p.action == PACKSIZE_ACK && p.seqno == s.a.packetSize;
      assert p in n.toA && p.action == PACKSIZE_ACK && p.seqno == n.a.packetSize;
    }
    if Answered(Flip(s)) {
      var p :| p in s.toB && p.action == PACKSIZE_ACK && p.seqno == s.b.packetSize;
      assert p in Flip(n).toA && p.action == PACKSIZE_ACK && p.seqno == Flip(n).a.packetSize;
    }
  }

  lemma ResentIsNoProbing(s: Session, now: int, timeout: int)
    requires Inv(s)
    ensures NoProbing(TimedOut(s.a, now, timeout).sent)
  {
    KeptAreData(s);
    ResentAreData(s.a.send.data, now, timeout, MAX_RESEND_AT_ONCE);
  }

  lemma AnswerIsNoProbing(s: Session, k: nat)
    requires Inv(s)
    ensures NoProbing(OnResendRequest(s.a, k).sent)
  {
    KeptAreData(s);
  }

  lemma {:induction false} ProbesAreWithin(size: nat, limit: nat)
    requires LOWER_LIMIT <= size <= limit
    ensures forall p :: p in Probes(size, limit) ==> p.action == PACKSIZE_TEST && LOWER_LIMIT <= p.seqno <= limit
    decreases limit - size
  {
    if size < limit {
      ProbesAreWithin(Min(1412 * size / 1000, limit), limit);
    }
  }

  lemma ProbingKeepsProbed(s: Session)
    requires Probed(s) && EnabledAtA(s, Probe)
    ensures Probed(NextAtA(s, Probe))
  {
    var n, sent := NextAtA(s, Probe), Probes(LOWER_LIMIT, s.limitA);
    ProbesAreWithin(LOWER_LIMIT, s.limitA);
    assert n.toB == s.toB + Set(sent) && n.toA == s.toA && n.b == s.b;
    StillAnswered(s, n);
    assert HalfProbed(Flip(n)) by { assert HalfProbed(Flip(s)); }
  }

  /** B's packet size stays answered while the wire only grows. */
  lemma StillAnswered(s: Session, n: Session)
    requires s.toB <= n.toB && n.b.packetSize == s.b.packetSize
    ensures Answered(Flip(s)) ==> Answered(Flip(n))
  {
    if Answered(Flip(s)) {
      var p :| p in s.toB && p.action == PACKSIZE_ACK && p.seqno == s.b.packetSize;
      assert p in Flip(n).toA && p.action == PACKSIZE_ACK && p.seqno == Flip(n).a.packetSize;
    }
  }

  lemma TestKeepsProbed(s: Session, p: Packet, now: int)
    requires Probed(s) && EnabledAtA(s, Deliver(p, now)) && p.action == PACKSIZE_TEST
    ensures Probed(NextAtA(s, Deliver(p, now)))
  {
    var n := NextAtA(s, Deliver(p, now));
    assert n.a == s.a && n.toA == s.toA;
    StillAnswered(s, n);
  }

  lemma SizeKeepsProbed(s: Session, p: Packet, now: int)
    requires Probed(s) && EnabledAtA(s, Deliver(p, now)) && p.action == PACKSIZE_ACK
    ensures Probed(NextAtA(s, Deliver(p, now)))
  {
    var n := NextAtA(s, Deliver(p, now));
    assert n.toA == s.toA && n.toB == s.toB + Set([]) == s.toB;
    StillAnswered(s, n);
    if p.seqno > s.a.packetSize {
      assert p in n.toA && p.action == PACKSIZE_ACK && p.seqno == n.a.packetSize;
    }
  }

  lemma DeliverKeepsProbed(s: Session, p: Packet, now: int)
    requires Inv(s) && Probed(s) && EnabledAtA(s, Deliver(p, now))
    ensures Probed(NextAtA(s, Deliver(p, now)))
  {
    if p.action == PACKSIZE_TEST {
      TestKeepsProbed(s, p, now);
    } else if p.action == PACKSIZE_ACK {
      SizeKeepsProbed(s, p, now);
    } else {
      if p.action == TCP_RESEND { AnswerIsNoProbing(s, p.seqno); } else { DataIsNoProbing(s.a, p, now); }
      OthersKeepProbed(s, NextAtA(s, Deliver(p, now)), Received(s.a, p, s.limitA, now).sent);
    }
  }

  lemma NextAtAKeepsProbed(s: Session, e: Event)
    requires Inv(s) && Probed(s) && EnabledAtA(s, e)
    ensures Probed(NextAtA(s, e))
  {
    match e
    case Forward(action, data, now) =>
      SendAllIsData(s.a.send.nextPush, action, Pieces(s.a, data, s.limitA));
      OthersKeepProbed(s, NextAtA(s, e), Forwarded(s.a, action, data, s.limitA, now).sent);
    case Deliver(p, now) => DeliverKeepsProbed(s, p, now);
    case Timeout(now, timeout) =>
      ResentIsNoProbing(s, now, timeout);
      OthersKeepProbed(s, NextAtA(s, e), TimedOut(s.a, now, timeout).sent);
    case Reenable =>
      assert s.toB + Set([]) == s.toB;
      OthersKeepProbed(s, NextAtA(s, e), []);
    case Probe => ProbingKeepsProbed(s);
  }

  lemma {:induction false} RunKeepsProbed(s: Session, ts: seq<Step>)
    requires Inv(s) && Probed(s) && CanRun(s, ts)
    ensures Probed(Run(s, ts))
    decreases |ts|
  {
    if ts != [] {
      var t := ts[0];
      if t.atA { NextAtAKeepsProbed(s, t.event); } else { NextAtAKeepsProbed(Flip(s), t.event); }
      NextKeeps(s, t);
      RunKeepsProbed(Next(s, t), ts[1..]);
    }
  }

  /** In every run a packet size above the lowest is one that the peer has answered, within the limits of both. */
  lemma SizeWasAnswered(limitA: nat, limitB: nat, ts: seq<Step>)
    requires CanRun(Start(limitA, limitB), ts)
    ensures var s := Run(Start(limitA, limitB), ts);
      s.a.packetSize == LOWER_LIMIT || (Answered(s) && LOWER_LIMIT <= s.a.packetSize <= Min(limitA, limitB))
  {
    StartsWell(limitA, limitB);
    RunKeepsProbed(Start(limitA, limitB), ts);
    RunKeepsLimits(Start(limitA, limitB), ts);
  }

  lemma {:induction false} RunKeepsLimits(s: Session, ts: seq<Step>)
    requires CanRun(s, ts)
    ensures Run(s, ts).limitA == s.limitA && Run(s, ts).limitB == s.limitB
    decreases |ts|
  {
    if ts != [] {
      RunKeepsLimits(Next(s, ts[0]), ts[1..]);
    }
  }

  lemma SizeAfterDelivery(s: Session, p: Packet, now: int)
    requires EnabledAtA(s, Deliver(p, now))
    ensures NextAtA(s, Deliver(p, now)).a.packetSize ==
      if p.action == PACKSIZE_ACK then Max(s.a.packetSize, p.seqno) else s.a.packetSize
  {
  }

  /** Only new probing lowers the packet size, and no answer that arrives is left unused. */
  lemma SizeOnlyRises(s: Session, t: Step)
    requires Enabled(s, t) && t != Step(true, Probe)
    ensures Next(s, t).a.packetSize >= s.a.packetSize
    ensures t.atA && t.event.Deliver? && t.event.p.action == PACKSIZE_ACK ==> Next(s, t).a.packetSize >= t.event.p.seqno
  {
    if !t.atA {
      AtBLeavesA(s, t);
    } else {
      match t.event
      case Deliver(p, now) => SizeAfterDelivery(s, p, now);
      case Forward(_, _, _) =>
      case Timeout(_, _) =>
      case Reenable =>
    }
  }

  lemma {:induction false} ProbeIsSent(from: nat, limit: nat, size: nat)
    requires LOWER_LIMIT <= from <= limit && size in ProbeSizes(from, limit)
    ensures size >= LOWER_LIMIT && Packet(PACKSIZE_TEST, size, ProbeData(size)) in Probes(from, limit)
    decreases limit - from
  {
    if size != from {
      ProbeIsSent(Min(1412 * from / 1000, limit), limit, size);
    }
  }

  /** The delivery of a probe to B and of the answer to A. */
  function Probing(size: nat): seq<Step>
    requires size >= 4
  {
    [Step(false, Deliver(Packet(PACKSIZE_TEST, size, ProbeData(size)), 0)),
     Step(true, Deliver(Packet(PACKSIZE_ACK, size, []), 0))]
  }

  lemma ProbeIsAnswered(s: Session, size: nat)
    requires size >= 4 && Packet(PACKSIZE_TEST, size, ProbeData(size)) in s.toB && size <= s.limitB
    ensures var x := Probing(size)[0];
      Enabled(s, x) && Next(s, x).a == s.a && Packet(PACKSIZE_ACK, size, []) in Next(s, x).toA
  {
    ProbeIsSound(size, s.limitB);
    var r := OnProbe(s.b, Packet(PACKSIZE_TEST, size, ProbeData(size)), s.limitB);
    assert r.sent == [Packet(PACKSIZE_ACK, size, [])];
  }

  lemma AnswerIsUsed(s: Session, size: nat)
    requires size >= 4 && Packet(PACKSIZE_ACK, size, []) in s.toA
    ensures var y := Probing(size)[1]; Enabled(s, y) && Next(s, y).a.packetSize == Max(s.a.packetSize, size)
  {
    SizeAfterDelivery(s, Packet(PACKSIZE_ACK, size, []), 0);
  }

  /** After probing, each size on the ladder that B allows can be found: its probe and the answer need only arrive. */
  lemma ProbeFinds(s: Session, size: nat)
    requires EnabledAtA(s, Probe) && size in ProbeSizes(LOWER_LIMIT, s.limitA) && size <= s.limitB
    ensures var n := NextAtA(s, Probe);
      size >= LOWER_LIMIT && CanRun(n, Probing(size)) && Run(n, Probing(size)).a.packetSize == size
  {
    var n := NextAtA(s, Probe);
    ProbeIsSent(LOWER_LIMIT, s.limitA, size);
    ProbeIsAnswered(n, size);
    AnswerIsUsed(Next(n, Probing(size)[0]), size);
    InTwo(n, Probing(size)[0], Probing(size)[1]);
  }

  /** A probe that the network has changed within four neighbouring bytes is not answered. */
  lemma DamagedProbeFails(size: nat, a: bytes, x: bytes, y: bytes, b: bytes, limit: nat)
    requires size >= 4 && Pattern(size)[4..] == a + x + b && |x| == |y| <= 4 && x != y
    ensures |ProbeData(size)| == size && ProbeData(size)[4..] == a + x + b
    ensures !ProbePasses(Packet(PACKSIZE_TEST, size, ProbeData(size)[..4] + (a + y + b)), limit)
  {
    var crc := Crc32.Crc(a + x + b);
    Crc32.CrcBound(a + x + b);
    Detection.CrcShows(a, x, y, b);
    assert ProbeData(size)[..4] == Bytes32(crc);
    Bytes32Word32(crc, a + y + b);
    assert (Bytes32(crc) + (a + y + b))[4..] == a + y + b;
  }
}
