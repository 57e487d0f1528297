/** Every schedule: whatever the order of steps, what is delivered and acknowledged is done with. */
module Schedules {
  import opened Bytes
  import opened Buffers
  import opened TafnetNode
  import opened Session
  import opened Recovery

  // ------------------------------------------------------- wires only grow

  lemma StepGrows(s: Session, step: Step)
    requires Enabled(s, step)
    ensures s.toA <= Next(s, step).toA && s.toB <= Next(s, step).toB
  {
  }

  lemma {:induction false} RunGrows(s: Session, ts: seq<Step>)
    requires CanRun(s, ts)
    ensures s.toA <= Run(s, ts).toA && s.toB <= Run(s, ts).toB
    decreases |ts|
  {
    if ts != [] {
      StepGrows(s, ts[0]);
      RunGrows(Next(s, ts[0]), ts[1..]);
    }
  }

  // ------------------------------------------------------- numbers do not come back

  /** The number was given to a fragment that A does not keep any more. */
  predicate Gone(b: Buffer, k: nat) {
    k < b.nextPush && k !in b.data
  }

  lemma {:induction false} PushAllStaysGone(b: Buffer, action: byte, pieces: seq<bytes>, now: int, k: nat)
    requires Gone(b, k) && b.nextPush + |pieces| < U32
    ensures Gone(PushAll(b, action, pieces, now), k)
    decreases |pieces|
  {
    if pieces != [] {
      PushAllStaysGone(Pushed(b, Payload(PieceAction(action, pieces), pieces[0], now)), action, pieces[1..], now, k);
    }
  }

  lemma AtAStaysGone(s: Session, e: Event, k: nat)
    requires Inv(s) && EnabledAtA(s, e) && Gone(s.a.send, k)
    ensures Gone(NextAtA(s, e).a.send, k)
  {
    if e.Forward? {
      PushAllStaysGone(s.a.send, e.action, Pieces(s.a, e.data, s.limitA), e.now, k);
    }
  }

  lemma AtBLeavesA(s: Session, step: Step)
    requires Enabled(s, step) && !step.atA
    ensures Next(s, step).a == s.a
  {
  }

  lemma {:induction false} RunStaysGone(s: Session, ts: seq<Step>, k: nat)
    requires Inv(s) && CanRun(s, ts) && Gone(s.a.send, k)
    ensures Gone(Run(s, ts).a.send, k)
    decreases |ts|
  {
    if ts != [] {
      if ts[0].atA { AtAStaysGone(s, ts[0].event, k); } else { AtBLeavesA(s, ts[0]); }
      NextKeeps(s, ts[0]);
      RunStaysGone(Next(s, ts[0]), ts[1..], k);
    }
  }

  // ------------------------------------------------------- one fragment, any schedule

  function DeliverToB(p: Packet, now: int): Step {
    Step(false, Deliver(p, now))
  }

  function AckToA(k: nat, now: int): Step {
    Step(true, Deliver(Packet(TCP_ACK, k, []), now))
  }

  lemma {:induction false} RunSplits(s: Session, ts: seq<Step>, us: seq<Step>)
    requires CanRun(s, ts + us)
    ensures CanRun(s, ts) && CanRun(Run(s, ts), us) && Run(s, ts + us) == Run(Run(s, ts), us)
    decreases |ts|
  {
    if ts == [] {
      assert ts + us == us;
    } else {
      assert (ts + us)[1..] == ts[1..] + us && (ts + us)[0] == ts[0];
      RunSplits(Next(s, ts[0]), ts[1..], us);
    }
  }

  lemma RunOne(s: Session, step: Step)
    requires CanRun(s, [step])
    ensures Enabled(s, step) && Run(s, [step]) == Next(s, step)
  {
    assert [step][1..] == [];
  }

  /** Once a fragment was delivered, its acknowledgement can be delivered at any later time. */
  lemma AcknowledgementWaits(s: Session, p: Packet, now: int, vs: seq<Step>)
    requires p in s.toB && IsData(p.action) && CanRun(s, [DeliverToB(p, now)] + vs)
    ensures Packet(TCP_ACK, p.seqno, []) in Run(s, [DeliverToB(p, now)] + vs).toA
  {
    RunSplits(s, [DeliverToB(p, now)], vs);
    RunOne(s, DeliverToB(p, now));
    DeliveryAcknowledges(s, p, now);
    RunGrows(Next(s, DeliverToB(p, now)), vs);
  }

  lemma AckIsGone(s: Session, k: nat, now: int)
    requires Inv(s) && Packet(TCP_ACK, k, []) in s.toA
    ensures Enabled(s, AckToA(k, now)) && Gone(Next(s, AckToA(k, now)).a.send, k)
  {
    assert Arrived(s.b.recv, k);
  }

  /**
   * If a fragment is on the wire, then after any steps, its delivery and any steps, its acknowledgement can
   * be delivered; and once it is, then after any steps more the fragment is not in the send buffer.
   */
  lemma DeliveredIsDone(s: Session, p: Packet, us: seq<Step>, now: int, vs: seq<Step>, later: int, ws: seq<Step>)
    requires Inv(s) && p in s.toB && IsData(p.action) && CanRun(s, us + ([DeliverToB(p, now)] + vs))
    ensures var t := Run(s, us + ([DeliverToB(p, now)] + vs)); var ack := AckToA(p.seqno, later);
      && Enabled(t, ack)
      && (CanRun(t, [ack] + ws) ==> p.seqno !in Run(t, [ack] + ws).a.send.data)
  {
    var mid := [DeliverToB(p, now)] + vs;
    var t, ack := Run(s, us + mid), AckToA(p.seqno, later);
    RunKeeps(s, us + mid);
    RunSplits(s, us, mid);
    RunGrows(s, us);
    AcknowledgementWaits(Run(s, us), p, now, vs);
    AckIsGone(t, p.seqno, later);
    if CanRun(t, [ack] + ws) {
      RunSplits(t, [ack], ws);
      RunOne(t, ack);
      NextKeeps(t, ack);
      RunStaysGone(Next(t, ack), ws, p.seqno);
    }
  }

  // ------------------------------------------------------- rounds without loss

  /** Nothing new is given at A. */
  predicate NoForward(ts: seq<Step>) {
    forall i :: 0 <= i < |ts| ==> !(ts[i].atA && ts[i].event.Forward?)
  }

  /** The run delivers an acknowledgement of fragment `k` to A at some time. */
  predicate Acknowledged(ts: seq<Step>, k: nat) {
    exists i :: 0 <= i < |ts| && IsAck(ts[i], k)
  }

  predicate IsAck(t: Step, k: nat) {
    t.atA && t.event.Deliver? && t.event.p.action == TCP_ACK && t.event.p.seqno == k
  }

  lemma AckRemoves(s: Session, step: Step, k: nat)
    requires Inv(s) && Enabled(s, step) && IsAck(step, k)
    ensures Gone(Next(s, step).a.send, k)
  {
    assert Arrived(s.b.recv, k);
  }

  lemma AcknowledgedLater(ts: seq<Step>, k: nat)
    requires Acknowledged(ts, k) && !IsAck(ts[0], k)
    ensures Acknowledged(ts[1..], k)
  {
    var i :| 0 <= i < |ts| && IsAck(ts[i], k);
    assert ts[1..][i - 1] == ts[i];
  }

  lemma {:induction false} AcknowledgedIsGone(s: Session, ts: seq<Step>, k: nat)
    requires Inv(s) && CanRun(s, ts) && Acknowledged(ts, k)
    ensures k !in Run(s, ts).a.send.data
    decreases |ts|
  {
    NextKeeps(s, ts[0]);
    if IsAck(ts[0], k) {
      AckRemoves(s, ts[0], k);
      RunStaysGone(Next(s, ts[0]), ts[1..], k);
    } else {
      AcknowledgedLater(ts, k);
      AcknowledgedIsGone(Next(s, ts[0]), ts[1..], k);
    }
  }

  lemma StepAddsNothing(s: Session, step: Step)
    requires Enabled(s, step) && !(step.atA && step.event.Forward?)
    ensures Next(s, step).a.send.data.Keys <= s.a.send.data.Keys
    ensures Next(s, step).fromA.given == s.fromA.given
  {
  }

  lemma {:induction false} RunAddsNothing(s: Session, ts: seq<Step>)
    requires CanRun(s, ts) && NoForward(ts)
    ensures Run(s, ts).a.send.data.Keys <= s.a.send.data.Keys && Run(s, ts).fromA.given == s.fromA.given
    decreases |ts|
  {
    if ts != [] {
      StepAddsNothing(s, ts[0]);
      RunAddsNothing(Next(s, ts[0]), ts[1..]);
    }
  }

  predicate Overdue(m: map<nat, Payload>, now: int, timeout: int) {
    forall k :: k in m ==> now >= m[k].timestamp + timeout
  }

  function Numbers(ps: seq<Packet>): set<nat> {
    set p | p in ps :: p.seqno
  }

  /** When all are overdue, the timer resends as many of the fragments as it may, each once. */
  lemma {:induction false} ResentNumbers(m: map<nat, Payload>, now: int, timeout: int, budget: nat)
    requires Overdue(m, now, timeout)
    ensures Numbers(Resent(m, now, timeout, budget)) <= m.Keys
    ensures |Numbers(Resent(m, now, timeout, budget))| == Min(|m|, budget)
    decreases budget
  {
    if m != map[] && budget > 0 {
      var k := Earliest(m);
      var rest := Resent(m - {k}, now, timeout, budget - 1);
      ResentNumbers(m - {k}, now, timeout, budget - 1);
      Fewer(m, k);
      assert Numbers([Packet(m[k].action, k, m[k].buf)] + rest) == {k} + Numbers(rest) by {
        NumbersCons(Packet(m[k].action, k, m[k].buf), rest);
      }
      assert k !in Numbers(rest);
    } else {
      NoNumbers();
      if m == map[] { assert |m| == 0; }
    }
  }

  lemma NoNumbers()
    ensures Numbers([]) == {}
  {
  }

  lemma NumbersCons(p: Packet, ps: seq<Packet>)
    ensures Numbers([p] + ps) == {p.seqno} + Numbers(ps)
  {
    forall k
      ensures k in Numbers([p] + ps) <==> k == p.seqno || k in Numbers(ps)
    {
      assert forall q :: q in [p] + ps <==> q == p || q in ps;
    }
  }

  /**
   * A round without loss: A's timer fires when its fragments are overdue, and by the end of the round
   * each fragment that it resent has been acknowledged to A, among any other steps in any order.
   */
  ghost predicate Round(s: Session, ts: seq<Step>) {
    && CanRun(s, ts) && ts != [] && NoForward(ts)
    && ts[0].atA && ts[0].event.Timeout?
    && var e := ts[0].event;
       && Overdue(s.a.send.data, e.now, e.timeout)
       && forall k :: k in Numbers(TimedOut(s.a, e.now, e.timeout).sent) ==> Acknowledged(ts, k)
  }

  lemma FewerLeft(left: set<nat>, all: set<nat>, gone: set<nat>)
    requires left <= all && gone <= all && left !! gone
    ensures |left| <= |all| - |gone|
  {
    assert left <= all - gone;
    SubsetSize(left, all - gone);
  }

  lemma {:induction false} SubsetSize(small: set<nat>, large: set<nat>)
    requires small <= large
    ensures |small| <= |large|
  {
    assert large == small + (large - small);
  }

  /** Every such round leaves five fragments less, or none. */
  lemma RoundShrinks(s: Session, ts: seq<Step>)
    requires Inv(s) && Round(s, ts)
    ensures |Run(s, ts).a.send.data| <= |s.a.send.data| - Min(|s.a.send.data|, MAX_RESEND_AT_ONCE)
    ensures Run(s, ts).fromA.given == s.fromA.given
  {
    var e := ts[0].event;
    var t := Run(s, ts);
    var done := Numbers(TimedOut(s.a, e.now, e.timeout).sent);
    ResentNumbers(s.a.send.data, e.now, e.timeout, MAX_RESEND_AT_ONCE);
    RunAddsNothing(s, ts);
    forall k | k in done
      ensures k !in t.a.send.data.Keys
    {
      AcknowledgedIsGone(s, ts, k);
    }
    FewerLeft(t.a.send.data.Keys, s.a.send.data.Keys, done);
    assert |t.a.send.data| == |t.a.send.data.Keys| && |s.a.send.data| == |s.a.send.data.Keys|;
  }

  ghost predicate Rounds(s: Session, rounds: seq<seq<Step>>)
    decreases |rounds|
  {
    rounds == [] || (Round(s, rounds[0]) && Rounds(Run(s, rounds[0]), rounds[1..]))
  }

  ghost function AfterRounds(s: Session, rounds: seq<seq<Step>>): Session
    requires Rounds(s, rounds)
    decreases |rounds|
  {
    if rounds == [] then s else AfterRounds(Run(s, rounds[0]), rounds[1..])
  }

  /** Whatever the schedule, rounds without loss, one for five fragments, complete the delivery from A to B. */
  lemma {:induction false} EveryScheduleCompletes(s: Session, rounds: seq<seq<Step>>)
    requires Inv(s) && Rounds(s, rounds) && |s.a.send.data| <= MAX_RESEND_AT_ONCE * |rounds|
    ensures var t := AfterRounds(s, rounds);
      t.a.send.data == map[] && t.fromA.given == s.fromA.given && t.fromA.handed == NonEmpty(s.fromA.given)
    decreases |rounds|
  {
    if rounds == [] {
      EmptyMeansDone(s);
    } else {
      var t := Run(s, rounds[0]);
      RoundShrinks(s, rounds[0]);
      RunKeeps(s, rounds[0]);
      EveryScheduleCompletes(t, rounds[1..]);
    }
  }

  // ------------------------------------------------------- there always is such a round

  lemma {:induction false} OverdueAtLast(m: map<nat, Payload>, timeout: int) returns (now: int)
    ensures Overdue(m, now, timeout)
    decreases |m|
  {
    if m == map[] {
      now := 0;
    } else {
      var k := Earliest(m);
      Fewer(m, k);
      var later := OverdueAtLast(m - {k}, timeout);
      now := Max(later, m[k].timestamp + timeout);
      forall j | j in m
        ensures now >= m[j].timestamp + timeout
      {
        assert j != k ==> j in m - {k} && (m - {k})[j] == m[j];
      }
    }
  }

  predicate AllData(m: map<nat, Payload>) {
    forall k :: k in m ==> IsData(m[k].action)
  }

  lemma {:induction false} ResentAreData(m: map<nat, Payload>, now: int, timeout: int, budget: nat)
    requires AllData(m)
    ensures forall p :: p in Resent(m, now, timeout, budget) ==> IsData(p.action)
    decreases budget
  {
    if m != map[] && budget > 0 {
      ResentAreData(m - {Earliest(m)}, now, timeout, budget - 1);
    }
  }

  lemma KeptAreData(s: Session)
    requires Inv(s)
    ensures AllData(s.a.send.data)
  {
    forall k | k in s.a.send.data
      ensures IsData(s.a.send.data[k].action)
    {
      assert Tagged(s.fromA.pushed, k, s.a.send.data[k].action, s.a.send.data[k].buf);
    }
  }

  lemma AcknowledgedLonger(ts: seq<Step>, us: seq<Step>, k: nat)
    ensures Acknowledged(ts, k) || Acknowledged(us, k) ==> Acknowledged(ts + us, k)
  {
    if Acknowledged(ts, k) {
      var i :| 0 <= i < |ts| && IsAck(ts[i], k);
      assert IsAck((ts + us)[i], k);
    } else if Acknowledged(us, k) {
      var i :| 0 <= i < |us| && IsAck(us[i], k);
      assert IsAck((ts + us)[|ts| + i], k);
    }
  }

  /** One fragment is delivered and acknowledged. */
  lemma AckOne(s: Session, p: Packet) returns (ts: seq<Step>)
    requires Inv(s) && p in s.toB && IsData(p.action)
    ensures CanRun(s, ts) && NoForward(ts) && Acknowledged(ts, p.seqno)
  {
    var d, a := DeliverToB(p, 0), AckToA(p.seqno, 0);
    DeliveryAcknowledges(s, p, 0);
    NextKeeps(s, d);
    LeadsByOne(s, d);
    AckIsGone(Next(s, d), p.seqno, 0);
    LeadsByOne(Next(s, d), a);
    LeadsOn(s, [d], Next(s, d), [a], Next(Next(s, d), a));
    ts := [d] + [a];
    assert IsAck(ts[1], p.seqno);
  }

  lemma {:induction false} AckAll(s: Session, ps: seq<Packet>) returns (ts: seq<Step>)
    requires Inv(s) && forall p :: p in ps ==> p in s.toB && IsData(p.action)
    ensures CanRun(s, ts) && NoForward(ts) && forall p :: p in ps ==> Acknowledged(ts, p.seqno)
    decreases |ps|
  {
    if ps == [] {
      ts := [];
    } else {
      var us := AckOne(s, ps[0]);
      RunKeeps(s, us);
      RunGrows(s, us);
      var t := Run(s, us);
      assert forall p :: p in ps[1..] ==> p in ps;
      var vs := AckAll(t, ps[1..]);
      RunInParts(s, us, vs);
      ts := us + vs;
      forall p | p in ps
        ensures Acknowledged(ts, p.seqno)
      {
        assert p == ps[0] || p in ps[1..];
        AcknowledgedLonger(us, vs, p.seqno);
      }
    }
  }

  /** From every state that a run can reach there is a round without loss. */
  lemma RoundExists(s: Session)
    requires Inv(s)
    ensures exists ts :: Round(s, ts)
  {
    var now := OverdueAtLast(s.a.send.data, TIMEOUT);
    var timer := Step(true, Timeout(now, TIMEOUT));
    var sent := TimedOut(s.a, now, TIMEOUT).sent;
    KeptAreData(s);
    ResentAreData(s.a.send.data, now, TIMEOUT, MAX_RESEND_AT_ONCE);
    NextKeeps(s, timer);
    var t := Next(s, timer);
    assert forall p :: p in sent ==> p in t.toB;
    var us := AckAll(t, sent);
    LeadsByOne(s, timer);
    RunInParts(s, [timer], us);
    var ts := [timer] + us;
    forall k | k in Numbers(sent)
      ensures Acknowledged(ts, k)
    {
      var p :| p in sent && p.seqno == k;
      AcknowledgedLonger([timer], us, k);
    }
    assert Round(s, ts);
  }

  /** And so there are always enough rounds to complete the delivery. */
  lemma {:induction false} RoundsExist(s: Session, n: nat)
    requires Inv(s)
    ensures exists rounds :: |rounds| == n && Rounds(s, rounds)
    decreases n
  {
    if n == 0 {
      assert Rounds(s, []);
    } else {
      RoundExists(s);
      var ts :| Round(s, ts);
      RunKeeps(s, ts);
      RoundsExist(Run(s, ts), n - 1);
      var more :| |more| == n - 1 && Rounds(Run(s, ts), more);
      assert ([ts] + more)[1..] == more;
      assert Rounds(s, [ts] + more);
    }
  }
}
