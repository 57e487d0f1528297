/** No stuck state: from wherever a run has got to, timers and deliveries alone finish the transfer. */
module Recovery {
  import opened Buffers
  import opened TafnetNode
  import opened Session

  const TIMEOUT: int := 700

  /** Steps that give the nodes nothing new to send. */
  predicate OnlyRepairs(ts: seq<Step>) {
    forall i :: 0 <= i < |ts| ==> ts[i].event.Timeout? || ts[i].event.Deliver?
  }

  lemma {:induction false} RunInParts(s: Session, ts: seq<Step>, us: seq<Step>)
    requires CanRun(s, ts) && CanRun(Run(s, ts), us)
    ensures CanRun(s, ts + us) && Run(s, ts + us) == Run(Run(s, ts), us)
    decreases |ts|
  {
    if ts == [] {
      assert ts + us == us;
    } else {
      assert (ts + us)[1..] == ts[1..] + us && (ts + us)[0] == ts[0];
      RunInParts(Next(s, ts[0]), ts[1..], us);
    }
  }

  /** The repair steps `ts` lead from `s` to `t`. */
  ghost predicate Leads(s: Session, ts: seq<Step>, t: Session) {
    OnlyRepairs(ts) && CanRun(s, ts) && Run(s, ts) == t
  }

  lemma LeadsOn(s: Session, ts: seq<Step>, t: Session, us: seq<Step>, u: Session)
    requires Leads(s, ts, t) && Leads(t, us, u)
    ensures Leads(s, ts + us, u)
  {
    RunInParts(s, ts, us);
  }

  lemma LeadsByOne(s: Session, step: Step)
    requires Enabled(s, step) && (step.event.Timeout? || step.event.Deliver?)
    ensures Leads(s, [step], Next(s, step))
  {
    assert [step][1..] == [];
    assert CanRun(Next(s, step), []);
  }

  /** The timer resends the oldest fragment. */
  lemma TimerResends(s: Session, k: nat)
    requires Inv(s) && s.a.send.data != map[] && k == Earliest(s.a.send.data)
    ensures var p := s.a.send.data[k];
      var packet := Packet(p.action, k, p.buf);
      var t := Next(s, Step(true, Timeout(p.timestamp + TIMEOUT, TIMEOUT)));
      && t == s.(toB := t.toB) && packet in t.toB && IsData(p.action)
  {
    var p := s.a.send.data[k];
    assert Tagged(s.fromA.pushed, k, p.action, p.buf);
    assert Packet(p.action, k, p.buf) in Resent(s.a.send.data, p.timestamp + TIMEOUT, TIMEOUT, MAX_RESEND_AT_ONCE);
  }

  /** The receiver acknowledges whatever fragment reaches it. */
  lemma DeliveryAcknowledges(s: Session, p: Packet, now: int)
    requires p in s.toB && IsData(p.action)
    ensures Enabled(s, Step(false, Deliver(p, now)))
    ensures var t := Next(s, Step(false, Deliver(p, now)));
      && Packet(TCP_ACK, p.seqno, []) in t.toA
      && t.a == s.a && t.b.send == s.b.send
      && t.fromA.given == s.fromA.given && t.fromB == s.fromB
  {
    var r := OnData(s.b, p, now);
    assert r.sent[0] == Packet(TCP_ACK, p.seqno, []);
  }

  lemma AcknowledgementRemoves(s: Session, k: nat)
    requires Packet(TCP_ACK, k, []) in s.toA
    ensures var step := Step(true, Deliver(Packet(TCP_ACK, k, []), 0));
      && Enabled(s, step)
      && var t := Next(s, step);
         && t.a.send.data == s.a.send.data - {k} && t.b == s.b
         && t.fromA == s.fromA && t.fromB.given == s.fromB.given
  {
  }

  /** `t` is `s` with one fragment less to acknowledge from A, and nothing new given. */
  ghost predicate Shrinks(s: Session, t: Session) {
    && Inv(t) && |t.a.send.data| < |s.a.send.data| && t.b.send == s.b.send
    && t.fromA.given == s.fromA.given && t.fromB.given == s.fromB.given
  }

  lemma InThree(s: Session, x: Step, y: Step, z: Step)
    requires Enabled(s, x) && Enabled(Next(s, x), y) && Enabled(Next(Next(s, x), y), z)
    requires x.event.Timeout? && y.event.Deliver? && z.event.Deliver?
    ensures Leads(s, [x, y, z], Next(Next(Next(s, x), y), z))
  {
    var s1 := Next(s, x);
    var s2 := Next(s1, y);
    LeadsByOne(s, x);
    LeadsByOne(s1, y);
    LeadsByOne(s2, z);
    LeadsOn(s, [x], s1, [y], s2);
    LeadsOn(s, [x] + [y], s2, [z], Next(s2, z));
    assert [x] + [y] + [z] == [x, y, z];
  }

  /** Three steps take the oldest fragment out of the send buffer. */
  lemma OneFragment(s: Session) returns (ts: seq<Step>, t: Session)
    requires Inv(s) && s.a.send.data != map[]
    ensures |ts| == 3 && Leads(s, ts, t) && Shrinks(s, t)
  {
    var k := Earliest(s.a.send.data);
    var p := s.a.send.data[k];
    var packet := Packet(p.action, k, p.buf);
    var timer := Step(true, Timeout(p.timestamp + TIMEOUT, TIMEOUT));
    var deliver := Step(false, Deliver(packet, 0));
    var ack := Step(true, Deliver(Packet(TCP_ACK, k, []), 0));
    TimerResends(s, k);
    var s1 := Next(s, timer);
    DeliveryAcknowledges(s1, packet, 0);
    var s2 := Next(s1, deliver);
    AcknowledgementRemoves(s2, k);
    NextKeeps(s, timer);
    NextKeeps(s1, deliver);
    NextKeeps(s2, ack);
    InThree(s, timer, deliver, ack);
    Fewer(s.a.send.data, k);
    ts, t := [timer, deliver, ack], Next(s2, ack);
  }

  lemma Fewer(m: map<nat, Payload>, k: nat)
    requires k in m
    ensures |m - {k}| == |m| - 1
  {
    assert (m - {k}).Keys == m.Keys - {k};
    assert |m.Keys| == |m| && |(m - {k}).Keys| == |m - {k}|;
  }

  lemma {:induction false} EmptyA(s: Session) returns (ts: seq<Step>, t: Session)
    requires Inv(s)
    ensures Leads(s, ts, t) && |ts| <= 3 * |s.a.send.data|
    ensures Inv(t) && t.a.send.data == map[] && t.b.send == s.b.send
    ensures t.fromA.given == s.fromA.given && t.fromB.given == s.fromB.given
    decreases |s.a.send.data|
  {
    if s.a.send.data == map[] {
      ts, t := [], s;
    } else {
      var first, mid := OneFragment(s);
      var rest;
      rest, t := EmptyA(mid);
      LeadsOn(s, first, mid, rest, t);
      ts := first + rest;
    }
  }

  function FlipStep(t: Step): Step {
    Step(!t.atA, t.event)
  }

  function FlipSteps(ts: seq<Step>): seq<Step> {
    seq(|ts|, i requires 0 <= i < |ts| => FlipStep(ts[i]))
  }

  /** The protocol treats its two ends alike. */
  lemma {:induction false} RunFlips(s: Session, ts: seq<Step>)
    requires CanRun(s, ts)
    ensures CanRun(Flip(s), FlipSteps(ts)) && Run(Flip(s), FlipSteps(ts)) == Flip(Run(s, ts))
    decreases |ts|
  {
    if ts != [] {
      NextFlips(s, ts[0]);
      RunFlips(Next(s, ts[0]), ts[1..]);
      assert FlipSteps(ts)[1..] == FlipSteps(ts[1..]);
    }
  }

  lemma NextFlips(s: Session, t: Step)
    requires Enabled(s, t)
    ensures Enabled(Flip(s), FlipStep(t)) && Next(Flip(s), FlipStep(t)) == Flip(Next(s, t))
  {
    assert Flip(Flip(s)) == s;
    var n := if t.atA then NextAtA(s, t.event) else NextAtA(Flip(s), t.event);
    assert Flip(Flip(n)) == n;
  }

  lemma LeadsFlips(s: Session, ts: seq<Step>, t: Session)
    requires Leads(Flip(s), ts, t)
    ensures Leads(s, FlipSteps(ts), Flip(t))
  {
    RunFlips(Flip(s), ts);
    assert Flip(Flip(s)) == s;
  }

  /** From every state a run can be in, both send buffers can be emptied. */
  lemma EmptyBoth(s: Session) returns (ts: seq<Step>, t: Session)
    requires Inv(s)
    ensures Leads(s, ts, t) && |ts| <= 3 * (|s.a.send.data| + |s.b.send.data|)
    ensures Inv(t) && t.a.send.data == map[] && t.b.send.data == map[]
    ensures t.fromA.given == s.fromA.given && t.fromB.given == s.fromB.given
  {
    var first, mid := EmptyA(s);
    var second, end := EmptyA(Flip(mid));
    LeadsFlips(mid, second, end);
    LeadsOn(s, first, mid, FlipSteps(second), Flip(end));
    ts, t := first + FlipSteps(second), Flip(end);
  }

  /** A run that gives nothing new, empties both send buffers, and by then has handed out every message. */
  ghost predicate Completes(s: Session, ts: seq<Step>) {
    && OnlyRepairs(ts) && CanRun(s, ts)
    && |ts| <= 3 * (|s.a.send.data| + |s.b.send.data|)
    && var t := Run(s, ts);
       && t.a.send.data == map[] && t.b.send.data == map[]
       && t.fromA.given == s.fromA.given && t.fromB.given == s.fromB.given
       && t.fromA.handed == NonEmpty(s.fromA.given) && t.fromB.handed == NonEmpty(s.fromB.given)
  }

  /** From every reachable state a run of at most three steps for each unacknowledged fragment completes delivery. */
  lemma NeverStuck(limitA: nat, limitB: nat, before: seq<Step>)
    requires CanRun(Start(limitA, limitB), before)
    ensures exists ts :: Completes(Run(Start(limitA, limitB), before), ts)
  {
    StartsWell(limitA, limitB);
    RunKeeps(Start(limitA, limitB), before);
    var s := Run(Start(limitA, limitB), before);
    var ts, t := EmptyBoth(s);
    EmptyMeansDone(t);
    EmptyMeansDone(Flip(t));
    assert Completes(s, ts);
  }
}
