/** Two nodes over a network that loses, repeats and reorders: what every run keeps. */
module Session {
  import opened Bytes
  import opened Fragments
  import opened Buffers
  import opened TafnetNode

  // ------------------------------------------------------- histories

  datatype Fragment = Fragment(action: byte, data: bytes)

  /** One direction's history: messages given to the sender, fragments it numbered, messages handed out. */
  datatype Log = Log(given: seq<Message>, pushed: seq<Fragment>, handed: seq<Message>)

  datatype Parts = Parts(msgs: seq<Message>, partial: bytes)

  /** The parts after one more fragment. */
  function Extend(p: Parts, f: Fragment): Parts {
    if f.action == MORE then Parts(p.msgs, p.partial + f.data)
    else Parts(p.msgs + [Message(f.action, p.partial + f.data)], [])
  }

  /** The messages that a row of fragments makes up, and the bytes of an unfinished one. */
  function Join(fs: seq<Fragment>): Parts {
    if fs == [] then Parts([], []) else Extend(Join(fs[..|fs| - 1]), fs[|fs| - 1])
  }

  lemma JoinSnoc(fs: seq<Fragment>, f: Fragment)
    ensures Join(fs + [f]) == Extend(Join(fs), f)
  {
    assert (fs + [f])[..|fs|] == fs;
  }

  lemma {:induction false} JoinMonotone(fs: seq<Fragment>, k: nat)
    requires k <= |fs|
    ensures Join(fs[..k]).msgs <= Join(fs).msgs
  {
    if k < |fs| {
      JoinMonotone(fs[..|fs| - 1], k);
      assert fs[..|fs| - 1][..k] == fs[..k];
    } else {
      assert fs[..k] == fs;
    }
  }

  /** Empty messages are never sent. */
  function NonEmpty(ms: seq<Message>): seq<Message> {
    if ms == [] then []
    else
      var m := ms[|ms| - 1];
      NonEmpty(ms[..|ms| - 1]) + if m.data == [] then [] else [m]
  }

  // ------------------------------------------------------- the session

  datatype Session = Session(
    a: Endpoint, b: Endpoint, toA: set<Packet>, toB: set<Packet>, fromA: Log, fromB: Log, limitA: nat, limitB: nat)

  const NOTHING := Log([], [], [])

  function Start(limitA: nat, limitB: nat): Session {
    Session(FRESH, FRESH, {}, {}, NOTHING, NOTHING, limitA, limitB)
  }

  function Flip(s: Session): Session {
    Session(s.b, s.a, s.toB, s.toA, s.fromB, s.fromA, s.limitB, s.limitA)
  }

  /**
   * What can happen at a node. The network may deliver any packet ever sent to it, any number of times
   * and in any order; a packet never delivered is lost.
   */
  datatype Event =
    | Forward(action: byte, data: bytes, now: int)
    | Deliver(p: Packet, now: int)
    | Timeout(now: int, timeout: int)
    | Reenable
    | Probe

  datatype Step = Step(atA: bool, event: Event)

  predicate IsApplication(action: byte) {
    action == TCP_DATA || action == ENUM || action == UDP_PROTECTED || action == HELLO
  }

  function Set(ps: seq<Packet>): set<Packet> {
    set p | p in ps
  }

  function Tags(action: byte, pieces: seq<bytes>): seq<Fragment>
    decreases |pieces|
  {
    if pieces == [] then [] else [Fragment(PieceAction(action, pieces), pieces[0])] + Tags(action, pieces[1..])
  }

  predicate EnabledAtA(s: Session, e: Event) {
    match e
    case Forward(action, data, _) =>
      IsApplication(action) && |s.fromA.pushed| + |Pieces(s.a, data, s.limitA)| + 1 < U32
    case Deliver(p, _) => p in s.toA && Acceptable(p)
    case Timeout(_, _) => true
    case Reenable => true
    case Probe => s.limitA >= LOWER_LIMIT
  }

  function NextAtA(s: Session, e: Event): Session
    requires EnabledAtA(s, e)
  {
    match e
    case Forward(action, data, now) =>
      var r := Forwarded(s.a, action, data, s.limitA, now);
      s.(a := r.next, toB := s.toB + Set(r.sent),
         fromA := Log(s.fromA.given + [Message(action, data)],
                      s.fromA.pushed + Tags(action, Pieces(s.a, data, s.limitA)),
                      s.fromA.handed))
    case Deliver(p, now) =>
      var r := Received(s.a, p, s.limitA, now);
      s.(a := r.next, toB := s.toB + Set(r.sent), fromB := s.fromB.(handed := s.fromB.handed + r.handed))
    case Timeout(now, timeout) =>
      s.(toB := s.toB + Set(TimedOut(s.a, now, timeout).sent))
    case Reenable => s.(a := s.a.(askEnabled := true))
    case Probe =>
      s.(a := s.a.(packetSize := LOWER_LIMIT), toB := s.toB + Set(Probes(LOWER_LIMIT, s.limitA)))
  }

  predicate Enabled(s: Session, t: Step) {
    if t.atA then EnabledAtA(s, t.event) else EnabledAtA(Flip(s), t.event)
  }

  function Next(s: Session, t: Step): Session
    requires Enabled(s, t)
  {
    if t.atA then NextAtA(s, t.event) else Flip(NextAtA(Flip(s), t.event))
  }

  predicate CanRun(s: Session, ts: seq<Step>)
    decreases |ts|
  {
    ts == [] || (Enabled(s, ts[0]) && CanRun(Next(s, ts[0]), ts[1..]))
  }

  function Run(s: Session, ts: seq<Step>): Session
    requires CanRun(s, ts)
    decreases |ts|
  {
    if ts == [] then s else Run(Next(s, ts[0]), ts[1..])
  }

  // ------------------------------------------------------- the invariant, one direction at a time

  predicate Tagged(pushed: seq<Fragment>, seqno: nat, action: byte, data: bytes) {
    1 <= seqno <= |pushed| && pushed[seqno - 1] == Fragment(action, data)
  }

  /** Every buffered fragment is the one that was given its number. */
  ghost predicate Faithful(data: map<nat, Payload>, pushed: seq<Fragment>) {
    forall q :: q in data ==> Tagged(pushed, q, data[q].action, data[q].buf)
  }

  ghost predicate PushedActions(pushed: seq<Fragment>) {
    forall i :: 0 <= i < |pushed| ==> IsData(pushed[i].action)
  }

  ghost predicate SenderKeeps(send: Buffer, pushed: seq<Fragment>) {
    && send.nextPush == |pushed| + 1 < U32
    && PushedActions(pushed)
    && Faithful(send.data, pushed)
  }

  /** Fragments on the wire are numbered as they were pushed. */
  ghost predicate WireFaithful(net: set<Packet>, pushed: seq<Fragment>) {
    forall p :: p in net ==> Acceptable(p) && (IsData(p.action) ==> Tagged(pushed, p.seqno, p.action, p.data))
  }

  ghost predicate Waiting(recv: Buffer, pushed: seq<Fragment>) {
    && 1 <= recv.nextPop <= |pushed| + 1
    && (forall q :: q in recv.data ==> recv.nextPop <= q)
    && Faithful(recv.data, pushed)
  }

  /** The receiver holds only fragments behind a gap. */
  ghost predicate ReceiverKeeps(recv: Buffer, pushed: seq<Fragment>) {
    Waiting(recv, pushed) && recv.nextPop !in recv.data
  }

  predicate Arrived(recv: Buffer, seqno: nat) {
    seqno < recv.nextPop || seqno in recv.data
  }

  /** What is acknowledged has arrived. */
  ghost predicate AcksTrue(back: set<Packet>, recv: Buffer) {
    forall p :: p in back && p.action == TCP_ACK ==> Arrived(recv, p.seqno)
  }

  /** What the sender no longer keeps has arrived. */
  ghost predicate NothingLost(send: Buffer, recv: Buffer, pushed: seq<Fragment>) {
    forall q :: 1 <= q <= |pushed| && q !in send.data ==> Arrived(recv, q)
  }

  /** From A to B. */
  ghost predicate Half(s: Session) {
    && SenderKeeps(s.a.send, s.fromA.pushed)
    && WireFaithful(s.toB, s.fromA.pushed)
    && ReceiverKeeps(s.b.recv, s.fromA.pushed)
    && AcksTrue(s.toA, s.b.recv)
    && NothingLost(s.a.send, s.b.recv, s.fromA.pushed)
    && Join(s.fromA.pushed[..s.b.recv.nextPop - 1]) == Parts(s.fromA.handed, s.b.assembly)
    && Join(s.fromA.pushed) == Parts(NonEmpty(s.fromA.given), [])
  }

  ghost predicate Inv(s: Session) {
    Half(s) && Half(Flip(s))
  }

  lemma StartsWell(limitA: nat, limitB: nat)
    ensures Inv(Start(limitA, limitB))
  {
  }

  // ------------------------------------------------------- what a node's packets are

  /** Packets that carry no acknowledgement and no fragment the sender does not keep. */
  ghost predicate FromBuffer(sent: seq<Packet>, data: map<nat, Payload>) {
    forall p :: p in sent ==>
      && Acceptable(p) && p.action != TCP_ACK
      && (IsData(p.action) ==>
            p.seqno in data && data[p.seqno].action == p.action && data[p.seqno].buf == p.data)
  }

  lemma {:induction false} ResentFromBuffer(m: map<nat, Payload>, now: int, timeout: int, budget: nat, pushed: seq<Fragment>)
    requires PushedActions(pushed) && Faithful(m, pushed)
    ensures FromBuffer(Resent(m, now, timeout, budget), m)
    decreases budget
  {
    if m != map[] && budget > 0 {
      var k := Earliest(m);
      assert Tagged(pushed, k, m[k].action, m[k].buf);
      if now >= m[k].timestamp + timeout {
        ResentFromBuffer(m - {k}, now, timeout, budget - 1, pushed);
      }
    }
  }

  lemma NowhereIsAnywhere(sent: seq<Packet>, data: map<nat, Payload>)
    requires FromBuffer(sent, map[])
    ensures FromBuffer(sent, data)
  {
  }

  lemma {:induction false} ProbesFromNowhere(size: nat, limit: nat)
    requires LOWER_LIMIT <= size <= limit
    ensures FromBuffer(Probes(size, limit), map[])
    decreases limit - size
  {
    if size < limit {
      ProbesFromNowhere(Min(1412 * size / 1000, limit), limit);
    }
  }

  lemma {:induction false} RequestsAreRequests(from: nat, until: nat, budget: nat)
    ensures forall p :: p in Requests(from, until, budget) ==> p.action == TCP_RESEND
    decreases budget
  {
    if from < until && budget > 0 {
      RequestsAreRequests(from + 1, until, budget - 1);
    }
  }

  /** Sending what is buffered leaves both directions intact. */
  lemma SendingKeepsHalves(s: Session, sent: seq<Packet>)
    requires Inv(s) && FromBuffer(sent, s.a.send.data)
    ensures Inv(s.(toB := s.toB + Set(sent)))
  {
    var t := s.(toB := s.toB + Set(sent));
    assert WireFaithful(t.toB, s.fromA.pushed);
    assert AcksTrue(t.toB, s.a.recv);
  }

  // ------------------------------------------------------- forwarding

  lemma {:induction false} PushingKeeps(
      send: Buffer, action: byte, pieces: seq<bytes>, now: int, net: set<Packet>, pushed: seq<Fragment>, recv: Buffer)
    requires SenderKeeps(send, pushed) && WireFaithful(net, pushed) && NothingLost(send, recv, pushed)
    requires IsApplication(action) && |pushed| + |pieces| + 1 < U32
    ensures var pushed' := pushed + Tags(action, pieces);
      && SenderKeeps(PushAll(send, action, pieces, now), pushed')
      && WireFaithful(net + Set(SendAll(send.nextPush, action, pieces)), pushed')
      && NothingLost(PushAll(send, action, pieces, now), recv, pushed')
    decreases |pieces|
  {
    if pieces == [] {
      assert net + Set([]) == net && pushed + [] == pushed;
    } else {
      var a := PieceAction(action, pieces);
      var f := Fragment(a, pieces[0]);
      var one := pushed + [f];
      var p := Packet(a, send.nextPush, pieces[0]);
      var send' := Pushed(send, Payload(a, pieces[0], now));
      PushingOne(send, a, pieces[0], now, net, pushed, recv);
      PushingKeeps(send', action, pieces[1..], now, net + {p}, one, recv);
      assert pushed + Tags(action, pieces) == one + Tags(action, pieces[1..]);
      assert Set(SendAll(send.nextPush, action, pieces)) ==
             {p} + Set(SendAll(send'.nextPush, action, pieces[1..]));
      assert net + {p} + Set(SendAll(send'.nextPush, action, pieces[1..])) ==
             net + Set(SendAll(send.nextPush, action, pieces));
    }
  }

  lemma PushingOne(
      send: Buffer, action: byte, data: bytes, now: int, net: set<Packet>, pushed: seq<Fragment>, recv: Buffer)
    requires SenderKeeps(send, pushed) && WireFaithful(net, pushed) && NothingLost(send, recv, pushed)
    requires IsData(action) && |pushed| + 2 < U32
    ensures var pushed' := pushed + [Fragment(action, data)];
      && SenderKeeps(Pushed(send, Payload(action, data, now)), pushed')
      && WireFaithful(net + {Packet(action, send.nextPush, data)}, pushed')
      && NothingLost(Pushed(send, Payload(action, data, now)), recv, pushed')
  {
    var pushed' := pushed + [Fragment(action, data)];
    var send' := Pushed(send, Payload(action, data, now));
    forall q | q in send'.data
      ensures Tagged(pushed', q, send'.data[q].action, send'.data[q].buf)
    {
      if q != send.nextPush {
        assert Tagged(pushed, q, send.data[q].action, send.data[q].buf);
      }
    }
    forall p | p in net && IsData(p.action)
      ensures Tagged(pushed', p.seqno, p.action, p.data)
    {
      assert Tagged(pushed, p.seqno, p.action, p.data);
    }
  }

  lemma TagsSplit(fs: seq<Fragment>, action: byte, pieces: seq<bytes>)
    requires pieces != []
    ensures fs + Tags(action, pieces) ==
            (fs + [Fragment(PieceAction(action, pieces), pieces[0])]) + Tags(action, pieces[1..])
  {
  }

  /** The fragments of a message put the whole message behind what was there. */
  lemma {:induction false} TagsJoin(fs: seq<Fragment>, action: byte, pieces: seq<bytes>, p: Parts)
    requires action != MORE && pieces != [] && Join(fs) == p
    ensures Join(fs + Tags(action, pieces)) ==
            Parts(p.msgs + [Message(action, p.partial + Concat(pieces))], [])
    decreases |pieces|
  {
    var f, more := Fragment(PieceAction(action, pieces), pieces[0]), pieces[1..];
    JoinSnoc(fs, f);
    TagsSplit(fs, action, pieces);
    if |pieces| == 1 {
      LastPiece(pieces);
      assert fs + [f] + Tags(action, more) == fs + [f];
    } else {
      var q := Parts(p.msgs, p.partial + pieces[0]);
      TagsJoin(fs + [f], action, more, q);
      Regroup(p.partial, pieces[0], Concat(more));
    }
  }

  lemma LastPiece(pieces: seq<bytes>)
    requires |pieces| == 1
    ensures Concat(pieces) == pieces[0]
  {
    assert Concat(pieces[1..]) == [];
  }

  lemma {:induction false} SendAllIsData(seqno: nat, action: byte, pieces: seq<bytes>)
    requires IsApplication(action)
    ensures forall p :: p in SendAll(seqno, action, pieces) ==> IsData(p.action)
    decreases |pieces|
  {
    if pieces != [] {
      SendAllIsData((seqno + 1) % U32, action, pieces[1..]);
    }
  }

  lemma {:induction false} PushAllKeepsPop(b: Buffer, action: byte, pieces: seq<bytes>, now: int)
    ensures PushAll(b, action, pieces, now).nextPop == b.nextPop
    decreases |pieces|
  {
    if pieces != [] {
      PushAllKeepsPop(Pushed(b, Payload(PieceAction(action, pieces), pieces[0], now)), action, pieces[1..], now);
    }
  }

  lemma GivenSnoc(ms: seq<Message>, m: Message)
    ensures NonEmpty(ms + [m]) == NonEmpty(ms) + if m.data == [] then [] else [m]
  {
    assert (ms + [m])[..|ms|] == ms;
  }

  /** The sender's direction, when a message is given. */
  lemma ForwardKeepsHalf(s: Session, action: byte, data: bytes, now: int)
    requires Inv(s) && EnabledAtA(s, Forward(action, data, now))
    ensures Half(NextAtA(s, Forward(action, data, now)))
  {
    var pieces, t := Pieces(s.a, data, s.limitA), NextAtA(s, Forward(action, data, now));
    var size := FragmentSize(|data|, s.a.packetSize, s.limitA);
    CutIsExact(data, size);
    GivenSnoc(s.fromA.given, Message(action, data));
    PushingKeeps(s.a.send, action, pieces, now, s.toB, s.fromA.pushed, s.b.recv);
    if data == [] {
      assert s.fromA.pushed + [] == s.fromA.pushed;
    } else {
      TagsJoin(s.fromA.pushed, action, pieces, Join(s.fromA.pushed));
      assert [] + data == data;
    }
    assert t.fromA.pushed[..s.b.recv.nextPop - 1] == s.fromA.pushed[..s.b.recv.nextPop - 1];
    forall q | q in s.b.recv.data
      ensures Tagged(t.fromA.pushed, q, s.b.recv.data[q].action, s.b.recv.data[q].buf)
    {
      assert Tagged(s.fromA.pushed, q, s.b.recv.data[q].action, s.b.recv.data[q].buf);
    }
  }

  /** The other direction is only sent data, which acknowledge nothing. */
  lemma ForwardKeepsOther(s: Session, action: byte, data: bytes, now: int)
    requires Inv(s) && EnabledAtA(s, Forward(action, data, now))
    ensures Half(Flip(NextAtA(s, Forward(action, data, now))))
  {
    var t := NextAtA(s, Forward(action, data, now));
    SendAllIsData(s.a.send.nextPush, action, Pieces(s.a, data, s.limitA));
    PushAllKeepsPop(s.a.send, action, Pieces(s.a, data, s.limitA), now);
    assert AcksTrue(t.toB, s.a.recv);
  }

  lemma ForwardKeeps(s: Session, action: byte, data: bytes, now: int)
    requires Inv(s) && EnabledAtA(s, Forward(action, data, now))
    ensures Inv(NextAtA(s, Forward(action, data, now)))
  {
    ForwardKeepsHalf(s, action, data, now);
    ForwardKeepsOther(s, action, data, now);
  }

  // ------------------------------------------------------- receiving

  lemma ReadyMeansNext(b: Buffer, pushed: seq<Fragment>)
    requires Waiting(b, pushed)
    ensures Ready(b) <==> b.nextPop in b.data
  {
  }

  lemma JoinNext(pushed: seq<Fragment>, n: nat)
    requires 1 <= n <= |pushed|
    ensures Join(pushed[..n]) == Extend(Join(pushed[..n - 1]), pushed[n - 1])
  {
    assert pushed[..n] == pushed[..n - 1] + [pushed[n - 1]];
    JoinSnoc(pushed[..n - 1], pushed[n - 1]);
  }

  /** The result of draining `b`, as far as the protocol depends on it. */
  ghost predicate DrainsWell(b: Buffer, d: Drain, pushed: seq<Fragment>, handed: seq<Message>) {
    && ReceiverKeeps(d.buffer, pushed)
    && b.nextPop <= d.buffer.nextPop
    && (forall q :: Arrived(b, q) ==> Arrived(d.buffer, q))
    && Join(pushed[..d.buffer.nextPop - 1]) == Parts(handed + d.handed, d.assembly)
  }

  /** Draining hands out exactly the messages completed by the fragments it takes. */
  lemma {:induction false} DrainKeeps(b: Buffer, assembly: bytes, pushed: seq<Fragment>, handed: seq<Message>)
    requires Waiting(b, pushed) && |pushed| + 1 < U32
    requires Join(pushed[..b.nextPop - 1]) == Parts(handed, assembly)
    ensures DrainsWell(b, Drained(b, assembly), pushed, handed)
    decreases |b.data|
  {
    ReadyMeansNext(b, pushed);
    if Ready(b) {
      var n := b.nextPop;
      var p := b.data[n];
      assert Tagged(pushed, n, p.action, p.buf);
      JoinNext(pushed, n);
      PoppedWaits(b, pushed);
      if p.action == MORE {
        DrainKeeps(Popped(b), assembly + p.buf, pushed, handed);
      } else {
        DrainKeeps(Popped(b), [], pushed, handed + [Message(p.action, assembly + p.buf)]);
        DrainHandsOn(b, assembly, pushed, handed);
      }
    } else {
      assert handed + [] == handed;
    }
  }

  lemma DrainHandsOn(b: Buffer, assembly: bytes, pushed: seq<Fragment>, handed: seq<Message>)
    requires Ready(b) && b.data[b.nextPop].action != MORE
    requires Popped(b).nextPop == b.nextPop + 1
    requires forall q :: Arrived(b, q) ==> Arrived(Popped(b), q)
    requires var p := b.data[b.nextPop];
      DrainsWell(Popped(b), Drained(Popped(b), []), pushed, handed + [Message(p.action, assembly + p.buf)])
    ensures DrainsWell(b, Drained(b, assembly), pushed, handed)
  {
    var p := b.data[b.nextPop];
    var m, d := Message(p.action, assembly + p.buf), Drained(Popped(b), []);
    assert handed + ([m] + d.handed) == (handed + [m]) + d.handed;
  }

  lemma PoppedWaits(b: Buffer, pushed: seq<Fragment>)
    requires Waiting(b, pushed) && Ready(b) && |pushed| + 1 < U32
    ensures Waiting(Popped(b), pushed) && Popped(b).nextPop == b.nextPop + 1
    ensures forall q :: Arrived(b, q) ==> Arrived(Popped(b), q)
  {
    assert Tagged(pushed, b.nextPop, b.data[b.nextPop].action, b.data[b.nextPop].buf);
  }

  lemma InsertingWaits(recv: Buffer, p: Packet, now: int, pushed: seq<Fragment>)
    requires ReceiverKeeps(recv, pushed) && Tagged(pushed, p.seqno, p.action, p.data)
    ensures var b := Inserted(recv, p.seqno, Payload(p.action, p.data, now));
      Waiting(b, pushed) && b.nextPop == recv.nextPop &&
      Arrived(b, p.seqno) && forall q :: Arrived(recv, q) ==> Arrived(b, q)
  {
  }

  lemma AcknowledgesArrived(e: Endpoint, p: Packet, now: int)
    ensures forall q :: q in OnData(e, p, now).sent ==> Acceptable(q) && !IsData(q.action)
    ensures forall q :: q in OnData(e, p, now).sent && q.action == TCP_ACK ==> q.seqno == p.seqno
  {
    var d := Drained(Inserted(e.recv, p.seqno, Payload(p.action, p.data, now)), e.assembly);
    if d.buffer.data != map[] {
      RequestsAreRequests(d.buffer.nextPop, Earliest(d.buffer.data), MAX_REQUESTS);
    }
  }

  lemma AfterDrain(s: Session, b: Buffer, d: Drain, seqno: nat, r: Reaction)
    requires Half(Flip(s)) && DrainsWell(b, d, s.fromB.pushed, s.fromB.handed)
    requires forall q :: Arrived(s.a.recv, q) ==> Arrived(b, q)
    requires Arrived(b, seqno)
    requires r.next.recv == d.buffer && r.next.assembly == d.assembly && r.handed == d.handed
    requires forall q :: q in r.sent && q.action == TCP_ACK ==> q.seqno == seqno
    ensures Half(Flip(s.(a := r.next, toB := s.toB + Set(r.sent),
                         fromB := s.fromB.(handed := s.fromB.handed + r.handed))))
  {
  }

  /** A fragment's effect at the receiver, seen from the direction it belongs to. */
  lemma DataKeepsReceiver(s: Session, p: Packet, now: int)
    requires Half(Flip(s)) && p in s.toA && IsData(p.action)
    ensures var r := OnData(s.a, p, now);
      Half(Flip(s.(a := r.next, toB := s.toB + Set(r.sent),
                   fromB := s.fromB.(handed := s.fromB.handed + r.handed))))
  {
    var r, pushed := OnData(s.a, p, now), s.fromB.pushed;
    assert Tagged(pushed, p.seqno, p.action, p.data);
    var b := Inserted(s.a.recv, p.seqno, Payload(p.action, p.data, now));
    InsertingWaits(s.a.recv, p, now, pushed);
    DrainKeeps(b, s.a.assembly, pushed, s.fromB.handed);
    AcknowledgesArrived(s.a, p, now);
    AfterDrain(s, b, Drained(b, s.a.assembly), p.seqno, r);
  }

  lemma DataKeepsSender(s: Session, p: Packet, now: int)
    requires Half(s)
    ensures var r := OnData(s.a, p, now);
      Half(s.(a := r.next, toB := s.toB + Set(r.sent),
              fromB := s.fromB.(handed := s.fromB.handed + r.handed)))
  {
    AcknowledgesArrived(s.a, p, now);
  }

  lemma AckKeeps(s: Session, p: Packet, now: int)
    requires Inv(s) && EnabledAtA(s, Deliver(p, now)) && p.action == TCP_ACK
    ensures Inv(NextAtA(s, Deliver(p, now)))
  {
    assert s.fromB.handed + [] == s.fromB.handed && s.toB + Set([]) == s.toB;
    assert Arrived(s.b.recv, p.seqno);
    assert NothingLost(Acked(s.a.send, p.seqno), s.b.recv, s.fromA.pushed);
  }

  lemma ResendKeeps(s: Session, p: Packet, now: int)
    requires Inv(s) && EnabledAtA(s, Deliver(p, now)) && p.action == TCP_RESEND
    ensures Inv(NextAtA(s, Deliver(p, now)))
  {
    assert s.fromB.handed + [] == s.fromB.handed;
    if p.seqno in s.a.send.data {
      assert Tagged(s.fromA.pushed, p.seqno, s.a.send.data[p.seqno].action, s.a.send.data[p.seqno].buf);
    }
    SendingKeepsHalves(s, OnResendRequest(s.a, p.seqno).sent);
  }

  lemma ProbingKeeps(s: Session, p: Packet, now: int)
    requires Inv(s) && EnabledAtA(s, Deliver(p, now)) && (p.action == PACKSIZE_TEST || p.action == PACKSIZE_ACK)
    ensures Inv(NextAtA(s, Deliver(p, now)))
  {
    assert s.fromB.handed + [] == s.fromB.handed && s.toB + Set([]) == s.toB;
    if p.action == PACKSIZE_TEST {
      SendingKeepsHalves(s, OnProbe(s.a, p, s.limitA).sent);
    } else {
      SizeDoesNotMatter(s, OnProbeAck(s.a, p.seqno).next.packetSize);
    }
  }

  lemma {:induction false} DeliverKeeps(s: Session, p: Packet, now: int)
    requires Inv(s) && EnabledAtA(s, Deliver(p, now))
    ensures Inv(NextAtA(s, Deliver(p, now)))
  {
    if p.action == TCP_ACK {
      AckKeeps(s, p, now);
    } else if p.action == TCP_RESEND {
      ResendKeeps(s, p, now);
    } else if p.action == PACKSIZE_TEST || p.action == PACKSIZE_ACK {
      ProbingKeeps(s, p, now);
    } else {
      DataKeepsReceiver(s, p, now);
      DataKeepsSender(s, p, now);
    }
  }

  // ------------------------------------------------------- every run

  lemma TimeoutKeeps(s: Session, now: int, timeout: int)
    requires Inv(s)
    ensures Inv(NextAtA(s, Timeout(now, timeout)))
  {
    ResentFromBuffer(s.a.send.data, now, timeout, MAX_RESEND_AT_ONCE, s.fromA.pushed);
    SendingKeepsHalves(s, TimedOut(s.a, now, timeout).sent);
  }

  lemma SizeDoesNotMatter(s: Session, size: nat)
    requires Inv(s)
    ensures Inv(s.(a := s.a.(packetSize := size)))
  {
  }

  lemma ProbeKeeps(s: Session)
    requires Inv(s) && s.limitA >= LOWER_LIMIT
    ensures Inv(NextAtA(s, Probe))
  {
    var t := s.(a := s.a.(packetSize := LOWER_LIMIT));
    SizeDoesNotMatter(s, LOWER_LIMIT);
    ProbesFromNowhere(LOWER_LIMIT, s.limitA);
    NowhereIsAnywhere(Probes(LOWER_LIMIT, s.limitA), t.a.send.data);
    SendingKeepsHalves(t, Probes(LOWER_LIMIT, s.limitA));
    assert NextAtA(s, Probe) == t.(toB := t.toB + Set(Probes(LOWER_LIMIT, s.limitA)));
  }

  lemma ReenableKeeps(s: Session)
    requires Inv(s)
    ensures Inv(NextAtA(s, Reenable))
  {
  }

  lemma NextAtAKeeps(s: Session, e: Event)
    requires Inv(s) && EnabledAtA(s, e)
    ensures Inv(NextAtA(s, e))
  {
    match e
    case Forward(action, data, now) => ForwardKeeps(s, action, data, now);
    case Deliver(p, now) => DeliverKeeps(s, p, now);
    case Timeout(now, timeout) => TimeoutKeeps(s, now, timeout);
    case Reenable => ReenableKeeps(s);
    case Probe => ProbeKeeps(s);
  }

  lemma {:induction false} NextKeeps(s: Session, t: Step)
    requires Inv(s) && Enabled(s, t)
    ensures Inv(Next(s, t))
  {
    if t.atA {
      NextAtAKeeps(s, t.event);
    } else {
      NextAtAKeeps(Flip(s), t.event);
    }
  }

  lemma {:induction false} RunKeeps(s: Session, ts: seq<Step>)
    requires Inv(s) && CanRun(s, ts)
    ensures Inv(Run(s, ts))
    decreases |ts|
  {
    if ts != [] {
      NextKeeps(s, ts[0]);
      RunKeeps(Next(s, ts[0]), ts[1..]);
    }
  }

  /** What was handed out is a prefix of what was given, message by message. */
  lemma HandedIsPrefix(s: Session)
    requires Half(s)
    ensures s.fromA.handed <= NonEmpty(s.fromA.given)
  {
    JoinMonotone(s.fromA.pushed, s.b.recv.nextPop - 1);
  }

  /** In every run both receivers see the messages in order, exactly once, and nothing else. */
  lemma InOrderExactlyOnce(limitA: nat, limitB: nat, ts: seq<Step>)
    requires CanRun(Start(limitA, limitB), ts)
    ensures var s := Run(Start(limitA, limitB), ts);
      s.fromA.handed <= NonEmpty(s.fromA.given) && s.fromB.handed <= NonEmpty(s.fromB.given)
  {
    StartsWell(limitA, limitB);
    RunKeeps(Start(limitA, limitB), ts);
    var s := Run(Start(limitA, limitB), ts);
    HandedIsPrefix(s);
    HandedIsPrefix(Flip(s));
  }

  /** The fragment the receiver waits for is still in the send buffer, with its original bytes. */
  lemma AwaitedIsKept(s: Session)
    requires Half(s) && s.b.recv.nextPop < s.a.send.nextPush
    ensures var n := s.b.recv.nextPop;
      && n in s.a.send.data
      && Tagged(s.fromA.pushed, n, s.a.send.data[n].action, s.a.send.data[n].buf)
  {
    var n := s.b.recv.nextPop;
    assert !Arrived(s.b.recv, n);
  }

  /** When the send buffer is empty, everything given has been handed out. */
  lemma EmptyMeansDone(s: Session)
    requires Half(s) && s.a.send.data == map[]
    ensures s.fromA.handed == NonEmpty(s.fromA.given) && s.b.recv.data == map[] && s.b.assembly == []
  {
    var n := s.b.recv.nextPop;
    if n <= |s.fromA.pushed| {
      AwaitedIsKept(s);
    }
    assert s.fromA.pushed[..n - 1] == s.fromA.pushed;
    if s.b.recv.data != map[] {
      var q := Earliest(s.b.recv.data);
      HeldIsPushed(s, q);
    }
  }

  lemma HeldIsPushed(s: Session, q: nat)
    requires Half(s) && q in s.b.recv.data
    ensures s.b.recv.nextPop < q <= |s.fromA.pushed|
  {
    assert Tagged(s.fromA.pushed, q, s.b.recv.data[q].action, s.b.recv.data[q].buf);
  }
}
