/** What one node keeps for one peer, and how it sends, receives, resends and probes. */
module TafnetNode {
  import opened Bytes
  import opened Keys
  import opened Fragments
  import opened Buffers
  import Crc32

  const TCP_DATA: byte := 5
  const TCP_ACK: byte := 6
  const TCP_RESEND: byte := 7
  const MORE: byte := 8
  const ENUM: byte := 9
  const UDP_PROTECTED: byte := 10
  const PACKSIZE_TEST: byte := 11
  const PACKSIZE_ACK: byte := 12
  const HELLO: byte := 13
  const MAX_RESEND_AT_ONCE: nat := 5
  const MAX_REQUESTS: nat := 10

  /** A datagram with a buffered header. */
  datatype Packet = Packet(action: byte, seqno: nat, data: bytes)

  datatype Message = Message(action: byte, data: bytes)

  datatype Endpoint = Endpoint(
    send: Buffer, recv: Buffer, assembly: bytes, packetSize: nat, askEnabled: bool)

  const FRESH := Endpoint(EMPTY, EMPTY, [], LOWER_LIMIT, true)

  datatype Reaction = Reaction(next: Endpoint, sent: seq<Packet>, handed: seq<Message>)

  /** The buffered actions that carry a numbered fragment. */
  predicate IsData(action: byte) {
    action >= TCP_DATA && action != TCP_ACK && action != TCP_RESEND && action != PACKSIZE_TEST && action != PACKSIZE_ACK
  }

  // ------------------------------------------------------- sending

  /** The last piece carries the message's action, the others say that more follows. */
  function PieceAction(action: byte, pieces: seq<bytes>): byte {
    if |pieces| == 1 then action else MORE
  }

  function PushAll(b: Buffer, action: byte, pieces: seq<bytes>, now: int): Buffer
    decreases |pieces|
  {
    if pieces == [] then b
    else PushAll(Pushed(b, Payload(PieceAction(action, pieces), pieces[0], now)), action, pieces[1..], now)
  }

  function SendAll(seqno: nat, action: byte, pieces: seq<bytes>): seq<Packet>
    decreases |pieces|
  {
    if pieces == [] then []
    else [Packet(PieceAction(action, pieces), seqno, pieces[0])] + SendAll((seqno + 1) % U32, action, pieces[1..])
  }

  lemma SendAllStep(seqno: nat, action: byte, pieces: seq<bytes>, sent: seq<Packet>)
    requires pieces != []
    ensures sent + [Packet(PieceAction(action, pieces), seqno, pieces[0])] +
            SendAll((seqno + 1) % U32, action, pieces[1..]) == sent + SendAll(seqno, action, pieces)
  {
  }

  function Pieces(e: Endpoint, data: bytes, limit: nat): seq<bytes> {
    Cut(data, FragmentSize(|data|, e.packetSize, limit))
  }

  function Forwarded(e: Endpoint, action: byte, data: bytes, limit: nat, now: int): Reaction {
    var pieces := Pieces(e, data, limit);
    Reaction(e.(send := PushAll(e.send, action, pieces, now)), SendAll(e.send.nextPush, action, pieces), [])
  }

  // ------------------------------------------------------- receiving

  datatype Drain = Drain(buffer: Buffer, assembly: bytes, handed: seq<Message>)

  /** Takes everything that is in order, joining fragments up to the last one of each message. */
  function Drained(b: Buffer, assembly: bytes): Drain
    decreases |b.data|
  {
    if !Ready(b) then Drain(b, assembly, [])
    else
      var p, whole := b.data[b.nextPop], assembly + b.data[b.nextPop].buf;
      if p.action != MORE then
        var d := Drained(Popped(b), []);
        d.(handed := [Message(p.action, whole)] + d.handed)
      else Drained(Popped(b), whole)
  }

  /** Draining ends as `end` says, when `handed` has been handed out so far. */
  ghost predicate EndsAs(end: Drain, b: Buffer, assembly: bytes, handed: seq<Message>) {
    var d := Drained(b, assembly);
    end == Drain(d.buffer, d.assembly, handed + d.handed)
  }

  lemma DrainGoesOn(end: Drain, b: Buffer, assembly: bytes, handed: seq<Message>)
    requires EndsAs(end, b, assembly, handed) && Ready(b)
    ensures var p := b.data[b.nextPop];
      if p.action != MORE then EndsAs(end, Popped(b), [], handed + [Message(p.action, assembly + p.buf)])
      else EndsAs(end, Popped(b), assembly + p.buf, handed)
  {
    var p := b.data[b.nextPop];
    if p.action != MORE {
      var m, d := Message(p.action, assembly + p.buf), Drained(Popped(b), []);
      assert handed + ([m] + d.handed) == handed + [m] + d.handed;
    }
  }

  /** Requests for the numbers from `from` to before `until`, at most `budget` of them. */
  function Requests(from: nat, until: nat, budget: nat): seq<Packet>
    decreases budget
  {
    if from >= until || budget == 0 then []
    else [Packet(TCP_RESEND, from, [])] + Requests(from + 1, until, budget - 1)
  }

  /** `n` requests, for `from` and the numbers that follow it. */
  ghost predicate RequestsFrom(ps: seq<Packet>, from: nat, n: nat) {
    |ps| == n && forall i: nat :: i < n ==> ps[i] == Packet(TCP_RESEND, from + i, [])
  }

  lemma {:induction false} RequestsExactly(from: nat, until: nat, budget: nat)
    ensures RequestsFrom(Requests(from, until, budget), from, if until <= from then 0 else Min(budget, until - from))
    decreases budget
  {
    if from < until && budget > 0 {
      RequestsExactly(from + 1, until, budget - 1);
      var ps := Requests(from + 1, until, budget - 1);
      forall i: nat | 0 < i <= |ps|
        ensures Requests(from, until, budget)[i] == Packet(TCP_RESEND, from + i, [])
      {
        assert ps[i - 1] == Packet(TCP_RESEND, from + 1 + (i - 1), []);
      }
    }
  }

  function OnAck(e: Endpoint, seqno: nat): Reaction {
    Reaction(e.(send := Acked(e.send, seqno)), [], [])
  }

  function OnResendRequest(e: Endpoint, seqno: nat): Reaction {
    Reaction(e,
             if seqno in e.send.data
             then [Packet(e.send.data[seqno].action, seqno, e.send.data[seqno].buf)] else [],
             [])
  }

  /** The checks a size probe must pass: its length, its checksum, and this node's own limit. */
  predicate ProbePasses(p: Packet, limit: nat)
    requires |p.data| >= 4
  {
    |p.data| == p.seqno && Crc32.Crc(p.data[4..]) == Word32(p.data) && p.seqno <= limit
  }

  function OnProbe(e: Endpoint, p: Packet, limit: nat): Reaction
    requires |p.data| >= 4
  {
    Reaction(e, if ProbePasses(p, limit) then [Packet(PACKSIZE_ACK, p.seqno, [])] else [], [])
  }

  function OnProbeAck(e: Endpoint, size: nat): Reaction {
    Reaction(e.(packetSize := Max(e.packetSize, size)), [], [])
  }

  function OnData(e: Endpoint, p: Packet, now: int): Reaction {
    var inserted := Inserted(e.recv, p.seqno, Payload(p.action, p.data, now));
    var d := Drained(inserted, e.assembly);
    var enabled := e.askEnabled || Ready(inserted);
    var asks := d.buffer.data != map[] && enabled;
    Reaction(
      e.(recv := d.buffer, assembly := d.assembly, askEnabled := enabled && !asks),
      [Packet(TCP_ACK, p.seqno, [])] +
      (if asks then Requests(d.buffer.nextPop, Earliest(d.buffer.data), MAX_REQUESTS) else []),
      d.handed)
  }

  predicate Acceptable(p: Packet) {
    p.action >= TCP_DATA && (p.action == PACKSIZE_TEST ==> |p.data| >= 4)
  }

  function Received(e: Endpoint, p: Packet, limit: nat, now: int): Reaction
    requires Acceptable(p)
  {
    if p.action == TCP_ACK then OnAck(e, p.seqno)
    else if p.action == TCP_RESEND then OnResendRequest(e, p.seqno)
    else if p.action == PACKSIZE_TEST then OnProbe(e, p, limit)
    else if p.action == PACKSIZE_ACK then OnProbeAck(e, p.seqno)
    else OnData(e, p, now)
  }

  // ------------------------------------------------------- timers and probes

  /** The oldest unacknowledged fragments, stopping at the first that is not due. */
  function Resent(m: map<nat, Payload>, now: int, timeout: int, budget: nat): seq<Packet>
    decreases budget
  {
    if m == map[] || budget == 0 then []
    else
      var k := Earliest(m);
      if now < m[k].timestamp + timeout then []
      else [Packet(m[k].action, k, m[k].buf)] + Resent(m - {k}, now, timeout, budget - 1)
  }

  predicate Due(p: Payload, now: int, timeout: int) {
    now >= p.timestamp + timeout
  }

  /** `ps` are fragments of `m` in the order of `ids`, all of them due; it ends at the budget or at one that is not due. */
  ghost predicate FirstDue(ps: seq<Packet>, m: map<nat, Payload>, ids: seq<nat>, now: int, timeout: int, budget: nat) {
    && |ps| <= |ids| && |ps| <= budget
    && (forall i :: 0 <= i < |ids| ==> ids[i] in m)
    && (forall i :: 0 <= i < |ps| ==>
          Due(m[ids[i]], now, timeout) && ps[i] == Packet(m[ids[i]].action, ids[i], m[ids[i]].buf))
    && (|ps| < |ids| && |ps| < budget ==> !Due(m[ids[|ps|]], now, timeout))
  }

  /** The same for the oldest fragments of all. */
  ghost predicate OldestDue(ps: seq<Packet>, m: map<nat, Payload>, now: int, timeout: int, budget: nat) {
    FirstDue(ps, m, Sorted(m.Keys), now, timeout, budget)
  }

  lemma FirstDueCons(
      ps: seq<Packet>, m: map<nat, Payload>, ids: seq<nat>, now: int, timeout: int, budget: nat, k: nat)
    requires k in m && k !in ids && Due(m[k], now, timeout) && budget > 0
    requires FirstDue(ps, m - {k}, ids, now, timeout, budget - 1)
    ensures FirstDue([Packet(m[k].action, k, m[k].buf)] + ps, m, [k] + ids, now, timeout, budget)
  {
  }

  lemma FirstDueNone(m: map<nat, Payload>, ids: seq<nat>, now: int, timeout: int, budget: nat)
    requires forall id :: id in ids ==> id in m
    requires ids == [] || budget == 0 || !Due(m[ids[0]], now, timeout)
    ensures FirstDue([], m, ids, now, timeout, budget)
  {
  }

  lemma SortedHead(m: map<nat, Payload>)
    requires m != map[]
    ensures var k := Earliest(m);
      k !in Sorted((m - {k}).Keys) && Sorted(m.Keys) == [k] + Sorted((m - {k}).Keys)
  {
    SomeKey(m);
    assert (m - {Earliest(m)}).Keys == m.Keys - {Earliest(m)};
  }

  lemma {:induction false} ResentExactly(m: map<nat, Payload>, now: int, timeout: int, budget: nat)
    ensures OldestDue(Resent(m, now, timeout, budget), m, now, timeout, budget)
    decreases budget
  {
    if m == map[] || budget == 0 || !Due(m[Earliest(m)], now, timeout) {
      if m != map[] { SortedHead(m); }
      FirstDueNone(m, Sorted(m.Keys), now, timeout, budget);
    } else {
      var k := Earliest(m);
      SortedHead(m);
      ResentExactly(m - {k}, now, timeout, budget - 1);
      FirstDueCons(Resent(m - {k}, now, timeout, budget - 1), m, Sorted((m - {k}).Keys), now, timeout, budget, k);
    }
  }

  function TimedOut(e: Endpoint, now: int, timeout: int): Reaction {
    Reaction(e, Resent(e.send.data, now, timeout, MAX_RESEND_AT_ONCE), [])
  }

  function Pattern(size: nat): bytes {
    seq(size, i requires 0 <= i < size => i % 256)
  }

  /** The bytes of a probe: a checksum and the pattern it covers. */
  function ProbeData(size: nat): bytes
    requires size >= 4
  {
    Bytes32(Crc32.Crc(Pattern(size)[4..])) + Pattern(size)[4..]
  }

  /** The probes from `size` on. */
  function Probes(size: nat, limit: nat): seq<Packet>
    requires LOWER_LIMIT <= size <= limit
    decreases limit - size
  {
    [Packet(PACKSIZE_TEST, size, ProbeData(size))] +
    if size >= limit then [] else Probes(Min(1412 * size / 1000, limit), limit)
  }

  lemma ProbesStep(size: nat, limit: nat, sent: seq<Packet>)
    requires LOWER_LIMIT <= size <= limit
    ensures var p := Packet(PACKSIZE_TEST, size, ProbeData(size));
      sent + Probes(size, limit) ==
      (sent + [p]) + if size >= limit then [] else Probes(Min(1412 * size / 1000, limit), limit)
  {
  }

  /** A probe for `size` that the peer answers if and only if its own limit allows the size. */
  ghost predicate SoundProbe(p: Packet, size: nat, peerLimit: nat) {
    && p.action == PACKSIZE_TEST && p.seqno == size && Acceptable(p)
    && (ProbePasses(p, peerLimit) <==> size <= peerLimit)
  }

  lemma ProbeIsSound(size: nat, peerLimit: nat)
    requires size >= 4
    ensures SoundProbe(Packet(PACKSIZE_TEST, size, ProbeData(size)), size, peerLimit)
  {
    var tail := Pattern(size)[4..];
    Crc32.CrcBound(tail);
    Bytes32Word32(Crc32.Crc(tail), tail);
    assert ProbeData(size)[4..] == tail;
  }

  lemma SoundCons(p: Packet, size: nat, ps: seq<Packet>, sizes: seq<nat>, peerLimit: nat)
    requires SoundProbe(p, size, peerLimit) && SoundProbes(ps, sizes, peerLimit)
    ensures SoundProbes([p] + ps, [size] + sizes, peerLimit)
  {
  }

  ghost predicate SoundProbes(ps: seq<Packet>, sizes: seq<nat>, peerLimit: nat) {
    |ps| == |sizes| && forall i :: 0 <= i < |ps| ==> SoundProbe(ps[i], sizes[i], peerLimit)
  }

  /** One sound probe for each size. */
  lemma {:induction false} ProbesAreSound(size: nat, limit: nat, peerLimit: nat)
    requires LOWER_LIMIT <= size <= limit
    ensures SoundProbes(Probes(size, limit), ProbeSizes(size, limit), peerLimit)
    decreases limit - size
  {
    var p := Packet(PACKSIZE_TEST, size, ProbeData(size));
    ProbeIsSound(size, peerLimit);
    if size < limit {
      var next := Min(1412 * size / 1000, limit);
      ProbesAreSound(next, limit, peerLimit);
      SoundCons(p, size, Probes(next, limit), ProbeSizes(next, limit), peerLimit);
    } else {
      SoundCons(p, size, [], [], peerLimit);
      assert [p] + [] == [p] && [size] + [] == [size];
    }
  }

  // ------------------------------------------------------- the source's object

  class Peer {
    const sendBuffer: DataBuffer
    const receiveBuffer: DataBuffer
    const maxPacketSize: nat
    var reassembly: bytes
    var packetSize: nat
    var resendRequestEnabled: bool

    predicate Valid() {
      sendBuffer != receiveBuffer
    }

    function Model(): Endpoint
      reads this, sendBuffer, receiveBuffer
    {
      Endpoint(sendBuffer.Model(), receiveBuffer.Model(), reassembly, packetSize, resendRequestEnabled)
    }

    constructor (limit: nat)
      ensures Valid() && fresh(sendBuffer) && fresh(receiveBuffer)
      ensures Model() == FRESH && maxPacketSize == limit
    {
      sendBuffer := new DataBuffer();
      receiveBuffer := new DataBuffer();
      maxPacketSize := limit;
      reassembly, packetSize, resendRequestEnabled := [], LOWER_LIMIT, true;
    }

    /** Cuts a message into fragments, buffers and sends them. */
    method ForwardGameData(action: byte, data: bytes, now: int) returns (sent: seq<Packet>)
      requires Valid()
      modifies sendBuffer
      ensures Reaction(Model(), sent, []) == Forwarded(old(Model()), action, data, maxPacketSize, now)
    {
      var len := |data|;
      var numFragments := len / (packetSize + 1) + 1;
      var size := (len + numFragments - 1) / numFragments;
      size := Min(size, maxPacketSize);
      size := Max(size, LOWER_LIMIT);
      sent := SendFragments(action, data, size, now);
    }

    method SendFragments(action: byte, data: bytes, size: nat, now: int) returns (sent: seq<Packet>)
      requires size > 0
      modifies sendBuffer
      ensures sendBuffer.Model() == PushAll(old(sendBuffer.Model()), action, Cut(data, size), now)
      ensures sent == SendAll(old(sendBuffer.nextPushSeq), action, Cut(data, size))
    {
      sent := [];
      var fragOffset := 0;
      ghost var pieces := Cut(data, size);
      while fragOffset < |data|
        invariant pieces == Cut(Rest(data, fragOffset), size)
        invariant PushAll(sendBuffer.Model(), action, pieces, now) ==
                  PushAll(old(sendBuffer.Model()), action, Cut(data, size), now)
        invariant sent + SendAll(sendBuffer.nextPushSeq, action, pieces) ==
                  SendAll(old(sendBuffer.nextPushSeq), action, Cut(data, size))
        decreases |data| - fragOffset
      {
        var sz := Min(size, |data| - fragOffset);
        CutStep(data, fragOffset, size);
        var a := if fragOffset + sz >= |data| then action else MORE;
        var p := data[fragOffset..fragOffset + sz];
        SendAllStep(sendBuffer.nextPushSeq, action, pieces, sent);
        var seqno := sendBuffer.PushBack(a, p, now);
        sent := sent + [Packet(a, seqno, p)];
        fragOffset := fragOffset + size;
        pieces := pieces[1..];
      }
    }

    /** One datagram from the peer. */
    method OnDatagram(p: Packet, now: int) returns (sent: seq<Packet>, handed: seq<Message>)
      requires Valid() && Acceptable(p)
      modifies this, sendBuffer, receiveBuffer
      ensures Reaction(Model(), sent, handed) == Received(old(Model()), p, maxPacketSize, now)
    {
      sent, handed := [], [];
      if p.action == TCP_ACK {
        var known := sendBuffer.AckData(p.seqno);
      } else if p.action == TCP_RESEND {
        if p.seqno in sendBuffer.data {
          var data := sendBuffer.data[p.seqno];
          sent := [Packet(data.action, p.seqno, data.buf)];
        }
      } else if p.action == PACKSIZE_TEST {
        if |p.data| == p.seqno {
          var crc32 := new Crc32.Crc32();
          var crc := crc32.FullCRC(p.data[4..]);
          if crc == Word32(p.data) && p.seqno <= maxPacketSize {
            sent := [Packet(PACKSIZE_ACK, p.seqno, [])];
          }
        }
      } else if p.action == PACKSIZE_ACK {
        if p.seqno > packetSize {
          packetSize := p.seqno;
        }
      } else {
        sent, handed := OnFragment(p, now);
      }
    }

    /** A numbered fragment: store, acknowledge, take what is in order, ask for what is missing. */
    method OnFragment(p: Packet, now: int) returns (sent: seq<Packet>, handed: seq<Message>)
      requires Valid()
      modifies this, receiveBuffer
      ensures Reaction(Model(), sent, handed) == OnData(old(Model()), p, now)
    {
      receiveBuffer.Insert(p.seqno, p.action, p.data, now);
      sent := [Packet(TCP_ACK, p.seqno, [])];
      handed := DrainInOrder();
      if receiveBuffer.data != map[] && resendRequestEnabled {
        resendRequestEnabled := false;
        var requests := AskForGaps();
        sent := sent + requests;
      }
    }

    method DrainInOrder() returns (handed: seq<Message>)
      requires Valid()
      modifies this, receiveBuffer
      ensures Drain(receiveBuffer.Model(), reassembly, handed) ==
              Drained(old(receiveBuffer.Model()), old(reassembly))
      ensures resendRequestEnabled == (old(resendRequestEnabled) || old(Ready(receiveBuffer.Model())))
      ensures packetSize == old(packetSize)
    {
      handed := [];
      ghost var start := Drained(receiveBuffer.Model(), reassembly);
      ghost var popped := false;
      while receiveBuffer.ReadyRead()
        invariant packetSize == old(packetSize)
        invariant resendRequestEnabled == (old(resendRequestEnabled) || popped)
        invariant popped ==> old(Ready(receiveBuffer.Model()))
        invariant !popped ==> receiveBuffer.Model() == old(receiveBuffer.Model())
        invariant EndsAs(start, receiveBuffer.Model(), reassembly, handed)
        decreases |receiveBuffer.data|
      {
        DrainGoesOn(start, receiveBuffer.Model(), reassembly, handed);
        resendRequestEnabled := true;
        popped := true;
        var data := receiveBuffer.Pop();
        reassembly := reassembly + data.buf;
        if data.action != MORE {
          handed := handed + [Message(data.action, reassembly)];
          reassembly := [];
        }
      }
    }

    method AskForGaps() returns (requests: seq<Packet>)
      requires Valid() && receiveBuffer.data != map[]
      ensures requests == Requests(receiveBuffer.nextPopSeq, Earliest(receiveBuffer.data), MAX_REQUESTS)
      ensures var missing := Max(0, Earliest(receiveBuffer.data) - receiveBuffer.nextPopSeq);
        RequestsFrom(requests, receiveBuffer.nextPopSeq, Min(10, missing))
    {
      RequestsExactly(receiveBuffer.nextPopSeq, Earliest(receiveBuffer.data), MAX_REQUESTS);
      requests := [];
      var remaining, seqno := MAX_REQUESTS, receiveBuffer.nextPopSeq;
      var until := Earliest(receiveBuffer.data);
      while seqno < until && remaining > 0
        invariant requests + Requests(seqno, until, remaining) ==
                  Requests(receiveBuffer.nextPopSeq, until, MAX_REQUESTS)
      {
        requests := requests + [Packet(TCP_RESEND, seqno, [])];
        seqno, remaining := seqno + 1, remaining - 1;
      }
    }

    /** The resend timer. */
    method OnResendTimer(now: int, timeout: int) returns (sent: seq<Packet>)
      requires Valid()
      ensures Reaction(Model(), sent, []) == TimedOut(Model(), now, timeout)
      ensures OldestDue(sent, sendBuffer.data, now, timeout, 5)
    {
      sent := ResendDue(now, timeout);
      ResentExactly(sendBuffer.data, now, timeout, MAX_RESEND_AT_ONCE);
    }

    method ResendDue(now: int, timeout: int) returns (sent: seq<Packet>)
      ensures sent == Resent(sendBuffer.data, now, timeout, MAX_RESEND_AT_ONCE)
    {
      sent := [];
      var rest, budget := sendBuffer.data, MAX_RESEND_AT_ONCE;
      while rest != map[] && budget > 0
        invariant sent + Resent(rest, now, timeout, budget) ==
                  Resent(sendBuffer.data, now, timeout, MAX_RESEND_AT_ONCE)
        decreases budget
      {
        var seqno := Earliest(rest);
        var data := rest[seqno];
        if now < data.timestamp + timeout {
          break;
        }
        sent := sent + [Packet(data.action, seqno, data.buf)];
        rest, budget := rest - {seqno}, budget - 1;
      }
    }

    method OnResendReqReenableTimer()
      modifies this`resendRequestEnabled
      ensures Model() == old(Model()).(askEnabled := true)
    {
      resendRequestEnabled := true;
    }

    /** Starts over from the lowest packet size and probes up to the limit. */
    method SendPacksizeTests() returns (sent: seq<Packet>)
      requires maxPacketSize >= LOWER_LIMIT
      modifies this`packetSize
      ensures Model() == old(Model()).(packetSize := LOWER_LIMIT)
      ensures sent == Probes(LOWER_LIMIT, maxPacketSize)
    {
      packetSize := LOWER_LIMIT;
      sent := SendProbes(packetSize);
    }

    method SendProbes(size: nat) returns (sent: seq<Packet>)
      requires LOWER_LIMIT <= size <= maxPacketSize
      ensures sent == Probes(size, maxPacketSize)
    {
      sent := [];
      var sz := size;
      while true
        invariant LOWER_LIMIT <= sz <= maxPacketSize
        invariant sent + Probes(sz, maxPacketSize) == Probes(size, maxPacketSize)
        decreases maxPacketSize - sz
      {
        var probe := MakeProbe(sz);
        ProbesStep(sz, maxPacketSize, sent);
        sent := sent + [probe];
        if sz >= maxPacketSize {
          break;
        }
        sz := Min(1412 * sz / 1000, maxPacketSize);
      }
    }

    method MakeProbe(size: nat) returns (p: Packet)
      requires size >= 4
      ensures p == Packet(PACKSIZE_TEST, size, ProbeData(size))
    {
      var crc32 := new Crc32.Crc32();
      var crc := crc32.FullCRC(Pattern(size)[4..]);
      p := Packet(PACKSIZE_TEST, size, Bytes32(crc) + Pattern(size)[4..]);
    }
  }

  function Rest(data: bytes, ofs: nat): bytes {
    if ofs <= |data| then data[ofs..] else []
  }

  lemma CutStep(data: bytes, ofs: nat, size: nat)
    requires ofs < |data| && size > 0
    ensures var pieces, sz := Cut(Rest(data, ofs), size), Min(size, |data| - ofs);
      && pieces != [] && pieces[0] == data[ofs..ofs + sz]
      && pieces[1..] == Cut(Rest(data, ofs + size), size)
      && (|pieces| == 1 <==> ofs + sz >= |data|)
  {
    var r := Rest(data, ofs);
    if |r| > size {
      assert r[size..] == Rest(data, ofs + size);
      assert r[..size] == data[ofs..ofs + size];
      assert Cut(r[size..], size) != [];
    } else {
      assert Rest(data, ofs + size) == [];
    }
  }
}
