/** The numbered store of fragments: the sender keeps them until acknowledged, the receiver until in order. */
module Buffers {
  import opened Bytes
  import opened Keys

  datatype Payload = Payload(action: byte, buf: bytes, timestamp: int)

  const NO_PAYLOAD := Payload(0, [], 0)

  datatype Buffer = Buffer(data: map<nat, Payload>, nextPop: nat, nextPush: nat)

  const EMPTY := Buffer(map[], 1, 1)

  lemma NoKey(m: map<nat, Payload>)
    requires m.Keys == {}
    ensures m == map[]
  {
  }

  lemma SomeKey(m: map<nat, Payload>)
    requires m != map[]
    ensures m.Keys != {}
  {
    if m.Keys == {} {
      NoKey(m);
    }
  }

  /** The key of the first entry of a sorted map. */
  function Earliest(m: map<nat, Payload>): (k: nat)
    requires m != map[]
    ensures k in m && forall j :: j in m ==> k <= j
  {
    SomeKey(m);
    Least(m.Keys)
  }

  predicate Ready(b: Buffer) {
    b.data != map[] && b.nextPop == Earliest(b.data)
  }

  function Inserted(b: Buffer, seqno: nat, p: Payload): Buffer {
    if seqno >= b.nextPop then b.(data := b.data[seqno := p]) else b
  }

  function Pushed(b: Buffer, p: Payload): Buffer {
    b.(data := b.data[b.nextPush := p], nextPush := (b.nextPush + 1) % U32)
  }

  function Popped(b: Buffer): Buffer
    requires Ready(b)
  {
    b.(data := b.data - {b.nextPop}, nextPop := (b.nextPop + 1) % U32)
  }

  function Acked(b: Buffer, seqno: nat): Buffer {
    b.(data := b.data - {seqno})
  }

  /** The source's class, one sorted map and two counters changed in place. */
  class DataBuffer {
    var data: map<nat, Payload>
    var nextPopSeq: nat
    var nextPushSeq: nat

    function Model(): Buffer
      reads this
    {
      Buffer(data, nextPopSeq, nextPushSeq)
    }

    constructor ()
      ensures Model() == EMPTY
    {
      data, nextPopSeq, nextPushSeq := map[], 1, 1;
    }

    method Reset()
      modifies this
      ensures Model() == EMPTY
    {
      data := map[];
      nextPopSeq := 1;
      nextPushSeq := 1;
    }

    method Insert(seqno: nat, action: byte, buf: bytes, now: int)
      modifies this
      ensures Model() == Inserted(old(Model()), seqno, Payload(action, buf, now))
    {
      if seqno >= nextPopSeq {
        data := data[seqno := Payload(action, buf, now)];
      }
    }

    method PushBack(action: byte, buf: bytes, now: int) returns (seqno: nat)
      modifies this
      ensures seqno == old(nextPushSeq)
      ensures Model() == Pushed(old(Model()), Payload(action, buf, now))
    {
      data := data[nextPushSeq := Payload(action, buf, now)];
      seqno := nextPushSeq;
      nextPushSeq := (nextPushSeq + 1) % U32;
    }

    predicate ReadyRead()
      reads this
      ensures ReadyRead() == Ready(Model())
    {
      data != map[] && nextPopSeq == Earliest(data)
    }

    /** Takes out the next fragment in order; without one there is nothing to take. */
    method Pop() returns (p: Payload)
      modifies this
      ensures if old(ReadyRead())
        then p == old(data)[old(nextPopSeq)] && Model() == Popped(old(Model()))
        else p == NO_PAYLOAD && Model() == old(Model())
    {
      if !ReadyRead() { return NO_PAYLOAD; }
      var first := Earliest(data);
      p := data[first];
      data := data - {first};
      nextPopSeq := (nextPopSeq + 1) % U32;
    }

    method AckData(seqno: nat) returns (known: bool)
      modifies this
      ensures known == (seqno in old(data))
      ensures Model() == Acked(old(Model()), seqno)
    {
      known := seqno in data;
      data := data - {seqno};
    }
  }
}
