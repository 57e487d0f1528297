/** Subpackets: their sizes, the compact form of movement packets, and the two readers of a packet's body. */
module Smartpak {
  import opened Bytes
  import opened Lz
  import opened LzRoundTrip

  const ZERO: byte := 0x00
  const CHAT: byte := 0x05
  const MOVE: byte := 0x2c
  const EXTENDED: byte := 0x42
  const RECORDER: byte := 0xfb
  const MAP_POSITION: byte := 0xfc
  const TICK_OTHER: byte := 0xfd
  const TICK_START: byte := 0xfe
  const TICK: byte := 0xff

  /** The codes that fix the size of their subpackets, and the sizes. */
  const SIZES: seq<(byte, nat)> := [
    (0x02, 13), (0x03, 7), (0x06, 1), (0x07, 1), (0x08, 1), (0x09, 23), (0x0a, 7),
    (0x0b, 9), (0x0c, 11), (0x0d, 36), (0x0e, 14), (0x0f, 6), (0x10, 22), (0x11, 4),
    (0x12, 5), (0x14, 24), (0x15, 1), (0x16, 17), (0x17, 2), (0x18, 2), (0x19, 3),
    (0x1a, 14), (0x1b, 6), (0x1e, 2), (0x1f, 5), (0x20, 192), (0x21, 10), (0x22, 6),
    (0x23, 14), (0x24, 6), (0x26, 41), (0x28, 58), (0x29, 3), (0x2a, 2), (0x2e, 9),
    (0xf6, 1), (0xf9, 73), (0xfa, 1), (0xfc, 5)
  ]

  function Lookup(table: seq<(byte, nat)>, code: byte): nat {
    if table == [] then 0 else if table[0].0 == code then table[0].1 else Lookup(table[1..], code)
  }

  function ZeroRun(s: bytes): (n: nat)
    ensures n <= |s|
    ensures s != [] && s[0] == ZERO ==> n > 0
  {
    if s == [] || s[0] != ZERO then 0 else 1 + ZeroRun(s[1..])
  }

  /** The size expected of the subpacket at the head of `s`; a chat packet must be long enough to look into. */
  function ExpectedSize(s: bytes): nat
    requires s != [] && s[0] == CHAT ==> |s| >= 65
  {
    if s == [] then 0
    else if s[0] == ZERO then ZeroRun(s)
    else if s[0] == CHAT then
      if s[64] == 0 then 65
      else if s[|s| - 5] == MAP_POSITION then |s| - 5
      else |s|
    else if s[0] == MOVE then (if |s| >= 3 then Word16(s[1..]) else 0)
    else if s[0] == EXTENDED then (if |s| >= 3 then Word16(s[1..]) + 3 else 0)
    else if s[0] == RECORDER then (if |s| >= 2 then s[1] as int + 3 else 0)
    else if s[0] == TICK_OTHER then (if |s| >= 3 then (Word16(s[1..]) - 4) % U32 else 0)
    else if s[0] == TICK_START then 5
    else if s[0] == TICK then 1
    else Lookup(SIZES, s[0])
  }

  /** A run of zeros is counted one by one; any other size follows from the head. */
  method Measure(s: bytes) returns (len: nat)
    requires s != [] && s[0] == CHAT ==> |s| >= 65
    ensures len == ExpectedSize(s)
  {
    if s != [] && s[0] == ZERO {
      len := CountZeros(s);
    } else {
      len := ExpectedSize(s);
    }
  }

  method CountZeros(s: bytes) returns (len: nat)
    ensures len == ZeroRun(s)
  {
    len := 0;
    while len < |s| && s[len] == 0
      invariant len <= |s|
      invariant ZeroRun(s) == len + ZeroRun(s[len..])
    {
      assert s[len..][1..] == s[len + 1..];
      len := len + 1;
    }
  }

  /** Where the first subpacket of `s` ends: an unknown or overlong size takes all there is. */
  function FirstEnd(s: bytes): (n: nat)
    requires s != []
    requires s[0] == CHAT ==> |s| >= 65
    ensures 0 < n <= |s|
  {
    var n := ExpectedSize(s);
    if n == 0 || n > |s| then |s| else n
  }

  /** The head of `s` can be read: chat packets, tick starts and tick movements are complete. */
  predicate HeadReadable(s: bytes)
    requires s != []
  {
    && (s[0] == CHAT ==> |s| >= 65)
    && (s[0] == TICK_START ==> |s| >= 5)
    && (s[0] == TICK_OTHER ==> FirstEnd(s) >= 3)
  }

  predicate Readable(s: bytes)
    decreases |s|
  {
    s != [] ==> HeadReadable(s) && Readable(s[FirstEnd(s)..])
  }

  /** What one subpacket `s` contributes at tick `tick`. */
  function Emits(s: bytes, tick: nat): seq<bytes>
    requires s != [] && (s[0] == TICK_OTHER ==> |s| >= 3)
  {
    if s[0] == TICK_START then []
    else if s[0] == TICK then [[MOVE, 0x0b, 0] + Bytes32(tick) + [0xff, 0xff, 1, 0]]
    else if s[0] == TICK_OTHER then [[MOVE] + s[1..3] + Bytes32(tick) + s[3..]]
    else [s]
  }

  function NextTick(s: bytes, tick: nat): nat
    requires s != [] && (s[0] == TICK_START ==> |s| >= 5)
  {
    if s[0] == TICK_START then Word32(s[1..])
    else if s[0] == TICK || s[0] == TICK_OTHER then (tick + 1) % U32
    else tick
  }

  /** The subpackets of a body, the next movement being at tick `tick`. */
  function Unpacked(s: bytes, tick: nat): seq<bytes>
    requires Readable(s)
    decreases |s|
  {
    if s == [] then []
    else
      var n := FirstEnd(s);
      Emits(s[..n], tick) + Unpacked(s[n..], NextTick(s[..n], tick))
  }

  // ------------------------------------------------------- the two readers

  function HeaderSize(hasTimestamp: bool): nat {
    if hasTimestamp then 7 else 3
  }

  /** The packet as the slow reader sees it: without a checksum, two bytes are put in its place. */
  function WithChecksum(c: bytes, hasChecksum: bool): bytes
    requires |c| >= 1
  {
    if hasChecksum then c else [c[0]] + ['x' as int, 'x' as int] + c[1..]
  }

  /** The body the slow reader walks over. */
  function SlowBody(c: bytes, hasTimestamp: bool, hasChecksum: bool): bytes
    requires |c| >= (if hasChecksum then 3 else 1)
  {
    var p := Inflated(WithChecksum(c, hasChecksum), 3);
    if HeaderSize(hasTimestamp) <= |p| then p[HeaderSize(hasTimestamp)..] else []
  }

  /** A packet both readers accept: its header is there and its body can be read to the end. */
  predicate WellFormed(c: bytes, hasTimestamp: bool, hasChecksum: bool) {
    && |c| >= (if hasChecksum then 3 else 1)
    && HeaderSize(hasTimestamp) <= |Inflated(WithChecksum(c, hasChecksum), 3)|
    && Readable(SlowBody(c, hasTimestamp, hasChecksum))
  }

  predicate IsTick(code: byte) {
    code == TICK || code == TICK_START || code == TICK_OTHER
  }

  /** Takes the first subpacket off `s`, as the slow reader does. */
  method Split(s: bytes, smartpak: bool) returns (next: bytes, rest: bytes, error: bool)
    requires s != [] ==> HeadReadable(s)
    ensures s == [] ==> next == [] && rest == [] && !error
    ensures s != [] ==> next == s[..FirstEnd(s)] && rest == s[FirstEnd(s)..]
    ensures s != [] ==>
      error == ((IsTick(s[0]) && !smartpak) || ExpectedSize(s) == 0 || ExpectedSize(s) > |s|)
  {
    error := false;
    if s == [] {
      return s, s, error;
    }
    var len := Measure(s);
    if (s[0] == 0xff || s[0] == 0xfe || s[0] == 0xfd) && !smartpak {
      error := true;
    }
    if |s| < len {
      len := 0;
      error := true;
    }
    if len == 0 {
      next, rest := s, [];
      error := true;
    } else {
      next, rest := s[..len], s[len..];
    }
  }

  lemma UnpackedStep(s: bytes, tick: nat, ut: seq<bytes>)
    requires s != [] && Readable(s)
    ensures var n := FirstEnd(s);
      (ut + Emits(s[..n], tick)) + Unpacked(s[n..], NextTick(s[..n], tick)) == ut + Unpacked(s, tick)
  {
  }

  lemma Retagged(s: bytes, tick: bytes)
    requires |s| >= 3
    ensures (s[..3] + tick + s[3..])[0 := MOVE] == [MOVE] + s[1..3] + tick + s[3..]
  {
  }

  /** One subpacket of the slow reader. */
  method SlowItem(s: bytes, tick: nat) returns (got: seq<bytes>, packnum: nat)
    requires s != [] && (s[0] == TICK_OTHER ==> |s| >= 3) && (s[0] == TICK_START ==> |s| >= 5)
    ensures got == Emits(s, tick) && packnum == NextTick(s, tick)
  {
    got, packnum := [], tick;
    if s[0] == TICK_START {
      packnum := Word32(s[1..]);
    } else if s[0] == TICK {
      got := [[0x2c, 0x0b, 0] + Bytes32(packnum) + [0xff, 0xff, 1, 0]];
      packnum := (packnum + 1) % U32;
    } else if s[0] == TICK_OTHER {
      var tmp := s[..3] + Bytes32(packnum) + s[3..];
      packnum := (packnum + 1) % U32;
      tmp := tmp[0 := 0x2c];
      Retagged(s, Bytes32(tick));
      got := [tmp];
    } else {
      got := [s];
    }
  }

  /** The loop of the slow reader, which cuts each subpacket off the string. */
  method SlowWalk(body: bytes) returns (ut: seq<bytes>)
    requires Readable(body)
    ensures ut == Unpacked(body, 0)
  {
    ut := [];
    var c, packnum: nat := body, 0;
    while c != []
      invariant Readable(c)
      invariant ut + Unpacked(c, packnum) == Unpacked(body, 0)
      decreases |c|
    {
      UnpackedStep(c, packnum, ut);
      var s, error;
      s, c, error := Split(c, true);
      var got;
      got, packnum := SlowItem(s, packnum);
      ut := ut + got;
    }
  }

  /** The slow reader. */
  method SlowUnsmartpak(packet: bytes, hasTimestamp: bool, hasChecksum: bool) returns (ut: seq<bytes>)
    requires WellFormed(packet, hasTimestamp, hasChecksum)
    ensures ut == Unpacked(SlowBody(packet, hasTimestamp, hasChecksum), 0)
  {
    var c := packet;
    if !hasChecksum {
      c := packet[..1] + ['x' as int, 'x' as int] + packet[1..];
      assert c == WithChecksum(packet, hasChecksum);
    }
    if c[0] == 4 {
      c := Decompress(c, 3);
    }
    c := if hasTimestamp then c[7..] else c[3..];
    ut := SlowWalk(c);
  }

  /** Nothing is read past the end of a compressed packet's header. */
  predicate HasHeader(c: bytes, hasChecksum: bool) {
    c != [] && (c[0] == 4 && hasChecksum ==> |c| >= 3)
  }

  /** The body the fast reader walks over; of a packet that ends within its header there is none. */
  function FastBody(c: bytes, hasTimestamp: bool, hasChecksum: bool): bytes
    requires HasHeader(c, hasChecksum)
  {
    var p := Inflated(c, if hasChecksum then 3 else 1);
    var ptr := 1 + (if hasChecksum then 2 else 0) + (if hasTimestamp then 4 else 0);
    From(p, ptr)
  }

  predicate FastReadable(c: bytes, hasTimestamp: bool, hasChecksum: bool) {
    HasHeader(c, hasChecksum) && Readable(FastBody(c, hasTimestamp, hasChecksum))
  }

  /** What the slow reader accepts, the fast one reads too. */
  lemma WellFormedIsReadable(c: bytes, hasTimestamp: bool, hasChecksum: bool)
    requires WellFormed(c, hasTimestamp, hasChecksum)
    ensures FastReadable(c, hasTimestamp, hasChecksum)
    ensures FastBody(c, hasTimestamp, hasChecksum) == SlowBody(c, hasTimestamp, hasChecksum)
  {
    BodiesAgree(c, hasTimestamp, hasChecksum);
  }

  /** Both readers walk over the same body, compressed or not. */
  lemma BodiesAgree(c: bytes, hasTimestamp: bool, hasChecksum: bool)
    requires |c| >= (if hasChecksum then 3 else 1)
    ensures FastBody(c, hasTimestamp, hasChecksum) == SlowBody(c, hasTimestamp, hasChecksum)
  {
    if !hasChecksum {
      var xx: bytes := ['x' as int, 'x' as int];
      var n, w := Inflated(c, 1), Inflated(WithChecksum(c, false), 3);
      if c[0] == 4 {
        HeadersDoNotMatter(c[1..], [], xx);
        assert [4] + [] + c[1..] == c && [4] + xx + c[1..] == WithChecksum(c, false);
      }
      assert n[1..] == w[3..];
      if hasTimestamp && 7 <= |w| {
        assert n[5..] == n[1..][4..] && w[7..] == w[3..][4..];
      }
    }
  }

  /** One subpacket of the fast reader, which stays inside the buffer. */
  method FastItem(buffer: bytes, ptr: nat, len: nat, tick: nat) returns (got: seq<bytes>, packnum: nat)
    requires 0 < len && ptr + len <= |buffer|
    requires buffer[ptr] == TICK_OTHER ==> len >= 3
    requires buffer[ptr] == TICK_START ==> len >= 5
    ensures got == Emits(buffer[ptr..ptr + len], tick) && packnum == NextTick(buffer[ptr..ptr + len], tick)
  {
    ghost var s := buffer[ptr..ptr + len];
    got, packnum := [], tick;
    if buffer[ptr] == TICK_START {
      assert buffer[ptr + 1..][..4] == s[1..][..4];
      packnum := Word32(buffer[ptr + 1..]);
    } else if buffer[ptr] == TICK {
      got := [[0x2c, 0x0b, 0] + Bytes32(packnum) + [0xff, 0xff, 1, 0]];
      packnum := (packnum + 1) % U32;
    } else if buffer[ptr] == TICK_OTHER {
      var tmp := buffer[ptr..ptr + 3] + Bytes32(packnum) + buffer[ptr + 3..ptr + len];
      packnum := (packnum + 1) % U32;
      tmp := tmp[0 := 0x2c];
      assert buffer[ptr..ptr + 3] == s[..3] && buffer[ptr + 3..ptr + len] == s[3..];
      Retagged(s, Bytes32(tick));
      got := [tmp];
    } else {
      got := [buffer[ptr..ptr + len]];
    }
  }

  /** The length the fast reader gives the subpacket at `ptr`. */
  method FastLength(buffer: bytes, ptr: nat) returns (subpakLen: nat)
    requires ptr < |buffer| && HeadReadable(buffer[ptr..])
    ensures subpakLen == FirstEnd(buffer[ptr..])
    ensures buffer[ptr] == TICK_OTHER ==> subpakLen >= 3
    ensures buffer[ptr] == TICK_START ==> subpakLen >= 5
  {
    var end := |buffer|;
    subpakLen := Measure(buffer[ptr..]);
    if subpakLen == 0 || ptr + subpakLen > end {
      subpakLen := end - ptr;
    }
  }

  lemma ChunkInBuffer(buffer: bytes, ptr: nat, len: nat)
    requires ptr + len <= |buffer|
    ensures From(buffer, ptr) == buffer[ptr..]
    ensures buffer[ptr..][..len] == buffer[ptr..ptr + len] && buffer[ptr..][len..] == From(buffer, ptr + len)
  {
  }

  lemma ReadableBeyond(s: bytes)
    requires s != [] && Readable(s)
    ensures HeadReadable(s) && Readable(s[FirstEnd(s)..])
  {
  }

  /** One round of the fast reader. */
  method FastStep(buffer: bytes, ptr: nat, tick: nat) returns (got: seq<bytes>, packnum: nat, next: nat)
    requires ptr < |buffer| && Readable(From(buffer, ptr))
    ensures var s := From(buffer, ptr);
      var n := FirstEnd(s);
      && got == Emits(s[..n], tick) && packnum == NextTick(s[..n], tick)
      && ptr < next <= |buffer| && From(buffer, next) == s[n..] && Readable(From(buffer, next))
  {
    ReadableBeyond(From(buffer, ptr));
    var subpakLen := FastLength(buffer, ptr);
    ChunkInBuffer(buffer, ptr, subpakLen);
    got, packnum := FastItem(buffer, ptr, subpakLen, tick);
    next := ptr + subpakLen;
  }

  /** The loop of the fast reader, which moves a pointer through the buffer. */
  method FastWalk(buffer: bytes, start: nat) returns (ut: seq<bytes>)
    requires Readable(From(buffer, start))
    ensures ut == Unpacked(From(buffer, start), 0)
  {
    ut := [];
    var ptr, end, packnum: nat := start, |buffer|, 0;
    while ptr < end
      invariant Readable(From(buffer, ptr))
      invariant ut + Unpacked(From(buffer, ptr), packnum) == Unpacked(From(buffer, start), 0)
      decreases end - ptr
    {
      UnpackedStep(From(buffer, ptr), packnum, ut);
      var got;
      got, packnum, ptr := FastStep(buffer, ptr, packnum);
      ut := ut + got;
    }
  }

  /** The fast reader gives what the slow one gives, on every packet the slow one accepts. */
  method Unsmartpak(packet: bytes, hasTimestamp: bool, hasChecksum: bool) returns (ut: seq<bytes>)
    requires FastReadable(packet, hasTimestamp, hasChecksum)
    ensures ut == Unpacked(FastBody(packet, hasTimestamp, hasChecksum), 0)
    ensures WellFormed(packet, hasTimestamp, hasChecksum) ==>
      ut == Unpacked(SlowBody(packet, hasTimestamp, hasChecksum), 0)
  {
    if WellFormed(packet, hasTimestamp, hasChecksum) {
      WellFormedIsReadable(packet, hasTimestamp, hasChecksum);
    }
    var buffer := packet;
    if packet[0] == 4 {
      buffer := Decompress(packet, if hasChecksum then 3 else 1);
    }
    var ptr := 1;
    if hasChecksum {
      ptr := ptr + 2;
    }
    if hasTimestamp {
      ptr := ptr + 4;
    }
    ut := FastWalk(buffer, ptr);
  }

  // ------------------------------------------------------- a subpacket alone

  /** A subpacket that is read as it stands: no movement form, and of the size that is expected of it. */
  predicate Alone(s: bytes)
    requires s != [] ==> HeadReadable(s)
  {
    s != [] && !IsTick(s[0]) && FirstEnd(s) == |s|
  }

  /** Movement forms are never handed on. */
  lemma {:induction false} UnpackedHeads(s: bytes, tick: nat)
    requires Readable(s)
    ensures forall u :: u in Unpacked(s, tick) ==> u != [] && !IsTick(u[0])
    decreases |s|
  {
    if s != [] {
      var n := FirstEnd(s);
      UnpackedHeads(s[n..], NextTick(s[..n], tick));
      assert forall u :: u in Emits(s[..n], tick) ==> u != [] && !IsTick(u[0]);
    }
  }

  /** A body is read as one subpacket, itself, exactly if it is such a subpacket. */
  lemma {:induction false} AloneExactly(s: bytes, tick: nat)
    requires Readable(s)
    ensures Unpacked(s, tick) == [s] <==> Alone(s)
  {
    if s != [] {
      var n := FirstEnd(s);
      if IsTick(s[0]) {
        var us := Unpacked(s, tick);
        UnpackedHeads(s, tick);
        if us != [] { assert us[0] in us; }
      } else if n == |s| {
        assert s[..n] == s && s[n..] == [];
      } else {
        assert Unpacked(s, tick)[0] == s[..n];
      }
    }
  }
}
