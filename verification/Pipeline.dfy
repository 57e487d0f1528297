/** The whole way of a packet: header, compression and encryption, and back. */
module Pipeline {
  import opened Bytes
  import opened Lz
  import opened LzRoundTrip
  import opened Cipher
  import opened Smartpak

  /** A subpacket behind an uncompressed header with an empty checksum and a sequence number. */
  function Trivial(sub: bytes, seqno: nat): bytes {
    [3, 0, 0] + Bytes32(seqno) + sub
  }

  lemma TrivialParts(sub: bytes, seqno: nat)
    ensures Trivial(sub, seqno)[0 := 3] == Trivial(sub, seqno)
    ensures Trivial(sub, seqno)[3..] == Bytes32(seqno) + sub
  {
    var t: bytes := [3, 0, 0];
    assert Trivial(sub, seqno) == t + (Bytes32(seqno) + sub);
  }

  function OnWire(sub: bytes, seqno: nat): bytes {
    Encrypted(Compressed(Trivial(sub, seqno)))
  }

  /** Sending one subpacket: the three stages in the order of the chat and status senders. */
  method Send(sub: bytes, seqno: nat) returns (bs: bytes)
    ensures bs == OnWire(sub, seqno)
  {
    bs := Trivial(sub, seqno);
    bs := Compress(bs);
    bs := Encrypt(bs);
  }

  datatype Reception = ChecksumMismatch | Subpackets(subpaks: seq<bytes>)

  /** What a receiver needs of a payload it did decrypt. */
  predicate Parsable(payload: bytes) {
    && HasHeader(payload, true)
    && FastReadable(Inflated(payload, 3), true, true)
  }

  /** A packet too short for a checksum is only padded. */
  function Plaintext(wire: bytes): bytes {
    if |wire| < 4 then wire + [6] else Crypt(wire, 0)
  }

  /** Receiving one packet. The checksums of a packet too short to carry one are whatever they were before. */
  method Receive(wire: bytes, extracted: nat, calculated: nat) returns (r: Reception)
    requires Parsable(Plaintext(wire))
    ensures r ==
      if (if |wire| < 4 then extracted != calculated else Word16(wire[1..]) != Sum16(Middle(wire, 0)))
      then ChecksumMismatch
      else Subpackets(Unpacked(FastBody(Inflated(Plaintext(wire), 3), true, true), 0))
  {
    var payload, x, c := Decrypt(wire, 0, extracted, calculated);
    if x != c {
      return ChecksumMismatch;
    }
    if payload[0] == 4 {
      payload := Decompress(payload, 3);
    }
    var subpaks := Unsmartpak(payload, true, true);
    r := Subpackets(subpaks);
  }

  /** The checksum in the header leaves the decoded body alone. */
  lemma ChecksumBytesIgnored(d: bytes, x: byte, y: byte)
    requires |d| >= 3
    ensures Inflated(d[1 := x][2 := y], 3)[0] == Inflated(d, 3)[0]
    ensures |Inflated(d, 3)| >= 3 && |Inflated(d[1 := x][2 := y], 3)| >= 3
    ensures Inflated(d[1 := x][2 := y], 3)[3..] == Inflated(d, 3)[3..]
  {
    if d[0] == 4 {
      var body := d[3..];
      HeadersDoNotMatter(body, [x, y], [d[1], d[2]]);
      assert d == [4] + [d[1], d[2]] + body;
      assert d[1 := x][2 := y] == [4] + [x, y] + body;
    }
  }

  lemma PacketSize(d: bytes)
    requires |d| >= 7
    ensures |Compressed(d)| >= 4
  {
    PackedSize(Tokens(d, 4));
  }

  /** On the wire a subpacket takes at most seven bytes more. */
  lemma WireIsShort(sub: bytes, seqno: nat)
    ensures 4 <= |OnWire(sub, seqno)| <= |sub| + 7
  {
    PacketSize(Trivial(sub, seqno));
    LzRoundTrip.RoundTrip(Trivial(sub, seqno));
  }

  /** Behind any prefix: the checksums agree and everything after the header's checksum comes back. */
  lemma {:induction false} WholeWay(prefix: bytes, sub: bytes, seqno: nat)
    requires seqno < U32
    ensures var e, n := prefix + OnWire(sub, seqno), |prefix|;
      && |e| >= n + 4
      && Crypt(e, n)[..n] == prefix
      && Word16(e[n + 1..]) == Sum16(Middle(e, n))
      && var p := Inflated(Crypt(e, n)[n..], 3);
         |p| >= 3 && p[0] == 3 && p[3..] == Bytes32(seqno) + sub
  {
    var t := Trivial(sub, seqno);
    var c := Compressed(t);
    PacketSize(t);
    LzRoundTrip.RoundTrip(t);
    Cipher.RoundTrip(prefix, c);
    var e, n := prefix + Encrypted(c), |prefix|;
    var sum := Word16(e[n + 1..]);
    var lo: byte, hi: byte := sum % 256, sum / 256;
    var marked: bytes := c[1 := lo];
    marked := marked[2 := hi];
    assert Crypt(e, n)[n..] == marked;
    ChecksumBytesIgnored(c, lo, hi);
    TrivialParts(sub, seqno);
  }

  /** A live packet: the checksums agree, and the receiver reports exactly the subpacket that was sent if it stands alone. */
  lemma {:induction false} LivePacket(sub: bytes, seqno: nat)
    requires seqno < U32 && Readable(sub)
    ensures var wire := OnWire(sub, seqno);
      && |wire| >= 4 && Parsable(Plaintext(wire))
      && Word16(wire[1..]) == Sum16(Middle(wire, 0))
      && var got := Unpacked(FastBody(Inflated(Plaintext(wire), 3), true, true), 0);
         && got == Unpacked(sub, 0)
         && (got == [sub] <==> Alone(sub))
  {
    var wire := OnWire(sub, seqno);
    WholeWay([], sub, seqno);
    assert [] + wire == wire;
    var plain := Crypt(wire, 0);
    assert plain[0..] == plain;
    var p := Inflated(plain, 3);
    assert p[7..] == p[3..][4..] == sub;
    assert FastBody(p, true, true) == sub;
    AloneExactly(sub, 0);
  }

  /** A recorded status: behind the player's number the same wire form, read at offset one. */
  lemma {:induction false} StatusRecord(number: byte, status: bytes)
    ensures var record := [number] + OnWire(status, U32 - 1);
      && |record| >= 5
      && Crypt(record, 1)[0] == number
      && Word16(record[2..]) == Sum16(Middle(record, 1))
      && var p := Inflated(Crypt(record, 1)[1..], 3);
         |p| >= 7 && p[7..] == status
  {
    WholeWay([number], status, U32 - 1);
    var record := [number] + OnWire(status, U32 - 1);
    assert Crypt(record, 1)[..1][0] == number;
    var p := Inflated(Crypt(record, 1)[1..], 3);
    assert p[7..] == p[3..][4..];
  }
}
