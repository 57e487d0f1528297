/** Length-prefixed records of a demo file, and the reader that may be called before a record is complete. */
module DemoRecords {
  import opened Bytes
  import opened Streams
  import opened Draining

  const LONGEST: nat := 32768

  // ------------------------------------------------------- the format

  /** The length counts its own two bytes. */
  function Record(body: bytes): bytes {
    Bytes16(2 + |body|) + body
  }

  function DecodeRecord(s: bytes): Parsed<bytes> {
    if |s| < 2 then NotReady
    else
      var n := Word16(s);
      if n > LONGEST || n <= 2 then Bad
      else if |s| < n then NotReady
      else Got(s[2..n], s[n..])
  }

  lemma RecordIsStable()
    ensures Stable(DecodeRecord)
  {
    forall s: bytes, more: bytes
      ensures Grows(DecodeRecord(s), DecodeRecord(s + more), more)
    {
      if |s| >= 2 && 2 < Word16(s) <= |s| {
        assert Word16(s + more) == Word16(s);
        assert (s + more)[2..Word16(s)] == s[2..Word16(s)];
        assert (s + more)[Word16(s)..] == s[Word16(s)..] + more;
      }
    }
  }

  /** What the writer accepts is read again exactly if it is neither empty nor too long for the reader. */
  lemma RecordReturns(body: bytes, rest: bytes)
    requires 2 + |body| < U16
    ensures 1 <= |body| <= LONGEST - 2 ==> DecodeRecord(Record(body) + rest) == Got(body, rest)
    ensures !(1 <= |body| <= LONGEST - 2) ==> DecodeRecord(Record(body) + rest) == Bad
  {
    var s := Record(body) + rest;
    assert s == Bytes16(2 + |body|) + (body + rest);
    Bytes16Word16(2 + |body|, body + rest);
    if 1 <= |body| <= LONGEST - 2 {
      assert s[2..2 + |body|] == body && s[2 + |body|..] == rest;
    }
  }

  /** Records written one after the other are read in order, however the file grew. */
  lemma {:induction false} WrittenRecordsAreRead(bodies: seq<bytes>, chunks: seq<bytes>)
    requires forall i :: 0 <= i < |bodies| ==> 1 <= |bodies[i]| <= LONGEST - 2
    requires Concat(chunks) == WriteAll(Record, bodies)
    ensures Stable(DecodeRecord) && DrainChunks(DecodeRecord, [], chunks) == Drained(bodies, [], false)
  {
    RecordIsStable();
    forall i, rest | 0 <= i < |bodies|
      ensures DecodeRecord(Record(bodies[i]) + rest) == Got(bodies[i], rest)
    {
      RecordReturns(bodies[i], rest);
    }
    WrittenIsRead(DecodeRecord, Record, bodies, chunks);
  }

  // ------------------------------------------------------- packets in records

  datatype Packet = Packet(time: nat, sender: byte, data: bytes)

  function PacketBody(p: Packet): bytes {
    Bytes16(p.time) + [p.sender] + p.data
  }

  function PacketRecord(p: Packet): bytes {
    Record(PacketBody(p))
  }

  datatype Loaded = OutOfRange | Loaded(packet: Packet)

  function LoadPacket(body: bytes): Loaded {
    if |body| < 3 then OutOfRange else Loaded(Packet(Word16(body), body[2], body[3..]))
  }

  /** All fields of a packet survive its record. */
  lemma PacketReturns(p: Packet)
    requires p.time < U16
    ensures LoadPacket(PacketBody(p)) == Loaded(p)
  {
    var body := PacketBody(p);
    assert body == Bytes16(p.time) + ([p.sender] + p.data);
    Bytes16Word16(p.time, [p.sender] + p.data);
    assert body[3..] == p.data;
  }

  /** And a body of three bytes or more is one packet's only. */
  lemma PacketIsUnique(body: bytes)
    requires |body| >= 3
    ensures LoadPacket(body).Loaded? && PacketBody(LoadPacket(body).packet) == body
  {
    Word16Bytes16(body);
    assert body == body[..2] + [body[2]] + body[3..];
  }

  // ------------------------------------------------------- the other records

  const MAGIC: bytes := [84, 65, 32, 68, 101, 109, 111, 0]

  const MAX_NAME: nat := 64
  const MAX_PLAYER_NAME: nat := 16

  datatype Header = Header(version: nat, numPlayers: nat, maxUnits: nat, mapName: bytes)

  datatype Sector = Sector(kind: nat, data: bytes)

  datatype Player = Player(color: byte, side: byte, number: byte, name: bytes)

  function Cut(name: bytes, most: nat): bytes {
    if |name| <= most then name else name[..most]
  }

  /** The map's name is cut to what a reader accepts. */
  function HeaderBody(h: Header): bytes
    requires h.numPlayers < 256
  {
    MAGIC + Bytes16(h.version) + [h.numPlayers] + Bytes16(h.maxUnits) + Cut(h.mapName, MAX_NAME)
  }

  function SectorBody(s: Sector): bytes {
    Bytes32(s.kind) + s.data
  }

  function PlayerBody(p: Player): bytes {
    [p.color] + [p.side] + [p.number] + Cut(p.name, MAX_PLAYER_NAME)
  }

  // ------------------------------------------------------- the writer

  class TADemoWriter {
    var output: bytes

    constructor ()
      ensures output == []
    {
      output := [];
    }

    /** The length has 16 bits; a body that does not fit is refused, and nothing of it is written. */
    method WriteRecord(body: bytes) returns (ok: bool)
      modifies this
      ensures ok <==> 2 + |body| < U16
      ensures output == old(output) + if ok then Record(body) else []
    {
      var size16 := (2 + |body|) % U16;
      if size16 != 2 + |body| {
        Nothing(output);
        return false;
      }
      Regroup(output, Bytes16(size16), body);
      output := output + Bytes16(size16);
      output := output + body;
      ok := true;
    }

    method WriteHeader(h: Header) returns (ok: bool)
      requires h.numPlayers < 256
      modifies this
      ensures ok && output == old(output) + Record(HeaderBody(h))
    {
      ok := WriteRecord(HeaderBody(h));
    }

    method WriteExtraHeader(numSectors: nat) returns (ok: bool)
      modifies this
      ensures ok && output == old(output) + Record(Bytes32(numSectors))
    {
      ok := WriteRecord(Bytes32(numSectors));
    }

    method WriteSector(s: Sector) returns (ok: bool)
      modifies this
      ensures ok <==> |s.data| <= U16 - 7
      ensures output == old(output) + if ok then Record(SectorBody(s)) else []
    {
      ok := WriteRecord(SectorBody(s));
    }

    method WritePlayer(p: Player) returns (ok: bool)
      modifies this
      ensures ok && output == old(output) + Record(PlayerBody(p))
    {
      ok := WriteRecord(PlayerBody(p));
    }

    method WriteStatus(number: byte, message: bytes) returns (ok: bool)
      modifies this
      ensures ok <==> |message| <= U16 - 4
      ensures output == old(output) + if ok then Record([number] + message) else []
    {
      ok := WriteRecord([number] + message);
    }

    method WriteUnitData(data: bytes) returns (ok: bool)
      modifies this
      ensures ok <==> |data| <= U16 - 3
      ensures output == old(output) + if ok then Record(data) else []
    {
      ok := WriteRecord(data);
    }

    method WritePacket(p: Packet) returns (ok: bool)
      modifies this
      ensures ok <==> |p.data| <= U16 - 6
      ensures output == old(output) + if ok then PacketRecord(p) else []
    {
      ok := WriteRecord(PacketBody(p));
    }
  }

  // ------------------------------------------------------- the reader

  datatype State = READ_RECLEN1 | READ_RECLEN2 | READ_RECORD

  class RecordReader {
    var state: State
    var length1: byte
    var length2: byte
    var size: nat
    var readBuffer: bytes

    ghost predicate Valid()
      reads this
    {
      state == READ_RECORD ==> 2 < Word16([length1, length2]) <= LONGEST && size == Word16([length1, length2]) - 2 && |readBuffer| <= size
    }

    /** The bytes of the unfinished record that were read already. */
    ghost function Taken(): bytes
      reads this
    {
      match state
      case READ_RECLEN1 => []
      case READ_RECLEN2 => [length1]
      case READ_RECORD => [length1, length2] + readBuffer
    }

    constructor ()
      ensures Valid() && Taken() == []
    {
      state := READ_RECLEN1;
      length1, length2, size, readBuffer := 0, 0, 0, [];
    }

    /** The two bytes of the length, one at a time. */
    method ReadLength(input: InputStream) returns (reply: Reply<nat>)
      requires Valid() && state != READ_RECORD
      modifies this, input
      ensures Valid()
      ensures var s := old(Taken() + input.data);
        && (reply == Wait ==> |s| < 2 && input.data == [] && Taken() == s)
        && (reply == Fail ==> |s| >= 2 && !(2 < Word16(s) <= LONGEST))
        && (reply.Ready? ==> |s| >= 2 && state == READ_RECORD && readBuffer == [] && [length1, length2] + input.data == s)
    {
      ghost var s := Taken() + input.data;
      if state == READ_RECLEN1 {
        var got := input.Read(1);
        if |got| != 1 { return Wait; }
        length1 := got[0];
        state := READ_RECLEN2;
        assert s == [length1] + input.data;
      }
      assert s == [length1] + input.data;
      var got := input.Read(1);
      if |got| != 1 {
        Nothing([length1]);
        return Wait;
      }
      length2 := got[0];
      Regroup([length1], [length2], input.data);
      assert s == [length1, length2] + input.data;
      var length := Word16([length1, length2]);
      if length > LONGEST || length <= 2 { return Fail; }
      size, readBuffer := length - 2, [];
      state := READ_RECORD;
      reply := Ready(size);
    }

    method ReadBody(input: InputStream) returns (reply: Reply<bytes>)
      requires Valid() && state == READ_RECORD
      modifies this, input
      ensures Valid()
      ensures Agrees(reply, input.data, DecodeRecord(old(Taken() + input.data)))
      ensures (reply.Ready? && Taken() == []) || (reply == Wait && Taken() == old(Taken() + input.data))
    {
      ghost var s := Taken() + input.data;
      Regroup([length1, length2], readBuffer, input.data);
      var more := input.Read(size - |readBuffer|);
      readBuffer := readBuffer + more;
      assert s == [length1, length2] + (readBuffer + input.data);
      if |readBuffer| < size {
        Nothing(readBuffer);
        return Wait;
      }
      assert s[2..2 + size] == readBuffer && s[2 + size..] == input.data;
      reply := Ready(readBuffer);
      readBuffer := [];
      state := READ_RECLEN1;
    }

    /**
     * One record, or what there is of it. An interrupted call goes on where it stopped: the answer is that of
     * decoding all bytes seen since the last record.
     */
    method Read(input: InputStream) returns (reply: Reply<bytes>)
      requires Valid()
      modifies this, input
      ensures Valid()
      ensures Agrees(reply, input.data, DecodeRecord(old(Taken() + input.data)))
      ensures reply.Ready? ==> Taken() == []
      ensures reply == Wait ==> Taken() == old(Taken() + input.data)
    {
      if state != READ_RECORD {
        var r := ReadLength(input);
        if r == Wait { return Wait; }
        if r == Fail { return Fail; }
        Nothing([length1, length2]);
      }
      reply := ReadBody(input);
    }
  }
}
