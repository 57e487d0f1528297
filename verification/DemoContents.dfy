/** What is inside the records of a demo: a status behind a player number, and the moves of a packet. */
module DemoContents {
  import opened Bytes
  import opened Wrappers
  import opened Lz
  import opened Cipher
  import opened Smartpak
  import opened SmartPaker
  import opened Pipeline

  /** Where a status has its player's id, and how long a status is that has one. */
  const ID_OFFSET: nat := 0x91
  const SHORTEST: nat := 0x95

  datatype Status = Status(number: byte, message: bytes, dplayid: nat)

  /** Decrypted behind the player number; a body too short for a checksum is only padded. */
  function Opened(body: bytes): bytes
    requires body != []
  {
    if |body| < 5 then body + [6] else Crypt(body, 1)
  }

  /** A status that ends before its player's id is refused. */
  function LoadStatus(body: bytes): Option<Status> {
    if body == [] || !HasHeader(Opened(body)[1..], true) then None
    else
      var packet := Inflated(Opened(body)[1..], 3);
      if |packet| < 7 + SHORTEST then None
      else Some(Status(body[0], packet[7..], Word32(packet[7..][ID_OFFSET..])))
  }

  method ReadStatusBody(body: bytes) returns (status: Option<Status>)
    ensures status == LoadStatus(body)
  {
    if body == [] { return None; }
    var data, extracted, calculated := Decrypt(body, 1, 0, 0);
    assert data == Opened(body);
    var packet := data[1..];
    if !HasHeader(packet, true) { return None; }
    packet := Decompress(packet, 3);
    if |packet| < 7 + SHORTEST { return None; }
    var message := packet[7..];
    status := Some(Status(body[0], message, Word32(message[ID_OFFSET..])));
  }

  /** The subpackets of a packet's moves; a packet that cannot be read to its end is refused. */
  function Moves(data: bytes, hasTimestamp: bool): Option<seq<bytes>> {
    if FastReadable(data, hasTimestamp, false) then Some(Unpacked(FastBody(data, hasTimestamp, false), 0)) else None
  }

  method ReadMoves(data: bytes, hasTimestamp: bool) returns (moves: Option<seq<bytes>>)
    ensures moves == Moves(data, hasTimestamp)
  {
    if !FastReadable(data, hasTimestamp, false) { return None; }
    var subpaks := Unsmartpak(data, hasTimestamp, false);
    moves := Some(subpaks);
  }

  /** A recorded status is read back with its number and the id inside it. */
  lemma StatusReturns(number: byte, message: bytes)
    requires |message| >= SHORTEST
    ensures LoadStatus([number] + OnWire(message, U32 - 1)) == Some(Status(number, message, Word32(message[ID_OFFSET..])))
  {
    StatusRecord(number, message);
  }

  /** The recorder's packets are always read, and give the same subpackets if and only if their movements are in step. */
  lemma FilteredReturn(subpaks: seq<bytes>)
    requires Packable(subpaks)
    ensures Moves(Filtered(subpaks), false).Some?
    ensures Moves(Filtered(subpaks), false) == Some(subpaks) <==> InStep(subpaks, true, 0)
  {
    SmartPaker.RoundTrip(subpaks);
    WellFormedIsReadable(Filtered(subpaks), false, false);
  }
}
