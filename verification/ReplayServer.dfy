/** The replay server's loops: logging sizes once a second, and sending what may be shown. */
module ReplayServer {
  import opened Bytes
  import opened Wrappers
  import opened Draining
  import opened GpgNet
  import opened ReplayEscrow

  class GameInfo {
    var delaySeconds: int
    var sizeLog: Option<seq<nat>>

    ghost function Info(): Game
      reads this
    {
      Game(delaySeconds, sizeLog)
    }

    constructor (delay: int)
      ensures Info() == Game(delay, None)
    {
      delaySeconds, sizeLog := delay, None;
    }

    /** `size` is that of the game's file, if there is one. */
    method UpdateFileSizeLog(size: Option<nat>)
      requires delaySeconds >= -1
      modifies this`sizeLog
      ensures Info() == Logged(old(Info()), size)
    {
      if size.Some? {
        sizeLog := Some(if sizeLog == None then [size.value] else sizeLog.value + [size.value]);
      }
      if sizeLog.Some? {
        Trim(1 + delaySeconds);
      }
    }

    /** Sizes are taken off the front until `required` are left. */
    method Trim(required: nat)
      requires sizeLog.Some?
      modifies this`sizeLog
      ensures sizeLog == Some(Trimmed(old(sizeLog.value), required))
    {
      ghost var full := sizeLog.value;
      while |sizeLog.value| > required
        invariant sizeLog.Some? && Trimmed(sizeLog.value, required) == Trimmed(full, required)
        decreases |sizeLog.value|
      {
        TrimmedTail(sizeLog.value, required);
        sizeLog := Some(sizeLog.value[1..]);
      }
    }
  }

  lemma MessageParts(before: bytes, status: nat, data: bytes)
    ensures before + (WriteBytes(DATA_ID) + Bytes32(2)) + WriteArgument(Int(status)) + WriteArgument(Data(data))
         == before + StatusMessage(status, data)
  {
    var args := [Int(status), Data(data)];
    var rest := [Data(data)];
    assert args[1..] == rest && rest[1..] == [];
    assert WriteArguments(rest) == WriteArgument(rest[0]) + WriteArguments(rest[1..]);
    assert WriteArguments(args) == WriteArgument(args[0]) + WriteArguments(rest);
    Nothing(WriteArgument(Data(data)));
    Parts(before, WriteBytes(DATA_ID), Bytes32(2), WriteArgument(Int(status)), WriteArgument(Data(data)));
  }

  lemma Parts(a: bytes, b: bytes, c: bytes, d: bytes, e: bytes)
    ensures a + (b + c) + d + e == a + ((b + c) + (d + e))
  {
  }

  class UserContext {
    const protocol: GpgNetSend
    var gameId: nat
    var file: Option<nat>
    var pos: nat
    var pending: nat

    constructor ()
      ensures file == None && pos == 0 && pending == 0 && gameId == 0
      ensures fresh(protocol) && protocol.os == []
    {
      protocol := new GpgNetSend();
      gameId, file, pos, pending := 0, None, 0, 0;
    }

    /** `u` is this user, but for what it has been sent. */
    ghost predicate Is(u: User)
      reads this
    {
      u.gameId == gameId && u.file == file && u.pos == pos && u.pending == pending
    }

    method SendData(status: nat, data: bytes)
      requires |data| <= CHUNK_SIZE && status <= LIVE_REPLAY_DISABLED
      modifies protocol, this`pending
      ensures protocol.os == old(protocol.os) + StatusMessage(status, data)
      ensures pending == old(pending) + MessageSize(|data|)
      ensures |protocol.os| == old(|protocol.os|) + pending - old(pending)
    {
      MessageIsSized(status, data);
      MessageParts(protocol.os, status, data);
      protocol.SendCommand(DATA_ID, 2);
      protocol.SendIntArgument(status);
      protocol.SendArgument(data);
      pending := pending + MessageSize(|data|);
    }

    /** One more chunk, if anything more may be shown; `all` is how the sending will end. */
    method SendNext(file: bytes, chunks: seq<bytes>, threshold: nat, maxBytes: nat, ghost before: bytes, ghost all: Sending)
        returns (more: seq<bytes>, done: bool)
      requires pos <= |file| && pending < maxBytes
      requires Sent(file, Sending(pos, pending, chunks), threshold, maxBytes) == all
      requires protocol.os == before + WriteAll(Message, chunks)
      modifies protocol, this`pos, this`pending
      ensures protocol.os == before + WriteAll(Message, more) && pos <= |file|
      ensures done ==> Sending(pos, pending, more) == all
      ensures !done ==> pos > old(pos) && Sent(file, Sending(pos, pending, more), threshold, maxBytes) == all
    {
      var chunk := NextChunk(file, pos, threshold);
      ChunkIsSlice(file, pos, threshold);
      SentStep(file, Sending(pos, pending, chunks), threshold, maxBytes, chunk);
      if chunk == [] { return chunks, true; }
      WriteAllSnoc(Message, chunks, chunk);
      Regroup(before, WriteAll(Message, chunks), Message(chunk));
      SendData(OK, chunk);
      pos := pos + |chunk|;
      more, done := chunks + [chunk], false;
    }

    /** One timer tick for this user, whose open file has the bytes `file`. */
    method ServiceUser(game: Option<Game>, file: bytes, maxBytes: nat) returns (chunks: seq<bytes>)
      requires this.file.Some? && pos <= |file|
      modifies protocol, this`pos, this`pending
      ensures Sending(pos, pending, chunks) ==
        match Threshold(game, old(pos), maxBytes)
        case None => Sending(old(pos), old(pending), [])
        case Some(threshold) => Sent(file, Sending(old(pos), old(pending), []), threshold, maxBytes)
      ensures protocol.os == old(protocol.os) + WriteAll(Message, chunks)
    {
      chunks := [];
      Nothing(protocol.os);
      var shown := Threshold(game, pos, maxBytes);
      if shown == None { return; }
      ghost var all := Sent(file, Sending(pos, pending, []), shown.value, maxBytes);
      while pending < maxBytes
        invariant pos <= |file|
        invariant Sent(file, Sending(pos, pending, chunks), shown.value, maxBytes) == all
        invariant protocol.os == old(protocol.os) + WriteAll(Message, chunks)
        decreases |file| - pos
      {
        var done;
        chunks, done := SendNext(file, chunks, shown.value, maxBytes, old(protocol.os), all);
        if done { return; }
      }
    }

    /**
     * A request to follow game `id` from `position`; `found` tells whether there is a file of the game. A
     * refusal is answered with its status.
     */
    method Subscribe(id: nat, position: nat, game: Option<Game>, found: bool)
      modifies protocol, this`gameId, this`file, this`pos, this`pending
      ensures forall w: World, u: User ::
        old(Is(u)) && w.user == u && GameOf(w.games, id) == game && (found <==> id in w.files) ==> Is(Subscribed(w, id, position))
      ensures var answer := Answer(game, found, position);
        protocol.os == old(protocol.os) + if answer == None then [] else StatusMessage(answer.value, [])
    {
      Nothing(protocol.os);
      if game == None {
        SendData(GAME_NOT_FOUND, []);
        return;
      }
      if game.value.delay < 0 {
        SendData(LIVE_REPLAY_DISABLED, []);
        return;
      }
      if !found {
        file := None;
        if position == 0 { SendData(GAME_NOT_FOUND, []); }
        return;
      }
      file, pos := Some(id), 0;
      if game.value.log == None {
        if position == 0 { SendData(GAME_NOT_FOUND, []); }
        return;
      }
      var log := game.value.log.value;
      if |log| > game.value.delay && log != [] {
        pos := Min(position, log[0]);
      }
      gameId := id;
    }
  }

  function Commands(chunks: seq<bytes>): seq<Command> {
    seq(|chunks|, i requires 0 <= i < |chunks| => Command(DATA_ID, [Int(OK), Data(chunks[i])]))
  }

  lemma {:induction false} MessagesAreCommands(chunks: seq<bytes>)
    ensures WriteAll(Message, chunks) == WriteAll(WriteCommand, Commands(chunks))
    decreases |chunks|
  {
    if chunks != [] {
      MessagesAreCommands(chunks[1..]);
      assert Commands(chunks)[1..] == Commands(chunks[1..]);
    }
  }

  /** What a client parses off its socket, in whatever pieces, are the chunks that were sent. */
  lemma {:induction false} ClientGetsChunks(chunks: seq<bytes>, pieces: seq<bytes>)
    requires forall i :: 0 <= i < |chunks| ==> |chunks[i]| <= CHUNK_SIZE
    requires Concat(pieces) == WriteAll(Message, chunks)
    ensures Stable(DecodeCommand) && DrainChunks(DecodeCommand, [], pieces) == Drained(Commands(chunks), [], false)
  {
    MessagesAreCommands(chunks);
    forall i | 0 <= i < |chunks|
      ensures Sendable(Commands(chunks)[i])
    {
      assert |[Int(OK), Data(chunks[i])]| == 2;
    }
    SentIsReceived(Commands(chunks), pieces);
  }

  /** What a tick sends of the file, up to a threshold, is what the client gets, in order and in full. */
  lemma {:induction false} ServedIsReceived(file: bytes, pos: nat, pending: nat, threshold: nat, maxBytes: nat, pieces: seq<bytes>)
    requires pos <= |file|
    requires Concat(pieces) == WriteAll(Message, Sent(file, Sending(pos, pending, []), threshold, maxBytes).chunks)
    ensures var s := Sent(file, Sending(pos, pending, []), threshold, maxBytes);
      && Stable(DecodeCommand) && DrainChunks(DecodeCommand, [], pieces) == Drained(Commands(s.chunks), [], false)
      && Concat(s.chunks) == file[pos..s.pos]
  {
    var start := Sending(pos, pending, []);
    ChunksAreSmall(file, start, threshold, maxBytes);
    SentIsSlice(file, start, threshold, maxBytes, pos);
    ClientGetsChunks(Sent(file, start, threshold, maxBytes).chunks, pieces);
  }
}
