/** Commands of the GPGNet protocol as bytes. */
module GpgNet {
  import opened Bytes
  import opened Streams
  import opened Draining

  const MAX_RECORD_SIZE: nat := 10000
  const MAX_NUM_ARGS: nat := 10

  datatype Argument = Int(number: nat) | Data(content: bytes)

  datatype Command = Command(name: bytes, args: seq<Argument>)

  // ------------------------------------------------------- writing

  function WriteBytes(b: bytes): bytes {
    Bytes32(|b|) + b
  }

  function WriteArgument(a: Argument): bytes {
    match a
    case Int(number) => [0] + Bytes32(number)
    case Data(content) => [1] + WriteBytes(content)
  }

  function WriteArguments(args: seq<Argument>): bytes {
    if args == [] then [] else WriteArgument(args[0]) + WriteArguments(args[1..])
  }

  function WriteCommand(c: Command): bytes {
    WriteBytes(c.name) + Bytes32(|c.args|) + WriteArguments(c.args)
  }

  // ------------------------------------------------------- reading a whole stream

  function DecodeBytes(s: bytes): Parsed<bytes> {
    if |s| < 4 then NotReady
    else
      var size := Word32(s);
      if size > MAX_RECORD_SIZE then Bad
      else if |s| < 4 + size then NotReady
      else Got(s[4..4 + size], s[4 + size..])
  }

  function DecodeArgument(s: bytes): Parsed<Argument> {
    if s == [] then NotReady
    else if s[0] == 0 then
      if |s| < 5 then NotReady else Got(Int(Word32(s[1..5])), s[5..])
    else if s[0] == 1 then
      match DecodeBytes(s[1..])
      case NotReady => NotReady
      case Bad => Bad
      case Got(content, rest) => Got(Data(content), rest)
    else Bad
  }

  function Prepend(a: seq<Argument>, p: Parsed<seq<Argument>>): Parsed<seq<Argument>> {
    match p
    case NotReady => NotReady
    case Bad => Bad
    case Got(args, rest) => Got(a + args, rest)
  }

  function DecodeArguments(s: bytes, n: nat): Parsed<seq<Argument>> {
    if n == 0 then Got([], s)
    else
      match DecodeArgument(s)
      case NotReady => NotReady
      case Bad => Bad
      case Got(a, rest) => Prepend([a], DecodeArguments(rest, n - 1))
  }

  function DecodeTail(name: bytes, s: bytes): Parsed<Command> {
    if |s| < 4 then NotReady
    else if Word32(s) > MAX_NUM_ARGS then Bad
    else
      match DecodeArguments(s[4..], Word32(s))
      case NotReady => NotReady
      case Bad => Bad
      case Got(args, rest) => Got(Command(name, args), rest)
  }

  function DecodeCommand(s: bytes): Parsed<Command> {
    match DecodeBytes(s)
    case NotReady => NotReady
    case Bad => Bad
    case Got(name, rest) => DecodeTail(name, rest)
  }

  // ------------------------------------------------------- more bytes do not change what was decoded

  lemma Word32Prefix(s: bytes, more: bytes)
    requires |s| >= 4
    ensures Word32(s + more) == Word32(s)
  {
  }

  lemma BytesGrow(s: bytes, more: bytes)
    ensures Grows(DecodeBytes(s), DecodeBytes(s + more), more)
  {
    if |s| >= 4 {
      Word32Prefix(s, more);
      var n := 4 + Word32(s);
      if |s| >= n {
        assert (s + more)[4..n] == s[4..n];
        assert (s + more)[n..] == s[n..] + more;
      }
    }
  }

  lemma ArgumentGrows(s: bytes, more: bytes)
    ensures Grows(DecodeArgument(s), DecodeArgument(s + more), more)
  {
    if s != [] {
      assert (s + more)[1..] == s[1..] + more;
      BytesGrow(s[1..], more);
      if |s| >= 5 {
        assert (s + more)[1..5] == s[1..5];
        assert (s + more)[5..] == s[5..] + more;
      }
    }
  }

  lemma {:induction false} ArgumentsGrow(s: bytes, n: nat, more: bytes)
    ensures Grows(DecodeArguments(s, n), DecodeArguments(s + more, n), more)
    decreases n
  {
    if n > 0 {
      ArgumentGrows(s, more);
      match DecodeArgument(s)
      case Got(_, rest) => ArgumentsGrow(rest, n - 1, more);
      case _ =>
    }
  }

  lemma TailGrows(name: bytes, s: bytes, more: bytes)
    ensures Grows(DecodeTail(name, s), DecodeTail(name, s + more), more)
  {
    if |s| >= 4 {
      Word32Prefix(s, more);
      assert (s + more)[4..] == s[4..] + more;
      ArgumentsGrow(s[4..], Word32(s), more);
    }
  }

  lemma CommandGrows(s: bytes, more: bytes)
    ensures Grows(DecodeCommand(s), DecodeCommand(s + more), more)
  {
    BytesGrow(s, more);
    match DecodeBytes(s)
    case Got(name, rest) => TailGrows(name, rest, more);
    case _ =>
  }

  // ------------------------------------------------------- what is written is read

  predicate SendableArgument(a: Argument) {
    match a
    case Int(number) => number < U32
    case Data(content) => |content| <= MAX_RECORD_SIZE
  }

  predicate Sendable(c: Command) {
    |c.name| <= MAX_RECORD_SIZE && |c.args| <= MAX_NUM_ARGS && forall i :: 0 <= i < |c.args| ==> SendableArgument(c.args[i])
  }

  lemma BytesReturn(b: bytes, rest: bytes)
    requires |b| <= MAX_RECORD_SIZE
    ensures DecodeBytes(WriteBytes(b) + rest) == Got(b, rest)
  {
    var s := WriteBytes(b) + rest;
    assert s == Bytes32(|b|) + (b + rest);
    Bytes32Word32(|b|, b + rest);
    assert s[4..4 + |b|] == b && s[4 + |b|..] == rest;
  }

  lemma ArgumentReturns(a: Argument, rest: bytes)
    requires SendableArgument(a)
    ensures DecodeArgument(WriteArgument(a) + rest) == Got(a, rest)
  {
    var s := WriteArgument(a) + rest;
    match a
    case Int(number) =>
      assert s[1..5] == Bytes32(number) + [];
      Bytes32Word32(number, []);
      assert s[5..] == rest;
    case Data(content) =>
      assert s[1..] == WriteBytes(content) + rest;
      BytesReturn(content, rest);
  }

  lemma ArgumentsStep(s: bytes, n: nat, a: Argument, rest: bytes)
    requires n > 0 && DecodeArgument(s) == Got(a, rest)
    ensures DecodeArguments(s, n) == Prepend([a], DecodeArguments(rest, n - 1))
  {
  }

  lemma {:induction false} ArgumentsReturn(args: seq<Argument>, rest: bytes)
    requires forall i :: 0 <= i < |args| ==> SendableArgument(args[i])
    ensures DecodeArguments(WriteArguments(args) + rest, |args|) == Got(args, rest)
    decreases |args|
  {
    var s := WriteArguments(args) + rest;
    if args == [] {
      assert s == rest;
    } else {
      var more := WriteArguments(args[1..]) + rest;
      assert s == WriteArgument(args[0]) + more;
      ArgumentReturns(args[0], more);
      ArgumentsStep(s, |args|, args[0], more);
      ArgumentsReturn(args[1..], rest);
      assert [args[0]] + args[1..] == args;
    }
  }

  /** A command that keeps the limits is decoded to itself, whatever follows it. */
  lemma {:induction false} CommandReturns(c: Command, rest: bytes)
    requires Sendable(c)
    ensures DecodeCommand(WriteCommand(c) + rest) == Got(c, rest)
  {
    var tail := WriteArguments(c.args) + rest;
    assert WriteCommand(c) + rest == WriteBytes(c.name) + (Bytes32(|c.args|) + tail);
    BytesReturn(c.name, Bytes32(|c.args|) + tail);
    Bytes32Word32(|c.args|, tail);
    assert (Bytes32(|c.args|) + tail)[4..] == tail;
    ArgumentsReturn(c.args, rest);
  }

  lemma OversizeIsBad(size: nat, tail: bytes)
    requires MAX_RECORD_SIZE < size < U32
    ensures DecodeBytes(Bytes32(size) + tail) == Bad
  {
    Bytes32Word32(size, tail);
  }

  lemma FiveParts(a: bytes, b: bytes, c: bytes, d: bytes, e: bytes)
    ensures (((a + b) + c) + d) + e == a + (b + (c + (d + e)))
  {
  }

  lemma NameRefused(c: Command, rest: bytes)
    requires MAX_RECORD_SIZE < |c.name| < U32
    ensures DecodeCommand(WriteCommand(c) + rest) == Bad
  {
    var size, count, args := Bytes32(|c.name|), Bytes32(|c.args|), WriteArguments(c.args);
    FiveParts(size, c.name, count, args, rest);
    OversizeIsBad(|c.name|, c.name + (count + (args + rest)));
  }

  /** What is sent without being cut to 32 bits. */
  predicate Fits(a: Argument) {
    match a
    case Int(number) => number < U32
    case Data(content) => |content| < U32
  }

  lemma ArgumentRefused(a: Argument, rest: bytes)
    requires Fits(a) && !SendableArgument(a)
    ensures DecodeArgument(WriteArgument(a) + rest) == Bad
  {
    var s := WriteArgument(a) + rest;
    Regroup([1], WriteBytes(a.content), rest);
    Regroup(Bytes32(|a.content|), a.content, rest);
    assert s[1..] == Bytes32(|a.content|) + (a.content + rest);
    OversizeIsBad(|a.content|, a.content + rest);
  }

  lemma {:induction false} ArgumentsRefused(args: seq<Argument>, rest: bytes)
    requires forall i :: 0 <= i < |args| ==> Fits(args[i])
    requires exists i :: 0 <= i < |args| && !SendableArgument(args[i])
    ensures DecodeArguments(WriteArguments(args) + rest, |args|) == Bad
    decreases |args|
  {
    var more := WriteArguments(args[1..]) + rest;
    Regroup(WriteArgument(args[0]), WriteArguments(args[1..]), rest);
    if SendableArgument(args[0]) {
      ArgumentReturns(args[0], more);
      var i :| 0 <= i < |args| && !SendableArgument(args[i]);
      assert args[1..][i - 1] == args[i];
      ArgumentsRefused(args[1..], rest);
      ArgumentsStep(WriteArguments(args) + rest, |args|, args[0], more);
    } else {
      ArgumentRefused(args[0], more);
    }
  }

  lemma TailRefused(c: Command, rest: bytes)
    requires |c.args| < U32 && forall i :: 0 <= i < |c.args| ==> Fits(c.args[i])
    requires |c.args| > MAX_NUM_ARGS || exists i :: 0 <= i < |c.args| && !SendableArgument(c.args[i])
    ensures DecodeTail(c.name, Bytes32(|c.args|) + (WriteArguments(c.args) + rest)) == Bad
  {
    var tail := WriteArguments(c.args) + rest;
    Bytes32Word32(|c.args|, tail);
    assert (Bytes32(|c.args|) + tail)[4..] == tail;
    if |c.args| <= MAX_NUM_ARGS {
      ArgumentsRefused(c.args, rest);
    }
  }

  /**
   * Of the commands that fit their fields, the reader takes exactly those within its limits, and refuses all
   * others; the writer does not check them.
   */
  lemma {:induction false} CommandExactly(c: Command, rest: bytes)
    requires |c.name| < U32 && |c.args| < U32 && forall i :: 0 <= i < |c.args| ==> Fits(c.args[i])
    ensures DecodeCommand(WriteCommand(c) + rest) == if Sendable(c) then Got(c, rest) else Bad
  {
    if Sendable(c) {
      CommandReturns(c, rest);
    } else if |c.name| > MAX_RECORD_SIZE {
      NameRefused(c, rest);
    } else {
      var count, args := Bytes32(|c.args|), WriteArguments(c.args);
      FourParts(WriteBytes(c.name), count, args, rest);
      BytesReturn(c.name, count + (args + rest));
      TailRefused(c, rest);
    }
  }

  lemma FourParts(a: bytes, b: bytes, c: bytes, d: bytes)
    ensures ((a + b) + c) + d == a + (b + (c + d))
  {
  }

  // ------------------------------------------------------- what is read was written

  lemma BytesWereWritten(s: bytes)
    requires DecodeBytes(s).Got?
    ensures var d := DecodeBytes(s); |d.value| <= MAX_RECORD_SIZE && s == WriteBytes(d.value) + d.rest
  {
    Word32Bytes32(s);
    var d := DecodeBytes(s);
    assert s == s[..4] + (d.value + d.rest);
  }

  lemma IntWasWritten(s: bytes)
    requires |s| >= 5 && s[0] == 0
    ensures s == WriteArgument(Int(Word32(s[1..5]))) + s[5..]
  {
    Word32Bytes32(s[1..5]);
    assert s == [0] + s[1..5] + s[5..];
  }

  lemma DataWasWritten(s: bytes, content: bytes, rest: bytes)
    requires s != [] && s[0] == 1 && s[1..] == WriteBytes(content) + rest
    ensures s == WriteArgument(Data(content)) + rest
  {
    assert s == [1] + s[1..];
  }

  lemma ArgumentWasWritten(s: bytes)
    requires DecodeArgument(s).Got?
    ensures var d := DecodeArgument(s); SendableArgument(d.value) && s == WriteArgument(d.value) + d.rest
  {
    if s[0] == 0 {
      IntWasWritten(s);
    } else {
      BytesWereWritten(s[1..]);
      DataWasWritten(s, DecodeBytes(s[1..]).value, DecodeBytes(s[1..]).rest);
    }
  }

  /** `s` begins with these arguments, each of which can be sent, and `rest` is what follows. */
  ghost predicate BeginsWith(s: bytes, args: seq<Argument>, rest: bytes) {
    && (forall i :: 0 <= i < |args| ==> SendableArgument(args[i]))
    && s == WriteArguments(args) + rest
  }

  lemma BeginsWithMore(s: bytes, a: Argument, more: seq<Argument>, mid: bytes, rest: bytes)
    requires SendableArgument(a) && s == WriteArgument(a) + mid && BeginsWith(mid, more, rest)
    ensures BeginsWith(s, [a] + more, rest)
  {
    assert ([a] + more)[1..] == more;
    Regroup(WriteArgument(a), WriteArguments(more), rest);
  }

  lemma {:induction false} ArgumentsWereWritten(s: bytes, n: nat)
    requires DecodeArguments(s, n).Got?
    ensures var d := DecodeArguments(s, n); |d.value| == n && BeginsWith(s, d.value, d.rest)
    decreases n
  {
    if n > 0 {
      var a := DecodeArgument(s);
      var more := DecodeArguments(a.rest, n - 1);
      ArgumentWasWritten(s);
      ArgumentsWereWritten(a.rest, n - 1);
      BeginsWithMore(s, a.value, more.value, a.rest, more.rest);
    }
  }

  lemma TailWasWritten(name: bytes, s: bytes)
    requires DecodeTail(name, s).Got?
    ensures var d := DecodeTail(name, s);
      && d.value.name == name && |d.value.args| <= MAX_NUM_ARGS
      && (forall i :: 0 <= i < |d.value.args| ==> SendableArgument(d.value.args[i]))
      && s == Bytes32(|d.value.args|) + (WriteArguments(d.value.args) + d.rest)
  {
    Word32Bytes32(s);
    ArgumentsWereWritten(s[4..], Word32(s));
    assert s == s[..4] + s[4..];
  }

  /** A command is decoded from its own bytes only, and only within the limits. */
  lemma CommandWasWritten(s: bytes, c: Command, rest: bytes)
    ensures DecodeCommand(s) == Got(c, rest) <==> Sendable(c) && s == WriteCommand(c) + rest
  {
    if DecodeCommand(s) == Got(c, rest) {
      BytesWereWritten(s);
      TailWasWritten(c.name, DecodeBytes(s).rest);
      FourParts(WriteBytes(c.name), Bytes32(|c.args|), WriteArguments(c.args), rest);
    } else if Sendable(c) && s == WriteCommand(c) + rest {
      CommandReturns(c, rest);
    }
  }

  // ------------------------------------------------------- a stream of commands in chunks

  lemma {:induction false} ArgumentsShrink(s: bytes, n: nat)
    ensures DecodeArguments(s, n).Got? ==> |DecodeArguments(s, n).rest| <= |s|
    decreases n
  {
    if n > 0 && DecodeArgument(s).Got? {
      ArgumentsShrink(DecodeArgument(s).rest, n - 1);
    }
  }

  lemma CommandIsStable()
    ensures Stable(DecodeCommand)
  {
    forall s: bytes, more: bytes
      ensures Grows(DecodeCommand(s), DecodeCommand(s + more), more)
    {
      CommandGrows(s, more);
    }
    forall s: bytes | DecodeCommand(s).Got?
      ensures |DecodeCommand(s).rest| < |s|
    {
      ArgumentsShrink(DecodeBytes(s).rest[4..], Word32(DecodeBytes(s).rest));
    }
  }

  /** All commands that `s` holds, and what is left. */
  ghost function CommandsIn(s: bytes): Drained<Command> {
    CommandIsStable();
    Drain(DecodeCommand, s)
  }

  /** Commands written one after the other come back as they were, under any chunking. */
  lemma {:induction false} SentIsReceived(cs: seq<Command>, chunks: seq<bytes>)
    requires forall i :: 0 <= i < |cs| ==> Sendable(cs[i])
    requires Concat(chunks) == WriteAll(WriteCommand, cs)
    ensures Stable(DecodeCommand) && DrainChunks(DecodeCommand, [], chunks) == Drained(cs, [], false)
  {
    CommandIsStable();
    forall i, rest | 0 <= i < |cs|
      ensures DecodeCommand(WriteCommand(cs[i]) + rest) == Got(cs[i], rest)
    {
      CommandReturns(cs[i], rest);
    }
    WrittenIsRead(DecodeCommand, WriteCommand, cs, chunks);
  }

  // ------------------------------------------------------- the writer

  class GpgNetSend {
    var os: bytes

    constructor ()
      ensures os == []
    {
      os := [];
    }

    /** The count is the caller's promise of arguments to follow. */
    method SendCommand(name: bytes, argumentCount: nat)
      requires |name| < U32 && argumentCount < U32
      modifies this
      ensures os == old(os) + (WriteBytes(name) + Bytes32(argumentCount))
    {
      os := os + Bytes32(|name|) + name + Bytes32(argumentCount);
    }

    /** No array and an empty array are sent alike. */
    method SendArgument(arg: bytes)
      requires |arg| < U32
      modifies this
      ensures os == old(os) + WriteArgument(Data(arg))
    {
      os := os + [1];
      os := os + Bytes32(|arg|) + arg;
    }

    /** A negative number is sent as its 32-bit two's complement. */
    method SendIntArgument(arg: int)
      requires -0x8000_0000 <= arg < 0x8000_0000
      modifies this
      ensures os == old(os) + WriteArgument(Int(if arg < 0 then arg + U32 else arg))
    {
      var word: nat := if arg < 0 then arg + U32 else arg;
      os := os + [0];
      os := os + Bytes32(word);
    }
  }
}
