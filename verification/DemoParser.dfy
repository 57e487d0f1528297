/** The demo parser: which record comes next, and going on after the file ran out. */
module DemoParser {
  import opened Bytes
  import opened Wrappers
  import opened Streams
  import opened Draining
  import opened DemoRecords
  import DemoContents
  import SmartPaker

  const MAX_PLAYERS: nat := 10
  const MAX_UNITS: nat := 5000
  const MAX_SECTORS: nat := 10000

  /** The bytes up to the first zero. */
  function Name(s: bytes): bytes {
    if s == [] || s[0] == 0 then [] else [s[0]] + Name(s[1..])
  }

  predicate Printable(s: bytes) {
    forall i :: 0 <= i < |s| ==> 32 <= s[i] < 127
  }

  /** A header that is not what a demo starts with, or not what a demo can have, is refused. */
  function LoadHeader(body: bytes): Option<Header> {
    if |body| < 13 then None
    else
      var h := Header(Word16(body[8..]), body[10], Word16(body[11..]), Name(body[13..]));
      if body[..8] == MAGIC && Acceptable(h) then Some(h) else None
  }

  predicate Acceptable(h: Header) {
    && 3 <= h.version <= 5 && h.numPlayers <= MAX_PLAYERS && h.maxUnits <= MAX_UNITS
    && |h.mapName| <= MAX_NAME && Printable(h.mapName)
  }

  lemma {:induction false} PrintableIsName(s: bytes)
    requires Printable(s)
    ensures Name(s) == s
    decreases |s|
  {
    if s != [] {
      PrintableIsName(s[1..]);
      assert s == [s[0]] + s[1..];
    }
  }

  lemma HeaderParts(m: bytes, v: bytes, n: byte, u: bytes, name: bytes)
    requires |m| == 8 && |v| == 2 && |u| == 2
    ensures var body := m + v + [n] + u + name;
      && |body| >= 13 && body[..8] == m && body[8..] == v + ([n] + u + name) && body[10] == n
      && body[11..] == u + name && body[13..] == name
  {
  }

  lemma HeaderReturns(h: Header)
    requires Acceptable(h)
    ensures LoadHeader(HeaderBody(h)) == Some(h)
  {
    var v, u := Bytes16(h.version), Bytes16(h.maxUnits);
    HeaderParts(MAGIC, v, h.numPlayers, u, h.mapName);
    Bytes16Word16(h.version, [h.numPlayers] + u + h.mapName);
    Bytes16Word16(h.maxUnits, h.mapName);
    PrintableIsName(h.mapName);
  }

  // ------------------------------------------------------- which record comes next

  datatype Event =
    | HeaderRead(header: Header)
    | SectorRead(kind: nat, data: bytes, n: nat)
    | PlayerRead(color: byte, side: byte, number: byte, name: bytes, n: nat)
    | StatusRead(status: DemoContents.Status, n: nat)
    | UnitDataRead(data: bytes)
    | PacketRead(packet: Packet, moves: seq<bytes>, n: nat)

  datatype Progress = Progress(
    header: Option<Header>, numSectors: Option<nat>,
    sectors: nat, players: nat, statuses: nat, units: nat, packets: nat)

  const FRESH := Progress(None, None, 0, 0, 0, 0, 0)

  datatype Stage = AtHeader | AtExtraHeader | AtSector | AtPlayer | AtStatus | AtUnitData | AtPacket

  function StageOf(p: Progress): Stage {
    if p.header == None then AtHeader
    else if p.header.value.version > 4 && p.numSectors == None then AtExtraHeader
    else if p.header.value.version > 4 && p.sectors < p.numSectors.value then AtSector
    else if p.players < p.header.value.numPlayers then AtPlayer
    else if p.statuses < p.header.value.numPlayers then AtStatus
    else if p.units < 1 then AtUnitData
    else AtPacket
  }

  datatype Taken = Refused | Taken(next: Progress, events: seq<Event>)

  /** The addresses of players are written with every bit pattern changed in the same way. */
  function Unmask(s: bytes): bytes {
    seq(|s|, i requires 0 <= i < |s| => XorByte(s[i], 42))
  }

  function TakeHeader(p: Progress, body: bytes): Taken {
    match LoadHeader(body)
    case None => Refused
    case Some(h) => Taken(p.(header := Some(h)), [HeaderRead(h)])
  }

  function TakeExtraHeader(p: Progress, body: bytes): Taken {
    if |body| < 4 || Word32(body) > MAX_SECTORS then Refused
    else Taken(p.(numSectors := Some(Word32(body))), [])
  }

  function TakeSector(p: Progress, body: bytes): Taken {
    if |body| < 4 then Refused
    else
      var data := if Word32(body) == 6 then Unmask(body[4..]) else body[4..];
      Taken(p.(sectors := p.sectors + 1), [SectorRead(Word32(body), data, p.sectors)])
  }

  function TakePlayer(p: Progress, body: bytes): Taken {
    if |body| < 3 then Refused
    else Taken(p.(players := p.players + 1), [PlayerRead(body[0], body[1], body[2], Name(body[3..]), p.players)])
  }

  function TakeStatus(p: Progress, body: bytes): Taken {
    match DemoContents.LoadStatus(body)
    case None => Refused
    case Some(status) => Taken(p.(statuses := p.statuses + 1), [StatusRead(status, p.statuses)])
  }

  function TakeUnitData(p: Progress, body: bytes): Taken {
    Taken(p.(units := p.units + 1), [UnitDataRead(body)])
  }

  /** The oldest demos have packets with a timestamp. */
  predicate HasTimestamp(p: Progress) {
    p.header.Some? && p.header.value.version == 3
  }

  function TakePacket(p: Progress, body: bytes): Taken {
    match LoadPacket(body)
    case OutOfRange => Refused
    case Loaded(packet) =>
      match DemoContents.Moves(packet.data, HasTimestamp(p))
      case None => Refused
      case Some(moves) => Taken(p.(packets := p.packets + 1), [PacketRead(packet, moves, p.packets)])
  }

  function Take(p: Progress, body: bytes): Taken {
    match StageOf(p)
    case AtHeader => TakeHeader(p, body)
    case AtExtraHeader => TakeExtraHeader(p, body)
    case AtSector => TakeSector(p, body)
    case AtPlayer => TakePlayer(p, body)
    case AtStatus => TakeStatus(p, body)
    case AtUnitData => TakeUnitData(p, body)
    case AtPacket => TakePacket(p, body)
  }

  // ------------------------------------------------------- parsing a whole file

  datatype End = OutOfBytes | Broken | Enough

  datatype Outcome = Outcome(events: seq<Event>, progress: Progress, left: bytes, end: End)

  function Then(es: seq<Event>, o: Outcome): Outcome {
    Outcome(es + o.events, o.progress, o.left, o.end)
  }

  /** How many packets may still be taken: no limit, or so many. */
  type Budget = Option<nat>

  function Less(b: Budget, p: Progress): Budget {
    if b.Some? && b.value > 0 && StageOf(p) == AtPacket then Some(b.value - 1) else b
  }

  predicate Exhausted(b: Budget, p: Progress) {
    b == Some(0) && StageOf(p) == AtPacket
  }

  /** Record after record, until the bytes or the budget run out or a record is refused. */
  function Parse(p: Progress, s: bytes, b: Budget): Outcome
    decreases |s|
  {
    if Exhausted(b, p) then Outcome([], p, s, Enough)
    else
      match DecodeRecord(s)
      case NotReady => Outcome([], p, s, OutOfBytes)
      case Bad => Outcome([], p, [], Broken)
      case Got(body, rest) =>
        match Take(p, body)
        case Refused => Outcome([], p, [], Broken)
        case Taken(next, events) => Then(events, Parse(next, rest, Less(b, p)))
  }

  lemma ThenTwice(a: seq<Event>, c: seq<Event>, o: Outcome)
    ensures Then(a, Then(c, o)) == Then(a + c, o) && Then([], o) == o
  {
    assert a + (c + o.events) == (a + c) + o.events;
  }

  lemma ParseStep(p: Progress, s: bytes, b: Budget, body: bytes, rest: bytes, next: Progress, events: seq<Event>)
    requires !Exhausted(b, p) && DecodeRecord(s) == Got(body, rest) && Take(p, body) == Taken(next, events)
    ensures |rest| < |s| && Parse(p, s, b) == Then(events, Parse(next, rest, Less(b, p)))
  {
  }

  /**
   * Going on later with more bytes is the same as having had them from the start: nothing is handed over
   * twice or left out.
   */
  lemma {:induction false} GoesOnLater(p: Progress, s: bytes, more: bytes)
    requires Parse(p, s, None).end == OutOfBytes
    ensures var o := Parse(p, s, None); Parse(p, s + more, None) == Then(o.events, Parse(o.progress, o.left + more, None))
    decreases |s|
  {
    RecordIsStable();
    assert Grows(DecodeRecord(s), DecodeRecord(s + more), more);
    match DecodeRecord(s)
    case NotReady => ThenTwice([], [], Parse(p, s + more, None));
    case Bad =>
    case Got(body, rest) =>
      var t := Take(p, body);
      if t.Taken? {
        ParseStep(p, s, None, body, rest, t.next, t.events);
        ParseStep(p, s + more, None, body, rest + more, t.next, t.events);
        GoesOnLater(t.next, rest, more);
        var o := Parse(t.next, rest, None);
        ThenTwice(t.events, o.events, Parse(o.progress, o.left + more, None));
      }
  }

  /** Taking some packets now and the others later is the same as taking all at once. */
  lemma {:induction false} BudgetsAdd(p: Progress, s: bytes, b: nat)
    requires Parse(p, s, Some(b)).end == Enough
    ensures var o := Parse(p, s, Some(b)); Parse(p, s, None) == Then(o.events, Parse(o.progress, o.left, None))
    decreases |s|
  {
    if Exhausted(Some(b), p) {
      ThenTwice([], [], Parse(p, s, None));
    } else if DecodeRecord(s).Got? {
      var body, rest := DecodeRecord(s).value, DecodeRecord(s).rest;
      var t := Take(p, body);
      if t.Taken? {
        var c := Less(Some(b), p);
        ParseStep(p, s, Some(b), body, rest, t.next, t.events);
        ParseStep(p, s, None, body, rest, t.next, t.events);
        BudgetsAdd(t.next, rest, c.value);
        var o := Parse(t.next, rest, c);
        ThenTwice(t.events, o.events, Parse(o.progress, o.left, None));
      }
    }
  }

  function ParseChunks(p: Progress, left: bytes, chunks: seq<bytes>): Outcome
    decreases |chunks|
  {
    if chunks == [] then Outcome([], p, left, OutOfBytes)
    else
      var o := Parse(p, left + chunks[0], None);
      if o.end != OutOfBytes then o else Then(o.events, ParseChunks(o.progress, o.left, chunks[1..]))
  }

  lemma {:induction false} BrokenStays(p: Progress, s: bytes, more: bytes)
    requires Parse(p, s, None).end == Broken
    ensures Parse(p, s + more, None) == Parse(p, s, None)
    decreases |s|
  {
    RecordIsStable();
    assert Grows(DecodeRecord(s), DecodeRecord(s + more), more);
    match DecodeRecord(s)
    case Got(body, rest) =>
      var t := Take(p, body);
      if t.Taken? {
        BrokenStays(t.next, rest, more);
      }
    case _ =>
  }

  lemma {:induction false} LeftIsParsed(p: Progress, s: bytes)
    requires Parse(p, s, None).end == OutOfBytes
    ensures var o := Parse(p, s, None); Parse(o.progress, o.left, None) == Outcome([], o.progress, o.left, OutOfBytes)
    decreases |s|
  {
    match DecodeRecord(s)
    case Got(body, rest) =>
      var t := Take(p, body);
      if t.Taken? {
        LeftIsParsed(t.next, rest);
      }
    case _ =>
  }

  lemma {:induction false} NeverEnough(p: Progress, s: bytes)
    ensures Parse(p, s, None).end != Enough
    decreases |s|
  {
    match DecodeRecord(s)
    case Got(body, rest) =>
      var t := Take(p, body);
      if t.Taken? {
        NeverEnough(t.next, rest);
      }
    case _ =>
  }

  /** A growing file is handed over as the finished one would be, whenever the parser is called in between. */
  lemma {:induction false} GrowingFile(p: Progress, left: bytes, chunks: seq<bytes>)
    requires Parse(p, left, None) == Outcome([], p, left, OutOfBytes)
    ensures ParseChunks(p, left, chunks) == Parse(p, left + Concat(chunks), None)
    decreases |chunks|
  {
    if chunks == [] {
      Nothing(left);
    } else {
      var s, more := left + chunks[0], Concat(chunks[1..]);
      Regroup(left, chunks[0], more);
      NeverEnough(p, s);
      var o := Parse(p, s, None);
      if o.end == Broken {
        BrokenStays(p, s, more);
      } else {
        GoesOnLater(p, s, more);
        LeftIsParsed(p, s);
        GrowingFile(o.progress, o.left, chunks[1..]);
      }
    }
  }

  // ------------------------------------------------------- a written demo

  /** The events of packets whose moves can be read. */
  function PacketEvents(packets: seq<Packet>, hasTimestamp: bool, n: nat): seq<Event>
    requires forall i :: 0 <= i < |packets| ==> DemoContents.Moves(packets[i].data, hasTimestamp).Some?
    decreases |packets|
  {
    if packets == [] then []
    else
      [PacketRead(packets[0], DemoContents.Moves(packets[0].data, hasTimestamp).value, n)]
      + PacketEvents(packets[1..], hasTimestamp, n + 1)
  }

  predicate Writable(p: Packet) {
    p.time < U16 && |p.data| <= LONGEST - 5
  }

  lemma PacketTaken(p: Progress, packet: Packet, rest: bytes)
    requires StageOf(p) == AtPacket && Writable(packet)
    requires DemoContents.Moves(packet.data, HasTimestamp(p)).Some?
    ensures DecodeRecord(PacketRecord(packet) + rest) == Got(PacketBody(packet), rest)
    ensures Take(p, PacketBody(packet)) == Taken(p.(packets := p.packets + 1),
      [PacketRead(packet, DemoContents.Moves(packet.data, HasTimestamp(p)).value, p.packets)])
  {
    RecordReturns(PacketBody(packet), rest);
    PacketReturns(packet);
  }

  /** Packets written behind each other are handed over with all their fields and moves, numbered in order. */
  lemma {:induction false} PacketsReturn(p: Progress, packets: seq<Packet>)
    requires StageOf(p) == AtPacket
    requires forall i :: 0 <= i < |packets| ==>
      Writable(packets[i]) && DemoContents.Moves(packets[i].data, HasTimestamp(p)).Some?
    ensures Parse(p, WriteAll(PacketRecord, packets), None)
         == Outcome(PacketEvents(packets, HasTimestamp(p), p.packets), p.(packets := p.packets + |packets|), [], OutOfBytes)
    decreases |packets|
  {
    if packets != [] {
      var rest := WriteAll(PacketRecord, packets[1..]);
      var next := p.(packets := p.packets + 1);
      PacketTaken(p, packets[0], rest);
      ParseStep(p, WriteAll(PacketRecord, packets), None, PacketBody(packets[0]), rest,
        next, [PacketRead(packets[0], DemoContents.Moves(packets[0].data, HasTimestamp(p)).value, p.packets)]);
      PacketsReturn(next, packets[1..]);
    }
  }

  lemma {:induction false} PacketEventsAt(packets: seq<Packet>, hasTimestamp: bool, n: nat)
    requires forall i :: 0 <= i < |packets| ==> DemoContents.Moves(packets[i].data, hasTimestamp).Some?
    ensures |PacketEvents(packets, hasTimestamp, n)| == |packets|
    ensures forall i :: 0 <= i < |packets| ==>
      PacketEvents(packets, hasTimestamp, n)[i]
        == PacketRead(packets[i], DemoContents.Moves(packets[i].data, hasTimestamp).value, n + i)
    decreases |packets|
  {
    if packets != [] {
      PacketEventsAt(packets[1..], hasTimestamp, n + 1);
    }
  }

  /** The subpackets of one packet of the game, and when and by whom it was sent. */
  datatype Move = Move(time: nat, sender: byte, subpaks: seq<bytes>)

  /** As the recorder writes it. */
  function Recorded(m: Move): Packet {
    Packet(m.time, m.sender, SmartPaker.Filtered(m.subpaks))
  }

  function RecordedAll(moves: seq<Move>): seq<Packet> {
    seq(|moves|, i requires 0 <= i < |moves| => Recorded(moves[i]))
  }

  /**
   * From the recorder to the player of the demo: every packet of the game is handed over, in order, with its
   * time and sender, and with the same subpackets if and only if its movements are in step.
   */
  lemma MovesReturn(p: Progress, moves: seq<Move>)
    requires StageOf(p) == AtPacket && !HasTimestamp(p)
    requires forall i :: 0 <= i < |moves| ==> SmartPaker.Packable(moves[i].subpaks) && Writable(Recorded(moves[i]))
    ensures var es := Parse(p, WriteAll(PacketRecord, RecordedAll(moves)), None).events;
      && |es| == |moves|
      && forall i :: 0 <= i < |moves| ==>
           && es[i].PacketRead? && es[i].packet == Recorded(moves[i]) && es[i].n == p.packets + i
           && (es[i].moves == moves[i].subpaks <==> SmartPaker.InStep(moves[i].subpaks, true, 0))
  {
    var packets := RecordedAll(moves);
    forall i | 0 <= i < |packets|
      ensures Writable(packets[i]) && DemoContents.Moves(packets[i].data, false).Some?
      ensures DemoContents.Moves(packets[i].data, false).value == moves[i].subpaks <==> SmartPaker.InStep(moves[i].subpaks, true, 0)
    {
      DemoContents.FilteredReturn(moves[i].subpaks);
    }
    PacketsReturn(p, packets);
    PacketEventsAt(packets, false, p.packets);
  }

  // ------------------------------------------------------- one record at a time

  /** A parse that has handed over `events` and goes on from `s`. */
  datatype Parsing = Parsing(all: Outcome, events: seq<Event>, p: Progress, s: bytes, b: Budget)

  ghost predicate GoesOn(g: Parsing) {
    g.all == Then(g.events, Parse(g.p, g.s, g.b))
  }

  lemma Ends(g: Parsing)
    requires GoesOn(g)
    ensures !Exhausted(g.b, g.p) && DecodeRecord(g.s) == NotReady ==> g.all == Outcome(g.events, g.p, g.s, OutOfBytes)
    ensures !Exhausted(g.b, g.p) && DecodeRecord(g.s) == Bad ==> g.all == Outcome(g.events, g.p, [], Broken)
    ensures Exhausted(g.b, g.p) ==> g.all == Outcome(g.events, g.p, g.s, Enough)
  {
    assert g.events + [] == g.events;
  }

  lemma EndsRefused(g: Parsing)
    requires GoesOn(g) && !Exhausted(g.b, g.p) && DecodeRecord(g.s).Got?
    requires Take(g.p, DecodeRecord(g.s).value) == Refused
    ensures g.all == Outcome(g.events, g.p, [], Broken)
  {
    assert g.events + [] == g.events;
  }

  lemma Continues(g: Parsing, body: bytes, rest: bytes, next: Progress, events: seq<Event>) returns (h: Parsing)
    requires GoesOn(g) && !Exhausted(g.b, g.p)
    requires DecodeRecord(g.s) == Got(body, rest) && Take(g.p, body) == Taken(next, events)
    ensures GoesOn(h) && h == Parsing(g.all, g.events + events, next, rest, Less(g.b, g.p)) && |rest| < |g.s|
  {
    ParseStep(g.p, g.s, g.b, body, rest, next, events);
    ThenTwice(g.events, events, Parse(next, rest, Less(g.b, g.p)));
    h := Parsing(g.all, g.events + events, next, rest, Less(g.b, g.p));
  }

  datatype Stop = GoOn | Stopped(end: End)

  class DemoParser {
    const recordReader: RecordReader
    var header: Option<Header>
    var numSectors: Option<nat>
    var sectorsRead: nat
    var playersRead: nat
    var statusesRead: nat
    var unitsRead: nat
    var packetsRead: nat
    var handed: seq<Event>

    ghost predicate Valid()
      reads this, recordReader
    {
      recordReader.Valid()
    }

    ghost function State(): Progress
      reads this
    {
      Progress(header, numSectors, sectorsRead, playersRead, statusesRead, unitsRead, packetsRead)
    }

    constructor ()
      ensures Valid() && fresh(recordReader) && State() == FRESH && handed == [] && recordReader.Taken() == []
    {
      recordReader := new RecordReader();
      header, numSectors := None, None;
      sectorsRead, playersRead, statusesRead, unitsRead, packetsRead := 0, 0, 0, 0, 0;
      handed := [];
    }

    /** `g` is the parse that this object is in the middle of. */
    ghost predicate At(g: Parsing, input: InputStream)
      reads this, recordReader, input
    {
      && Valid() && GoesOn(g)
      && g.p == State() && g.s == recordReader.Taken() + input.data && g.events == handed
    }

    /** The parse is over, as `all` says. */
    ghost predicate Finished(all: Outcome, input: InputStream, end: End)
      reads this, recordReader, input
    {
      && Valid() && all.end == end && all.events == handed && all.progress == State()
      && (end != Broken ==> all.left == recordReader.Taken() + input.data)
    }

    /** The next record, if it is whole. */
    method Load(input: InputStream, ghost g: Parsing) returns (reply: Reply<bytes>)
      requires At(g, input) && !Exhausted(g.b, g.p)
      modifies recordReader, input
      ensures Valid()
      ensures reply == Wait ==> Finished(g.all, input, OutOfBytes)
      ensures reply == Fail ==> Finished(g.all, input, Broken)
      ensures reply.Ready? ==> DecodeRecord(g.s) == Got(reply.value, recordReader.Taken() + input.data)
    {
      reply := recordReader.Read(input);
      Ends(g);
      Nothing(recordReader.Taken());
      Nothing(input.data);
    }

    /** Refusing a record ends the parse with an error. */
    ghost method Refuse(input: InputStream, g: Parsing, body: bytes)
      requires Valid() && GoesOn(g) && !Exhausted(g.b, g.p) && g.p == State() && g.events == handed
      requires DecodeRecord(g.s).Got? && DecodeRecord(g.s).value == body && Take(g.p, body) == Refused
      ensures Finished(g.all, input, Broken)
    {
      EndsRefused(g);
    }

    method ReadHeader(input: InputStream, ghost g: Parsing) returns (stop: Stop, ghost h: Parsing)
      requires At(g, input)
      modifies this`header, this`handed, recordReader, input
      ensures stop == GoOn ==> At(h, input) && h.all == g.all && h.b == g.b && header.Some?
      ensures stop.Stopped? ==> Finished(g.all, input, stop.end)
    {
      h := g;
      if header == None {
        var reply := Load(input, g);
        if reply == Wait { return Stopped(OutOfBytes), g; }
        if reply == Fail { return Stopped(Broken), g; }
        var loaded := LoadHeader(reply.value);
        if loaded == None {
          Refuse(input, g, reply.value);
          return Stopped(Broken), g;
        }
        handed := handed + [HeaderRead(loaded.value)];
        header := loaded;
        h := Continues(g, reply.value, recordReader.Taken() + input.data, State(), [HeaderRead(loaded.value)]);
      }
      stop := GoOn;
    }

    /** The extra header tells how many sectors there are. */
    method ReadExtraHeader(input: InputStream, ghost g: Parsing) returns (stop: Stop, ghost h: Parsing)
      requires At(g, input) && header.Some? && header.value.version > 4
      modifies this`numSectors, recordReader, input
      ensures stop == GoOn ==> At(h, input) && h.all == g.all && h.b == g.b && numSectors.Some?
      ensures stop.Stopped? ==> Finished(g.all, input, stop.end)
    {
      h := g;
      if numSectors == None {
        var reply := Load(input, g);
        if reply == Wait { return Stopped(OutOfBytes), g; }
        if reply == Fail { return Stopped(Broken), g; }
        var body := reply.value;
        if |body| < 4 || Word32(body) > MAX_SECTORS {
          Refuse(input, g, body);
          return Stopped(Broken), g;
        }
        numSectors := Some(Word32(body));
        h := Continues(g, body, recordReader.Taken() + input.data, State(), []);
        assert handed + [] == handed;
      }
      stop := GoOn;
    }

    method ReadSector(input: InputStream, ghost g: Parsing) returns (stop: Stop, ghost h: Parsing)
      requires At(g, input) && StageOf(State()) == AtSector
      modifies this`sectorsRead, this`handed, recordReader, input
      ensures stop == GoOn ==> At(h, input) && h.all == g.all && h.b == g.b && sectorsRead == old(sectorsRead) + 1
      ensures stop.Stopped? ==> Finished(g.all, input, stop.end)
    {
      var reply := Load(input, g);
      if reply == Wait { return Stopped(OutOfBytes), g; }
      if reply == Fail { return Stopped(Broken), g; }
      var body := reply.value;
      if |body| < 4 {
        Refuse(input, g, body);
        return Stopped(Broken), g;
      }
      var data := body[4..];
      if Word32(body) == 6 { data := Unmask(data); }
      var e := SectorRead(Word32(body), data, sectorsRead);
      handed := handed + [e];
      sectorsRead := sectorsRead + 1;
      h := Continues(g, body, recordReader.Taken() + input.data, State(), [e]);
      stop := GoOn;
    }

    method ReadSectors(input: InputStream, ghost g: Parsing) returns (stop: Stop, ghost h: Parsing)
      requires At(g, input) && header.Some?
      modifies this`numSectors, this`sectorsRead, this`handed, recordReader, input
      ensures stop == GoOn ==> At(h, input) && h.all == g.all && h.b == g.b && StageOf(State()) !in {AtHeader, AtExtraHeader, AtSector}
      ensures stop.Stopped? ==> Finished(g.all, input, stop.end)
    {
      stop, h := GoOn, g;
      if header.value.version > 4 {
        stop, h := ReadExtraHeader(input, h);
        if stop.Stopped? { return; }
        while sectorsRead < numSectors.value
          invariant numSectors.Some? && At(h, input) && h.all == g.all && h.b == g.b && stop == GoOn
        {
          stop, h := ReadSector(input, h);
          if stop.Stopped? { return; }
        }
      }
    }

    method ReadPlayer(input: InputStream, ghost g: Parsing) returns (stop: Stop, ghost h: Parsing)
      requires At(g, input) && StageOf(State()) == AtPlayer
      modifies this`playersRead, this`handed, recordReader, input
      ensures stop == GoOn ==> At(h, input) && h.all == g.all && h.b == g.b && playersRead == old(playersRead) + 1
      ensures stop.Stopped? ==> Finished(g.all, input, stop.end)
    {
      var reply := Load(input, g);
      if reply == Wait { return Stopped(OutOfBytes), g; }
      if reply == Fail { return Stopped(Broken), g; }
      var body := reply.value;
      if |body| < 3 {
        Refuse(input, g, body);
        return Stopped(Broken), g;
      }
      var e := PlayerRead(body[0], body[1], body[2], Name(body[3..]), playersRead);
      handed := handed + [e];
      playersRead := playersRead + 1;
      h := Continues(g, body, recordReader.Taken() + input.data, State(), [e]);
      stop := GoOn;
    }

    method ReadPlayers(input: InputStream, ghost g: Parsing) returns (stop: Stop, ghost h: Parsing)
      requires At(g, input) && StageOf(State()) !in {AtHeader, AtExtraHeader, AtSector}
      modifies this`playersRead, this`handed, recordReader, input
      ensures stop == GoOn ==> At(h, input) && h.all == g.all && h.b == g.b && StageOf(State()) in {AtStatus, AtUnitData, AtPacket}
      ensures stop.Stopped? ==> Finished(g.all, input, stop.end)
    {
      stop, h := GoOn, g;
      while playersRead < header.value.numPlayers
        invariant At(h, input) && h.all == g.all && h.b == g.b && stop == GoOn
        invariant StageOf(State()) !in {AtHeader, AtExtraHeader, AtSector}
      {
        stop, h := ReadPlayer(input, h);
        if stop.Stopped? { return; }
      }
    }

    method ReadStatus(input: InputStream, ghost g: Parsing) returns (stop: Stop, ghost h: Parsing)
      requires At(g, input) && StageOf(State()) == AtStatus
      modifies this`statusesRead, this`handed, recordReader, input
      ensures stop == GoOn ==> At(h, input) && h.all == g.all && h.b == g.b && statusesRead == old(statusesRead) + 1
      ensures stop.Stopped? ==> Finished(g.all, input, stop.end)
    {
      var reply := Load(input, g);
      if reply == Wait { return Stopped(OutOfBytes), g; }
      if reply == Fail { return Stopped(Broken), g; }
      var status := DemoContents.ReadStatusBody(reply.value);
      if status == None {
        Refuse(input, g, reply.value);
        return Stopped(Broken), g;
      }
      var e := StatusRead(status.value, statusesRead);
      handed := handed + [e];
      statusesRead := statusesRead + 1;
      h := Continues(g, reply.value, recordReader.Taken() + input.data, State(), [e]);
      stop := GoOn;
    }

    method ReadStatuses(input: InputStream, ghost g: Parsing) returns (stop: Stop, ghost h: Parsing)
      requires At(g, input) && StageOf(State()) in {AtStatus, AtUnitData, AtPacket}
      modifies this`statusesRead, this`handed, recordReader, input
      ensures stop == GoOn ==> At(h, input) && h.all == g.all && h.b == g.b && StageOf(State()) in {AtUnitData, AtPacket}
      ensures stop.Stopped? ==> Finished(g.all, input, stop.end)
    {
      stop, h := GoOn, g;
      while statusesRead < header.value.numPlayers
        invariant At(h, input) && h.all == g.all && h.b == g.b && stop == GoOn
        invariant StageOf(State()) in {AtStatus, AtUnitData, AtPacket}
      {
        stop, h := ReadStatus(input, h);
        if stop.Stopped? { return; }
      }
    }

    method ReadUnitData(input: InputStream, ghost g: Parsing) returns (stop: Stop, ghost h: Parsing)
      requires At(g, input) && StageOf(State()) in {AtUnitData, AtPacket}
      modifies this`unitsRead, this`handed, recordReader, input
      ensures stop == GoOn ==> At(h, input) && h.all == g.all && h.b == g.b && StageOf(State()) == AtPacket
      ensures stop.Stopped? ==> Finished(g.all, input, stop.end)
    {
      h := g;
      if unitsRead < 1 {
        var reply := Load(input, g);
        if reply == Wait { return Stopped(OutOfBytes), g; }
        if reply == Fail { return Stopped(Broken), g; }
        var e := UnitDataRead(reply.value);
        handed := handed + [e];
        unitsRead := unitsRead + 1;
        h := Continues(g, reply.value, recordReader.Taken() + input.data, State(), [e]);
      }
      stop := GoOn;
    }

    method ReadPacket(input: InputStream, ghost g: Parsing) returns (stop: Stop, ghost h: Parsing)
      requires At(g, input) && StageOf(State()) == AtPacket && g.b != Some(0)
      modifies this`packetsRead, this`handed, recordReader, input
      ensures stop == GoOn ==>
        At(h, input) && h.all == g.all && h.b == Less(g.b, g.p) && StageOf(State()) == AtPacket && |h.s| < |g.s|
      ensures stop.Stopped? ==> Finished(g.all, input, stop.end)
    {
      var reply := Load(input, g);
      if reply == Wait { return Stopped(OutOfBytes), g; }
      if reply == Fail { return Stopped(Broken), g; }
      var loaded := LoadPacket(reply.value);
      if loaded == OutOfRange {
        Refuse(input, g, reply.value);
        return Stopped(Broken), g;
      }
      var moves := DemoContents.ReadMoves(loaded.packet.data, header.value.version == 3);
      if moves == None {
        Refuse(input, g, reply.value);
        return Stopped(Broken), g;
      }
      var e := PacketRead(loaded.packet, moves.value, packetsRead);
      handed := handed + [e];
      packetsRead := packetsRead + 1;
      h := Continues(g, reply.value, recordReader.Taken() + input.data, State(), [e]);
      stop := GoOn;
    }

    /** At most so many packets, or as many as there are when `maxPaksToLoad` is zero. */
    method ReadPackets(input: InputStream, maxPaksToLoad: nat, ghost g: Parsing) returns (end: End)
      requires At(g, input) && StageOf(State()) == AtPacket
      requires g.b == if maxPaksToLoad == 0 then None else Some(maxPaksToLoad)
      modifies this`packetsRead, this`handed, recordReader, input
      ensures Finished(g.all, input, end)
    {
      ghost var h := g;
      var n := 0;
      while n < maxPaksToLoad || maxPaksToLoad == 0
        invariant At(h, input) && h.all == g.all && StageOf(State()) == AtPacket
        invariant maxPaksToLoad == 0 ==> h.b == None
        invariant maxPaksToLoad > 0 ==> n <= maxPaksToLoad && h.b == Some(maxPaksToLoad - n)
        decreases |h.s|
      {
        var stop;
        stop, h := ReadPacket(input, h);
        if stop.Stopped? { return stop.end; }
        n := n + 1;
      }
      Ends(h);
      end := Enough;
    }

    /**
     * Reading from where the last call stopped. What is handed over is what parsing the unread bytes, together
     * with those of an unfinished record, gives from the state reached so far.
     */
    method DoParse(input: InputStream, maxPaksToLoad: nat) returns (end: End)
      requires Valid()
      modifies this`header, this`numSectors, this`sectorsRead, this`playersRead, this`statusesRead, this`unitsRead,
               this`packetsRead, this`handed, recordReader, input
      ensures Valid()
      ensures var o := Parse(old(State()), old(recordReader.Taken() + input.data),
                             if maxPaksToLoad == 0 then None else Some(maxPaksToLoad));
        && end == o.end && State() == o.progress && handed == old(handed) + o.events
        && (end != Broken ==> recordReader.Taken() + input.data == o.left)
    {
      ghost var before, b: Budget := handed, if maxPaksToLoad == 0 then None else Some(maxPaksToLoad);
      ghost var o := Parse(State(), recordReader.Taken() + input.data, b);
      ghost var g := Parsing(Then(handed, o), handed, State(), recordReader.Taken() + input.data, b);
      var stop;
      stop, g := ReadHeader(input, g);
      if stop.Stopped? { return stop.end; }
      stop, g := ReadSectors(input, g);
      if stop.Stopped? { return stop.end; }
      stop, g := ReadPlayers(input, g);
      if stop.Stopped? { return stop.end; }
      stop, g := ReadStatuses(input, g);
      if stop.Stopped? { return stop.end; }
      stop, g := ReadUnitData(input, g);
      if stop.Stopped? { return stop.end; }
      end := ReadPackets(input, maxPaksToLoad, g);
    }
  }
}
