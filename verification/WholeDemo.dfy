/** A whole demo file, from its header to its last packet: everything written is handed over, in order. */
module WholeDemo {
  import opened Bytes
  import opened Wrappers
  import opened Draining
  import opened DemoRecords
  import opened DemoParser
  import DemoContents
  import Pipeline
  import SmartPaker

  // ------------------------------------------------------- record after record

  /** Taking these records one after the other. */
  function TakeAll(p: Progress, bodies: seq<bytes>): Taken
    decreases |bodies|
  {
    if bodies == [] then Taken(p, [])
    else
      match Take(p, bodies[0])
      case Refused => Refused
      case Taken(next, events) =>
        match TakeAll(next, bodies[1..])
        case Refused => Refused
        case Taken(last, more) => Taken(last, events + more)
  }

  /** The records lead from `p` to `q` and hand over `events`. */
  ghost predicate Leads(p: Progress, bodies: seq<bytes>, q: Progress, events: seq<Event>) {
    TakeAll(p, bodies) == Taken(q, events)
  }

  lemma LeadsNowhere(p: Progress)
    ensures Leads(p, [], p, [])
  {
  }

  lemma LeadsFirst(p: Progress, bodies: seq<bytes>, n: Progress, first: seq<Event>, q: Progress, more: seq<Event>)
    requires bodies != [] && Take(p, bodies[0]) == Taken(n, first) && Leads(n, bodies[1..], q, more)
    ensures Leads(p, bodies, q, first + more)
  {
  }

  lemma LeadsBack(p: Progress, bodies: seq<bytes>, q: Progress, events: seq<Event>)
      returns (n: Progress, first: seq<Event>, more: seq<Event>)
    requires bodies != [] && Leads(p, bodies, q, events)
    ensures Take(p, bodies[0]) == Taken(n, first) && Leads(n, bodies[1..], q, more) && events == first + more
  {
    n, first := Take(p, bodies[0]).next, Take(p, bodies[0]).events;
    more := TakeAll(n, bodies[1..]).events;
  }

  lemma JoinedTail(a: seq<bytes>, b: seq<bytes>, es: seq<Event>, more: seq<Event>, fs: seq<Event>)
    requires a != []
    ensures (a + b)[0] == a[0] && (a + b)[1..] == a[1..] + b && (es + more) + fs == es + (more + fs)
  {
  }

  lemma {:induction false} LeadsOn(
      p: Progress, a: seq<bytes>, n: Progress, es: seq<Event>, b: seq<bytes>, q: Progress, fs: seq<Event>)
    requires Leads(p, a, n, es) && Leads(n, b, q, fs)
    ensures Leads(p, a + b, q, es + fs)
    decreases |a|
  {
    if a == [] {
      assert a + b == b && es + fs == fs;
    } else {
      var m, first, more := LeadsBack(p, a, n, es);
      LeadsOn(m, a[1..], n, more, b, q, fs);
      JoinedTail(a, b, first, more, fs);
      LeadsFirst(p, a + b, m, first, q, more + fs);
    }
  }

  /** Each record is taken, and leads from one state to the next. */
  ghost predicate Row(ps: seq<Progress>, bodies: seq<bytes>, events: seq<Event>) {
    && |ps| == |bodies| + 1 && |events| == |bodies|
    && forall i :: 0 <= i < |bodies| ==> Take(ps[i], bodies[i]) == Taken(ps[i + 1], [events[i]])
  }

  lemma {:induction false} RowLeads(ps: seq<Progress>, bodies: seq<bytes>, events: seq<Event>)
    requires Row(ps, bodies, events)
    ensures Leads(ps[0], bodies, ps[|bodies|], events)
    decreases |bodies|
  {
    if bodies != [] {
      assert Row(ps[1..], bodies[1..], events[1..]);
      RowLeads(ps[1..], bodies[1..], events[1..]);
      LeadsFirst(ps[0], bodies, ps[1], [events[0]], ps[|bodies|], events[1..]);
      assert [events[0]] + events[1..] == events;
    }
  }

  predicate Readable(bodies: seq<bytes>) {
    forall i :: 0 <= i < |bodies| ==> 1 <= |bodies[i]| <= LONGEST - 2
  }

  /** Records that can be read and are not refused are all taken from the file. */
  lemma {:induction false} FileIsTaken(p: Progress, bodies: seq<bytes>, q: Progress, events: seq<Event>)
    requires Readable(bodies) && Leads(p, bodies, q, events)
    ensures Parse(p, WriteAll(Record, bodies), None) == Outcome(events, q, [], OutOfBytes)
    decreases |bodies|
  {
    if bodies != [] {
      var rest := WriteAll(Record, bodies[1..]);
      var t := Take(p, bodies[0]);
      var u := TakeAll(t.next, bodies[1..]);
      RecordReturns(bodies[0], rest);
      ParseStep(p, Record(bodies[0]) + rest, None, bodies[0], rest, t.next, t.events);
      FileIsTaken(t.next, bodies[1..], q, u.events);
    }
  }

  // ------------------------------------------------------- sectors

  /** The address of a player stands behind a field of zeros, and is masked together with the zero that ends it. */
  const PLAYER_ADDR: nat := 6
  const PADDING: nat := 80

  datatype Content = Plain(kind: nat, data: bytes) | Address(ip: bytes)

  function Filled(b: byte, n: nat): (s: bytes)
    ensures |s| == n
  {
    seq(n, i => b)
  }

  function Written(c: Content): Sector {
    match c
    case Plain(kind, data) => Sector(kind, data)
    case Address(ip) => Sector(PLAYER_ADDR, Filled(0, PADDING) + Unmask(ip + [0]))
  }

  /** The parser unmasks all of the data, so that the zeros before the address turn into the mask. */
  function Read(c: Content): Sector {
    match c
    case Plain(kind, data) => Sector(kind, data)
    case Address(ip) => Sector(PLAYER_ADDR, Filled(42, PADDING) + ip + [0])
  }

  predicate SectorFits(c: Content) {
    match c
    case Plain(kind, data) => kind < U32 && kind != PLAYER_ADDR && |data| <= LONGEST - 6
    case Address(ip) => |ip| <= LONGEST - 7 - PADDING
  }

  lemma UnmaskUndoes(s: bytes)
    ensures Unmask(Unmask(s)) == s
  {
    forall i | 0 <= i < |s|
      ensures Unmask(Unmask(s))[i] == s[i]
    {
      XorUndoes(s[i], 42);
    }
  }

  lemma UnmaskJoins(a: bytes, b: bytes)
    ensures Unmask(a + b) == Unmask(a) + Unmask(b)
  {
  }

  lemma PaddingBecomesMask(n: nat)
    ensures Unmask(Filled(0, n)) == Filled(42, n)
  {
    XorZero(42);
  }

  lemma AddressReturns(ip: bytes)
    ensures Unmask(Written(Address(ip)).data) == Read(Address(ip)).data
  {
    UnmaskJoins(Filled(0, PADDING), Unmask(ip + [0]));
    PaddingBecomesMask(PADDING);
    UnmaskUndoes(ip + [0]);
    assert Filled(42, PADDING) + (ip + [0]) == Filled(42, PADDING) + ip + [0];
  }

  lemma SectorReturns(p: Progress, c: Content)
    requires StageOf(p) == AtSector && SectorFits(c)
    ensures Take(p, SectorBody(Written(c)))
      == Taken(p.(sectors := p.sectors + 1), [SectorRead(Read(c).kind, Read(c).data, p.sectors)])
    ensures 1 <= |SectorBody(Written(c))| <= LONGEST - 2
  {
    var s := Written(c);
    Bytes32Word32(s.kind, s.data);
    assert SectorBody(s)[4..] == s.data;
    if c.Address? { AddressReturns(c.ip); }
  }

  function SectorBodies(cs: seq<Content>): seq<bytes> {
    seq(|cs|, i requires 0 <= i < |cs| => SectorBody(Written(cs[i])))
  }

  function SectorEvents(cs: seq<Content>, n: nat): seq<Event> {
    seq(|cs|, i requires 0 <= i < |cs| => SectorRead(Read(cs[i]).kind, Read(cs[i]).data, n + i))
  }

  lemma SectorsReturn(p: Progress, cs: seq<Content>)
    requires p.header.Some? && p.header.value.version > 4 && p.numSectors == Some(p.sectors + |cs|)
    requires forall i :: 0 <= i < |cs| ==> SectorFits(cs[i])
    ensures Leads(p, SectorBodies(cs), p.(sectors := p.sectors + |cs|), SectorEvents(cs, p.sectors))
    ensures Readable(SectorBodies(cs))
  {
    var ps := seq(|cs| + 1, i requires 0 <= i <= |cs| => p.(sectors := p.sectors + i));
    forall i | 0 <= i < |cs|
      ensures Take(ps[i], SectorBodies(cs)[i]) == Taken(ps[i + 1], [SectorEvents(cs, p.sectors)[i]])
      ensures 1 <= |SectorBodies(cs)[i]| <= LONGEST - 2
    {
      SectorReturns(ps[i], cs[i]);
    }
    RowLeads(ps, SectorBodies(cs), SectorEvents(cs, p.sectors));
    assert ps[0] == p;
  }

  // ------------------------------------------------------- players

  /** A name ends at its first zero. */
  lemma {:induction false} NameEnds(s: bytes)
    ensures |Name(s)| <= |s| && Name(s) == s[..|Name(s)|] && 0 !in Name(s)
    ensures |Name(s)| < |s| ==> s[|Name(s)|] == 0
    decreases |s|
  {
    if s != [] && s[0] != 0 {
      NameEnds(s[1..]);
      assert s == [s[0]] + s[1..];
    }
  }

  function PlayerEvent(p: Player, n: nat): Event {
    PlayerRead(p.color, p.side, p.number, Name(Cut(p.name, MAX_PLAYER_NAME)), n)
  }

  lemma PlayerReturns(q: Progress, p: Player)
    requires StageOf(q) == AtPlayer
    ensures Take(q, PlayerBody(p)) == Taken(q.(players := q.players + 1), [PlayerEvent(p, q.players)])
    ensures 1 <= |PlayerBody(p)| <= LONGEST - 2
  {
    assert PlayerBody(p)[3..] == Cut(p.name, MAX_PLAYER_NAME);
  }

  function PlayerBodies(ps: seq<Player>): seq<bytes> {
    seq(|ps|, i requires 0 <= i < |ps| => PlayerBody(ps[i]))
  }

  function PlayerEvents(ps: seq<Player>, n: nat): seq<Event> {
    seq(|ps|, i requires 0 <= i < |ps| => PlayerEvent(ps[i], n + i))
  }

  /** The parser is done with everything that comes before the players. */
  predicate PastSectors(p: Progress) {
    p.header.Some? && (p.header.value.version > 4 ==> p.numSectors.Some? && p.sectors >= p.numSectors.value)
  }

  lemma PlayersReturn(p: Progress, xs: seq<Player>)
    requires PastSectors(p) && p.players + |xs| <= p.header.value.numPlayers
    ensures Leads(p, PlayerBodies(xs), p.(players := p.players + |xs|), PlayerEvents(xs, p.players))
    ensures Readable(PlayerBodies(xs))
  {
    var ps := seq(|xs| + 1, i requires 0 <= i <= |xs| => p.(players := p.players + i));
    forall i | 0 <= i < |xs|
      ensures Take(ps[i], PlayerBodies(xs)[i]) == Taken(ps[i + 1], [PlayerEvents(xs, p.players)[i]])
      ensures 1 <= |PlayerBodies(xs)[i]| <= LONGEST - 2
    {
      PlayerReturns(ps[i], xs[i]);
    }
    RowLeads(ps, PlayerBodies(xs), PlayerEvents(xs, p.players));
    assert ps[0] == p;
  }

  // ------------------------------------------------------- statuses

  datatype GivenStatus = GivenStatus(number: byte, message: bytes)

  predicate StatusFits(s: GivenStatus) {
    DemoContents.SHORTEST <= |s.message| <= LONGEST - 10
  }

  /** As the recorder writes it: with a header, compressed and encrypted, behind the player's number. */
  function StatusBody(s: GivenStatus): bytes {
    [s.number] + Pipeline.OnWire(s.message, U32 - 1)
  }

  function StatusEvent(s: GivenStatus, n: nat): Event
    requires StatusFits(s)
  {
    StatusRead(DemoContents.Status(s.number, s.message, Word32(s.message[DemoContents.ID_OFFSET..])), n)
  }

  /** The record has the status in it. */
  ghost predicate HoldsStatus(body: bytes, s: GivenStatus)
    requires StatusFits(s)
  {
    && 1 <= |body| <= LONGEST - 2
    && DemoContents.LoadStatus(body) ==
       Some(DemoContents.Status(s.number, s.message, Word32(s.message[DemoContents.ID_OFFSET..])))
  }

  lemma StatusReturns(s: GivenStatus)
    requires StatusFits(s)
    ensures HoldsStatus(StatusBody(s), s)
  {
    DemoContents.StatusReturns(s.number, s.message);
    Pipeline.WireIsShort(s.message, U32 - 1);
  }

  lemma StatusTaken(p: Progress, body: bytes, s: GivenStatus)
    requires StageOf(p) == AtStatus && StatusFits(s) && HoldsStatus(body, s)
    ensures Take(p, body) == Taken(p.(statuses := p.statuses + 1), [StatusEvent(s, p.statuses)])
  {
  }

  function StatusBodies(ss: seq<GivenStatus>): seq<bytes> {
    seq(|ss|, i requires 0 <= i < |ss| => StatusBody(ss[i]))
  }

  function StatusEvents(ss: seq<GivenStatus>, n: nat): seq<Event>
    requires forall i :: 0 <= i < |ss| ==> StatusFits(ss[i])
  {
    seq(|ss|, i requires 0 <= i < |ss| => StatusEvent(ss[i], n + i))
  }

  lemma StatusBodiesHold(ss: seq<GivenStatus>)
    requires forall i :: 0 <= i < |ss| ==> StatusFits(ss[i])
    ensures |StatusBodies(ss)| == |ss| && forall i :: 0 <= i < |ss| ==> HoldsStatus(StatusBodies(ss)[i], ss[i])
  {
    forall i | 0 <= i < |ss|
      ensures HoldsStatus(StatusBodies(ss)[i], ss[i])
    {
      StatusReturns(ss[i]);
    }
  }

  lemma StatusesReturn(p: Progress, ss: seq<GivenStatus>, bodies: seq<bytes>)
    requires PastSectors(p) && p.players >= p.header.value.numPlayers && p.statuses + |ss| <= p.header.value.numPlayers
    requires |bodies| == |ss|
    requires forall i :: 0 <= i < |ss| ==> StatusFits(ss[i]) && HoldsStatus(bodies[i], ss[i])
    ensures Leads(p, bodies, p.(statuses := p.statuses + |ss|), StatusEvents(ss, p.statuses))
    ensures Readable(bodies)
  {
    var ps := seq(|ss| + 1, i requires 0 <= i <= |ss| => p.(statuses := p.statuses + i));
    forall i | 0 <= i < |ss|
      ensures Take(ps[i], bodies[i]) == Taken(ps[i + 1], [StatusEvents(ss, p.statuses)[i]])
    {
      StatusTaken(ps[i], bodies[i], ss[i]);
    }
    RowLeads(ps, bodies, StatusEvents(ss, p.statuses));
    assert ps[0] == p;
  }

  // ------------------------------------------------------- packets

  predicate MoveFits(m: Move) {
    SmartPaker.Packable(m.subpaks) && Writable(Recorded(m))
  }

  function MoveBodies(ms: seq<Move>): seq<bytes> {
    seq(|ms|, i requires 0 <= i < |ms| => PacketBody(Recorded(ms[i])))
  }

  /** What the parser unpacks of a recorded packet: its subpackets, as far as the recorder keeps them. */
  function MoveEvent(m: Move, n: nat): Event
    requires MoveFits(m)
  {
    DemoContents.FilteredReturn(m.subpaks);
    PacketRead(Recorded(m), DemoContents.Moves(Recorded(m).data, false).value, n)
  }

  lemma MoveEventMeans(m: Move, n: nat)
    requires MoveFits(m)
    ensures var e := MoveEvent(m, n);
      && e.packet.time == m.time && e.packet.sender == m.sender && e.n == n
      && (e.moves == m.subpaks <==> SmartPaker.InStep(m.subpaks, true, 0))
  {
    DemoContents.FilteredReturn(m.subpaks);
  }

  function MoveEvents(ms: seq<Move>, n: nat): seq<Event>
    requires forall i :: 0 <= i < |ms| ==> MoveFits(ms[i])
  {
    seq(|ms|, i requires 0 <= i < |ms| => MoveEvent(ms[i], n + i))
  }

  /** The event is what the record holds. */
  ghost predicate HoldsMove(body: bytes, e: Event, n: nat) {
    && 1 <= |body| <= LONGEST - 2
    && e.PacketRead? && e.n == n && LoadPacket(body) == Loaded(e.packet)
    && DemoContents.Moves(e.packet.data, false) == Some(e.moves)
  }

  lemma MoveReturns(m: Move, n: nat)
    requires MoveFits(m)
    ensures HoldsMove(PacketBody(Recorded(m)), MoveEvent(m, n), n)
  {
    DemoContents.FilteredReturn(m.subpaks);
    PacketReturns(Recorded(m));
  }

  lemma MoveTaken(p: Progress, body: bytes, e: Event)
    requires StageOf(p) == AtPacket && !HasTimestamp(p) && HoldsMove(body, e, p.packets)
    ensures Take(p, body) == Taken(p.(packets := p.packets + 1), [e])
  {
  }

  lemma MoveBodiesHold(ms: seq<Move>, n: nat)
    requires forall i :: 0 <= i < |ms| ==> MoveFits(ms[i])
    ensures |MoveBodies(ms)| == |ms| == |MoveEvents(ms, n)|
    ensures forall i :: 0 <= i < |ms| ==> HoldsMove(MoveBodies(ms)[i], MoveEvents(ms, n)[i], n + i)
  {
    forall i | 0 <= i < |ms|
      ensures HoldsMove(MoveBodies(ms)[i], MoveEvents(ms, n)[i], n + i)
    {
      MoveReturns(ms[i], n + i);
    }
  }

  lemma MovesAllReturn(p: Progress, bodies: seq<bytes>, events: seq<Event>)
    requires StageOf(p) == AtPacket && !HasTimestamp(p) && |bodies| == |events|
    requires forall i :: 0 <= i < |bodies| ==> HoldsMove(bodies[i], events[i], p.packets + i)
    ensures Leads(p, bodies, p.(packets := p.packets + |bodies|), events)
    ensures Readable(bodies)
  {
    var ps := seq(|bodies| + 1, i requires 0 <= i <= |bodies| => p.(packets := p.packets + i));
    forall i | 0 <= i < |bodies|
      ensures Take(ps[i], bodies[i]) == Taken(ps[i + 1], [events[i]])
    {
      MoveTaken(ps[i], bodies[i], events[i]);
    }
    RowLeads(ps, bodies, events);
    assert ps[0] == p;
  }

  // ------------------------------------------------------- the whole file

  /** All that a recorder puts into a demo of version four or five. */
  datatype Demo = Demo(
    version: nat, maxUnits: nat, mapName: bytes, sectors: seq<Content>, players: seq<Player>,
    statuses: seq<GivenStatus>, unitData: bytes, moves: seq<Move>)

  function HeaderOf(d: Demo): Header {
    Header(d.version, |d.players|, d.maxUnits, d.mapName)
  }

  /** What the formats and their limits ask of it. */
  predicate Fits(d: Demo) {
    && Acceptable(HeaderOf(d)) && d.version > 3
    && |d.sectors| <= (if d.version > 4 then MAX_SECTORS else 0)
    && |d.statuses| == |d.players| && 1 <= |d.unitData| <= LONGEST - 2
    && (forall i :: 0 <= i < |d.sectors| ==> SectorFits(d.sectors[i]))
    && (forall i :: 0 <= i < |d.statuses| ==> StatusFits(d.statuses[i]))
    && (forall i :: 0 <= i < |d.moves| ==> MoveFits(d.moves[i]))
  }

  /** The header, and the sectors that only newer demos have. */
  function FrontBodies(d: Demo): seq<bytes>
    requires Fits(d)
  {
    [HeaderBody(HeaderOf(d))] + if d.version > 4 then [Bytes32(|d.sectors|)] + SectorBodies(d.sectors) else []
  }

  function DemoBodies(d: Demo): seq<bytes>
    requires Fits(d)
  {
    FrontBodies(d) + PlayerBodies(d.players) + StatusBodies(d.statuses) + [d.unitData] + MoveBodies(d.moves)
  }

  function DemoFile(d: Demo): bytes
    requires Fits(d)
  {
    WriteAll(Record, DemoBodies(d))
  }

  function DemoEvents(d: Demo): seq<Event>
    requires Fits(d)
  {
    [HeaderRead(HeaderOf(d))] + SectorEvents(d.sectors, 0) + PlayerEvents(d.players, 0)
    + StatusEvents(d.statuses, 0) + [UnitDataRead(d.unitData)] + MoveEvents(d.moves, 0)
  }

  function PastFront(d: Demo): Progress {
    FRESH.(header := Some(HeaderOf(d)), numSectors := if d.version > 4 then Some(|d.sectors|) else None,
           sectors := |d.sectors|)
  }

  lemma TakenAlone(p: Progress, body: bytes, q: Progress, events: seq<Event>)
    requires Take(p, body) == Taken(q, events)
    ensures Leads(p, [body], q, events)
  {
    LeadsNowhere(q);
    LeadsFirst(p, [body], q, events, q, []);
    assert events + [] == events;
  }

  lemma ExtraHeaderReturns(p: Progress, n: nat)
    requires StageOf(p) == AtExtraHeader && n <= MAX_SECTORS
    ensures Leads(p, [Bytes32(n)], p.(numSectors := Some(n)), [])
  {
    Bytes32Word32(n, []);
    Nothing(Bytes32(n));
    TakenAlone(p, Bytes32(n), p.(numSectors := Some(n)), []);
  }

  lemma SectorsBehindHeader(d: Demo, p: Progress)
    requires Fits(d) && d.version > 4 && p == FRESH.(header := Some(HeaderOf(d)))
    ensures Leads(p, [Bytes32(|d.sectors|)] + SectorBodies(d.sectors), PastFront(d), SectorEvents(d.sectors, 0))
    ensures Readable([Bytes32(|d.sectors|)] + SectorBodies(d.sectors))
  {
    var q := p.(numSectors := Some(|d.sectors|));
    ExtraHeaderReturns(p, |d.sectors|);
    SectorsReturn(q, d.sectors);
    LeadsOn(p, [Bytes32(|d.sectors|)], q, [], SectorBodies(d.sectors), PastFront(d), SectorEvents(d.sectors, 0));
    assert [] + SectorEvents(d.sectors, 0) == SectorEvents(d.sectors, 0);
  }

  lemma FrontReturns(d: Demo)
    requires Fits(d)
    ensures Leads(FRESH, FrontBodies(d), PastFront(d), [HeaderRead(HeaderOf(d))] + SectorEvents(d.sectors, 0))
    ensures Readable(FrontBodies(d))
  {
    var h := HeaderOf(d);
    var p := FRESH.(header := Some(h));
    HeaderReturns(h);
    TakenAlone(FRESH, HeaderBody(h), p, [HeaderRead(h)]);
    if d.version > 4 {
      SectorsBehindHeader(d, p);
      LeadsOn(FRESH, [HeaderBody(h)], p, [HeaderRead(h)],
        [Bytes32(|d.sectors|)] + SectorBodies(d.sectors), PastFront(d), SectorEvents(d.sectors, 0));
    } else {
      assert [HeaderBody(h)] + [] == [HeaderBody(h)] && SectorEvents(d.sectors, 0) == [];
      assert [HeaderRead(h)] + [] == [HeaderRead(h)];
    }
  }

  function PastStatuses(d: Demo): Progress {
    PastFront(d).(players := |d.players|, statuses := |d.statuses|)
  }

  lemma PeopleReturn(d: Demo)
    requires Fits(d)
    ensures Leads(PastFront(d), PlayerBodies(d.players) + StatusBodies(d.statuses), PastStatuses(d),
                  PlayerEvents(d.players, 0) + StatusEvents(d.statuses, 0))
    ensures Readable(PlayerBodies(d.players) + StatusBodies(d.statuses))
  {
    var p := PastFront(d);
    var q := p.(players := |d.players|);
    PlayersReturn(p, d.players);
    StatusBodiesHold(d.statuses);
    StatusesReturn(q, d.statuses, StatusBodies(d.statuses));
    LeadsOn(p, PlayerBodies(d.players), q, PlayerEvents(d.players, 0),
      StatusBodies(d.statuses), PastStatuses(d), StatusEvents(d.statuses, 0));
  }

  lemma GameReturns(d: Demo)
    requires Fits(d)
    ensures Leads(PastStatuses(d), [d.unitData] + MoveBodies(d.moves),
                  PastStatuses(d).(units := 1, packets := |d.moves|), [UnitDataRead(d.unitData)] + MoveEvents(d.moves, 0))
    ensures Readable([d.unitData] + MoveBodies(d.moves))
  {
    var p := PastStatuses(d);
    TakenAlone(p, d.unitData, p.(units := 1), [UnitDataRead(d.unitData)]);
    MoveBodiesHold(d.moves, 0);
    MovesAllReturn(p.(units := 1), MoveBodies(d.moves), MoveEvents(d.moves, 0));
    LeadsOn(p, [d.unitData], p.(units := 1), [UnitDataRead(d.unitData)],
      MoveBodies(d.moves), p.(units := 1, packets := |d.moves|), MoveEvents(d.moves, 0));
  }

  lemma ThreeParts<T>(a: seq<T>, b: seq<T>, c: seq<T>, d: seq<T>, e: seq<T>)
    ensures a + ((b + c) + (d + e)) == a + b + c + d + e
  {
  }

  /** A demo file parses to all that was written into it, and to nothing else. */
  lemma DemoReturns(d: Demo)
    requires Fits(d)
    ensures Parse(FRESH, DemoFile(d), None)
      == Outcome(DemoEvents(d), PastStatuses(d).(units := 1, packets := |d.moves|), [], OutOfBytes)
  {
    var q := PastStatuses(d).(units := 1, packets := |d.moves|);
    var people, game := PlayerBodies(d.players) + StatusBodies(d.statuses), [d.unitData] + MoveBodies(d.moves);
    var met, played := PlayerEvents(d.players, 0) + StatusEvents(d.statuses, 0),
                       [UnitDataRead(d.unitData)] + MoveEvents(d.moves, 0);
    var front := [HeaderRead(HeaderOf(d))] + SectorEvents(d.sectors, 0);
    FrontReturns(d);
    PeopleReturn(d);
    GameReturns(d);
    LeadsOn(PastFront(d), people, PastStatuses(d), met, game, q, played);
    LeadsOn(FRESH, FrontBodies(d), PastFront(d), front, people + game, q, met + played);
    ThreeParts(FrontBodies(d), PlayerBodies(d.players), StatusBodies(d.statuses), [d.unitData], MoveBodies(d.moves));
    ThreeParts(front, PlayerEvents(d.players, 0), StatusEvents(d.statuses, 0), [UnitDataRead(d.unitData)], MoveEvents(d.moves, 0));
    FileIsTaken(FRESH, DemoBodies(d), q, DemoEvents(d));
  }

  /** The same in whatever pieces the file grows while the parser is called. */
  lemma GrowingDemoReturns(d: Demo, chunks: seq<bytes>)
    requires Fits(d) && Concat(chunks) == DemoFile(d)
    ensures ParseChunks(FRESH, [], chunks).events == DemoEvents(d)
  {
    DemoReturns(d);
    GrowingFile(FRESH, [], chunks);
    Nothing(DemoFile(d));
  }
}
