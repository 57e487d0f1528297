/** The referee: a state machine over lobby and game events that latches one result. */
module Referee {
  import opened Bytes
  import opened Keys
  import opened Teams

  datatype Status = NotReady | Void | Ready

  datatype ArmyResult = ArmyResult(army: nat, slot: int, alias: string, realName: string, team: nat, score: int)

  datatype Outcome = Outcome(status: Status, results: seq<ArmyResult>, endTick: nat)

  const UNDECIDED := Outcome(NotReady, [], 0)

  datatype Config = Config(hostName: string, localName: string, startsAfter: nat, drawTicks: nat)

  /** Both names have to be set before anything is monitored. */
  predicate Configured(c: Config) {
    c.hostName != "" && c.localName != ""
  }

  /** `endings` are the notifications of an ended game since the last reset. */
  datatype Monitor = Monitor(
    config: Config, hostId: nat, localId: nat, launched: bool, started: bool, mapName: string, maxUnits: nat,
    players: Players, frozen: Players, realNames: map<string, string>, outcome: Outcome,
    endings: seq<seq<ArmyResult>>)

  function Start(config: Config): Monitor {
    Monitor(config, 0, 0, false, false, "", 0, map[], map[], map[], UNDECIDED, [])
  }

  // ------------------------------------------------------- deciding

  function MaxTick(ps: Players, ids: seq<nat>): (t: nat)
    requires forall id :: id in ids ==> id in ps
  {
    if ids == [] then 0
    else
      var rest := MaxTick(ps, ids[..|ids| - 1]);
      var t := ps[ids[|ids| - 1]].tick;
      if t > rest then t else rest
  }

  function MostRecent(ps: Players): nat {
    MaxTick(ps, Sorted(ps.Keys))
  }

  /** All of these players have the same team number. */
  predicate OneTeam(ids: set<nat>, ps: Players)
    requires ids != {} && ids <= ps.Keys
  {
    forall id :: id in ids ==> ps[id].team == ps[Least(ids)].team
  }

  datatype Verdict = Going | Over(winner: int)

  /** A winning team, zero when nobody is left, or minus one when the survivors agreed on a draw. */
  function Check(m: Monitor): Verdict
    requires m.started ==> m.players.Keys <= m.frozen.Keys
  {
    var active := ActivePlayers(m.players);
    if !m.started then Going
    else if active == {} then Over(0)
    else if OneTeam(active, m.frozen) then Over(m.frozen[Least(active)].team)
    else if OneTeam(active, m.players) then Over(-1)
    else Going
  }

  predicate Counted(p: PlayerData) {
    p.army != 0 && p.team != 0 && !p.isWatcher
  }

  function RealName(names: map<string, string>, name: string): string {
    if name in names then names[name] else ""
  }

  function Entry(p: PlayerData, winner: nat, names: map<string, string>): ArmyResult {
    ArmyResult(p.army, p.slot, p.name, RealName(names, p.name), p.team,
      if winner == 0 then 0 else if p.team == winner then 1 else -1)
  }

  function Entries(ps: Players, ids: seq<nat>, winner: nat, names: map<string, string>): seq<ArmyResult>
    requires forall id :: id in ids ==> id in ps
  {
    if ids == [] then []
    else
      var p := ps[ids[|ids| - 1]];
      Entries(ps, ids[..|ids| - 1], winner, names) + if Counted(p) then [Entry(p, winner, names)] else []
  }

  function Results(ps: Players, winner: nat, names: map<string, string>): seq<ArmyResult> {
    Entries(ps, Sorted(ps.Keys), winner, names)
  }

  function Latch(m: Monitor, winner: int): Monitor {
    if m.outcome.status != NotReady then m
    else if winner < 0 then m.(outcome := Outcome(Void, [], MostRecent(m.players)))
    else
      var results := Results(m.frozen, winner, m.realNames);
      m.(outcome := Outcome(if results == [] then Void else Ready, results, MostRecent(m.players)),
         endings := m.endings + [results])
  }

  function LatchTick(m: Monitor, tick: nat): Monitor {
    if m.outcome.endTick != 0 then m else m.(outcome := m.outcome.(endTick := if tick == 0 then 1 else tick))
  }

  // ------------------------------------------------------- events

  datatype Event =
    | Join(id: nat, name: string)
    | Leave(id: nat)
    | StatusReport(source: nat, mapName: string, maxUnits: nat, slot: int, side: int, isWatcher: bool, isAI: bool)
    | ChatAlliance(source: nat, other: nat, allied: bool)
    | Alliance(subject: nat, target: nat, allied: bool)
    | Pick(source: nat, team: nat)
    | UnitDied(source: nat, unitId: nat)
    | Reject(source: nat, rejected: nat)
    | Tick(source: nat, tick: nat)
    | RealNameGiven(name: string, realName: string)
    | Reset

  /** The players with one of them newly named. */
  function Entered(ps: Players, id: nat, name: string): Players {
    ps[id := (if id in ps then ps[id] else NEW_PLAYER).(name := name, dplayid := id)]
  }

  lemma EnteredIsClosed(ps: Players, id: nat, name: string)
    requires Closed(ps)
    ensures Closed(Entered(ps, id, name)) && Entered(ps, id, name).Keys == ps.Keys + {id}
  {
  }

  predicate Enters(m: Monitor, id: nat, name: string) {
    !m.started && name != "" && id != 0
  }

  /** Without the host's name, or else the local player's, a join ends with an exception half way. */
  predicate Throws(m: Monitor, id: nat, name: string) {
    Enters(m, id, name) && !Configured(m.config)
  }

  /** Which of the two known players has just come; the local one is not looked at after an exception. */
  function Noted(m: Monitor, id: nat, name: string): Monitor {
    m.(hostId := if m.config.hostName != "" && name == m.config.hostName then id else m.hostId,
       localId := if Configured(m.config) && name == m.config.localName then id else m.localId)
  }

  /** A player turned up in the battleroom. */
  function Joined(m: Monitor, id: nat, name: string): Monitor
    requires Closed(m.players)
  {
    if !Enters(m, id, name) then m
    else
      EnteredIsClosed(m.players, id, name);
      var ps := Entered(m.players, id, name);
      Noted(m, id, name).(players := if Throws(m, id, name) then ps else Updated(ps))
  }

  function Without(ps: Players, gone: nat): Players {
    map id | id in ps && id != gone :: ps[id].(allies := ps[id].allies - {gone})
  }

  lemma WithoutIsClosed(ps: Players, gone: nat)
    requires Closed(ps)
    ensures Closed(Without(ps, gone)) && Without(ps, gone).Keys == ps.Keys - {gone}
  {
  }

  function Dropped(m: Monitor, id: nat): Monitor
    requires Closed(m.players)
  {
    WithoutIsClosed(m.players, id);
    m.(players := Updated(Without(m.players, id)))
  }

  /** Latch whatever is decided. */
  function Conclude(m: Monitor): Monitor
    requires m.started ==> m.players.Keys <= m.frozen.Keys
  {
    match Check(m)
    case Going => m
    case Over(winner) => Latch(m, winner)
  }

  /** Latch only an agreed draw. */
  function ConcludeDraw(m: Monitor): Monitor
    requires m.started ==> m.players.Keys <= m.frozen.Keys
  {
    match Check(m)
    case Going => m
    case Over(winner) => if winner < 0 then Latch(m, winner) else m
  }

  /** Latch a draw, but only the end tick of a win: the last survivor may still die. */
  function ConcludeDeath(m: Monitor): Monitor
    requires m.started ==> m.players.Keys <= m.frozen.Keys
  {
    match Check(m)
    case Going => m
    case Over(winner) =>
      if winner > 0 then LatchTick(m, (MostRecent(m.players) + m.config.drawTicks) % U32) else Latch(m, winner)
  }

  /** The keys stay as they are when the game has started. */
  ghost predicate Keyed(m: Monitor) {
    && Closed(m.players)
    && (m.started ==> m.players.Keys == m.frozen.Keys)
  }

  function Left(m: Monitor, id: nat): Monitor
    requires Keyed(m)
  {
    if id == 0 || id !in m.players then m
    else if !m.started then Dropped(m, id)
    else Conclude(m)
  }

  function WithStatus(m: Monitor, id: nat, slot: int, side: int, isWatcher: bool, isAI: bool): Players
    requires Closed(m.players) && id in m.players
  {
    var p := m.players[id].(isAI := isAI, slot := slot);
    if p.side < 0 || p.isWatcher != isWatcher || p.side != side
    then Updated(m.players[id := p.(side := side, isWatcher := isWatcher)])
    else m.players[id := p]
  }

  function Reported(m: Monitor, id: nat, mapName: string, maxUnits: nat, slot: int, side: int, isWatcher: bool, isAI: bool): Monitor
    requires Closed(m.players)
  {
    if id !in m.players || m.started then m
    else
      var n := m.(players := WithStatus(m, id, slot, side, isWatcher, isAI));
      if id == m.hostId && mapName != "" && maxUnits > 0 && m.mapName != mapName
      then n.(mapName := mapName, maxUnits := maxUnits)
      else n
  }

  function WithAlliance(ps: Players, a: nat, b: nat, allied: bool): Players
    requires a in ps
  {
    ps[a := ps[a].(allies := if allied then ps[a].allies + {b} else ps[a].allies - {b})]
  }

  lemma WithAllianceIsClosed(ps: Players, a: nat, b: nat, allied: bool)
    requires Closed(ps) && a in ps && b in ps
    ensures Closed(WithAlliance(ps, a, b, allied)) && WithAlliance(ps, a, b, allied).Keys == ps.Keys
  {
  }

  /** Renumber, and see whether the survivors have just agreed on a draw. */
  function Realigned(m: Monitor, ps: Players): Monitor
    requires Keyed(m) && Closed(ps) && ps.Keys == m.players.Keys
  {
    NumberedIsRight(ps);
    ConcludeDraw(m.(players := Updated(ps)))
  }

  function ChatAllied(m: Monitor, id: nat, other: nat, allied: bool): Monitor
    requires Keyed(m)
  {
    if id !in m.players || other !in m.players || other == id then m
    else
      WithAllianceIsClosed(m.players, id, other, allied);
      Realigned(m, WithAlliance(m.players, id, other, allied))
  }

  function Allied(m: Monitor, subject: nat, target: nat, allied: bool): Monitor
    requires Keyed(m)
  {
    if subject !in m.players || target !in m.players then m
    else if (target in m.players[subject].allies) == allied then m
    else
      WithAllianceIsClosed(m.players, subject, target, allied);
      Realigned(m, WithAlliance(m.players, subject, target, allied))
  }

  /** Picking a team below five allies a player with all who picked it too, and with nobody else. */
  function WithPick(ps: Players, source: nat, team: nat): Players
    requires source in ps
  {
    var friends := set id | id in ps && id != source && team < 5 && ps[id].pick == team;
    map id | id in ps ::
      if id == source then ps[id].(pick := team, allies := ps[id].allies * {id} + friends)
      else if id in friends then ps[id].(allies := ps[id].allies + {source})
      else ps[id].(allies := ps[id].allies - {source})
  }

  lemma WithPickIsClosed(ps: Players, source: nat, team: nat)
    requires Closed(ps) && source in ps
    ensures Closed(WithPick(ps, source, team)) && WithPick(ps, source, team).Keys == ps.Keys
  {
  }

  predicate SameAllies(ps: Players, qs: Players) {
    ps.Keys == qs.Keys && forall id :: id in ps ==> ps[id].allies == qs[id].allies
  }

  function Picked(m: Monitor, source: nat, team: nat): Monitor
    requires Keyed(m)
  {
    if source !in m.players then m
    else
      WithPickIsClosed(m.players, source, team);
      var ps := WithPick(m.players, source, team);
      if SameAllies(m.players, ps) then m.(players := ps) else Realigned(m, ps)
  }

  function Killed(ps: Players, id: nat): Players
    requires id in ps
  {
    ps[id := ps[id].(isDead := true)]
  }

  /** The first unit of a player is its commander. */
  function CommanderDied(m: Monitor, source: nat, unitId: nat): Monitor
    requires Keyed(m) && (source in m.players ==> m.maxUnits > 0)
  {
    if source !in m.players || unitId % m.maxUnits != 1 then m
    else ConcludeDeath(m.(players := Killed(m.players, source)))
  }

  function Rejected(m: Monitor, source: nat, rejected: nat): Monitor
    requires Keyed(m)
  {
    if source !in m.players || rejected !in m.players then m
    else if !m.started then Dropped(m, rejected)
    else Conclude(m.(players := Killed(m.players, rejected)))
  }

  /** As a signed 32-bit difference: `a` is later than `b`. */
  predicate Later(a: nat, b: nat) {
    0 < (a - b) % U32 < 0x8000_0000
  }

  /** The start of the game: teams are frozen, and a game already over then is void. */
  function Begun(m: Monitor, tick: nat): Monitor
    requires Keyed(m)
  {
    if m.started || tick <= m.config.startsAfter then m.(launched := true)
    else
      var n := m.(launched := true, started := true, frozen := m.players);
      if Check(n) == Going then n else Latch(n, -1)
  }

  function Ticked(ps: Players, id: nat, tick: nat): Players
    requires id in ps
  {
    if Later(tick, ps[id].tick) then ps[id := ps[id].(tick := tick)] else ps
  }

  predicate EndReached(m: Monitor) {
    m.outcome.endTick > 0 && (MostRecent(m.players) - m.outcome.endTick) % U32 < 0x8000_0000
  }

  /** The state in which the end tick is looked at. */
  function Advanced(m: Monitor, source: nat, tick: nat): Monitor
    requires Keyed(m) && source in m.players
  {
    var n := Begun(m, tick);
    n.(players := Ticked(m.players, source, tick))
  }

  function OnTick(m: Monitor, source: nat, tick: nat): Monitor
    requires Keyed(m)
  {
    if source !in m.players then m
    else
      var n := Advanced(m, source, tick);
      if EndReached(n) then Conclude(n) else n
  }

  /** The branch that the source calls impossible: a finished game has become unfinished. */
  predicate Warns(m: Monitor, source: nat, tick: nat)
    requires Keyed(m)
  {
    source in m.players && EndReached(Advanced(m, source, tick)) && Check(Advanced(m, source, tick)) == Going
  }

  function Cleared(m: Monitor): Monitor {
    m.(started := false, mapName := "", players := map[], outcome := UNDECIDED, endings := [])
  }

  /** Unit deaths are looked at only after the host's status was seen; ticks have 32 bits. */
  predicate Defined(m: Monitor, e: Event) {
    match e
    case UnitDied(source, _) => source in m.players ==> m.maxUnits > 0
    case Tick(_, tick) => tick < U32
    case _ => true
  }

  /** Moreover, no new player makes a join throw. */
  predicate Enabled(m: Monitor, e: Event) {
    Defined(m, e) && (e.Join? && Throws(m, e.id, e.name) ==> e.id in m.players)
  }

  function Next(m: Monitor, e: Event): Monitor
    requires Keyed(m) && Defined(m, e)
  {
    match e
    case Join(id, name) => Joined(m, id, name)
    case Leave(id) => Left(m, id)
    case StatusReport(id, mapName, maxUnits, slot, side, isWatcher, isAI) =>
      Reported(m, id, mapName, maxUnits, slot, side, isWatcher, isAI)
    case ChatAlliance(id, other, allied) => ChatAllied(m, id, other, allied)
    case Alliance(subject, target, allied) => Allied(m, subject, target, allied)
    case Pick(source, team) => Picked(m, source, team)
    case UnitDied(source, unitId) => CommanderDied(m, source, unitId)
    case Reject(source, rejected) => Rejected(m, source, rejected)
    case Tick(source, tick) => OnTick(m, source, tick)
    case RealNameGiven(name, realName) => m.(realNames := m.realNames[name := realName])
    case Reset => Cleared(m)
  }
}
