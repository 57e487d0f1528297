/** What every run of the referee keeps, and what its one result says. */
module RefereeRuns {
  import opened Bytes
  import opened Keys
  import opened Teams
  import opened Referee

  // ------------------------------------------------------- the invariant

  ghost predicate Known(ps: Players) {
    Closed(ps) && 0 !in ps && forall id :: id in ps ==> ps[id].tick < U32
  }

  /** Whoever lives has an army and a team. */
  ghost predicate Roster(ps: Players) {
    Known(ps) && forall id :: id in ps && Live(ps[id]) ==> ps[id].army >= 1 && ps[id].team >= 2
  }

  /** From the start on nobody comes or goes, and survivors were counted when the teams froze. */
  ghost predicate Lineup(m: Monitor) {
    m.started ==>
      && m.players.Keys == m.frozen.Keys
      && forall id :: id in m.players && Live(m.players[id]) ==> Counted(m.frozen[id]) && m.frozen[id].team >= 2
  }

  /** Every survivor was in team `w` when the teams froze. */
  ghost predicate OnlyTeam(m: Monitor, w: nat) {
    forall id :: id in m.players && Live(m.players[id]) ==> id in m.frozen && m.frozen[id].team == w
  }

  ghost predicate Decided(m: Monitor) {
    m.started && exists w :: OnlyTeam(m, w)
  }

  predicate HasMember(ps: Players, w: nat) {
    exists id :: id in ps && Counted(ps[id]) && ps[id].team == w
  }

  /** The result is a draw with nobody left, or a win of the one team that has survivors. */
  ghost predicate Backed(m: Monitor, w: nat, names: map<string, string>) {
    && m.outcome.results == Results(m.frozen, w, names)
    && (w == 0 ==> ActivePlayers(m.players) == {})
    && (w > 0 ==> w >= 2 && OnlyTeam(m, w) && HasMember(m.frozen, w))
  }

  ghost predicate Fair(m: Monitor) {
    exists w, names :: Backed(m, w, names)
  }

  ghost predicate OutcomeRight(m: Monitor) {
    match m.outcome.status
    case NotReady => m.outcome.results == [] && m.endings == [] && (m.outcome.endTick > 0 ==> Decided(m))
    case Void => m.started && m.outcome.results == [] && (m.endings == [] || m.endings == [[]])
    case Ready => m.started && m.outcome.results != [] && m.endings == [m.outcome.results] && Fair(m)
  }

  ghost predicate Sound(m: Monitor) {
    Roster(m.players) && Lineup(m) && OutcomeRight(m)
  }

  // ------------------------------------------------------- the most recent tick

  lemma {:induction false} MaxTickIsMax(ps: Players, ids: seq<nat>)
    requires forall id :: id in ids ==> id in ps
    ensures forall id :: id in ids ==> ps[id].tick <= MaxTick(ps, ids)
    ensures MaxTick(ps, ids) == 0 || exists id :: id in ids && ps[id].tick == MaxTick(ps, ids)
    decreases |ids|
  {
    if ids != [] {
      var last, rest := ids[|ids| - 1], ids[..|ids| - 1];
      MaxTickIsMax(ps, rest);
      assert forall id :: id in ids <==> id in rest || id == last;
    }
  }

  lemma MostRecentIsMax(ps: Players)
    ensures forall id :: id in ps ==> ps[id].tick <= MostRecent(ps)
    ensures MostRecent(ps) == 0 || exists id :: id in ps && ps[id].tick == MostRecent(ps)
  {
    MaxTickIsMax(ps, Sorted(ps.Keys));
  }

  // ------------------------------------------------------- the verdict

  lemma OneTeamMeans(m: Monitor)
    requires Sound(m) && m.started && ActivePlayers(m.players) != {}
    ensures ActivePlayers(m.players) <= m.frozen.Keys
    ensures OneTeam(ActivePlayers(m.players), m.frozen) ==> OnlyTeam(m, m.frozen[Least(ActivePlayers(m.players))].team)
    ensures OneTeam(ActivePlayers(m.players), m.frozen) <==> Decided(m)
  {
    var active := ActivePlayers(m.players);
    if Decided(m) {
      var w :| OnlyTeam(m, w);
      assert forall id :: id in active ==> m.frozen[id].team == w;
    }
    if OneTeam(active, m.frozen) {
      assert OnlyTeam(m, m.frozen[Least(active)].team);
    }
  }

  /** What the verdict says. A win is always a positive team number. */
  lemma CheckMeans(m: Monitor)
    requires Sound(m)
    ensures Check(m) == Over(0) <==> m.started && ActivePlayers(m.players) == {}
    ensures Check(m).Over? && Check(m).winner > 0 <==> Decided(m) && ActivePlayers(m.players) != {}
    ensures Check(m).Over? && Check(m).winner > 0 ==>
      Check(m).winner >= 2 && OnlyTeam(m, Check(m).winner) && HasMember(m.frozen, Check(m).winner)
    ensures Check(m).Over? ==> m.started && Check(m).winner >= -1
  {
    var active := ActivePlayers(m.players);
    if m.started && active != {} {
      OneTeamMeans(m);
      var id := Least(active);
      assert Counted(m.frozen[id]) && m.frozen[id].team >= 2;
    }
  }

  lemma DecidedIsOver(m: Monitor)
    requires Sound(m) && Decided(m)
    ensures Check(m).Over? && Check(m).winner >= 0
  {
    CheckMeans(m);
  }

  // ------------------------------------------------------- what the steps keep

  /** An entry is on the list for every counted player, and there are no others. */
  lemma {:induction false} EntriesExact(ps: Players, ids: seq<nat>, w: nat, names: map<string, string>, r: ArmyResult)
    requires forall id :: id in ids ==> id in ps
    ensures r in Entries(ps, ids, w, names) <==>
      exists id :: id in ids && Counted(ps[id]) && r == Entry(ps[id], w, names)
    decreases |ids|
  {
    if ids != [] {
      var last, rest := ids[|ids| - 1], ids[..|ids| - 1];
      assert ids == rest + [last];
      EntriesExact(ps, rest, w, names, r);
      assert forall id :: id in ids <==> id in rest || id == last;
    }
  }

  lemma ResultsExact(ps: Players, w: nat, names: map<string, string>, r: ArmyResult)
    ensures r in Results(ps, w, names) <==> exists id :: id in ps && Counted(ps[id]) && r == Entry(ps[id], w, names)
  {
    EntriesExact(ps, Sorted(ps.Keys), w, names, r);
  }

  lemma LatchKeeps(m: Monitor, winner: int)
    requires Sound(m) && m.started
    requires winner < 0 || Check(m) == Over(winner)
    ensures Sound(Latch(m, winner))
  {
    if m.outcome.status == NotReady && winner >= 0 {
      CheckMeans(m);
      var n := Latch(m, winner);
      assert Backed(n, winner, m.realNames) by {
        assert winner > 0 ==> OnlyTeam(n, winner);
      }
    }
  }

  lemma LatchTickKeeps(m: Monitor, tick: nat)
    requires Sound(m) && Decided(m)
    ensures Sound(LatchTick(m, tick))
  {
    var w :| OnlyTeam(m, w);
    var n := LatchTick(m, tick);
    assert OnlyTeam(n, w);
    FairStays(m, n);
  }

  /** A fair result stays fair while survivors only get fewer. */
  lemma FairStays(m: Monitor, n: Monitor)
    requires n.frozen == m.frozen && n.outcome.results == m.outcome.results
    requires ActivePlayers(n.players) <= ActivePlayers(m.players)
    ensures Fair(m) ==> Fair(n)
  {
    if Fair(m) {
      var w, names :| Backed(m, w, names);
      assert OnlyTeam(m, w) ==> OnlyTeam(n, w) by {
        assert forall id :: id in n.players && Live(n.players[id]) ==> id in ActivePlayers(m.players);
      }
      assert Backed(n, w, names);
    }
  }

  lemma DecidedStays(m: Monitor, n: Monitor)
    requires n.frozen == m.frozen && n.started == m.started
    requires ActivePlayers(n.players) <= ActivePlayers(m.players)
    ensures Decided(m) ==> Decided(n)
  {
    if Decided(m) {
      var w :| OnlyTeam(m, w);
      assert OnlyTeam(n, w) by {
        assert forall id :: id in n.players && Live(n.players[id]) ==> id in ActivePlayers(m.players);
      }
    }
  }

  /** Other players may be put in place if, after the start, the survivors do not get more. */
  lemma PlayersKeep(m: Monitor, ps: Players)
    requires Sound(m) && Roster(ps)
    requires m.started ==> ps.Keys == m.players.Keys && ActivePlayers(ps) <= ActivePlayers(m.players)
    ensures Sound(m.(players := ps))
  {
    var n := m.(players := ps);
    if m.started {
      FairStays(m, n);
      DecidedStays(m, n);
      assert forall id :: id in ps && Live(ps[id]) ==> id in ActivePlayers(m.players);
    }
  }

  lemma ConcludeKeeps(m: Monitor)
    requires Sound(m)
    ensures Sound(Conclude(m)) && Sound(ConcludeDraw(m))
  {
    CheckMeans(m);
    if Check(m).Over? {
      LatchKeeps(m, Check(m).winner);
    }
  }

  lemma WinTickKeeps(m: Monitor, tick: nat)
    requires Sound(m) && Check(m).Over? && Check(m).winner > 0
    ensures Sound(LatchTick(m, tick))
  {
    CheckMeans(m);
    LatchTickKeeps(m, tick);
  }

  lemma ConcludeDeathKeeps(m: Monitor)
    requires Sound(m)
    ensures Sound(ConcludeDeath(m))
  {
    if Check(m).Over? {
      if Check(m).winner > 0 {
        WinTickKeeps(m, (MostRecent(m.players) + m.config.drawTicks) % U32);
      } else {
        CheckMeans(m);
        LatchKeeps(m, Check(m).winner);
      }
    }
  }

  lemma OutcomeDoesNotMatter(m: Monitor)
    requires Keyed(m)
    ensures Conclude(m).players == m.players && Conclude(m).frozen == m.frozen && Conclude(m).started == m.started
    ensures ConcludeDraw(m).players == m.players && ConcludeDraw(m).frozen == m.frozen && ConcludeDraw(m).started == m.started
    ensures ConcludeDeath(m).players == m.players && ConcludeDeath(m).frozen == m.frozen && ConcludeDeath(m).started == m.started
  {
  }

  lemma UpdatedKeeps(ps: Players)
    requires Known(ps)
    ensures Roster(Updated(ps)) && Updated(ps).Keys == ps.Keys
    ensures ActivePlayers(Updated(ps)) == ActivePlayers(ps)
  {
    NumberedIsRight(ps);
    var qs := Updated(ps);
    forall id | id in qs && Live(qs[id])
      ensures qs[id].army >= 1 && qs[id].team >= 2
    {
      assert id in LiveUpTo(qs, id);
    }
  }

  lemma EnteredIsKnown(ps: Players, id: nat, name: string)
    requires Known(ps) && id != 0
    ensures Known(Entered(ps, id, name))
  {
    EnteredIsClosed(ps, id, name);
  }

  lemma NotedKeeps(m: Monitor, id: nat, name: string)
    requires Sound(m)
    ensures Sound(Noted(m, id, name))
  {
    FairStays(m, Noted(m, id, name));
    DecidedStays(m, Noted(m, id, name));
  }

  /** A player named again keeps its numbers. */
  lemma RenamedKeeps(ps: Players, id: nat, name: string)
    requires Roster(ps) && id in ps
    ensures Roster(Entered(ps, id, name))
  {
    ReplacedIsKnown(ps, id, ps[id].(name := name, dplayid := id));
  }

  lemma JoinedKeeps(m: Monitor, id: nat, name: string)
    requires Sound(m) && (Throws(m, id, name) ==> id in m.players)
    ensures Sound(Joined(m, id, name))
  {
    if Enters(m, id, name) {
      NotedKeeps(m, id, name);
      if Throws(m, id, name) {
        RenamedKeeps(m.players, id, name);
        PlayersKeep(Noted(m, id, name), Entered(m.players, id, name));
      } else {
        EnteredIsKnown(m.players, id, name);
        UpdatedKeeps(Entered(m.players, id, name));
        PlayersKeep(Noted(m, id, name), Updated(Entered(m.players, id, name)));
      }
    }
  }

  /** A join keeps the invariant exactly if it does not throw on a new player, who is left without a number. */
  lemma JoinedKeepsExactly(m: Monitor, id: nat, name: string)
    requires Sound(m)
    ensures Sound(Joined(m, id, name)) <==> (Throws(m, id, name) ==> id in m.players)
  {
    if Throws(m, id, name) && id !in m.players {
      assert Live(Joined(m, id, name).players[id]);
    } else {
      JoinedKeeps(m, id, name);
    }
  }

  lemma DroppedKeeps(m: Monitor, id: nat)
    requires Sound(m) && !m.started
    ensures Sound(Dropped(m, id))
  {
    WithoutIsClosed(m.players, id);
    UpdatedKeeps(Without(m.players, id));
    PlayersKeep(m, Updated(Without(m.players, id)));
  }

  lemma LeftKeeps(m: Monitor, id: nat)
    requires Sound(m)
    ensures Sound(Left(m, id))
  {
    if id in m.players {
      if m.started { ConcludeKeeps(m); } else { DroppedKeeps(m, id); }
    }
  }

  /** A player's entry may be replaced by one that is as well known. */
  lemma ReplacedIsKnown(ps: Players, id: nat, p: PlayerData)
    requires Known(ps) && id in ps
    requires p.dplayid == id && p.allies == ps[id].allies && p.tick == ps[id].tick
    ensures Known(ps[id := p])
  {
  }

  lemma WithStatusKeeps(m: Monitor, id: nat, slot: int, side: int, isWatcher: bool, isAI: bool)
    requires Roster(m.players) && id in m.players
    ensures Roster(WithStatus(m, id, slot, side, isWatcher, isAI))
  {
    var p := m.players[id].(isAI := isAI, slot := slot);
    var q := p.(side := side, isWatcher := isWatcher);
    ReplacedIsKnown(m.players, id, p);
    ReplacedIsKnown(m.players, id, q);
    UpdatedKeeps(m.players[id := q]);
  }

  lemma ReportedKeeps(
    m: Monitor, id: nat, mapName: string, maxUnits: nat, slot: int, side: int, isWatcher: bool, isAI: bool)
    requires Sound(m)
    ensures Sound(Reported(m, id, mapName, maxUnits, slot, side, isWatcher, isAI))
  {
    if id in m.players && !m.started {
      assert Roster(m.players);
      WithStatusKeeps(m, id, slot, side, isWatcher, isAI);
      PlayersKeep(m, WithStatus(m, id, slot, side, isWatcher, isAI));
    }
  }

  lemma RealignedKeeps(m: Monitor, ps: Players)
    requires Sound(m) && Known(ps) && ps.Keys == m.players.Keys
    requires ActivePlayers(ps) <= ActivePlayers(m.players)
    ensures Sound(Realigned(m, ps))
  {
    UpdatedKeeps(ps);
    PlayersKeep(m, Updated(ps));
    ConcludeKeeps(m.(players := Updated(ps)));
  }

  lemma AllianceKeeps(m: Monitor, a: nat, b: nat, allied: bool)
    requires Sound(m) && a in m.players && b in m.players
    ensures Keyed(m) && Closed(WithAlliance(m.players, a, b, allied))
    ensures WithAlliance(m.players, a, b, allied).Keys == m.players.Keys
    ensures Sound(Realigned(m, WithAlliance(m.players, a, b, allied)))
  {
    WithAllianceIsClosed(m.players, a, b, allied);
    RealignedKeeps(m, WithAlliance(m.players, a, b, allied));
  }

  lemma PickedKeeps(m: Monitor, source: nat, team: nat)
    requires Sound(m)
    ensures Sound(Picked(m, source, team))
  {
    if source in m.players {
      WithPickIsClosed(m.players, source, team);
      var ps := WithPick(m.players, source, team);
      assert ActivePlayers(ps) == ActivePlayers(m.players);
      PlayersKeep(m, ps);
      RealignedKeeps(m, ps);
    }
  }

  lemma KilledKeeps(m: Monitor, id: nat)
    requires Sound(m) && id in m.players
    ensures Sound(m.(players := Killed(m.players, id)))
  {
    PlayersKeep(m, Killed(m.players, id));
  }

  lemma CommanderDiedKeeps(m: Monitor, source: nat, unitId: nat)
    requires Sound(m) && (source in m.players ==> m.maxUnits > 0)
    ensures Sound(CommanderDied(m, source, unitId))
  {
    if source in m.players {
      KilledKeeps(m, source);
      ConcludeDeathKeeps(m.(players := Killed(m.players, source)));
    }
  }

  lemma RejectedKeeps(m: Monitor, source: nat, rejected: nat)
    requires Sound(m)
    ensures Sound(Rejected(m, source, rejected))
  {
    if source in m.players && rejected in m.players {
      if m.started {
        KilledKeeps(m, rejected);
        ConcludeKeeps(m.(players := Killed(m.players, rejected)));
      } else {
        DroppedKeeps(m, rejected);
      }
    }
  }

  lemma BegunKeeps(m: Monitor, tick: nat)
    requires Sound(m)
    ensures Sound(Begun(m, tick)) && Begun(m, tick).players == m.players
  {
    assert Sound(m.(launched := true)) by {
      FairStays(m, m.(launched := true));
      DecidedStays(m, m.(launched := true));
    }
    if !m.started && tick > m.config.startsAfter {
      var n := m.(launched := true, started := true, frozen := m.players);
      assert Sound(n);
      LatchKeeps(n, -1);
    }
  }

  lemma AdvancedKeeps(m: Monitor, source: nat, tick: nat)
    requires Sound(m) && source in m.players && tick < U32
    ensures Sound(Advanced(m, source, tick))
  {
    BegunKeeps(m, tick);
    PlayersKeep(Begun(m, tick), Ticked(m.players, source, tick));
  }

  lemma OnTickKeeps(m: Monitor, source: nat, tick: nat)
    requires Sound(m) && tick < U32
    ensures Sound(OnTick(m, source, tick))
  {
    if source in m.players {
      AdvancedKeeps(m, source, tick);
      ConcludeKeeps(Advanced(m, source, tick));
    }
  }

  lemma NamedKeeps(m: Monitor, names: map<string, string>)
    requires Sound(m)
    ensures Sound(m.(realNames := names))
  {
    FairStays(m, m.(realNames := names));
    DecidedStays(m, m.(realNames := names));
  }

  lemma ConfigDoesNotMatter(m: Monitor, c: Config)
    requires Sound(m)
    ensures Sound(m.(config := c))
  {
    FairStays(m, m.(config := c));
    DecidedStays(m, m.(config := c));
  }

  lemma ClearedIsSound(m: Monitor)
    ensures Sound(Cleared(m))
  {
  }

  /** Every handler keeps the invariant; in particular no lookup of a player can fail. */
  lemma NextKeeps(m: Monitor, e: Event)
    requires Sound(m) && Enabled(m, e)
    ensures Sound(Next(m, e))
  {
    match e
    case Join(id, name) => JoinedKeeps(m, id, name);
    case Leave(id) => LeftKeeps(m, id);
    case StatusReport(id, mapName, maxUnits, slot, side, isWatcher, isAI) =>
      ReportedKeeps(m, id, mapName, maxUnits, slot, side, isWatcher, isAI);
    case ChatAlliance(a, b, allied) => if a in m.players && b in m.players { AllianceKeeps(m, a, b, allied); }
    case Alliance(a, b, allied) => if a in m.players && b in m.players { AllianceKeeps(m, a, b, allied); }
    case Pick(source, team) => PickedKeeps(m, source, team);
    case UnitDied(source, unitId) => CommanderDiedKeeps(m, source, unitId);
    case Reject(source, rejected) => RejectedKeeps(m, source, rejected);
    case Tick(source, tick) => OnTickKeeps(m, source, tick);
    case RealNameGiven(name, realName) => NamedKeeps(m, m.realNames[name := realName]);
    case Reset => ClearedIsSound(m);
  }

  // ------------------------------------------------------- lookups, whatever a join did

  lemma DroppedIsKeyed(m: Monitor, id: nat)
    requires Keyed(m) && !m.started
    ensures Keyed(Dropped(m, id))
  {
    WithoutIsClosed(m.players, id);
    NumberedIsRight(Without(m.players, id));
  }

  lemma RealignedIsKeyed(m: Monitor, ps: Players)
    requires Keyed(m) && Closed(ps) && ps.Keys == m.players.Keys
    ensures Keyed(Realigned(m, ps))
  {
    NumberedIsRight(ps);
    OutcomeDoesNotMatter(m.(players := Updated(ps)));
  }

  lemma AlliancesAreKeyed(m: Monitor, a: nat, b: nat, allied: bool)
    requires Keyed(m)
    ensures Keyed(Allied(m, a, b, allied)) && Keyed(ChatAllied(m, a, b, allied))
  {
    if a in m.players && b in m.players {
      WithAllianceIsClosed(m.players, a, b, allied);
      RealignedIsKeyed(m, WithAlliance(m.players, a, b, allied));
    }
  }

  lemma PickedIsKeyed(m: Monitor, source: nat, team: nat)
    requires Keyed(m)
    ensures Keyed(Picked(m, source, team))
  {
    if source in m.players {
      WithPickIsClosed(m.players, source, team);
      RealignedIsKeyed(m, WithPick(m.players, source, team));
    }
  }

  lemma KilledIsKeyed(m: Monitor, id: nat)
    requires Keyed(m) && id in m.players
    ensures Keyed(Conclude(m.(players := Killed(m.players, id))))
    ensures Keyed(ConcludeDeath(m.(players := Killed(m.players, id))))
  {
    OutcomeDoesNotMatter(m.(players := Killed(m.players, id)));
  }

  lemma JoinedIsKeyed(m: Monitor, id: nat, name: string)
    requires Keyed(m)
    ensures Keyed(Joined(m, id, name))
  {
    if Enters(m, id, name) {
      EnteredIsClosed(m.players, id, name);
      NumberedIsRight(Entered(m.players, id, name));
    }
  }

  lemma ReplacedIsClosed(ps: Players, id: nat, p: PlayerData)
    requires Closed(ps) && id in ps && p.dplayid == id && p.allies == ps[id].allies
    ensures Closed(ps[id := p]) && ps[id := p].Keys == ps.Keys
  {
  }

  lemma WithStatusIsClosed(m: Monitor, id: nat, slot: int, side: int, isWatcher: bool, isAI: bool)
    requires Closed(m.players) && id in m.players
    ensures var qs := WithStatus(m, id, slot, side, isWatcher, isAI); Closed(qs) && qs.Keys == m.players.Keys
  {
    var p := m.players[id].(isAI := isAI, slot := slot);
    var q := p.(side := side, isWatcher := isWatcher);
    ReplacedIsClosed(m.players, id, p);
    ReplacedIsClosed(m.players, id, q);
    NumberedIsRight(m.players[id := q]);
  }

  lemma ReportedIsKeyed(
    m: Monitor, id: nat, mapName: string, maxUnits: nat, slot: int, side: int, isWatcher: bool, isAI: bool)
    requires Keyed(m)
    ensures Keyed(Reported(m, id, mapName, maxUnits, slot, side, isWatcher, isAI))
  {
    if id in m.players && !m.started {
      WithStatusIsClosed(m, id, slot, side, isWatcher, isAI);
    }
  }

  lemma BegunIsKeyed(m: Monitor, tick: nat)
    requires Keyed(m)
    ensures Keyed(Begun(m, tick))
  {
  }

  lemma TickIsKeyed(m: Monitor, source: nat, tick: nat)
    requires Keyed(m)
    ensures Keyed(OnTick(m, source, tick))
  {
    if source in m.players {
      BegunIsKeyed(m, tick);
      var n := Advanced(m, source, tick);
      OutcomeDoesNotMatter(n);
    }
  }

  /** With or without the two names: ids are keys, allies are known, and after the start nobody comes or goes. */
  lemma NextIsKeyed(m: Monitor, e: Event)
    requires Keyed(m) && Defined(m, e)
    ensures Keyed(Next(m, e))
  {
    match e
    case Join(id, name) => JoinedIsKeyed(m, id, name);
    case Leave(id) => if m.started { OutcomeDoesNotMatter(m); } else { DroppedIsKeyed(m, id); }
    case StatusReport(id, mapName, maxUnits, slot, side, isWatcher, isAI) =>
      ReportedIsKeyed(m, id, mapName, maxUnits, slot, side, isWatcher, isAI);
    case ChatAlliance(a, b, allied) => AlliancesAreKeyed(m, a, b, allied);
    case Alliance(a, b, allied) => AlliancesAreKeyed(m, a, b, allied);
    case Pick(source, team) => PickedIsKeyed(m, source, team);
    case UnitDied(source, _) => if source in m.players { KilledIsKeyed(m, source); }
    case Reject(_, id) =>
      if !m.started { DroppedIsKeyed(m, id); }
      if id in m.players { KilledIsKeyed(m, id); }
    case Tick(source, tick) => TickIsKeyed(m, source, tick);
    case RealNameGiven(_, _) =>
    case Reset =>
  }

  // ------------------------------------------------------- runs

  ghost predicate CanRun(m: Monitor, es: seq<Event>)
    requires Sound(m)
    decreases |es|
  {
    es == [] || (Enabled(m, es[0]) && (NextKeeps(m, es[0]); CanRun(Next(m, es[0]), es[1..])))
  }

  ghost function Run(m: Monitor, es: seq<Event>): (r: Monitor)
    requires Sound(m) && CanRun(m, es)
    ensures Sound(r)
    decreases |es|
  {
    if es == [] then m
    else
      NextKeeps(m, es[0]);
      Run(Next(m, es[0]), es[1..])
  }

  lemma StartIsSound(config: Config)
    ensures Sound(Start(config))
  {
  }

  /** Once an end tick is set, the game is over in every state until the result is latched. */
  lemma FinishedStaysFinished(config: Config, es: seq<Event>)
    requires Sound(Start(config)) && CanRun(Start(config), es)
    ensures var r := Run(Start(config), es);
      r.outcome.status == NotReady && r.outcome.endTick > 0 ==> Check(r).Over? && Check(r).winner >= 0
  {
    var r := Run(Start(config), es);
    if r.outcome.status == NotReady && r.outcome.endTick > 0 {
      DecidedIsOver(r);
    }
  }

  /** The end tick, when it comes, always brings a result. */
  lemma EndTickLatches(m: Monitor, source: nat, tick: nat)
    requires Sound(m) && source in m.players && tick < U32
    requires EndReached(Advanced(m, source, tick))
    ensures OnTick(m, source, tick).outcome.status != NotReady
  {
    var n := Advanced(m, source, tick);
    AdvancedKeeps(m, source, tick);
    if n.outcome.status == NotReady {
      DecidedIsOver(n);
    }
  }

  /** The survivors are split, both by the teams they started in and by those they are in now. */
  predicate Split(m: Monitor)
    requires m.players.Keys <= m.frozen.Keys
  {
    var active := ActivePlayers(m.players);
    active != {} && !OneTeam(active, m.frozen) && !OneTeam(active, m.players)
  }

  predicate SameTeams(ps: Players, qs: Players) {
    qs.Keys == ps.Keys && forall id :: id in ps ==> qs[id].team == ps[id].team && Live(qs[id]) == Live(ps[id])
  }

  lemma CheckByTeams(m: Monitor, n: Monitor)
    requires SameTeams(m.players, n.players) && m.frozen == n.frozen && m.started && n.started
    requires m.players.Keys <= m.frozen.Keys
    ensures Check(m) == Check(n)
  {
    assert ActivePlayers(m.players) == ActivePlayers(n.players);
  }

  lemma NoWarningAtStart(m: Monitor, source: nat, tick: nat)
    requires Sound(m) && source in m.players && tick < U32 && !m.started
    ensures !Warns(m, source, tick)
  {
    var b, n := Begun(m, tick), Advanced(m, source, tick);
    BegunKeeps(m, tick);
    if b.started {
      CheckByTeams(b, n);
    }
  }

  lemma NoWarningWhenReady(m: Monitor)
    requires Sound(m) && m.outcome.status != Void && m.outcome.endTick > 0
    ensures Check(m) != Going
  {
    CheckMeans(m);
    if m.outcome.status == Ready {
      var w, names :| Backed(m, w, names);
      assert w > 0 ==> OnlyTeam(m, w);
    }
  }

  /** A finished game is found unfinished only if its result was void and the allies have split since. */
  lemma {:induction false} WarnsOnlyAfterVoid(m: Monitor, source: nat, tick: nat)
    requires Sound(m) && tick < U32
    ensures Warns(m, source, tick) <==>
      && source in m.players
      && m.started
      && m.outcome.status == Void
      && EndReached(Advanced(m, source, tick))
      && Split(m)
  {
    if source in m.players {
      if m.started {
        var n := Advanced(m, source, tick);
        AdvancedKeeps(m, source, tick);
        CheckByTeams(m, n);
        if m.outcome.status != Void && n.outcome.endTick > 0 {
          NoWarningWhenReady(n);
        }
      } else {
        NoWarningAtStart(m, source, tick);
      }
    }
  }

  ghost predicate SameResult(m: Monitor, n: Monitor) {
    && n.outcome.status == m.outcome.status && n.outcome.results == m.outcome.results
    && n.endings == m.endings && n.frozen == m.frozen
  }

  lemma ConcludingStays(m: Monitor, ps: Players)
    requires m.outcome.status != NotReady && (m.started ==> ps.Keys <= m.frozen.Keys)
    ensures SameResult(m, Conclude(m.(players := ps))) && SameResult(m, ConcludeDraw(m.(players := ps)))
    ensures SameResult(m, ConcludeDeath(m.(players := ps)))
  {
  }

  lemma RealignedStays(m: Monitor, ps: Players)
    requires Keyed(m) && Closed(ps) && ps.Keys == m.players.Keys && m.outcome.status != NotReady
    ensures SameResult(m, Realigned(m, ps))
  {
    NumberedIsRight(ps);
    ConcludingStays(m, Updated(ps));
  }

  lemma LobbyStays(m: Monitor, e: Event)
    requires Sound(m) && Enabled(m, e) && m.outcome.status != NotReady
    requires e.Join? || e.StatusReport? || e.RealNameGiven? || e.Leave?
    ensures SameResult(m, Next(m, e))
  {
    if e.Leave? {
      ConcludingStays(m, m.players);
      assert m.(players := m.players) == m;
    }
  }

  lemma AllianceStays(m: Monitor, a: nat, b: nat, allied: bool)
    requires Sound(m) && m.outcome.status != NotReady
    ensures SameResult(m, Allied(m, a, b, allied)) && SameResult(m, ChatAllied(m, a, b, allied))
  {
    if a in m.players && b in m.players {
      WithAllianceIsClosed(m.players, a, b, allied);
      RealignedStays(m, WithAlliance(m.players, a, b, allied));
    }
  }

  lemma PickStays(m: Monitor, source: nat, team: nat)
    requires Sound(m) && m.outcome.status != NotReady
    ensures SameResult(m, Picked(m, source, team))
  {
    if source in m.players {
      WithPickIsClosed(m.players, source, team);
      RealignedStays(m, WithPick(m.players, source, team));
    }
  }

  lemma TickStays(m: Monitor, source: nat, tick: nat)
    requires Sound(m) && m.outcome.status != NotReady && tick < U32
    ensures SameResult(m, OnTick(m, source, tick))
  {
    if source in m.players {
      var n := Advanced(m, source, tick);
      AdvancedKeeps(m, source, tick);
      ConcludingStays(n, n.players);
      assert n.(players := n.players) == n;
    }
  }

  /** A latched result and its notification do not change before a reset. */
  lemma LatchedStays(m: Monitor, e: Event)
    requires Sound(m) && Enabled(m, e) && m.outcome.status != NotReady && e != Reset
    ensures SameResult(m, Next(m, e))
  {
    match e
    case Tick(source, tick) => TickStays(m, source, tick);
    case UnitDied(source, _) => if source in m.players { ConcludingStays(m, Killed(m.players, source)); }
    case Reject(_, id) => if id in m.players { ConcludingStays(m, Killed(m.players, id)); }
    case ChatAlliance(a, b, allied) => AllianceStays(m, a, b, allied);
    case Alliance(a, b, allied) => AllianceStays(m, a, b, allied);
    case Pick(source, team) => PickStays(m, source, team);
    case _ => LobbyStays(m, e);
  }

  lemma {:induction false} ResultIsFinal(m: Monitor, es: seq<Event>)
    requires Sound(m) && CanRun(m, es) && m.outcome.status != NotReady && Reset !in es
    ensures var r := Run(m, es);
      r.outcome.status == m.outcome.status && r.outcome.results == m.outcome.results && r.endings == m.endings
    decreases |es|
  {
    if es != [] {
      NextKeeps(m, es[0]);
      LatchedStays(m, es[0]);
      assert forall e :: e in es[1..] ==> e in es;
      ResultIsFinal(Next(m, es[0]), es[1..]);
    }
  }

  predicate AllDraw(results: seq<ArmyResult>) {
    forall r :: r in results ==> r.score == 0
  }

  predicate WonBy(results: seq<ArmyResult>, w: nat) {
    && (forall r :: r in results ==> r.score == if r.team == w then 1 else -1)
    && (exists r :: r in results && r.score == 1)
  }

  predicate IsFor(r: ArmyResult, p: PlayerData) {
    r.army == p.army && r.slot == p.slot && r.alias == p.name && r.team == p.team
  }

  predicate Listed(results: seq<ArmyResult>, p: PlayerData) {
    exists r :: r in results && IsFor(r, p)
  }

  lemma ResultsList(ps: Players, w: nat, names: map<string, string>)
    ensures forall id :: id in ps && Counted(ps[id]) ==> Listed(Results(ps, w, names), ps[id])
    ensures forall r :: r in Results(ps, w, names) ==> exists id :: id in ps && Counted(ps[id]) && IsFor(r, ps[id])
  {
    forall id | id in ps && Counted(ps[id])
      ensures Listed(Results(ps, w, names), ps[id])
    {
      ResultsExact(ps, w, names, Entry(ps[id], w, names));
      assert IsFor(Entry(ps[id], w, names), ps[id]);
    }
    forall r | r in Results(ps, w, names)
      ensures exists id :: id in ps && Counted(ps[id]) && IsFor(r, ps[id])
    {
      ResultsExact(ps, w, names, r);
    }
  }

  lemma ResultsScore(ps: Players, w: nat, names: map<string, string>)
    ensures w == 0 ==> AllDraw(Results(ps, w, names))
    ensures w > 0 && HasMember(ps, w) ==> WonBy(Results(ps, w, names), w)
  {
    forall r | r in Results(ps, w, names)
      ensures r.score == if w == 0 then 0 else if r.team == w then 1 else -1
    {
      ResultsExact(ps, w, names, r);
    }
    if w > 0 && HasMember(ps, w) {
      var id :| id in ps && Counted(ps[id]) && ps[id].team == w;
      ResultsExact(ps, w, names, Entry(ps[id], w, names));
    }
  }

  lemma BackedScores(m: Monitor, w: nat, names: map<string, string>)
    requires Backed(m, w, names)
    ensures w == 0 ==> AllDraw(m.outcome.results) && ActivePlayers(m.players) == {}
    ensures w > 0 ==> w >= 2 && OnlyTeam(m, w) && WonBy(m.outcome.results, w)
  {
    ResultsScore(m.frozen, w, names);
  }

  /** A ready result lists every army that started, as a draw of the dead or as a win of one team without rival. */
  lemma ReadyIsRight(m: Monitor)
    requires Sound(m) && m.outcome.status == Ready
    ensures forall id :: id in m.frozen && Counted(m.frozen[id]) ==> Listed(m.outcome.results, m.frozen[id])
    ensures forall r :: r in m.outcome.results ==>
      exists id :: id in m.frozen && Counted(m.frozen[id]) && IsFor(r, m.frozen[id])
    ensures
      || (AllDraw(m.outcome.results) && ActivePlayers(m.players) == {})
      || (exists w :: w >= 2 && OnlyTeam(m, w) && WonBy(m.outcome.results, w))
  {
    var w, names :| Backed(m, w, names);
    ResultsList(m.frozen, w, names);
    BackedScores(m, w, names);
  }

  /** A game that is already over when the teams freeze is void, and nobody is told; any other is open. */
  lemma OverAtStartIsVoid(m: Monitor, source: nat, tick: nat)
    requires Sound(m) && !m.started && source in m.players && m.config.startsAfter < tick < U32
    ensures var n := OnTick(m, source, tick); var active := ActivePlayers(m.players);
      && n.started && n.frozen == m.players && n.endings == [] && n.outcome.results == []
      && n.outcome.status == (if active == {} || OneTeam(active, m.players) then Void else NotReady)
      && n.outcome.endTick == if n.outcome.status == Void then MostRecent(m.players) else 0
  {
    BegunKeeps(m, tick);
    AdvancedKeeps(m, source, tick);
  }

  lemma KilledLeaves(ps: Players, id: nat)
    requires id in ps
    ensures ActivePlayers(Killed(ps, id)) == ActivePlayers(ps) - {id}
  {
  }

  lemma OneTeamWins(m: Monitor)
    requires Sound(m) && m.started && ActivePlayers(m.players) != {}
    requires ActivePlayers(m.players) <= m.frozen.Keys && OneTeam(ActivePlayers(m.players), m.frozen)
    ensures Check(m).Over? && Check(m).winner > 0
  {
    OneTeamMeans(m);
    CheckMeans(m);
  }

  /** The tick at which a win is given: `drawTicks` after the death that decided it, unless a tick was set before. */
  function WinTick(m: Monitor): nat {
    var t := (MostRecent(m.players) + m.config.drawTicks) % U32;
    if m.outcome.endTick > 0 then m.outcome.endTick else if t == 0 then 1 else t
  }

  lemma ConcludeWin(m: Monitor)
    requires Sound(m) && m.started && m.outcome.status == NotReady && ActivePlayers(m.players) != {}
    requires ActivePlayers(m.players) <= m.frozen.Keys && OneTeam(ActivePlayers(m.players), m.frozen)
    ensures ConcludeDeath(m) == m.(outcome := m.outcome.(endTick := WinTick(m)))
  {
    OneTeamWins(m);
  }

  lemma SameMostRecent(ps: Players, qs: Players)
    requires qs.Keys == ps.Keys && forall id :: id in ps ==> qs[id].tick == ps[id].tick
    ensures MostRecent(qs) == MostRecent(ps)
  {
    MostRecentIsMax(ps);
    MostRecentIsMax(qs);
  }

  lemma CommanderDiedIs(m: Monitor, source: nat, unitId: nat)
    requires Keyed(m) && source in m.players && m.maxUnits > 0 && unitId % m.maxUnits == 1
    ensures var n := m.(players := Killed(m.players, source)); Keyed(n) && CommanderDied(m, source, unitId) == ConcludeDeath(n)
  {
  }

  lemma WinTickByTicks(m: Monitor, ps: Players)
    requires ps.Keys == m.players.Keys && forall id :: id in ps ==> ps[id].tick == m.players[id].tick
    ensures WinTick(m.(players := ps)) == WinTick(m)
  {
    SameMostRecent(m.players, ps);
  }

  /** A commander's death that leaves survivors of one team only sets an end tick: it may still become a draw. */
  lemma WinIsDeferred(m: Monitor, source: nat, unitId: nat)
    requires Sound(m) && source in m.players && m.maxUnits > 0 && unitId % m.maxUnits == 1
    requires m.outcome.status == NotReady && m.started
    requires ActivePlayers(m.players) - {source} != {}
    requires ActivePlayers(m.players) - {source} <= m.frozen.Keys && OneTeam(ActivePlayers(m.players) - {source}, m.frozen)
    ensures var n := CommanderDied(m, source, unitId);
      n.outcome.status == NotReady && n.outcome.endTick == WinTick(m) > 0 && n.endings == []
  {
    KilledKeeps(m, source);
    KilledLeaves(m.players, source);
    WinTickByTicks(m, Killed(m.players, source));
    ConcludeWin(m.(players := Killed(m.players, source)));
    CommanderDiedIs(m, source, unitId);
  }

  /** The death of the last survivor is a draw, also when a win was due. */
  lemma LastDeathIsDraw(m: Monitor, source: nat, unitId: nat)
    requires Sound(m) && source in m.players && m.maxUnits > 0 && unitId % m.maxUnits == 1
    requires m.outcome.status == NotReady && m.started
    requires ActivePlayers(m.players) <= {source}
    ensures var n := CommanderDied(m, source, unitId);
      n.outcome.status != NotReady && AllDraw(n.outcome.results)
  {
    var p := m.(players := Killed(m.players, source));
    KilledLeaves(m.players, source);
    assert ActivePlayers(p.players) == {};
    ResultsScore(m.frozen, 0, m.realNames);
  }
}
