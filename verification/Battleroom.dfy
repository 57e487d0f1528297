/** Games in which teams are only picked in the battleroom; and a run that ends a finished game twice. */
module Battleroom {
  import opened Bytes
  import opened Keys
  import opened Teams
  import opened Referee
  import opened RefereeRuns

  // ------------------------------------------------------- picks decide teams

  predicate SamePick(p: PlayerData, q: PlayerData) {
    p.pick == q.pick && p.pick < 5
  }

  /** Allied are exactly those who picked the same team. */
  ghost predicate PicksAlly(ps: Players) {
    forall a, b :: a in ps && b in ps && a != b ==> (b in ps[a].allies <==> SamePick(ps[a], ps[b]))
  }

  /** Live players are in the same team exactly if they picked the same one. */
  ghost predicate PicksTeam(ps: Players) {
    forall a, b :: a in ps && b in ps && a != b && Live(ps[a]) && Live(ps[b]) ==>
      (ps[a].team == ps[b].team <==> SamePick(ps[a], ps[b]))
  }

  ghost predicate Picky(ps: Players) {
    PicksAlly(ps) && PicksTeam(ps)
  }

  lemma UpdatedIsPicky(ps: Players)
    requires Closed(ps) && PicksAlly(ps)
    ensures Picky(Updated(ps))
  {
    NumberedIsRight(ps);
    var qs := Updated(ps);
    assert TransitiveAlliance(ps);
    forall a, b | a in qs && b in qs && a != b && Live(qs[a]) && Live(qs[b])
      ensures qs[a].team == qs[b].team <==> SamePick(qs[a], qs[b])
    {
      TeamsAreAlliances(ps, a, b);
    }
  }

  ghost predicate Alike(ps: Players, qs: Players) {
    && qs.Keys == ps.Keys
    && forall id :: id in ps ==>
      && qs[id].allies == ps[id].allies && qs[id].pick == ps[id].pick
      && qs[id].team == ps[id].team && Live(qs[id]) == Live(ps[id])
  }

  lemma AlikeIsPicky(ps: Players, qs: Players)
    requires Picky(ps) && Alike(ps, qs)
    ensures Picky(qs)
  {
  }

  lemma KilledIsPicky(ps: Players, id: nat)
    requires Picky(ps) && id in ps
    ensures Picky(Killed(ps, id))
  {
  }

  lemma WithoutIsPicky(ps: Players, gone: nat)
    requires Closed(ps) && PicksAlly(ps)
    ensures Closed(Without(ps, gone)) && Picky(Updated(Without(ps, gone)))
  {
    WithoutIsClosed(ps, gone);
    UpdatedIsPicky(Without(ps, gone));
  }

  lemma PickAllies(ps: Players, source: nat, team: nat)
    requires Closed(ps) && PicksAlly(ps) && source in ps
    ensures PicksAlly(WithPick(ps, source, team))
  {
    var qs := WithPick(ps, source, team);
    forall a, b | a in qs && b in qs && a != b
      ensures b in qs[a].allies <==> SamePick(qs[a], qs[b])
    {
      if a != source && b != source {
        assert b in qs[a].allies <==> b in ps[a].allies;
      }
    }
  }

  /** A pick that leaves all alliances as they were leaves the teams right. */
  lemma IdlePick(ps: Players, source: nat, team: nat)
    requires Closed(ps) && Picky(ps) && source in ps
    requires SameAllies(ps, WithPick(ps, source, team))
    ensures Picky(WithPick(ps, source, team))
  {
    var qs := WithPick(ps, source, team);
    PickAllies(ps, source, team);
    forall a, b | a in qs && b in qs && a != b && Live(qs[a]) && Live(qs[b])
      ensures qs[a].team == qs[b].team <==> SamePick(qs[a], qs[b])
    {
      assert b in qs[a].allies <==> b in ps[a].allies;
    }
  }

  ghost predicate PickyGame(m: Monitor) {
    Picky(m.players) && (m.started ==> Picky(m.frozen))
  }

  lemma JoinedIsPicky(m: Monitor, id: nat, name: string)
    requires Sound(m) && PickyGame(m) && (Throws(m, id, name) ==> id in m.players)
    ensures PickyGame(Joined(m, id, name))
  {
    if Enters(m, id, name) {
      EnteredIsClosed(m.players, id, name);
      if Throws(m, id, name) {
        AlikeIsPicky(m.players, Entered(m.players, id, name));
      } else {
        UpdatedIsPicky(Entered(m.players, id, name));
      }
    }
  }

  lemma WithStatusIsPicky(m: Monitor, id: nat, slot: int, side: int, isWatcher: bool, isAI: bool)
    requires Sound(m) && Picky(m.players) && id in m.players
    ensures Picky(WithStatus(m, id, slot, side, isWatcher, isAI))
  {
    var p := m.players[id].(isAI := isAI, slot := slot);
    var qs := m.players[id := p.(side := side, isWatcher := isWatcher)];
    assert PicksAlly(qs);
    UpdatedIsPicky(qs);
    AlikeIsPicky(m.players, m.players[id := p]);
  }

  lemma ReportedIsPicky(
    m: Monitor, id: nat, mapName: string, maxUnits: nat, slot: int, side: int, isWatcher: bool, isAI: bool)
    requires Sound(m) && PickyGame(m)
    ensures PickyGame(Reported(m, id, mapName, maxUnits, slot, side, isWatcher, isAI))
  {
    if id in m.players && !m.started {
      WithStatusIsPicky(m, id, slot, side, isWatcher, isAI);
    }
  }

  lemma PickedIsPicky(m: Monitor, source: nat, team: nat)
    requires Sound(m) && PickyGame(m)
    ensures PickyGame(Picked(m, source, team))
  {
    if source in m.players {
      WithPickIsClosed(m.players, source, team);
      var ps := WithPick(m.players, source, team);
      PickAllies(m.players, source, team);
      if SameAllies(m.players, ps) {
        IdlePick(m.players, source, team);
      } else {
        UpdatedIsPicky(ps);
        NumberedIsRight(ps);
        OutcomeDoesNotMatter(m.(players := Updated(ps)));
      }
    }
  }

  lemma KillingIsPicky(m: Monitor, id: nat)
    requires Keyed(m) && PickyGame(m) && id in m.players
    ensures PickyGame(Conclude(m.(players := Killed(m.players, id))))
    ensures PickyGame(ConcludeDeath(m.(players := Killed(m.players, id))))
  {
    KilledIsPicky(m.players, id);
    OutcomeDoesNotMatter(m.(players := Killed(m.players, id)));
  }

  lemma LosingIsPicky(m: Monitor, id: nat)
    requires Keyed(m) && PickyGame(m)
    ensures PickyGame(Left(m, id)) && forall source :: PickyGame(Rejected(m, source, id))
  {
    OutcomeDoesNotMatter(m);
    WithoutIsPicky(m.players, id);
    if id in m.players { KillingIsPicky(m, id); }
  }

  lemma BegunIsPicky(m: Monitor, tick: nat)
    requires Sound(m) && PickyGame(m)
    ensures PickyGame(Begun(m, tick))
  {
  }

  lemma TickIsPicky(m: Monitor, source: nat, tick: nat)
    requires Sound(m) && PickyGame(m) && tick < U32
    ensures PickyGame(OnTick(m, source, tick))
  {
    if source in m.players {
      var n := Advanced(m, source, tick);
      BegunIsPicky(m, tick);
      AlikeIsPicky(m.players, Ticked(m.players, source, tick));
      AdvancedKeeps(m, source, tick);
      OutcomeDoesNotMatter(n);
    }
  }

  predicate AlliesByHand(e: Event) {
    e.Alliance? || e.ChatAlliance?
  }

  lemma NextIsPicky(m: Monitor, e: Event)
    requires Sound(m) && Enabled(m, e) && PickyGame(m) && !AlliesByHand(e)
    ensures PickyGame(Next(m, e))
  {
    match e
    case Join(id, name) => JoinedIsPicky(m, id, name);
    case StatusReport(id, mapName, maxUnits, slot, side, isWatcher, isAI) =>
      ReportedIsPicky(m, id, mapName, maxUnits, slot, side, isWatcher, isAI);
    case Pick(source, team) => PickedIsPicky(m, source, team);
    case Tick(source, tick) => TickIsPicky(m, source, tick);
    case Leave(id) => LosingIsPicky(m, id);
    case UnitDied(source, _) => if source in m.players { KillingIsPicky(m, source); }
    case Reject(_, id) => LosingIsPicky(m, id);
    case RealNameGiven(_, _) =>
    case Reset =>
  }

  /** Without alliances made by hand, teams are at all times the groups that picked the same number below five. */
  lemma {:induction false} PicksAreTeams(m: Monitor, es: seq<Event>)
    requires Sound(m) && PickyGame(m) && CanRun(m, es) && forall e :: e in es ==> !AlliesByHand(e)
    ensures PickyGame(Run(m, es))
    decreases |es|
  {
    if es != [] {
      NextKeeps(m, es[0]);
      NextIsPicky(m, es[0]);
      assert forall e :: e in es[1..] ==> e in es;
      PicksAreTeams(Next(m, es[0]), es[1..]);
    }
  }

  lemma BattleroomTeams(config: Config, es: seq<Event>)
    requires Sound(Start(config)) && CanRun(Start(config), es) && forall e :: e in es ==> !AlliesByHand(e)
    ensures Picky(Run(Start(config), es).players)
    ensures Run(Start(config), es).started ==> Picky(Run(Start(config), es).frozen)
  {
    PicksAreTeams(Start(config), es);
  }

  // ------------------------------------------------------- a finished game found unfinished

  const PAIR := Config("a", "b", 0, 10)

  /** Players 1 and 2 alone, both alive, and only the first has sent ticks. */
  ghost predicate Duel(m: Monitor, first: set<nat>, second: set<nat>, tick: nat) {
    && Sound(m) && m.config == PAIR
    && m.players.Keys == {1, 2}
    && Live(m.players[1]) && m.players[1].allies == first && m.players[1].tick == tick
    && Live(m.players[2]) && m.players[2].allies == second && m.players[2].tick == 0
  }

  /** Two lone players end up in one team exactly if they are mutual allies. */
  lemma DuelTeams(ps: Players)
    requires Closed(ps) && ps.Keys == {1, 2} && Live(ps[1]) && Live(ps[2])
    ensures SameButNumbers(ps, Updated(ps))
    ensures Updated(ps)[1].team == Updated(ps)[2].team <==> Mutual(ps, 1, 2)
  {
    NumberedIsRight(ps);
    assert TransitiveAlliance(ps);
    TeamsAreAlliances(ps, 1, 2);
  }

  lemma PairTeam(ps: Players)
    requires {1, 2} <= ps.Keys
    ensures OneTeam({1, 2}, ps) <==> ps[1].team == ps[2].team
  {
    assert Least({1, 2}) in {1, 2};
    assert 1 in {1, 2} && 2 in {1, 2};
  }

  lemma DuelCheck(m: Monitor, first: set<nat>, second: set<nat>, tick: nat)
    requires Duel(m, first, second, tick) && m.started && m.frozen[1].team != m.frozen[2].team
    ensures m.frozen.Keys == {1, 2}
    ensures MostRecent(m.players) == tick
    ensures Check(m) == if m.players[1].team == m.players[2].team then Over(-1) else Going
    ensures Split(m) <==> m.players[1].team != m.players[2].team
  {
    MostRecentIsMax(m.players);
    assert ActivePlayers(m.players) == {1, 2} by {
      assert forall id :: id in ActivePlayers(m.players) <==> id == 1 || id == 2;
    }
    PairTeam(m.frozen);
    PairTeam(m.players);
  }

  ghost predicate Rivals(m: Monitor, first: set<nat>, second: set<nat>, tick: nat) {
    Duel(m, first, second, tick) && m.started && m.frozen[1].team != m.frozen[2].team
  }

  ghost predicate PairOf(ps: Players, first: set<nat>, second: set<nat>, tick: nat) {
    && Known(ps) && ps.Keys == {1, 2}
    && Live(ps[1]) && ps[1].allies == first && ps[1].tick == tick
    && Live(ps[2]) && ps[2].allies == second && ps[2].tick == 0
  }

  lemma DuelRenumbered(m: Monitor, ps: Players, first: set<nat>, second: set<nat>, tick: nat)
    requires Sound(m) && m.config == PAIR && m.started && m.players.Keys == {1, 2}
    requires ActivePlayers(m.players) == {1, 2} && m.frozen[1].team != m.frozen[2].team
    requires PairOf(ps, first, second, tick)
    ensures Rivals(m.(players := Updated(ps)), first, second, tick)
    ensures Updated(ps)[1].team == Updated(ps)[2].team <==> 2 in first && 1 in second
  {
    DuelTeams(ps);
    UpdatedKeeps(ps);
    assert ActivePlayers(Updated(ps)) <= {1, 2};
    PlayersKeep(m, Updated(ps));
  }

  lemma DuelConcludes(m: Monitor, first: set<nat>, second: set<nat>, tick: nat)
    requires Rivals(m, first, second, tick)
    ensures Keyed(m)
    ensures var n := ConcludeDraw(m);
      && Rivals(n, first, second, tick) && n.frozen == m.frozen && n.players == m.players
      && n.outcome == if m.outcome.status == NotReady && m.players[1].team == m.players[2].team
                      then Outcome(Void, [], tick) else m.outcome
  {
    DuelCheck(m, first, second, tick);
    ConcludeKeeps(m);
  }

  /** What the pair's alliances come to once they are renumbered. */
  lemma DuelRealigned(m: Monitor, ps: Players, first: set<nat>, second: set<nat>, tick: nat)
    requires Sound(m) && m.config == PAIR && m.started && m.players.Keys == {1, 2}
    requires ActivePlayers(m.players) == {1, 2} && m.frozen[1].team != m.frozen[2].team
    requires PairOf(ps, first, second, tick)
    ensures Keyed(m)
    ensures var n := Realigned(m, ps);
      && Rivals(n, first, second, tick) && n.frozen == m.frozen
      && (n.players[1].team == n.players[2].team <==> 2 in first && 1 in second)
      && n.outcome == if m.outcome.status == NotReady && 2 in first && 1 in second then Outcome(Void, [], tick) else m.outcome
  {
    DuelRenumbered(m, ps, first, second, tick);
    DuelConcludes(m.(players := Updated(ps)), first, second, tick);
  }

  lemma RivalsAlly(m: Monitor, first: set<nat>, second: set<nat>, tick: nat, allied: bool)
    requires Rivals(m, first, second, tick) && (2 in first) != allied
    ensures Keyed(m)
    ensures Allied(m, 1, 2, allied)
      == Realigned(m, WithAlliance(m.players, 1, 2, allied))
    ensures PairOf(WithAlliance(m.players, 1, 2, allied), if allied then first + {2} else first - {2}, second, tick)
    ensures ActivePlayers(m.players) == {1, 2}
  {
    WithAllianceIsClosed(m.players, 1, 2, allied);
    assert forall id :: id in ActivePlayers(m.players) <==> id == 1 || id == 2;
  }

  lemma RivalsAllyBack(m: Monitor, first: set<nat>, second: set<nat>, tick: nat, allied: bool)
    requires Rivals(m, first, second, tick) && (1 in second) != allied
    ensures Keyed(m)
    ensures Allied(m, 2, 1, allied)
      == Realigned(m, WithAlliance(m.players, 2, 1, allied))
    ensures PairOf(WithAlliance(m.players, 2, 1, allied), first, if allied then second + {1} else second - {1}, tick)
    ensures ActivePlayers(m.players) == {1, 2}
  {
    WithAllianceIsClosed(m.players, 2, 1, allied);
    assert forall id :: id in ActivePlayers(m.players) <==> id == 1 || id == 2;
  }

  const ALONE: PlayerData := NEW_PLAYER.(name := "a", dplayid := 1)

  lemma AloneNumbered(ps: Players)
    requires ps == map[1 := ALONE]
    ensures Known(ps) && Updated(ps).Keys == {1} && Updated(ps)[1].allies == {} && Updated(ps)[1].tick == 0
    ensures Live(Updated(ps)[1])
  {
    NumberedIsRight(ps);
    assert SameButNumbers(ps, Updated(ps));
    assert 1 in ps;
  }

  ghost predicate Lone(m: Monitor) {
    && Sound(m) && m.config == PAIR && !m.started
    && m.players.Keys == {1} && Live(m.players[1]) && m.players[1].allies == {} && m.players[1].tick == 0
  }

  lemma FirstJoins()
    ensures Sound(Start(PAIR)) && Lone(Next(Start(PAIR), Join(1, "a")))
  {
    JoinedKeeps(Start(PAIR), 1, "a");
    var ps := map[1 := ALONE];
    assert map[][1 := ALONE] == ps;
    AloneNumbered(ps);
  }

  lemma SecondJoins(k: Monitor)
    requires Lone(k)
    ensures var m := Next(k, Join(2, "b"));
      Duel(m, {}, {}, 0) && !m.started && m.players[1].team != m.players[2].team
  {
    JoinedKeeps(k, 2, "b");
    var ps := k.players[2 := NEW_PLAYER.(name := "b", dplayid := 2)];
    DuelTeams(ps);
  }

  lemma DuelStarts(m: Monitor)
    requires Duel(m, {}, {}, 0) && !m.started && m.players[1].team != m.players[2].team
    ensures var n := Begun(m, 5);
      Rivals(n, {}, {}, 0) && n.outcome == UNDECIDED && n.frozen.Keys == {1, 2} && n.players == m.players
  {
    var b := m.(launched := true, started := true, frozen := m.players);
    BegunKeeps(m, 5);
    DuelCheck(b, {}, {}, 0);
  }

  lemma DuelBegins(m: Monitor)
    requires Duel(m, {}, {}, 0) && !m.started && m.players[1].team != m.players[2].team
    ensures var n := OnTick(m, 1, 5);
      && Duel(n, {}, {}, 5) && n.started && n.outcome == UNDECIDED
      && n.frozen.Keys == {1, 2} && n.frozen[1].team != n.frozen[2].team
  {
    DuelStarts(m);
    OnTickKeeps(m, 1, 5);
  }

  const BEGINNING: seq<Event> := [Join(1, "a"), Join(2, "b"), Tick(1, 5)]

  const QUARREL: seq<Event> := [Alliance(1, 2, true), Alliance(2, 1, true), Alliance(2, 1, false)]

  /** What the rivals come to be. */
  ghost predicate Became(n: Monitor, m: Monitor, first: set<nat>, second: set<nat>, tick: nat) {
    && Rivals(n, first, second, tick)
    && (n.players[1].team == n.players[2].team <==> 2 in first && 1 in second)
    && n.outcome == if m.outcome.status == NotReady && 2 in first && 1 in second then Outcome(Void, [], tick) else m.outcome
  }

  lemma FirstAllies(m: Monitor, first: set<nat>, second: set<nat>, tick: nat, allied: bool)
    requires Rivals(m, first, second, tick) && (2 in first) != allied
    ensures Keyed(m)
    ensures Became(Allied(m, 1, 2, allied), m, if allied then first + {2} else first - {2}, second, tick)
  {
    RivalsAlly(m, first, second, tick, allied);
    DuelRealigned(m, WithAlliance(m.players, 1, 2, allied), if allied then first + {2} else first - {2}, second, tick);
  }

  lemma SecondAllies(m: Monitor, first: set<nat>, second: set<nat>, tick: nat, allied: bool)
    requires Rivals(m, first, second, tick) && (1 in second) != allied
    ensures Keyed(m)
    ensures Became(Allied(m, 2, 1, allied), m, first, if allied then second + {1} else second - {1}, tick)
  {
    RivalsAllyBack(m, first, second, tick, allied);
    DuelRealigned(m, WithAlliance(m.players, 2, 1, allied), first, if allied then second + {1} else second - {1}, tick);
  }

  /** Allies of a started duel draw it, and then fall out. */
  lemma Quarrel(m: Monitor)
    requires Rivals(m, {}, {}, 5) && m.outcome == UNDECIDED
    ensures Keyed(m) && Keyed(Allied(m, 1, 2, true)) && Keyed(Allied(Allied(m, 1, 2, true), 2, 1, true))
    ensures var n := Allied(Allied(Allied(m, 1, 2, true), 2, 1, true), 2, 1, false);
      Rivals(n, {2}, {}, 5) && n.outcome == Outcome(Void, [], 5) && n.players[1].team != n.players[2].team
  {
    assert {} + {2} == {2} && {} + {1} == {1} && {1} - {1} == {};
    FirstAllies(m, {}, {}, 5, true);
    var k := Allied(m, 1, 2, true);
    SecondAllies(k, {2}, {}, 5, true);
    var l := Allied(k, 2, 1, true);
    SecondAllies(l, {2}, {1}, 5, false);
  }

  lemma DuelAdvances(m: Monitor)
    requires Rivals(m, {2}, {}, 5)
    ensures Keyed(m)
    ensures var n := Advanced(m, 1, 6); Rivals(n, {2}, {}, 6) && n.outcome == m.outcome
  {
    AdvancedKeeps(m, 1, 6);
  }

  lemma WarnsNext(m: Monitor)
    requires Rivals(m, {2}, {}, 5) && m.outcome == Outcome(Void, [], 5) && m.players[1].team != m.players[2].team
    ensures Keyed(m) && Warns(m, 1, 6)
  {
    DuelAdvances(m);
    DuelCheck(m, {2}, {}, 5);
    DuelCheck(Advanced(m, 1, 6), {2}, {}, 6);
    WarnsOnlyAfterVoid(m, 1, 6);
  }

  lemma RunsOn(m: Monitor, e: Event, es: seq<Event>)
    requires Sound(m) && Enabled(m, e) && Sound(Next(m, e)) && CanRun(Next(m, e), es)
    ensures CanRun(m, [e] + es) && Run(m, [e] + es) == Run(Next(m, e), es)
  {
    assert ([e] + es)[1..] == es;
  }

  lemma RunsThree(k: Monitor, l: Monitor, m: Monitor, n: Monitor, e1: Event, e2: Event, e3: Event, es: seq<Event>)
    requires Sound(k) && Enabled(k, e1) && l == Next(k, e1) && Sound(l)
    requires Enabled(l, e2) && m == Next(l, e2) && Sound(m)
    requires Enabled(m, e3) && n == Next(m, e3) && Sound(n) && CanRun(n, es)
    ensures CanRun(k, [e1, e2, e3] + es) && Run(k, [e1, e2, e3] + es) == Run(n, es)
  {
    RunsOn(m, e3, es);
    RunsOn(l, e2, [e3] + es);
    RunsOn(k, e1, [e2] + ([e3] + es));
    assert [e1, e2, e3] + es == [e1] + ([e2] + ([e3] + es));
  }

  lemma QuarrelSteps(m: Monitor) returns (k: Monitor, l: Monitor, n: Monitor)
    requires Rivals(m, {}, {}, 5) && m.outcome == UNDECIDED
    ensures k == Next(m, Alliance(1, 2, true)) && Sound(k)
    ensures l == Next(k, Alliance(2, 1, true)) && Sound(l)
    ensures n == Next(l, Alliance(2, 1, false)) && Sound(n)
    ensures Warns(n, 1, 6)
  {
    Quarrel(m);
    NextKeeps(m, Alliance(1, 2, true));
    k := Next(m, Alliance(1, 2, true));
    NextKeeps(k, Alliance(2, 1, true));
    l := Next(k, Alliance(2, 1, true));
    n := Next(l, Alliance(2, 1, false));
    WarnsNext(n);
  }

  lemma QuarrelRuns(m: Monitor)
    requires Rivals(m, {}, {}, 5) && m.outcome == UNDECIDED
    ensures CanRun(m, QUARREL) && Warns(Run(m, QUARREL), 1, 6)
  {
    var k, l, n := QuarrelSteps(m);
    RunsThree(m, k, l, n, Alliance(1, 2, true), Alliance(2, 1, true), Alliance(2, 1, false), []);
    assert QUARREL == QUARREL + [];
  }

  lemma BeginningSteps() returns (k: Monitor, l: Monitor, n: Monitor)
    ensures Sound(Start(PAIR)) && k == Next(Start(PAIR), Join(1, "a")) && Sound(k)
    ensures l == Next(k, Join(2, "b")) && Sound(l)
    ensures n == Next(l, Tick(1, 5)) && Rivals(n, {}, {}, 5) && n.outcome == UNDECIDED
  {
    FirstJoins();
    k := Next(Start(PAIR), Join(1, "a"));
    SecondJoins(k);
    l := Next(k, Join(2, "b"));
    DuelBegins(l);
    n := Next(l, Tick(1, 5));
  }

  /** The branch that should not be possible is reached in a run of six events and one more tick. */
  lemma WarningIsReachable()
    ensures Sound(Start(PAIR)) && CanRun(Start(PAIR), BEGINNING + QUARREL)
    ensures Warns(Run(Start(PAIR), BEGINNING + QUARREL), 1, 6)
  {
    var k, l, n := BeginningSteps();
    QuarrelRuns(n);
    RunsThree(Start(PAIR), k, l, n, Join(1, "a"), Join(2, "b"), Tick(1, 5), QUARREL);
  }
}
