/** The latched result: right when it is latched, in every run, and with each army once. */
module RefereeResults {
  import opened Bytes
  import opened Keys
  import opened Teams
  import opened Referee
  import opened RefereeRuns

  // ------------------------------------------------------- right when latched

  /** A ready result is a draw of the dead, or a win of the team that all survivors, of whom there are some, belong to. */
  ghost predicate RightNow(m: Monitor) {
    m.outcome.status == Ready ==>
      || (AllDraw(m.outcome.results) && ActivePlayers(m.players) == {})
      || (exists w ::
            w >= 2 && ActivePlayers(m.players) != {} && OnlyTeam(m, w) && WonBy(m.outcome.results, w))
  }

  lemma LatchedRight(m: Monitor, winner: int)
    requires Sound(m) && m.started && m.outcome.status == NotReady
    requires winner < 0 || Check(m) == Over(winner)
    ensures RightNow(Latch(m, winner))
  {
    if winner >= 0 {
      CheckMeans(m);
      ResultsScore(m.frozen, winner, m.realNames);
      assert winner > 0 ==> OnlyTeam(Latch(m, winner), winner);
    }
  }

  lemma ConcludedRight(m: Monitor)
    requires Sound(m) && m.outcome.status == NotReady
    ensures RightNow(Conclude(m)) && ConcludeDraw(m).outcome.status != Ready
  {
    CheckMeans(m);
    if Check(m).Over? {
      LatchedRight(m, Check(m).winner);
    }
  }

  lemma ConcludedDeathRight(m: Monitor)
    requires Sound(m) && m.outcome.status == NotReady
    ensures RightNow(ConcludeDeath(m))
  {
    CheckMeans(m);
    if Check(m).Over? && Check(m).winner <= 0 {
      LatchedRight(m, Check(m).winner);
    }
  }

  lemma RealignedNotReady(m: Monitor, ps: Players)
    requires Sound(m) && Known(ps) && ps.Keys == m.players.Keys && ActivePlayers(ps) <= ActivePlayers(m.players)
    requires m.outcome.status == NotReady
    ensures Keyed(m) && Realigned(m, ps).outcome.status != Ready
  {
    UpdatedKeeps(ps);
    PlayersKeep(m, Updated(ps));
    ConcludedRight(m.(players := Updated(ps)));
  }

  lemma AlliancesNotReady(m: Monitor, a: nat, b: nat, allied: bool)
    requires Sound(m) && m.outcome.status == NotReady
    ensures Allied(m, a, b, allied).outcome.status != Ready && ChatAllied(m, a, b, allied).outcome.status != Ready
  {
    if a in m.players && b in m.players {
      WithAllianceIsClosed(m.players, a, b, allied);
      RealignedNotReady(m, WithAlliance(m.players, a, b, allied));
    }
  }

  lemma PickNotReady(m: Monitor, source: nat, team: nat)
    requires Sound(m) && m.outcome.status == NotReady
    ensures Picked(m, source, team).outcome.status != Ready
  {
    if source in m.players {
      WithPickIsClosed(m.players, source, team);
      assert ActivePlayers(WithPick(m.players, source, team)) == ActivePlayers(m.players);
      RealignedNotReady(m, WithPick(m.players, source, team));
    }
  }

  lemma DeathRight(m: Monitor, id: nat)
    requires Sound(m) && m.outcome.status == NotReady && id in m.players
    ensures Keyed(m)
    ensures RightNow(Conclude(m.(players := Killed(m.players, id))))
    ensures RightNow(ConcludeDeath(m.(players := Killed(m.players, id))))
  {
    KilledKeeps(m, id);
    ConcludedRight(m.(players := Killed(m.players, id)));
    ConcludedDeathRight(m.(players := Killed(m.players, id)));
  }

  lemma TickRight(m: Monitor, source: nat, tick: nat)
    requires Sound(m) && m.outcome.status == NotReady && tick < U32
    ensures RightNow(OnTick(m, source, tick))
  {
    if source in m.players {
      var n := Advanced(m, source, tick);
      AdvancedKeeps(m, source, tick);
      if n.outcome.status == NotReady {
        ConcludedRight(n);
      }
    }
  }

  /** Whatever event makes a result ready, it is right by the survivors of that moment. */
  lemma LatchIsRight(m: Monitor, e: Event)
    requires Sound(m) && Enabled(m, e) && m.outcome.status == NotReady
    ensures RightNow(Next(m, e))
  {
    match e
    case Leave(_) => ConcludedRight(m);
    case ChatAlliance(a, b, allied) => AlliancesNotReady(m, a, b, allied);
    case Alliance(a, b, allied) => AlliancesNotReady(m, a, b, allied);
    case Pick(source, team) => PickNotReady(m, source, team);
    case UnitDied(source, _) => if source in m.players { DeathRight(m, source); }
    case Reject(_, id) => if id in m.players { DeathRight(m, id); }
    case Tick(source, tick) => TickRight(m, source, tick);
    case _ =>
  }

  // ------------------------------------------------------- right in every run

  /** Between `a` and `n` a result was latched, rightly, and `end` still has it. */
  ghost predicate LatchedBetween(a: Monitor, n: Monitor, end: Monitor) {
    && a.outcome.status == NotReady
    && n.outcome.status == Ready && RightNow(n)
    && end.outcome.results == n.outcome.results && end.frozen == n.frozen
  }

  /** The result that the run ends with was latched by event number `k`, rightly, and has not been reset since. */
  ghost predicate LatchedBy(m: Monitor, es: seq<Event>, k: nat)
    requires Sound(m) && CanRun(m, es)
  {
    && k < |es| && Reset !in es[k + 1..]
    && CanRun(m, es[..k]) && CanRun(m, es[..k + 1])
    && LatchedBetween(Run(m, es[..k]), Run(m, es[..k + 1]), Run(m, es))
  }

  /** `n` is the state after the first event, and `t` are the others. */
  ghost predicate Splits(m: Monitor, es: seq<Event>, n: Monitor, t: seq<Event>) {
    && Sound(m) && CanRun(m, es) && es != []
    && n == Next(m, es[0]) && Sound(n) && t == es[1..] && CanRun(n, t)
  }

  lemma SplitsFirst(m: Monitor, es: seq<Event>)
    requires Sound(m) && CanRun(m, es) && es != []
    ensures Splits(m, es, Next(m, es[0]), es[1..])
  {
    NextKeeps(m, es[0]);
  }

  lemma RunPrefix(m: Monitor, es: seq<Event>, n: Monitor, t: seq<Event>, k: nat)
    requires Splits(m, es, n, t) && k <= |t|
    ensures CanRun(n, t[..k]) ==> CanRun(m, es[..k + 1]) && Run(m, es[..k + 1]) == Run(n, t[..k])
  {
    assert es[..k + 1][1..] == t[..k] && es[..k + 1][0] == es[0];
  }

  lemma LatchedByFirst(m: Monitor, es: seq<Event>, n: Monitor, t: seq<Event>)
    requires Splits(m, es, n, t) && Reset !in t
    requires m.outcome.status == NotReady && n.outcome.status == Ready
    ensures LatchedBy(m, es, 0)
  {
    RunPrefix(m, es, n, t, 0);
    assert t[..0] == [] && es[..0] == [];
    LatchIsRight(m, es[0]);
    ResultIsFinal(n, t);
    FrozenIsFinal(n, t);
  }

  lemma RunSplitsFirst(m: Monitor, es: seq<Event>, n: Monitor, t: seq<Event>)
    requires Splits(m, es, n, t)
    ensures Run(m, es) == Run(n, t)
  {
  }

  lemma LatchedByLater(m: Monitor, es: seq<Event>, n: Monitor, t: seq<Event>, k: nat)
    requires Splits(m, es, n, t) && LatchedBy(n, t, k)
    ensures LatchedBy(m, es, k + 1)
  {
    var j := k + 1;
    RunSplitsFirst(m, es, n, t);
    RunPrefix(m, es, n, t, k);
    RunPrefix(m, es, n, t, j);
    assert t[j..] == es[j + 1..];
  }

  lemma {:induction false} FrozenIsFinal(m: Monitor, es: seq<Event>)
    requires Sound(m) && CanRun(m, es) && m.outcome.status != NotReady && Reset !in es
    ensures Run(m, es).frozen == m.frozen
    decreases |es|
  {
    if es != [] {
      NextKeeps(m, es[0]);
      LatchedStays(m, es[0]);
      assert forall e :: e in es[1..] ==> e in es;
      FrozenIsFinal(Next(m, es[0]), es[1..]);
    }
  }

  lemma {:induction false} LatchedOnce(m: Monitor, es: seq<Event>)
    requires Sound(m) && CanRun(m, es) && Run(m, es).outcome.status == Ready
    ensures (m.outcome.status == Ready && Reset !in es) || exists k :: LatchedBy(m, es, k)
    decreases |es|
  {
    if es != [] {
      var n, t := Next(m, es[0]), es[1..];
      SplitsFirst(m, es);
      LatchedOnce(n, t);
      if n.outcome.status == Ready && Reset !in t {
        if m.outcome.status == NotReady {
          LatchedByFirst(m, es, n, t);
        } else if es[0] != Reset {
          LatchedStays(m, es[0]);
          assert forall e :: e in es ==> e == es[0] || e in t;
        }
      } else {
        var k :| LatchedBy(n, t, k);
        LatchedByLater(m, es, n, t, k);
      }
    }
  }

  /** In every run a ready result was right by the survivors of the moment it was latched in, and is unchanged since. */
  lemma ReadyWasRight(config: Config, es: seq<Event>)
    requires Sound(Start(config)) && CanRun(Start(config), es) && Run(Start(config), es).outcome.status == Ready
    ensures exists k :: LatchedBy(Start(config), es, k)
  {
    LatchedOnce(Start(config), es);
  }

  // ------------------------------------------------------- told exactly of a ready result

  predicate SomeCounted(ps: Players) {
    exists id :: id in ps && Counted(ps[id])
  }

  /** While a started game is open somebody is counted, and of a void result nobody is told. */
  ghost predicate Tells(m: Monitor) {
    && (m.outcome.status == NotReady && m.started ==> SomeCounted(m.frozen))
    && (m.outcome.status == Void ==> m.endings == [])
  }

  lemma ResultsExist(ps: Players, w: nat, names: map<string, string>)
    requires SomeCounted(ps)
    ensures Results(ps, w, names) != []
  {
    var id :| id in ps && Counted(ps[id]);
    ResultsExact(ps, w, names, Entry(ps[id], w, names));
  }

  lemma LatchTells(m: Monitor, winner: int)
    requires Sound(m) && Tells(m) && m.started
    ensures Tells(Latch(m, winner))
  {
    if m.outcome.status == NotReady && winner >= 0 {
      ResultsExist(m.frozen, winner, m.realNames);
    }
  }

  lemma ConcludeTells(m: Monitor)
    requires Sound(m) && Tells(m)
    ensures Tells(Conclude(m)) && Tells(ConcludeDraw(m)) && Tells(ConcludeDeath(m))
  {
    if Check(m).Over? {
      LatchTells(m, Check(m).winner);
    }
  }

  lemma RealignedTells(m: Monitor, ps: Players)
    requires Sound(m) && Tells(m) && Known(ps) && ps.Keys == m.players.Keys
    requires ActivePlayers(ps) <= ActivePlayers(m.players)
    ensures Keyed(m) && Tells(Realigned(m, ps))
  {
    UpdatedKeeps(ps);
    PlayersKeep(m, Updated(ps));
    ConcludeTells(m.(players := Updated(ps)));
  }

  lemma AlliancesTell(m: Monitor, a: nat, b: nat, allied: bool)
    requires Sound(m) && Tells(m)
    ensures Tells(Allied(m, a, b, allied)) && Tells(ChatAllied(m, a, b, allied))
  {
    if a in m.players && b in m.players {
      WithAllianceIsClosed(m.players, a, b, allied);
      RealignedTells(m, WithAlliance(m.players, a, b, allied));
    }
  }

  lemma PickTells(m: Monitor, source: nat, team: nat)
    requires Sound(m) && Tells(m)
    ensures Tells(Picked(m, source, team))
  {
    if source in m.players {
      WithPickIsClosed(m.players, source, team);
      assert ActivePlayers(WithPick(m.players, source, team)) == ActivePlayers(m.players);
      RealignedTells(m, WithPick(m.players, source, team));
    }
  }

  lemma DeathTells(m: Monitor, id: nat)
    requires Sound(m) && Tells(m) && id in m.players
    ensures Keyed(m)
    ensures Tells(Conclude(m.(players := Killed(m.players, id)))) && Tells(ConcludeDeath(m.(players := Killed(m.players, id))))
  {
    KilledKeeps(m, id);
    ConcludeTells(m.(players := Killed(m.players, id)));
  }

  /** A game that is not over at the freeze has a survivor, who is counted. */
  lemma OpenIsCounted(m: Monitor)
    requires Sound(m) && !m.started && ActivePlayers(m.players) != {}
    ensures SomeCounted(m.players)
  {
    var id :| id in ActivePlayers(m.players);
    assert Counted(m.players[id]);
  }

  lemma BegunTells(m: Monitor, tick: nat)
    requires Sound(m) && Tells(m)
    ensures Tells(Begun(m, tick))
  {
    if !m.started && ActivePlayers(m.players) != {} {
      OpenIsCounted(m);
    }
  }

  lemma TickTells(m: Monitor, source: nat, tick: nat)
    requires Sound(m) && Tells(m) && tick < U32
    ensures Tells(OnTick(m, source, tick))
  {
    if source in m.players {
      BegunTells(m, tick);
      AdvancedKeeps(m, source, tick);
      ConcludeTells(Advanced(m, source, tick));
    }
  }

  lemma NextTells(m: Monitor, e: Event)
    requires Sound(m) && Enabled(m, e) && Tells(m)
    ensures Tells(Next(m, e))
  {
    match e
    case Leave(_) => ConcludeTells(m);
    case ChatAlliance(a, b, allied) => AlliancesTell(m, a, b, allied);
    case Alliance(a, b, allied) => AlliancesTell(m, a, b, allied);
    case Pick(source, team) => PickTells(m, source, team);
    case UnitDied(source, _) => if source in m.players { DeathTells(m, source); }
    case Reject(_, id) => if id in m.players { DeathTells(m, id); }
    case Tick(source, tick) => TickTells(m, source, tick);
    case _ =>
  }

  lemma {:induction false} RunTells(m: Monitor, es: seq<Event>)
    requires Sound(m) && CanRun(m, es) && Tells(m)
    ensures Tells(Run(m, es))
    decreases |es|
  {
    if es != [] {
      NextKeeps(m, es[0]);
      NextTells(m, es[0]);
      RunTells(Next(m, es[0]), es[1..]);
    }
  }

  /** In every run the handler has been told since the last reset if and only if the result is ready: once, of that result. */
  lemma ToldExactly(config: Config, es: seq<Event>)
    requires Sound(Start(config)) && CanRun(Start(config), es)
    ensures var r := Run(Start(config), es);
      r.endings == if r.outcome.status == Ready then [r.outcome.results] else []
  {
    RunTells(Start(config), es);
  }

  // ------------------------------------------------------- each army once

  /** Armies are numbered in the order of their players' ids. */
  ghost predicate Ordered(ps: Players) {
    forall a, b :: a in ps && b in ps && a < b && ps[a].army > 0 && ps[b].army > 0 ==> ps[a].army < ps[b].army
  }

  lemma {:induction false} FewerAreLess(small: set<nat>, large: set<nat>, x: nat)
    requires small <= large && x in large && x !in small
    ensures |small| < |large|
  {
    assert large == small + (large - small);
    assert x in large - small;
  }

  lemma RanksAscend(ps: Players, a: nat, b: nat)
    requires a < b && b in ps && Live(ps[b])
    ensures |LiveUpTo(ps, a)| < |LiveUpTo(ps, b)|
  {
    FewerAreLess(LiveUpTo(ps, a), LiveUpTo(ps, b), b);
  }

  lemma WellNumberedIsOrdered(qs: Players, teamCount: nat)
    requires WellNumbered(qs, teamCount)
    ensures Ordered(qs)
  {
    forall a, b | a in qs && b in qs && a < b && qs[a].army > 0 && qs[b].army > 0
      ensures qs[a].army < qs[b].army
    {
      RanksAscend(qs, a, b);
    }
  }

  lemma NumberedIsOrdered(ps: Players)
    requires Closed(ps)
    ensures Ordered(Updated(ps))
  {
    NumberedIsRight(ps);
    WellNumberedIsOrdered(Updated(ps), Numbered(ps).teamCount);
  }

  lemma SameArmiesOrdered(ps: Players, qs: Players)
    requires Ordered(ps) && qs.Keys == ps.Keys && forall id :: id in ps ==> qs[id].army == ps[id].army
    ensures Ordered(qs)
  {
  }

  /** The armies are in order, and those of the frozen players too. */
  ghost predicate Ranked(m: Monitor) {
    Ordered(m.players) && (m.started ==> Ordered(m.frozen))
  }

  lemma KilledIsRanked(m: Monitor, id: nat)
    requires Keyed(m) && Ranked(m) && id in m.players
    ensures Ranked(Conclude(m.(players := Killed(m.players, id))))
    ensures Ranked(ConcludeDeath(m.(players := Killed(m.players, id))))
  {
    SameArmiesOrdered(m.players, Killed(m.players, id));
    OutcomeDoesNotMatter(m.(players := Killed(m.players, id)));
  }

  lemma RealignedIsRanked(m: Monitor, ps: Players)
    requires Keyed(m) && Ranked(m) && Closed(ps) && ps.Keys == m.players.Keys
    ensures Ranked(Realigned(m, ps))
  {
    NumberedIsOrdered(ps);
    NumberedIsRight(ps);
    OutcomeDoesNotMatter(m.(players := Updated(ps)));
  }

  lemma AlliancesAreRanked(m: Monitor, a: nat, b: nat, allied: bool)
    requires Keyed(m) && Ranked(m)
    ensures Ranked(Allied(m, a, b, allied)) && Ranked(ChatAllied(m, a, b, allied))
  {
    if a in m.players && b in m.players {
      WithAllianceIsClosed(m.players, a, b, allied);
      RealignedIsRanked(m, WithAlliance(m.players, a, b, allied));
    }
  }

  lemma PickedIsRanked(m: Monitor, source: nat, team: nat)
    requires Keyed(m) && Ranked(m)
    ensures Ranked(Picked(m, source, team))
  {
    if source in m.players {
      WithPickIsClosed(m.players, source, team);
      SameArmiesOrdered(m.players, WithPick(m.players, source, team));
      RealignedIsRanked(m, WithPick(m.players, source, team));
    }
  }

  lemma DroppedIsRanked(m: Monitor, id: nat)
    requires Keyed(m) && Ranked(m)
    ensures Ranked(Dropped(m, id))
  {
    WithoutIsClosed(m.players, id);
    NumberedIsOrdered(Without(m.players, id));
  }

  lemma WithStatusIsRanked(m: Monitor, id: nat, slot: int, side: int, isWatcher: bool, isAI: bool)
    requires Keyed(m) && Ordered(m.players) && id in m.players
    ensures Ordered(WithStatus(m, id, slot, side, isWatcher, isAI))
  {
    var p := m.players[id].(isAI := isAI, slot := slot);
    NumberedIsOrdered(m.players[id := p.(side := side, isWatcher := isWatcher)]);
    SameArmiesOrdered(m.players, m.players[id := p]);
  }

  lemma ReportedIsRanked(
    m: Monitor, id: nat, mapName: string, maxUnits: nat, slot: int, side: int, isWatcher: bool, isAI: bool)
    requires Keyed(m) && Ranked(m)
    ensures Ranked(Reported(m, id, mapName, maxUnits, slot, side, isWatcher, isAI))
  {
    if id in m.players && !m.started {
      WithStatusIsRanked(m, id, slot, side, isWatcher, isAI);
    }
  }

  lemma JoinedIsRanked(m: Monitor, id: nat, name: string)
    requires Keyed(m) && Ranked(m) && (Throws(m, id, name) ==> id in m.players)
    ensures Ranked(Joined(m, id, name))
  {
    if Enters(m, id, name) {
      EnteredIsClosed(m.players, id, name);
      if Throws(m, id, name) {
        SameArmiesOrdered(m.players, Entered(m.players, id, name));
      } else {
        NumberedIsOrdered(Entered(m.players, id, name));
      }
    }
  }

  lemma BegunIsRanked(m: Monitor, tick: nat)
    requires Keyed(m) && Ranked(m)
    ensures Ranked(Begun(m, tick))
  {
  }

  lemma TickIsRanked(m: Monitor, source: nat, tick: nat)
    requires Sound(m) && Ranked(m) && tick < U32
    ensures Ranked(OnTick(m, source, tick))
  {
    if source in m.players {
      var n := Advanced(m, source, tick);
      BegunIsRanked(m, tick);
      SameArmiesOrdered(m.players, Ticked(m.players, source, tick));
      AdvancedKeeps(m, source, tick);
      OutcomeDoesNotMatter(n);
    }
  }

  lemma LosingIsRanked(m: Monitor, id: nat)
    requires Keyed(m) && Ranked(m)
    ensures Ranked(Left(m, id)) && forall source :: Ranked(Rejected(m, source, id))
  {
    OutcomeDoesNotMatter(m);
    DroppedIsRanked(m, id);
    if id in m.players { KilledIsRanked(m, id); }
  }

  /** The events of a lobby, some of which a running game has too. */
  predicate IsOfLobby(e: Event) {
    e.Join? || e.Leave? || e.StatusReport? || e.ChatAlliance? || e.Alliance? || e.Pick? || e.Reject?
  }

  lemma LobbyIsRanked(m: Monitor, e: Event)
    requires Sound(m) && Enabled(m, e) && Ranked(m) && IsOfLobby(e)
    ensures Ranked(Next(m, e))
  {
    match e
    case Join(id, name) => JoinedIsRanked(m, id, name);
    case Leave(id) => LosingIsRanked(m, id);
    case StatusReport(id, mapName, maxUnits, slot, side, isWatcher, isAI) =>
      ReportedIsRanked(m, id, mapName, maxUnits, slot, side, isWatcher, isAI);
    case ChatAlliance(a, b, allied) => AlliancesAreRanked(m, a, b, allied);
    case Alliance(a, b, allied) => AlliancesAreRanked(m, a, b, allied);
    case Pick(source, team) => PickedIsRanked(m, source, team);
    case Reject(_, id) => LosingIsRanked(m, id);
  }

  lemma NextIsRanked(m: Monitor, e: Event)
    requires Sound(m) && Enabled(m, e) && Ranked(m)
    ensures Ranked(Next(m, e))
  {
    if IsOfLobby(e) {
      LobbyIsRanked(m, e);
    } else {
      match e
      case UnitDied(source, _) => if source in m.players { KilledIsRanked(m, source); }
      case Tick(source, tick) => TickIsRanked(m, source, tick);
      case RealNameGiven(_, _) =>
      case Reset =>
    }
  }

  lemma {:induction false} RunIsRanked(m: Monitor, es: seq<Event>)
    requires Sound(m) && CanRun(m, es) && Ranked(m)
    ensures Ranked(Run(m, es))
    decreases |es|
  {
    if es != [] {
      NextKeeps(m, es[0]);
      NextIsRanked(m, es[0]);
      RunIsRanked(Next(m, es[0]), es[1..]);
    }
  }

  function CountedAmong(ps: Players, ids: seq<nat>): set<nat>
    requires forall id :: id in ids ==> id in ps
  {
    set id | id in ids && Counted(ps[id])
  }

  lemma CountedSnoc(ps: Players, ids: seq<nat>, last: nat)
    requires (forall id :: id in ids + [last] ==> id in ps) && last !in ids
    ensures forall id :: id in ids ==> id in ps
    ensures |CountedAmong(ps, ids + [last])| == |CountedAmong(ps, ids)| + if Counted(ps[last]) then 1 else 0
  {
    assert last in ids + [last];
    assert forall id :: id in ids + [last] <==> id in ids || id == last;
    assert CountedAmong(ps, ids + [last]) == CountedAmong(ps, ids) + if Counted(ps[last]) then {last} else {};
  }

  /** No army is listed twice. */
  lemma {:induction false} EntriesCount(ps: Players, ids: seq<nat>, w: nat, names: map<string, string>)
    requires (forall id :: id in ids ==> id in ps) && Ascending(ids)
    ensures |Entries(ps, ids, w, names)| == |CountedAmong(ps, ids)|
    decreases |ids|
  {
    if ids != [] {
      var last, rest := ids[|ids| - 1], ids[..|ids| - 1];
      EntriesCount(ps, rest, w, names);
      assert ids == rest + [last];
      CountedSnoc(ps, rest, last);
    } else {
      assert CountedAmong(ps, ids) == {};
    }
  }

  ghost predicate ArmiesAscend(rs: seq<ArmyResult>) {
    forall i, j :: 0 <= i < j < |rs| ==> rs[i].army < rs[j].army
  }

  lemma {:induction false} EntriesAscend(ps: Players, ids: seq<nat>, w: nat, names: map<string, string>)
    requires (forall id :: id in ids ==> id in ps) && Ascending(ids) && Ordered(ps)
    ensures ArmiesAscend(Entries(ps, ids, w, names))
    decreases |ids|
  {
    if ids != [] {
      var last, rest := ids[|ids| - 1], ids[..|ids| - 1];
      EntriesAscend(ps, rest, w, names);
      if Counted(ps[last]) {
        var rs := Entries(ps, rest, w, names);
        forall i | 0 <= i < |rs|
          ensures rs[i].army < ps[last].army
        {
          EntriesExact(ps, rest, w, names, rs[i]);
          var id :| id in rest && Counted(ps[id]) && rs[i] == Entry(ps[id], w, names);
          assert id < last;
        }
      }
    }
  }

  lemma ResultsListOnce(m: Monitor)
    requires Sound(m) && Ordered(m.frozen) && m.outcome.status == Ready
    ensures |m.outcome.results| == |set id | id in m.frozen && Counted(m.frozen[id])|
    ensures ArmiesAscend(m.outcome.results)
  {
    var w, names :| Backed(m, w, names);
    var ids := Sorted(m.frozen.Keys);
    SortedAscends(m.frozen.Keys);
    EntriesCount(m.frozen, ids, w, names);
    EntriesAscend(m.frozen, ids, w, names);
    assert CountedAmong(m.frozen, ids) == set id | id in m.frozen && Counted(m.frozen[id]);
  }

  /** In every run a ready result lists each army that was counted at the freeze exactly once, in ascending order. */
  lemma OneEntryEach(config: Config, es: seq<Event>)
    requires Sound(Start(config)) && CanRun(Start(config), es)
    requires Run(Start(config), es).outcome.status == Ready
    ensures var m := Run(Start(config), es);
      && |m.outcome.results| == |set id | id in m.frozen && Counted(m.frozen[id])|
      && ArmiesAscend(m.outcome.results)
  {
    RunIsRanked(Start(config), es);
    ResultsListOnce(Run(Start(config), es));
  }
}
