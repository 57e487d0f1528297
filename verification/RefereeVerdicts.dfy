/** What the survivors decide: after each event of an open game its outcome follows from who is left. */
module RefereeVerdicts {
  import opened Bytes
  import opened Teams
  import opened Referee
  import opened RefereeRuns
  import opened RefereeResults
  import opened RefereeEffects

  // ------------------------------------------------------- an open game

  predicate IsWin(v: Verdict) {
    v.Over? && v.winner > 0
  }

  /** No verdict has been missed: a started game without a result is undecided, or its win has an end tick. */
  ghost predicate Open(m: Monitor)
    requires Keyed(m)
  {
    m.started && m.outcome.status == NotReady ==>
      Check(m) == Going || (IsWin(Check(m)) && m.outcome.endTick > 0)
  }

  /** The outcome is what the verdict asks for; a win may have to wait for its end tick. */
  ghost predicate Settled(n: Monitor, atOnce: bool)
    requires Keyed(n)
  {
    match Check(n)
    case Going => n.outcome.status == NotReady
    case Over(w) =>
      if w < 0 then n.outcome == Outcome(Void, [], MostRecent(n.players))
      else if w > 0 && !atOnce then n.outcome.status == NotReady && n.outcome.endTick > 0
      else
        && n.outcome.results == Results(n.frozen, w, n.realNames)
        && n.outcome.status == (if n.outcome.results == [] then Void else Ready)
        && n.outcome.endTick == MostRecent(n.players)
  }

  lemma SettledIsOpen(n: Monitor, atOnce: bool)
    requires Keyed(n) && Settled(n, atOnce)
    ensures Open(n)
  {
  }

  lemma OutcomeLeavesVerdict(m: Monitor, n: Monitor)
    requires Keyed(m) && SameButOutcome(m, n)
    ensures Keyed(n) && Check(n) == Check(m)
  {
  }

  lemma ConcludedIsSettled(m: Monitor)
    requires Keyed(m) && m.outcome.status == NotReady
    ensures Keyed(Conclude(m)) && Settled(Conclude(m), true)
    ensures Keyed(ConcludeDeath(m)) && Settled(ConcludeDeath(m), false)
  {
    VerdictLeaves(m);
    OutcomeLeavesVerdict(m, Conclude(m));
    OutcomeLeavesVerdict(m, ConcludeDeath(m));
  }

  lemma DrawnIsSettled(m: Monitor)
    requires Keyed(m) && m.outcome.status == NotReady && Check(m) != Over(0)
    requires IsWin(Check(m)) ==> m.outcome.endTick > 0
    ensures Keyed(ConcludeDraw(m)) && Settled(ConcludeDraw(m), false)
  {
    VerdictLeaves(m);
    OutcomeLeavesVerdict(m, ConcludeDraw(m));
  }

  /** The same survivors of the same frozen teams: a win or an end stays what it is. */
  lemma SameSurvivorsWin(m: Monitor, n: Monitor)
    requires Keyed(m) && Keyed(n) && m.started && n.started && n.frozen == m.frozen
    requires ActivePlayers(n.players) == ActivePlayers(m.players)
    ensures Check(n).Over? && Check(n).winner >= 0 ==> Check(n) == Check(m)
  {
  }

  /** A game that is under way, has no result, and has not missed one. */
  ghost predicate Playing(m: Monitor) {
    Sound(m) && Open(m) && m.started && m.outcome.status == NotReady
  }

  lemma PlayingIsSettled(m: Monitor)
    requires Playing(m)
    ensures Settled(m, false)
  {
    CheckMeans(m);
  }

  /** `n` is well kept, and settled. */
  ghost predicate SettledTo(n: Monitor, atOnce: bool) {
    Keyed(n) && Settled(n, atOnce)
  }

  lemma RealignedIsSettled(m: Monitor, ps: Players)
    requires Playing(m) && Known(ps) && ps.Keys == m.players.Keys && ActivePlayers(ps) == ActivePlayers(m.players)
    ensures SettledTo(Realigned(m, ps), false)
  {
    UpdatedKeeps(ps);
    var n := m.(players := Updated(ps));
    SameSurvivorsWin(m, n);
    DrawnIsSettled(n);
  }

  // ------------------------------------------------------- every event

  /** The event gives a win at once: nobody may be left to send ticks, or the end tick has come. */
  predicate Concludes(m: Monitor, e: Event)
    requires Keyed(m)
  {
    match e
    case Leave(id) => id != 0 && id in m.players
    case Reject(source, rejected) => source in m.players && rejected in m.players
    case Tick(source, tick) => source in m.players && EndReached(Advanced(m, source, tick))
    case _ => false
  }

  lemma WithAllianceIsAlive(ps: Players, a: nat, b: nat, allied: bool)
    requires Known(ps) && a in ps && b in ps
    ensures Known(WithAlliance(ps, a, b, allied)) && ActivePlayers(WithAlliance(ps, a, b, allied)) == ActivePlayers(ps)
  {
    WithAllianceIsClosed(ps, a, b, allied);
  }

  lemma AlignedIsSettled(m: Monitor, a: nat, b: nat, allied: bool)
    requires Playing(m) && a in m.players && b in m.players
    ensures var ps := WithAlliance(m.players, a, b, allied);
      Closed(ps) && ps.Keys == m.players.Keys && SettledTo(Realigned(m, ps), false)
  {
    WithAllianceIsClosed(m.players, a, b, allied);
    WithAllianceIsAlive(m.players, a, b, allied);
    RealignedIsSettled(m, WithAlliance(m.players, a, b, allied));
  }

  lemma ChatSettles(m: Monitor, a: nat, b: nat, allied: bool)
    requires Playing(m)
    ensures SettledTo(ChatAllied(m, a, b, allied), false)
  {
    PlayingIsSettled(m);
    if a in m.players && b in m.players { AlignedIsSettled(m, a, b, allied); }
  }

  lemma AllianceSettles(m: Monitor, a: nat, b: nat, allied: bool)
    requires Playing(m)
    ensures SettledTo(Allied(m, a, b, allied), false)
  {
    PlayingIsSettled(m);
    if a in m.players && b in m.players { AlignedIsSettled(m, a, b, allied); }
  }

  lemma WithPickIsAlive(ps: Players, source: nat, team: nat)
    requires Known(ps) && source in ps
    ensures Known(WithPick(ps, source, team)) && ActivePlayers(WithPick(ps, source, team)) == ActivePlayers(ps)
    ensures SameTeams(ps, WithPick(ps, source, team))
  {
    WithPickIsClosed(ps, source, team);
  }

  /** Changes that have nothing to do with teams or lives leave the game as settled as it was. */
  lemma SameTeamsSettled(m: Monitor, ps: Players)
    requires Playing(m) && Closed(ps) && SameTeams(m.players, ps)
    ensures SettledTo(m.(players := ps), false)
  {
    PlayingIsSettled(m);
    CheckByTeams(m, m.(players := ps));
  }

  lemma PickSettles(m: Monitor, source: nat, team: nat)
    requires Playing(m)
    ensures SettledTo(Picked(m, source, team), false)
  {
    PlayingIsSettled(m);
    if source in m.players {
      WithPickIsClosed(m.players, source, team);
      WithPickIsAlive(m.players, source, team);
      SameTeamsSettled(m, WithPick(m.players, source, team));
      RealignedIsSettled(m, WithPick(m.players, source, team));
    }
  }

  lemma DeathSettles(m: Monitor, id: nat)
    requires Playing(m) && id in m.players
    ensures Keyed(m)
    ensures var n := m.(players := Killed(m.players, id)); Keyed(n) && SettledTo(Conclude(n), true) && SettledTo(ConcludeDeath(n), false)
  {
    ConcludedIsSettled(m.(players := Killed(m.players, id)));
  }

  lemma AdvancedIsSettled(m: Monitor, source: nat, tick: nat)
    requires Playing(m) && source in m.players && tick < U32
    ensures var n := Advanced(m, source, tick); SettledTo(n, false) && n.outcome == m.outcome
  {
    var ps := Ticked(m.players, source, tick);
    assert Advanced(m, source, tick) == m.(launched := true, players := ps);
    SameTeamsSettled(m, ps);
    var n := m.(players := ps);
    assert Check(n.(launched := true)) == Check(n);
  }

  /** A known player's tick ends with the verdict on the advanced state, if that has reached the end tick. */
  lemma TickEnds(m: Monitor, source: nat, tick: nat, n: Monitor)
    requires Keyed(m) && source in m.players && n == Advanced(m, source, tick) && SettledTo(n, false)
    requires n.outcome.status == NotReady
    ensures SettledTo(OnTick(m, source, tick), EndReached(n))
  {
    ConcludedIsSettled(n);
  }

  lemma TickSettles(m: Monitor, source: nat, tick: nat)
    requires Playing(m) && tick < U32
    ensures SettledTo(OnTick(m, source, tick), Concludes(m, Tick(source, tick)))
  {
    PlayingIsSettled(m);
    if source in m.players {
      AdvancedIsSettled(m, source, tick);
      TickEnds(m, source, tick, Advanced(m, source, tick));
    }
  }

  lemma IdleRejection(m: Monitor, source: nat, rejected: nat)
    requires Keyed(m) && (source !in m.players || rejected !in m.players)
    ensures Rejected(m, source, rejected) == m && !Concludes(m, Reject(source, rejected))
  {
  }

  lemma KnownRejection(m: Monitor, source: nat, rejected: nat)
    requires Keyed(m) && m.started && source in m.players && rejected in m.players
    ensures var n := m.(players := Killed(m.players, rejected)); Keyed(n) && Rejected(m, source, rejected) == Conclude(n)
    ensures Concludes(m, Reject(source, rejected))
  {
  }

  lemma RejectionSettles(m: Monitor, source: nat, rejected: nat)
    requires Playing(m)
    ensures SettledTo(Rejected(m, source, rejected), Concludes(m, Reject(source, rejected)))
  {
    PlayingIsSettled(m);
    if source in m.players && rejected in m.players {
      DeathSettles(m, rejected);
      KnownRejection(m, source, rejected);
    } else {
      IdleRejection(m, source, rejected);
    }
  }

  lemma UnitDeathSettles(m: Monitor, e: Event)
    requires Playing(m) && Enabled(m, e) && e.UnitDied?
    ensures SettledTo(CommanderDied(m, e.source, e.unitId), false)
  {
    PlayingIsSettled(m);
    if e.source in m.players { DeathSettles(m, e.source); }
  }

  lemma LeavingSettles(m: Monitor, e: Event)
    requires Playing(m) && e.Leave?
    ensures SettledTo(Left(m, e.id), Concludes(m, e))
  {
    PlayingIsSettled(m);
    ConcludedIsSettled(m);
  }

  lemma NamesDoNotSettle(m: Monitor, names: map<string, string>)
    requires Playing(m)
    ensures SettledTo(m.(realNames := names), false)
  {
    PlayingIsSettled(m);
  }

  lemma LobbyIsOver(m: Monitor, e: Event)
    requires Playing(m) && (e.Join? || e.StatusReport?)
    ensures SettledTo(Next(m, e), false) && Next(m, e) == m
  {
    PlayingIsSettled(m);
  }

  /** After every event of a game under way the outcome is settled by the survivors that the event leaves. */
  lemma NextIsSettled(m: Monitor, e: Event)
    requires Playing(m) && Enabled(m, e) && e != Reset
    ensures SettledTo(Next(m, e), Concludes(m, e))
  {
    if e.Tick? {
      TickSettles(m, e.source, e.tick);
    } else if e.Leave? {
      LeavingSettles(m, e);
    } else if e.UnitDied? {
      UnitDeathSettles(m, e);
    } else if e.Reject? {
      RejectionSettles(m, e.source, e.rejected);
    } else if e.ChatAlliance? {
      ChatSettles(m, e.source, e.other, e.allied);
    } else if e.Alliance? {
      AllianceSettles(m, e.subject, e.target, e.allied);
    } else if e.Pick? {
      PickSettles(m, e.source, e.team);
    } else if e.RealNameGiven? {
      NamesDoNotSettle(m, m.realNames[e.name := e.realName]);
    } else {
      LobbyIsOver(m, e);
    }
  }

  // ------------------------------------------------------- what the players see

  /** All survivors, of whom there are some, belong to one team now, though they did not when the teams froze. */
  ghost predicate Agreed(m: Monitor) {
    ActivePlayers(m.players) != {} && !Decided(m) && OneTeam(ActivePlayers(m.players), m.players)
  }

  /** A team of which there are survivors, and no others, has won. */
  ghost predicate WonByTeam(m: Monitor) {
    exists w :: w >= 2 && OnlyTeam(m, w) && WonBy(m.outcome.results, w)
  }

  /** Each entry has the real name known for its alias, if any. */
  predicate Named(m: Monitor) {
    forall r :: r in m.outcome.results ==> r.realName == if r.alias in m.realNames then m.realNames[r.alias] else ""
  }

  /** A result that can be told, latched at the most recent tick. */
  ghost predicate Latched(m: Monitor) {
    m.outcome.status == Ready && Named(m) && m.outcome.endTick == MostRecent(m.players)
  }

  /** The outcome as the survivors decide it. */
  ghost predicate DecidedBySurvivors(n: Monitor, atOnce: bool) {
    if ActivePlayers(n.players) == {} then Latched(n) && AllDraw(n.outcome.results)
    else if Decided(n) then
      if atOnce then Latched(n) && WonByTeam(n)
      else n.outcome.status == NotReady && n.outcome.endTick > 0
    else if Agreed(n) then n.outcome == Outcome(Void, [], MostRecent(n.players))
    else n.outcome.status == NotReady
  }

  lemma AgreedMeans(n: Monitor)
    requires Sound(n) && n.started
    ensures Agreed(n) <==> Check(n) == Over(-1)
    ensures Check(n) == Going <==> ActivePlayers(n.players) != {} && !Decided(n) && !Agreed(n)
  {
    CheckMeans(n);
    if ActivePlayers(n.players) != {} { OneTeamMeans(n); }
  }

  lemma SettledByResults(n: Monitor, w: nat)
    requires Sound(n) && n.started && SomeCounted(n.frozen) && Check(n) == Over(w)
    requires n.outcome.results == Results(n.frozen, w, n.realNames)
    ensures n.outcome.results != []
    ensures (if w == 0 then AllDraw(n.outcome.results) else WonByTeam(n)) && Named(n)
  {
    forall r | r in n.outcome.results
      ensures r.realName == if r.alias in n.realNames then n.realNames[r.alias] else ""
    {
      ResultsExact(n.frozen, w, n.realNames, r);
    }
    CheckMeans(n);
    ResultsExist(n.frozen, w, n.realNames);
    ResultsScore(n.frozen, w, n.realNames);
  }

  lemma SettledBySurvivors(n: Monitor, atOnce: bool)
    requires Sound(n) && n.started && SomeCounted(n.frozen) && Settled(n, atOnce)
    ensures DecidedBySurvivors(n, atOnce)
  {
    CheckMeans(n);
    AgreedMeans(n);
    if Check(n).Over? && (Check(n).winner == 0 || (Check(n).winner > 0 && atOnce)) {
      SettledByResults(n, Check(n).winner);
    }
  }

  /**
   * After any event of a game under way the survivors decide the outcome: nobody left is a draw, one team left
   * wins, at once or by its end tick, one team agreed on since makes the game void, and anything else goes on.
   */
  lemma SurvivorsDecide(m: Monitor, e: Event)
    requires Playing(m) && SomeCounted(m.frozen) && Enabled(m, e) && e != Reset
    ensures DecidedBySurvivors(Next(m, e), Concludes(m, e))
  {
    NextKeeps(m, e);
    NextIsSettled(m, e);
    MonitorExactly(m, e);
    SettledBySurvivors(Next(m, e), Concludes(m, e));
  }

  lemma RejectedPlayers(m: Monitor, source: nat, rejected: nat)
    requires Keyed(m) && m.started && source in m.players && rejected in m.players
    ensures Rejected(m, source, rejected).players == m.players[rejected := m.players[rejected].(isDead := true)]
  {
    VerdictLeaves(m.(players := Killed(m.players, rejected)));
  }

  /** A rejection takes out the one who is rejected and nobody else, and gives what is won by it at once. */
  lemma RejectionDecides(m: Monitor, source: nat, rejected: nat)
    requires Playing(m) && SomeCounted(m.frozen) && source in m.players && rejected in m.players
    ensures var n := Rejected(m, source, rejected);
      && ActivePlayers(n.players) == ActivePlayers(m.players) - {rejected}
      && n.players == m.players[rejected := m.players[rejected].(isDead := true)]
      && DecidedBySurvivors(n, true)
  {
    SurvivorsDecide(m, Reject(source, rejected));
    RejectedPlayers(m, source, rejected);
    KilledLeaves(m.players, rejected);
  }

  // ------------------------------------------------------- the end tick

  /** The most recent tick has come to `t`, the two being compared by their signed difference. */
  predicate Reaches(ps: Players, t: nat) {
    (MostRecent(ps) - t) % U32 < 0x8000_0000
  }

  lemma OnTickPlayers(m: Monitor, source: nat, tick: nat)
    requires Keyed(m) && source in m.players
    ensures var n, a := OnTick(m, source, tick), Advanced(m, source, tick);
      n.players == a.players && n.frozen == a.frozen && n.started == a.started
  {
    BegunIsKeyed(m, tick);
    OutcomeDoesNotMatter(Advanced(m, source, tick));
  }

  lemma AdvancedOutcome(m: Monitor, source: nat, tick: nat)
    requires Keyed(m) && m.started && source in m.players
    ensures Advanced(m, source, tick).outcome == m.outcome
  {
  }

  lemma EndReachedMeans(n: Monitor)
    requires n.outcome.endTick > 0
    ensures EndReached(n) <==> Reaches(n.players, n.outcome.endTick)
  {
  }

  lemma TickReaches(m: Monitor, source: nat, tick: nat)
    requires Keyed(m) && m.started && source in m.players && m.outcome.endTick > 0
    ensures Concludes(m, Tick(source, tick)) <==> Reaches(OnTick(m, source, tick).players, m.outcome.endTick)
  {
    AdvancedOutcome(m, source, tick);
    OnTickPlayers(m, source, tick);
    EndReachedMeans(Advanced(m, source, tick));
  }

  lemma SameSurvivorsDecided(m: Monitor, n: Monitor)
    requires Playing(m) && m.outcome.endTick > 0 && n.started && n.frozen == m.frozen
    requires ActivePlayers(n.players) == ActivePlayers(m.players)
    ensures ActivePlayers(n.players) != {} && Decided(n)
  {
    CheckMeans(m);
    DecidedStays(m, n);
  }

  lemma TickedSurvive(ps: Players, id: nat, tick: nat)
    requires id in ps
    ensures ActivePlayers(Ticked(ps, id, tick)) == ActivePlayers(ps)
  {
  }

  lemma AdvancedPlayers(m: Monitor, source: nat, tick: nat)
    requires Keyed(m) && m.started && source in m.players
    ensures var a := Advanced(m, source, tick);
      a.started && a.frozen == m.frozen && a.players == Ticked(m.players, source, tick)
  {
  }

  lemma AliveThroughTick(m: Monitor, source: nat, tick: nat)
    requires Keyed(m) && m.started && source in m.players
    ensures var n := OnTick(m, source, tick);
      n.started && n.frozen == m.frozen && ActivePlayers(n.players) == ActivePlayers(m.players)
  {
    OnTickPlayers(m, source, tick);
    AdvancedPlayers(m, source, tick);
    TickedSurvive(m.players, source, tick);
  }

  /** A win that waits is given exactly by the first tick that brings the most recent one to the end tick. */
  lemma EndTickExactly(m: Monitor, source: nat, tick: nat)
    requires Playing(m) && SomeCounted(m.frozen) && tick < U32 && source in m.players && m.outcome.endTick > 0
    ensures var n := OnTick(m, source, tick);
      if Reaches(n.players, m.outcome.endTick) then n.outcome.status == Ready && WonByTeam(n)
      else n.outcome.status == NotReady
  {
    SurvivorsDecide(m, Tick(source, tick));
    TickReaches(m, source, tick);
    AliveThroughTick(m, source, tick);
    SameSurvivorsDecided(m, OnTick(m, source, tick));
  }

  // ------------------------------------------------------- every run

  lemma AdvancedIsOpen(m: Monitor, source: nat, tick: nat)
    requires Sound(m) && !m.started && source in m.players && tick < U32
    ensures Keyed(Advanced(m, source, tick)) && Open(Advanced(m, source, tick))
  {
    var b, n := Begun(m, tick), Advanced(m, source, tick);
    AdvancedKeeps(m, source, tick);
    BegunKeeps(m, tick);
    if n.started {
      CheckByTeams(b, n);
    }
  }

  lemma ConcludedIsOpen(n: Monitor)
    requires Keyed(n) && Open(n)
    ensures Keyed(Conclude(n)) && Open(Conclude(n))
  {
    if n.outcome.status == NotReady {
      ConcludedIsSettled(n);
    } else {
      VerdictLeaves(n);
    }
  }

  lemma BegunIsOpen(m: Monitor, source: nat, tick: nat)
    requires Sound(m) && !m.started && source in m.players && tick < U32
    ensures Keyed(OnTick(m, source, tick)) && Open(OnTick(m, source, tick))
  {
    AdvancedIsOpen(m, source, tick);
    ConcludedIsOpen(Advanced(m, source, tick));
  }

  lemma NextIsOpen(m: Monitor, e: Event)
    requires Sound(m) && Enabled(m, e) && Open(m)
    ensures Keyed(Next(m, e)) && Open(Next(m, e))
  {
    NextKeeps(m, e);
    if e == Reset {
    } else if !m.started {
      MonitorExactly(m, e);
      if e.Tick? && e.source in m.players { BegunIsOpen(m, e.source, e.tick); }
    } else if m.outcome.status == NotReady {
      NextIsSettled(m, e);
      SettledIsOpen(Next(m, e), Concludes(m, e));
    } else {
      LatchedStays(m, e);
    }
  }

  lemma {:induction false} RunIsOpen(m: Monitor, es: seq<Event>)
    requires Sound(m) && Open(m) && CanRun(m, es)
    ensures Open(Run(m, es))
    decreases |es|
  {
    if es != [] {
      NextKeeps(m, es[0]);
      NextIsOpen(m, es[0]);
      RunIsOpen(Next(m, es[0]), es[1..]);
    }
  }

  /**
   * In every run no result is missed: while a started game has none, there are survivors, they have not agreed
   * on a draw, and either they are split or the end tick of their win is set.
   */
  lemma NoneIsMissed(config: Config, es: seq<Event>)
    requires Sound(Start(config)) && CanRun(Start(config), es)
    ensures var r := Run(Start(config), es);
      r.started && r.outcome.status == NotReady ==>
        ActivePlayers(r.players) != {} && !Agreed(r) && (Decided(r) <==> r.outcome.endTick > 0)
  {
    var r := Run(Start(config), es);
    RunIsOpen(Start(config), es);
    CheckMeans(r);
    if r.started { AgreedMeans(r); }
  }

  /** In every run the survivors decide the next outcome of a game under way. */
  lemma SurvivorsDecideInRuns(config: Config, es: seq<Event>, e: Event)
    requires Sound(Start(config)) && CanRun(Start(config), es) && e != Reset
    requires var r := Run(Start(config), es); r.started && r.outcome.status == NotReady && Enabled(r, e)
    ensures var r := Run(Start(config), es); DecidedBySurvivors(Next(r, e), Concludes(r, e))
  {
    RunIsOpen(Start(config), es);
    RunTells(Start(config), es);
    SurvivorsDecide(Run(Start(config), es), e);
  }
}
