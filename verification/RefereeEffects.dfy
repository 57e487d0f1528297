/** What each event does to whom: who is there, who is dead, who is allied, and what the survivors decide. */
module RefereeEffects {
  import opened Bytes
  import opened Teams
  import opened Referee
  import opened RefereeRuns

  // ------------------------------------------------------- the players

  /** A new player turns up. */
  predicate Comes(m: Monitor, e: Event, id: nat) {
    e.Join? && e.id == id && id !in m.players && !m.started && e.name != "" && id != 0
  }

  /** A player is forgotten: it leaves or is rejected in the lobby, or all are forgotten. */
  predicate Goes(m: Monitor, e: Event, id: nat) {
    match e
    case Leave(gone) => !m.started && gone == id && id != 0
    case Reject(source, rejected) => !m.started && rejected == id && source in m.players
    case Reset => true
    case _ => false
  }

  /** A player's commander dies, or a known player says of it after the start that it is out. */
  predicate Dies(m: Monitor, e: Event, id: nat)
    requires Defined(m, e)
  {
    match e
    case UnitDied(source, unitId) => source == id && id in m.players && unitId % m.maxUnits == 1
    case Reject(source, rejected) => m.started && rejected == id && id in m.players && source in m.players
    case _ => false
  }

  /** A status of a known player in the lobby. */
  predicate Reports(m: Monitor, e: Event, id: nat) {
    e.StatusReport? && e.source == id && !m.started
  }

  /** A later tick of a player. */
  predicate TicksOn(m: Monitor, e: Event, id: nat)
    requires id in m.players
  {
    e.Tick? && e.source == id && 0 < (e.tick - m.players[id].tick) % U32 < 0x8000_0000
  }

  /** The event is about whether `a` counts `b` as an ally. */
  predicate Says(m: Monitor, e: Event, a: nat, b: nat) {
    a in m.players && b in m.players &&
    match e
    case ChatAlliance(source, other, _) => source == a && other == b && a != b
    case Alliance(subject, target, _) => subject == a && target == b
    case Pick(source, _) => (source == a) != (source == b)
    case _ => false
  }

  /** A pick allies with those who picked the same number below five. */
  predicate SaysYes(m: Monitor, e: Event, a: nat, b: nat)
    requires Says(m, e, a, b)
  {
    match e
    case ChatAlliance(_, _, allied) => allied
    case Alliance(_, _, allied) => allied
    case Pick(source, team) => team < 5 && m.players[if source == a then b else a].pick == team
  }

  /** The event leaves no more or less than this of a player that was `p`, apart from numbers and allies. */
  predicate PlayerAfter(m: Monitor, e: Event, id: nat, p: PlayerData, q: PlayerData)
    requires Defined(m, e) && (id in m.players ==> p == m.players[id])
  {
    && q.dplayid == id
    && q.name == (if e.Join? && e.id == id && Enters(m, id, e.name) then e.name else p.name)
    && q.side == (if Reports(m, e, id) then e.side else p.side)
    && q.slot == (if Reports(m, e, id) then e.slot else p.slot)
    && q.isAI == (if Reports(m, e, id) then e.isAI else p.isAI)
    && q.isWatcher == (if Reports(m, e, id) then e.isWatcher else p.isWatcher)
    && q.pick == (if e.Pick? && e.source == id then e.team else p.pick)
    && q.isDead == (p.isDead || Dies(m, e, id))
    && q.tick == (if id in m.players && TicksOn(m, e, id) then e.tick else p.tick)
  }

  /** The event leaves these players: who was there and has not gone, and who has come. */
  ghost predicate PlayersAfter(m: Monitor, e: Event, qs: Players)
    requires Defined(m, e)
  {
    && (forall id :: id in qs <==> Comes(m, e, id) || (id in m.players && !Goes(m, e, id)))
    && forall id :: id in qs ==> PlayerAfter(m, e, id, if id in m.players then m.players[id] else NEW_PLAYER, qs[id])
  }

  /** `a` counts `b` as an ally if the event says so, or if it says nothing about it and it was so before. */
  ghost predicate AlliesAfter(m: Monitor, e: Event, qs: Players) {
    forall a, b :: a in qs ==>
      (b in qs[a].allies <==>
        if Says(m, e, a, b) then SaysYes(m, e, a, b) else a in m.players && b in m.players[a].allies && b in qs)
  }

  ghost predicate EffectsRight(m: Monitor, e: Event, qs: Players)
    requires Defined(m, e)
  {
    PlayersAfter(m, e, qs) && AlliesAfter(m, e, qs)
  }

  lemma PlayersByFields(m: Monitor, e: Event, ps: Players, qs: Players)
    requires Defined(m, e) && SameButNumbers(ps, qs) && PlayersAfter(m, e, ps)
    ensures PlayersAfter(m, e, qs)
  {
    forall id | id in qs
      ensures PlayerAfter(m, e, id, if id in m.players then m.players[id] else NEW_PLAYER, qs[id])
    {
      assert PlayerAfter(m, e, id, if id in m.players then m.players[id] else NEW_PLAYER, ps[id]);
    }
  }

  lemma AlliesByFields(m: Monitor, e: Event, ps: Players, qs: Players)
    requires SameButNumbers(ps, qs) && AlliesAfter(m, e, ps)
    ensures AlliesAfter(m, e, qs)
  {
    assert forall id :: id in qs ==> qs[id].allies == ps[id].allies;
  }

  /** Renumbering has no other effect. */
  lemma UpdatedEffects(m: Monitor, e: Event, ps: Players)
    requires Defined(m, e) && Closed(ps) && EffectsRight(m, e, ps)
    ensures EffectsRight(m, e, Updated(ps))
  {
    NumberedIsRight(ps);
    PlayersByFields(m, e, ps, Updated(ps));
    AlliesByFields(m, e, ps, Updated(ps));
  }

  lemma EnteredEffects(m: Monitor, e: Event)
    requires Keyed(m) && e.Join? && Enters(m, e.id, e.name)
    ensures EffectsRight(m, e, Entered(m.players, e.id, e.name))
  {
  }

  lemma JoinEffects(m: Monitor, e: Event)
    requires Keyed(m) && e.Join?
    ensures EffectsRight(m, e, Joined(m, e.id, e.name).players)
  {
    if Enters(m, e.id, e.name) {
      EnteredIsClosed(m.players, e.id, e.name);
      EnteredEffects(m, e);
      UpdatedEffects(m, e, Entered(m.players, e.id, e.name));
    }
  }

  lemma WithoutEffects(m: Monitor, e: Event, id: nat)
    requires Keyed(m) && Defined(m, e) && id in m.players
    requires (e.Leave? && e.id == id && id != 0) || (e.Reject? && e.rejected == id && e.source in m.players)
    requires !m.started
    ensures EffectsRight(m, e, Without(m.players, id))
  {
  }

  lemma StayingEffects(m: Monitor, e: Event)
    requires Keyed(m) && e.Leave? && (m.started || e.id == 0 || e.id !in m.players)
    ensures EffectsRight(m, e, m.players)
  {
  }

  lemma LeaveEffects(m: Monitor, e: Event)
    requires Keyed(m) && e.Leave?
    ensures EffectsRight(m, e, Left(m, e.id).players)
  {
    if !m.started && e.id != 0 && e.id in m.players {
      WithoutEffects(m, e, e.id);
      WithoutIsClosed(m.players, e.id);
      UpdatedEffects(m, e, Without(m.players, e.id));
    } else {
      StayingEffects(m, e);
      if m.started { OutcomeDoesNotMatter(m); }
    }
  }

  lemma KilledEffects(m: Monitor, e: Event, id: nat)
    requires Keyed(m) && Defined(m, e) && id in m.players && Dies(m, e, id)
    requires e.UnitDied? || e.Reject?
    ensures EffectsRight(m, e, Killed(m.players, id))
  {
  }

  lemma UnitDiedEffects(m: Monitor, e: Event)
    requires Keyed(m) && Defined(m, e) && e.UnitDied?
    ensures EffectsRight(m, e, CommanderDied(m, e.source, e.unitId).players)
  {
    if e.source in m.players && e.unitId % m.maxUnits == 1 {
      KilledEffects(m, e, e.source);
      OutcomeDoesNotMatter(m.(players := Killed(m.players, e.source)));
    }
  }

  lemma RejectEffects(m: Monitor, e: Event)
    requires Keyed(m) && e.Reject?
    ensures EffectsRight(m, e, Rejected(m, e.source, e.rejected).players)
  {
    if e.source in m.players && e.rejected in m.players {
      if m.started {
        KilledEffects(m, e, e.rejected);
        OutcomeDoesNotMatter(m.(players := Killed(m.players, e.rejected)));
      } else {
        WithoutEffects(m, e, e.rejected);
        WithoutIsClosed(m.players, e.rejected);
        UpdatedEffects(m, e, Without(m.players, e.rejected));
      }
    }
  }

  function WithReport(ps: Players, e: Event): Players
    requires e.StatusReport? && e.source in ps
  {
    ps[e.source := ps[e.source].(isAI := e.isAI, slot := e.slot, side := e.side, isWatcher := e.isWatcher)]
  }

  lemma WithReportEffects(m: Monitor, e: Event)
    requires Keyed(m) && e.StatusReport? && e.source in m.players && !m.started
    ensures Closed(WithReport(m.players, e)) && EffectsRight(m, e, WithReport(m.players, e))
  {
  }

  lemma WithStatusIs(m: Monitor, e: Event)
    requires Keyed(m) && e.StatusReport? && e.source in m.players
    ensures Closed(WithReport(m.players, e))
    ensures var ps := WithStatus(m, e.source, e.slot, e.side, e.isWatcher, e.isAI);
      ps == WithReport(m.players, e) || ps == Updated(WithReport(m.players, e))
  {
    var p := m.players[e.source].(isAI := e.isAI, slot := e.slot);
    assert p.side == e.side && p.isWatcher == e.isWatcher ==> p == WithReport(m.players, e)[e.source];
  }

  lemma UnheardEffects(m: Monitor, e: Event)
    requires Keyed(m) && e.StatusReport? && (m.started || e.source !in m.players)
    ensures EffectsRight(m, e, m.players)
  {
  }

  lemma ReportEffects(m: Monitor, e: Event)
    requires Keyed(m) && e.StatusReport?
    ensures EffectsRight(
      m, e, Reported(m, e.source, e.mapName, e.maxUnits, e.slot, e.side, e.isWatcher, e.isAI).players)
  {
    if e.source in m.players && !m.started {
      WithReportEffects(m, e);
      UpdatedEffects(m, e, WithReport(m.players, e));
      WithStatusIs(m, e);
    } else {
      UnheardEffects(m, e);
    }
  }

  lemma RealignedEffects(m: Monitor, e: Event, ps: Players)
    requires Keyed(m) && Defined(m, e) && Closed(ps) && ps.Keys == m.players.Keys && EffectsRight(m, e, ps)
    ensures EffectsRight(m, e, Realigned(m, ps).players)
  {
    UpdatedEffects(m, e, ps);
    NumberedIsRight(ps);
    OutcomeDoesNotMatter(m.(players := Updated(ps)));
  }

  lemma WithAllianceEffects(m: Monitor, e: Event, a: nat, b: nat, allied: bool)
    requires Keyed(m) && a in m.players && b in m.players
    requires (e == ChatAlliance(a, b, allied) && a != b) || e == Alliance(a, b, allied)
    ensures EffectsRight(m, e, WithAlliance(m.players, a, b, allied))
  {
  }

  /** An alliance of unknown players, or of a player with itself by chat, or one that is there already. */
  lemma IdleAllianceEffects(m: Monitor, e: Event)
    requires Keyed(m)
    requires match e
      case ChatAlliance(a, b, _) => a == b || a !in m.players || b !in m.players
      case Alliance(a, b, allied) =>
        a !in m.players || b !in m.players || (b in m.players[a].allies) == allied
      case _ => false
    ensures EffectsRight(m, e, m.players)
  {
  }

  lemma ChatAllianceEffects(m: Monitor, e: Event)
    requires Keyed(m) && e.ChatAlliance?
    ensures EffectsRight(m, e, ChatAllied(m, e.source, e.other, e.allied).players)
  {
    if e.source in m.players && e.other in m.players && e.source != e.other {
      WithAllianceIsClosed(m.players, e.source, e.other, e.allied);
      WithAllianceEffects(m, e, e.source, e.other, e.allied);
      RealignedEffects(m, e, WithAlliance(m.players, e.source, e.other, e.allied));
    } else {
      IdleAllianceEffects(m, e);
    }
  }

  lemma AllianceEffects(m: Monitor, e: Event)
    requires Keyed(m) && e.Alliance?
    ensures EffectsRight(m, e, Allied(m, e.subject, e.target, e.allied).players)
  {
    if e.subject in m.players && e.target in m.players && (e.target in m.players[e.subject].allies) != e.allied {
      WithAllianceIsClosed(m.players, e.subject, e.target, e.allied);
      WithAllianceEffects(m, e, e.subject, e.target, e.allied);
      RealignedEffects(m, e, WithAlliance(m.players, e.subject, e.target, e.allied));
    } else {
      IdleAllianceEffects(m, e);
    }
  }

  lemma PickedPlayers(m: Monitor, e: Event)
    requires Keyed(m) && e.Pick? && e.source in m.players
    ensures PlayersAfter(m, e, WithPick(m.players, e.source, e.team))
  {
  }

  lemma PickedAllies(m: Monitor, e: Event)
    requires Keyed(m) && e.Pick? && e.source in m.players
    ensures AlliesAfter(m, e, WithPick(m.players, e.source, e.team))
  {
  }

  lemma WithPickEffects(m: Monitor, e: Event)
    requires Keyed(m) && e.Pick? && e.source in m.players
    ensures EffectsRight(m, e, WithPick(m.players, e.source, e.team))
  {
    PickedPlayers(m, e);
    PickedAllies(m, e);
  }

  lemma PickEffects(m: Monitor, e: Event)
    requires Keyed(m) && e.Pick?
    ensures EffectsRight(m, e, Picked(m, e.source, e.team).players)
  {
    if e.source in m.players {
      WithPickIsClosed(m.players, e.source, e.team);
      WithPickEffects(m, e);
      RealignedEffects(m, e, WithPick(m.players, e.source, e.team));
    }
  }

  lemma TickedEffects(m: Monitor, e: Event)
    requires Keyed(m) && Defined(m, e) && e.Tick? && e.source in m.players
    ensures EffectsRight(m, e, Ticked(m.players, e.source, e.tick))
  {
  }

  lemma TickEffects(m: Monitor, e: Event)
    requires Keyed(m) && Defined(m, e) && e.Tick?
    ensures EffectsRight(m, e, OnTick(m, e.source, e.tick).players)
  {
    if e.source in m.players {
      TickedEffects(m, e);
      BegunIsKeyed(m, e.tick);
      OutcomeDoesNotMatter(Advanced(m, e.source, e.tick));
    }
  }

  /** What any event does to any player, and to any pair of them; in particular, what it leaves alone. */
  lemma EffectsExactly(m: Monitor, e: Event)
    requires Keyed(m) && Defined(m, e)
    ensures EffectsRight(m, e, Next(m, e).players)
  {
    match e
    case Join(_, _) => JoinEffects(m, e);
    case Leave(_) => LeaveEffects(m, e);
    case StatusReport(_, _, _, _, _, _, _) => ReportEffects(m, e);
    case ChatAlliance(_, _, _) => ChatAllianceEffects(m, e);
    case Alliance(_, _, _) => AllianceEffects(m, e);
    case Pick(_, _) => PickEffects(m, e);
    case UnitDied(_, _) => UnitDiedEffects(m, e);
    case Reject(_, _) => RejectEffects(m, e);
    case Tick(_, _) => TickEffects(m, e);
    case RealNameGiven(_, _) =>
    case Reset =>
  }

  /** The survivors after an event. */
  lemma SurvivorsAfter(m: Monitor, e: Event, id: nat)
    requires Keyed(m) && Defined(m, e)
    ensures id in ActivePlayers(Next(m, e).players) <==>
      || Comes(m, e, id)
      || (id in m.players && !Goes(m, e, id) && !m.players[id].isDead && !Dies(m, e, id) &&
          if Reports(m, e, id) then !e.isWatcher else !m.players[id].isWatcher)
  {
    EffectsExactly(m, e);
  }

  // ------------------------------------------------------- the monitor itself

  /** The event starts the game: it is the first tick beyond the battleroom's. */
  predicate Starts(m: Monitor, e: Event) {
    e.Tick? && e.source in m.players && !m.started && e.tick > m.config.startsAfter
  }

  /** The host tells of a map that is not the one known. */
  predicate TellsMap(m: Monitor, e: Event) {
    e.StatusReport? && e.source in m.players && !m.started
    && e.source == m.hostId && e.mapName != "" && e.mapName != m.mapName && e.maxUnits > 0
  }

  /** The host's name is looked at first; without it the local player's is not looked at. */
  predicate IsHost(m: Monitor, e: Event) {
    e.Join? && Enters(m, e.id, e.name) && e.name == m.config.hostName
  }

  predicate IsLocal(m: Monitor, e: Event) {
    e.Join? && Enters(m, e.id, e.name) && e.name == m.config.localName && m.config.hostName != ""
  }

  ghost predicate MonitorAfter(m: Monitor, e: Event, n: Monitor) {
    && n.config == m.config
    && n.started == (e != Reset && (m.started || Starts(m, e)))
    && n.frozen == (if Starts(m, e) then m.players else m.frozen)
    && n.launched == (m.launched || (e.Tick? && e.source in m.players))
    && n.hostId == (if IsHost(m, e) then e.id else m.hostId)
    && n.localId == (if IsLocal(m, e) then e.id else m.localId)
    && n.mapName == (if e.Reset? then "" else if TellsMap(m, e) then e.mapName else m.mapName)
    && n.maxUnits == (if TellsMap(m, e) then e.maxUnits else m.maxUnits)
    && n.realNames == (if e.RealNameGiven? then m.realNames[e.name := e.realName] else m.realNames)
  }

  /** `n` is `m` but for the players, the outcome and who was told. */
  ghost predicate Leaves(m: Monitor, n: Monitor) {
    n == m.(players := n.players, outcome := n.outcome, endings := n.endings)
  }

  /** Reaching a verdict changes nothing but the outcome and who was told. */
  ghost predicate SameButOutcome(m: Monitor, n: Monitor) {
    n == m.(outcome := n.outcome, endings := n.endings)
  }

  lemma VerdictLeaves(m: Monitor)
    requires Keyed(m)
    ensures SameButOutcome(m, Conclude(m)) && SameButOutcome(m, ConcludeDraw(m)) && SameButOutcome(m, ConcludeDeath(m))
  {
  }

  lemma VerdictWithLeaves(m: Monitor, ps: Players)
    requires Keyed(m) && Closed(ps) && (m.started ==> ps.Keys == m.frozen.Keys)
    ensures var n := m.(players := ps); Leaves(m, Conclude(n)) && Leaves(m, ConcludeDraw(n)) && Leaves(m, ConcludeDeath(n))
  {
    VerdictLeaves(m.(players := ps));
  }

  lemma RealignedLeaves(m: Monitor, ps: Players)
    requires Keyed(m) && Closed(ps) && ps.Keys == m.players.Keys
    ensures Leaves(m, Realigned(m, ps))
  {
    NumberedIsRight(ps);
    VerdictWithLeaves(m, Updated(ps));
  }

  lemma AlliancesLeave(m: Monitor, a: nat, b: nat, allied: bool)
    requires Keyed(m)
    ensures Leaves(m, ChatAllied(m, a, b, allied)) && Leaves(m, Allied(m, a, b, allied))
  {
    if a in m.players && b in m.players {
      WithAllianceIsClosed(m.players, a, b, allied);
      RealignedLeaves(m, WithAlliance(m.players, a, b, allied));
    }
  }

  lemma PickLeaves(m: Monitor, a: nat, team: nat)
    requires Keyed(m)
    ensures Leaves(m, Picked(m, a, team))
  {
    if a in m.players {
      WithPickIsClosed(m.players, a, team);
      RealignedLeaves(m, WithPick(m.players, a, team));
    }
  }

  lemma LossLeaves(m: Monitor, e: Event)
    requires Keyed(m) && Defined(m, e) && (e.Leave? || e.UnitDied? || e.Reject?)
    ensures Leaves(m, Next(m, e))
  {
    match e
    case Leave(id) => VerdictLeaves(m);
    case UnitDied(id, _) => if id in m.players { VerdictWithLeaves(m, Killed(m.players, id)); }
    case Reject(_, id) => if id in m.players { VerdictWithLeaves(m, Killed(m.players, id)); }
  }

  lemma Unmoved(m: Monitor, e: Event, n: Monitor)
    requires Leaves(m, n)
    requires e.ChatAlliance? || e.Alliance? || e.Pick? || e.Leave? || e.UnitDied? || e.Reject?
    ensures MonitorAfter(m, e, n)
  {
  }

  lemma AdvancedLeaves(m: Monitor, e: Event)
    requires Keyed(m) && Defined(m, e) && e.Tick? && e.source in m.players
    ensures Keyed(Advanced(m, e.source, e.tick)) && MonitorAfter(m, e, Advanced(m, e.source, e.tick))
  {
    BegunIsKeyed(m, e.tick);
  }

  lemma TickLeaves(m: Monitor, e: Event)
    requires Keyed(m) && Defined(m, e) && e.Tick?
    ensures MonitorAfter(m, e, OnTick(m, e.source, e.tick))
  {
    if e.source in m.players {
      AdvancedLeaves(m, e);
      VerdictLeaves(Advanced(m, e.source, e.tick));
    }
  }

  lemma JoinLeaves(m: Monitor, e: Event)
    requires Keyed(m) && e.Join?
    ensures MonitorAfter(m, e, Joined(m, e.id, e.name))
  {
  }

  lemma ReportLeaves(m: Monitor, e: Event)
    requires Keyed(m) && e.StatusReport?
    ensures MonitorAfter(m, e, Reported(m, e.source, e.mapName, e.maxUnits, e.slot, e.side, e.isWatcher, e.isAI))
  {
  }

  /** What an event does to the rest of the monitor: the start, the freeze, the known players, the map and the names. */
  lemma MonitorExactly(m: Monitor, e: Event)
    requires Keyed(m) && Defined(m, e)
    ensures MonitorAfter(m, e, Next(m, e))
  {
    match e
    case Tick(_, _) => TickLeaves(m, e);
    case ChatAlliance(a, b, allied) => AlliancesLeave(m, a, b, allied); Unmoved(m, e, Next(m, e));
    case Alliance(a, b, allied) => AlliancesLeave(m, a, b, allied); Unmoved(m, e, Next(m, e));
    case Pick(a, team) => PickLeaves(m, a, team); Unmoved(m, e, Next(m, e));
    case Leave(_) => LossLeaves(m, e); Unmoved(m, e, Next(m, e));
    case UnitDied(_, _) => LossLeaves(m, e); Unmoved(m, e, Next(m, e));
    case Reject(_, _) => LossLeaves(m, e); Unmoved(m, e, Next(m, e));
    case Join(_, _) => JoinLeaves(m, e);
    case StatusReport(_, _, _, _, _, _, _) => ReportLeaves(m, e);
    case RealNameGiven(_, _) =>
    case Reset =>
  }

  // ------------------------------------------------------- the dead, over whole runs

  /** Some event of the run makes player `id` be forgotten. */
  ghost predicate GoesIn(m: Monitor, es: seq<Event>, id: nat)
    requires Sound(m) && CanRun(m, es)
    decreases |es|
  {
    es != [] && (Goes(m, es[0], id) || (NextKeeps(m, es[0]); GoesIn(Next(m, es[0]), es[1..], id)))
  }

  /** Some event of the run kills player `id`, who is not forgotten after it. */
  ghost predicate DiesIn(m: Monitor, es: seq<Event>, id: nat)
    requires Sound(m) && CanRun(m, es)
    decreases |es|
  {
    es != [] &&
    (NextKeeps(m, es[0]);
     (Dies(m, es[0], id) && !GoesIn(Next(m, es[0]), es[1..], id)) || DiesIn(Next(m, es[0]), es[1..], id))
  }

  lemma {:induction false} DeadInRun(m: Monitor, es: seq<Event>, id: nat)
    requires Sound(m) && CanRun(m, es) && id in Run(m, es).players
    ensures Run(m, es).players[id].isDead <==>
      (id in m.players && m.players[id].isDead && !GoesIn(m, es, id)) || DiesIn(m, es, id)
    decreases |es|
  {
    if es != [] {
      var n := Next(m, es[0]);
      NextKeeps(m, es[0]);
      EffectsExactly(m, es[0]);
      DeadInRun(n, es[1..], id);
    }
  }

  /** In every run a player is dead if and only if, since it came, its commander died or it was rejected in the game. */
  lemma DeadExactly(config: Config, es: seq<Event>, id: nat)
    requires Sound(Start(config)) && CanRun(Start(config), es) && id in Run(Start(config), es).players
    ensures Run(Start(config), es).players[id].isDead <==> DiesIn(Start(config), es, id)
  {
    DeadInRun(Start(config), es, id);
  }
}
