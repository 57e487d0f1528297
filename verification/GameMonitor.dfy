/** The referee as it is run: players and result in fields, updated by loops. */
module GameMonitor {
  import opened Bytes
  import opened Keys
  import opened Teams
  import opened Referee
  import opened RefereeRuns

  lemma SnocOf<T>(ids: seq<T>, k: nat)
    requires k < |ids|
    ensures ids[..k + 1] == ids[..k] + [ids[k]] && ids[..k + 1][..k] == ids[..k] && ids[..k + 1][k] == ids[k]
  {
  }

  lemma TailOf<T>(ids: seq<T>, k: nat)
    requires k < |ids|
    ensures ids[k..] == [ids[k]] + ids[k + 1..] && ids[k..][1..] == ids[k + 1..]
  {
  }

  /** The players with army and team numbers taken off the first ones. */
  function UnnumberedIn(ps: Players, done: seq<nat>): Players {
    map id | id in ps :: if id in done then ps[id].(army := 0, team := 0) else ps[id]
  }

  lemma UnnumberedNext(ps: Players, ids: seq<nat>, k: nat)
    requires k < |ids| && ids[k] in ps
    ensures var qs := UnnumberedIn(ps, ids[..k]);
      UnnumberedIn(ps, ids[..k + 1]) == qs[ids[k] := qs[ids[k]].(army := 0, team := 0)]
  {
    SnocOf(ids, k);
  }

  predicate GetsTeam(p: PlayerData) {
    p.team == 0 && Live(p)
  }

  function AssignedIn(ps: Players, members: seq<nat>, team: nat): Players {
    map id | id in ps :: if id in members && GetsTeam(ps[id]) then ps[id].(team := team) else ps[id]
  }

  lemma AssignedNext(ps: Players, ids: seq<nat>, k: nat, team: nat)
    requires k < |ids| && ids[k] in ps && team > 0
    ensures var qs := AssignedIn(ps, ids[..k], team);
      && (GetsTeam(qs[ids[k]]) ==> AssignedIn(ps, ids[..k + 1], team) == qs[ids[k] := qs[ids[k]].(team := team)])
      && (!GetsTeam(qs[ids[k]]) ==> AssignedIn(ps, ids[..k + 1], team) == qs)
  {
    SnocOf(ids, k);
  }

  /** After `gone` has been taken off the allies of the first players. */
  function WithoutIn(ps: Players, gone: nat, done: seq<nat>): Players {
    map id | id in ps :: if id in done then ps[id].(allies := ps[id].allies - {gone}) else ps[id]
  }

  lemma WithoutNext(ps: Players, gone: nat, ids: seq<nat>, k: nat)
    requires k < |ids| && ids[k] in ps
    ensures var qs := WithoutIn(ps, gone, ids[..k]);
      WithoutIn(ps, gone, ids[..k + 1]) == qs[ids[k] := qs[ids[k]].(allies := qs[ids[k]].allies - {gone})]
  {
    SnocOf(ids, k);
    var a := ps[ids[k]].allies;
    assert (a - {gone}) - {gone} == a - {gone};
  }

  lemma WithoutForAll(ps: Players, gone: nat)
    ensures WithoutIn(ps - {gone}, gone, Sorted((ps - {gone}).Keys)) == Without(ps, gone)
  {
  }

  predicate Befriends(ps: Players, o: nat, team: nat) {
    o in ps && team < 5 && ps[o].pick == team
  }

  /** Whether `o` is an ally of `source` once the pick has been carried to the players `done`. */
  predicate AllyNow(ps: Players, source: nat, team: nat, done: seq<nat>, o: nat)
    requires source in ps
  {
    if o in done && o != source then Befriends(ps, o, team) else o in ps[source].allies
  }

  function WithPickFor(ps: Players, source: nat, team: nat, done: seq<nat>): Players
    requires source in ps
  {
    map id | id in ps ::
      if id == source then
        ps[id].(pick := team, allies := Befriended(ps, source, team, done))
      else if id in done then
        ps[id].(allies := if Befriends(ps, id, team) then ps[id].allies + {source} else ps[id].allies - {source})
      else ps[id]
  }

  lemma PickForNobody(ps: Players, source: nat, team: nat)
    requires Closed(ps) && source in ps
    ensures WithPickFor(ps, source, team, []) == ps[source := ps[source].(pick := team)]
  {
    assert Befriended(ps, source, team, []) == ps[source].allies;
  }

  lemma PickForAll(ps: Players, source: nat, team: nat)
    requires Closed(ps) && source in ps
    ensures WithPickFor(ps, source, team, Sorted(ps.Keys)) == WithPick(ps, source, team)
  {
    var ids := Sorted(ps.Keys);
    var friends := set id | id in ps && id != source && team < 5 && ps[id].pick == team;
    assert Befriended(ps, source, team, ids) == ps[source].allies * {source} + friends;
  }

  function Allying(allies: set<nat>, o: nat, allied: bool): set<nat> {
    if allied then allies + {o} else allies - {o}
  }

  function Befriended(ps: Players, source: nat, team: nat, done: seq<nat>): set<nat>
    requires source in ps
  {
    set o | o in ps && AllyNow(ps, source, team, done, o)
  }

  lemma BefriendedNext(ps: Players, source: nat, team: nat, ids: seq<nat>, k: nat)
    requires Closed(ps) && source in ps && k < |ids| && ids[k] in ps && ids[k] != source && Ascending(ids)
    ensures ids[k] !in ids[..k]
    ensures Befriended(ps, source, team, ids[..k + 1])
         == Allying(Befriended(ps, source, team, ids[..k]), ids[k], Befriends(ps, ids[k], team))
  {
    SnocOf(ids, k);
  }

  lemma PickForNext(ps: Players, source: nat, team: nat, ids: seq<nat>, k: nat)
    requires Closed(ps) && source in ps && k < |ids| && ids[k] in ps && ids[k] != source && Ascending(ids)
    ensures var o := ids[k]; var qs := WithPickFor(ps, source, team, ids[..k]);
      && qs[o] == ps[o] && (o in qs[source].allies <==> o in ps[source].allies)
      && WithPickFor(ps, source, team, ids[..k + 1])
         == qs[source := qs[source].(allies := Allying(qs[source].allies, o, Befriends(ps, o, team)))]
              [o := qs[o].(allies := Allying(qs[o].allies, source, Befriends(ps, o, team)))]
  {
    SnocOf(ids, k);
    BefriendedNext(ps, source, team, ids, k);
  }

  lemma PickForSelf(ps: Players, source: nat, team: nat, ids: seq<nat>, k: nat)
    requires Closed(ps) && source in ps && k < |ids| && ids[k] == source
    ensures WithPickFor(ps, source, team, ids[..k + 1]) == WithPickFor(ps, source, team, ids[..k])
  {
    SnocOf(ids, k);
    assert Befriended(ps, source, team, ids[..k + 1]) == Befriended(ps, source, team, ids[..k]);
  }

  /** The pick makes or breaks the alliance with `o` in one direction at least. */
  predicate Changes(ps: Players, source: nat, team: nat, o: nat)
    requires source in ps
  {
    && o in ps && o != source
    && if Befriends(ps, o, team) then o !in ps[source].allies || source !in ps[o].allies
       else o in ps[source].allies || source in ps[o].allies
  }

  predicate AnyChanges(ps: Players, source: nat, team: nat, done: seq<nat>)
    requires source in ps
  {
    exists o :: o in done && Changes(ps, source, team, o)
  }

  lemma AnyChangesNext(ps: Players, source: nat, team: nat, ids: seq<nat>, k: nat)
    requires source in ps && k < |ids|
    ensures AnyChanges(ps, source, team, ids[..k + 1])
       <==> AnyChanges(ps, source, team, ids[..k]) || Changes(ps, source, team, ids[k])
  {
    SnocOf(ids, k);
    assert forall o :: o in ids[..k + 1] <==> o in ids[..k] || o == ids[k];
  }

  lemma AnyChangesMeans(ps: Players, source: nat, team: nat)
    requires Closed(ps) && source in ps
    ensures AnyChanges(ps, source, team, Sorted(ps.Keys)) <==> !SameAllies(ps, WithPick(ps, source, team))
  {
    var qs := WithPick(ps, source, team);
    if AnyChanges(ps, source, team, Sorted(ps.Keys)) {
      var o :| o in ps && Changes(ps, source, team, o);
      assert (o in ps[source].allies <==> o in qs[source].allies) ==>
        (source in ps[o].allies <==> source !in qs[o].allies);
    } else {
      forall id | id in ps
        ensures ps[id].allies == qs[id].allies
      {
        assert id in Sorted(ps.Keys);
        assert !Changes(ps, source, team, id);
        if id == source {
          forall o | o in ps
            ensures o in ps[id].allies <==> o in qs[id].allies
          {
            assert o in Sorted(ps.Keys);
            assert !Changes(ps, source, team, o);
          }
        }
      }
    }
  }

  lemma PickDone(ps: Players, source: nat, team: nat, ids: seq<nat>)
    requires Closed(ps) && source in ps && ids == Sorted(ps.Keys)
    ensures WithPickFor(ps, source, team, ids[..|ids|]) == WithPick(ps, source, team)
    ensures AnyChanges(ps, source, team, ids[..|ids|]) <==> !SameAllies(ps, WithPick(ps, source, team))
  {
    assert ids[..|ids|] == ids;
    PickForAll(ps, source, team);
    AnyChangesMeans(ps, source, team);
  }

  lemma TickNext(ps: Players, ids: seq<nat>, k: nat)
    requires k < |ids| && forall id :: id in ids ==> id in ps
    ensures var t := MaxTick(ps, ids[..k]); MaxTick(ps, ids[..k + 1]) == if ps[ids[k]].tick > t then ps[ids[k]].tick else t
  {
    SnocOf(ids, k);
  }

  lemma EntriesNext(ps: Players, ids: seq<nat>, k: nat, w: nat, names: map<string, string>)
    requires k < |ids| && forall id :: id in ids ==> id in ps
    ensures Entries(ps, ids[..k + 1], w, names)
         == Entries(ps, ids[..k], w, names) + if Counted(ps[ids[k]]) then [Entry(ps[ids[k]], w, names)] else []
  {
    SnocOf(ids, k);
  }

  /** Numbering goes on with player number `k` and ends as `end` says. */
  ghost predicate EndsNumbered(n: Numbering, ids: seq<nat>, k: nat, end: Numbering) {
    && k <= |ids| && Closed(n.ps) && (forall id :: id in ids ==> id in n.ps)
    && NumberAll(n, ids[k..]) == end
  }

  lemma NumberingNext(n: Numbering, ids: seq<nat>, k: nat, end: Numbering)
    requires k < |ids| && EndsNumbered(n, ids, k, end)
    ensures ids[k] in n.ps && EndsNumbered(NumberOne(n, ids[k]), ids, k + 1, end)
  {
    assert ids[k] in ids;
    NumberOneKeepsClosed(n, ids[k]);
    TailOf(ids, k);
  }

  class GameMonitor {
    var config: Config
    var hostId: nat
    var localId: nat
    var launched: bool
    var started: bool
    var mapName: string
    var maxUnits: nat
    var players: Players
    var frozen: Players
    var realNames: map<string, string>
    var status: Status
    var results: seq<ArmyResult>
    var endTick: nat
    var endings: seq<seq<ArmyResult>>

    ghost function State(): Monitor
      reads this
    {
      Monitor(config, hostId, localId, launched, started, mapName, maxUnits, players, frozen, realNames,
              Outcome(status, results, endTick), endings)
    }

    constructor (startsAfter: nat, drawTicks: nat)
      ensures State() == Start(Config("", "", startsAfter, drawTicks)) && Sound(State())
    {
      StartIsSound(Config("", "", startsAfter, drawTicks));
      config := Config("", "", startsAfter, drawTicks);
      hostId, localId := 0, 0;
      launched, started := false, false;
      mapName, maxUnits := "", 0;
      players, frozen, realNames := map[], map[], map[];
      status, results, endTick := NotReady, [], 0;
      endings := [];
    }

    method SetHostPlayerName(name: string)
      requires Sound(State())
      modifies this`config
      ensures State() == old(State()).(config := old(config).(hostName := name)) && Sound(State())
    {
      ConfigDoesNotMatter(State(), config.(hostName := name));
      config := config.(hostName := name);
    }

    method SetLocalPlayerName(name: string)
      requires Sound(State())
      modifies this`config
      ensures State() == old(State()).(config := old(config).(localName := name)) && Sound(State())
    {
      ConfigDoesNotMatter(State(), config.(localName := name));
      config := config.(localName := name);
    }

    // ------------------------------------------------------- numbering

    method ResetNumbers()
      requires Closed(players)
      modifies this`players
      ensures players == Unnumbered(old(players))
    {
      var ids := Sorted(players.Keys);
      ghost var was := players;
      for k := 0 to |ids|
        invariant players == UnnumberedIn(was, ids[..k])
      {
        UnnumberedNext(was, ids, k);
        players := players[ids[k] := players[ids[k]].(army := 0, team := 0)];
      }
      assert ids[..|ids|] == ids;
    }

    method GetMutualAllies(id: nat) returns (allies: set<nat>)
      requires Closed(players) && id in players
      ensures allies == MutualAllies(players, id)
    {
      allies := {};
      var ids := Sorted(players[id].allies);
      for k := 0 to |ids|
        invariant forall o :: o in allies <==> o in ids[..k] && Mutual(players, id, o)
      {
        SnocOf(ids, k);
        assert ids[k] in ids;
        if id in players[ids[k]].allies {
          allies := allies + {players[ids[k]].dplayid};
        }
      }
      assert ids[..|ids|] == ids;
      assert forall o :: o in allies <==> Mutual(players, id, o);
    }

    method AssignTeam(members: set<nat>, team: nat)
      requires team > 0 && members <= players.Keys
      modifies this`players
      ensures players == Assigned(old(players), members, team)
    {
      var ids := Sorted(members);
      ghost var was := players;
      assert AssignedIn(was, [], team) == was;
      for k := 0 to |ids|
        invariant players == AssignedIn(was, ids[..k], team)
      {
        AssignedNext(was, ids, k, team);
        assert ids[k] in members;
        if GetsTeam(players[ids[k]]) {
          players := players[ids[k] := players[ids[k]].(team := team)];
        }
      }
      assert ids[..|ids|] == ids;
    }

    /** One player's turn in the numbering. */
    method NumberPlayer(id: nat, teamCount: nat, armyCount: nat) returns (teams: nat, armies: nat)
      requires Closed(players) && id in players && teamCount >= 1
      modifies this`players
      ensures Numbering(players, teams, armies) == NumberOne(Numbering(old(players), teamCount, armyCount), id)
      ensures teams >= 1
    {
      teams, armies := teamCount, armyCount;
      if Live(players[id]) {
        armies := armies + 1;
        players := players[id := players[id].(army := armies)];
        if players[id].team == 0 {
          teams := teams + 1;
          var allies := GetMutualAllies(id);
          AssignTeam(allies + {id}, teams);
        }
      }
    }

    method UpdatePlayerArmies()
      requires Closed(players)
      modifies this`players
      ensures players == Updated(old(players))
    {
      ghost var was := players;
      ResetNumbers();
      UnnumberedKeepsClosed(was);
      var ids := Sorted(players.Keys);
      var teams, armies := 1, 0;
      assert ids[0..] == ids;
      for k := 0 to |ids|
        invariant EndsNumbered(Numbering(players, teams, armies), ids, k, Numbered(was)) && teams >= 1
      {
        NumberingNext(Numbering(players, teams, armies), ids, k, Numbered(was));
        teams, armies := NumberPlayer(ids[k], teams, armies);
      }
      assert ids[|ids|..] == [];
    }

    // ------------------------------------------------------- deciding

    method GetMostRecentGameTick() returns (tick: nat)
      ensures tick == MostRecent(players)
    {
      var ids := Sorted(players.Keys);
      tick := 0;
      for k := 0 to |ids|
        invariant tick == MaxTick(players, ids[..k])
      {
        TickNext(players, ids, k);
        if players[ids[k]].tick > tick {
          tick := players[ids[k]].tick;
        }
      }
      assert ids[..|ids|] == ids;
    }

    method GetActivePlayers() returns (active: set<nat>)
      requires Closed(players)
      ensures active == ActivePlayers(players)
    {
      var ids := Sorted(players.Keys);
      active := {};
      for k := 0 to |ids|
        invariant forall id :: id in active <==> id in ids[..k] && Live(players[id])
      {
        SnocOf(ids, k);
        assert ids[k] in ids;
        if Live(players[ids[k]]) {
          active := active + {players[ids[k]].dplayid};
        }
      }
      assert ids[..|ids|] == ids;
    }

    method IsPlayersAllAllied(ids: set<nat>, data: Players) returns (same: bool, team: nat)
      requires ids != {} && ids <= data.Keys
      ensures same <==> OneTeam(ids, data)
      ensures team == data[Least(ids)].team
    {
      team := data[Least(ids)].team;
      var order := Sorted(ids);
      for k := 0 to |order|
        invariant forall j :: 0 <= j < k ==> data[order[j]].team == team
      {
        assert order[k] in ids;
        if data[order[k]].team != team {
          return false, team;
        }
      }
      same := true;
      forall id | id in ids
        ensures data[id].team == team
      {
        assert id in order;
      }
    }

    method CheckEndGameCondition() returns (verdict: Verdict)
      requires Keyed(State())
      ensures verdict == Check(State())
    {
      if !started { return Going; }
      var active := GetActivePlayers();
      if active == {} { return Over(0); }
      var same, team := IsPlayersAllAllied(active, frozen);
      if same { return Over(team); }
      same, team := IsPlayersAllAllied(active, players);
      if same { return Over(-1); }
      return Going;
    }

    method LatchEndGameTick(tick: nat)
      modifies this`endTick
      ensures State() == LatchTick(old(State()), tick)
    {
      if endTick == 0 {
        endTick := if tick == 0 then 1 else tick;
      }
    }

    /** One entry for every army that was counted when the teams froze. */
    method ListResults(winner: nat)
      requires results == [] && status == Void
      modifies this`status, this`results
      ensures results == Results(frozen, winner, realNames)
      ensures status == if results == [] then Void else Ready
    {
      var ids := Sorted(frozen.Keys);
      for k := 0 to |ids|
        invariant results == Entries(frozen, ids[..k], winner, realNames)
        invariant status == if results == [] then Void else Ready
      {
        EntriesNext(frozen, ids, k, winner, realNames);
        var p := frozen[ids[k]];
        if Counted(p) {
          var score := if winner > 0 then (if p.team == winner then 1 else -1) else 0;
          results := results + [ArmyResult(p.army, p.slot, p.name, RealName(realNames, p.name), p.team, score)];
          status := Ready;
        }
      }
      assert ids[..|ids|] == ids;
    }

    method LatchEndGameResult(winner: int)
      modifies this`status, this`results, this`endTick, this`endings
      ensures State() == Latch(old(State()), winner)
    {
      if status != NotReady { return; }
      results := [];
      endTick := GetMostRecentGameTick();
      status := Void;
      if winner < 0 { return; }
      ListResults(winner);
      endings := endings + [results];
    }

    /** Latch whatever is decided: there may be no more ticks to wait for. */
    method LatchIfOver()
      requires Keyed(State())
      modifies this`status, this`results, this`endTick, this`endings
      ensures State() == Conclude(old(State()))
    {
      var verdict := CheckEndGameCondition();
      if verdict.Over? { LatchEndGameResult(verdict.winner); }
    }

    /** Teams are frozen from the start, but survivors can still agree on a draw. */
    method Realign()
      requires Keyed(State())
      modifies this`players, this`status, this`results, this`endTick, this`endings
      ensures State() == Realigned(old(State()), old(players))
    {
      NumberedIsRight(players);
      UpdatePlayerArmies();
      var verdict := CheckEndGameCondition();
      if verdict.Over? && verdict.winner < 0 { LatchEndGameResult(verdict.winner); }
    }

    // ------------------------------------------------------- events

    method Enter(id: nat, name: string)
      modifies this`players
      ensures players == Entered(old(players), id, name)
    {
      var p := if id in players then players[id] else NEW_PLAYER;
      players := players[id := p.(name := name, dplayid := id)];
    }

    /** Looks whether the newcomer is the host or the local player; a name that is not set is an error. */
    method NoteNames(id: nat, name: string) returns (thrown: bool)
      modifies this`hostId, this`localId
      ensures State() == Noted(old(State()), id, name) && (thrown <==> !Configured(config))
    {
      if config.hostName == "" { return true; }
      if name == config.hostName { hostId := id; }
      if config.localName == "" { return true; }
      if name == config.localName { localId := id; }
      thrown := false;
    }

    /** A newcomer is numbered with the others, unless a name was not set. */
    method AddPlayer(id: nat, name: string) returns (thrown: bool)
      requires Closed(players) && Enters(State(), id, name)
      modifies this`players, this`hostId, this`localId
      ensures State() == Joined(old(State()), id, name) && (thrown <==> Throws(old(State()), id, name))
    {
      EnteredIsClosed(players, id, name);
      Enter(id, name);
      thrown := NoteNames(id, name);
      if !thrown { UpdatePlayerArmies(); }
    }

    /** `thrown` tells that the join ended with an exception. */
    method OnJoin(id: nat, name: string) returns (thrown: bool)
      requires Closed(players)
      modifies this`players, this`hostId, this`localId
      ensures State() == Joined(old(State()), id, name) && (thrown <==> Throws(old(State()), id, name))
      ensures old(Sound(State())) ==> (Sound(State()) <==> (thrown ==> id in old(players)))
    {
      ghost var was := State();
      thrown := false;
      if !started && name != "" && id > 0 {
        thrown := AddPlayer(id, name);
      }
      if Sound(was) { JoinedKeepsExactly(was, id, name); }
    }

    /** Forget a player and all alliances with it. */
    method Erase(id: nat)
      requires Closed(players)
      modifies this`players
      ensures Closed(Without(old(players), id)) && players == Updated(Without(old(players), id))
    {
      ghost var was := players - {id};
      WithoutIsClosed(players, id);
      WithoutForAll(players, id);
      players := players - {id};
      var ids := Sorted(players.Keys);
      assert WithoutIn(was, id, []) == was;
      for k := 0 to |ids|
        invariant players == WithoutIn(was, id, ids[..k])
      {
        WithoutNext(was, id, ids, k);
        assert ids[k] in ids;
        players := players[ids[k] := players[ids[k]].(allies := players[ids[k]].allies - {id})];
      }
      assert ids[..|ids|] == ids;
      UpdatePlayerArmies();
    }

    method OnLeave(id: nat)
      requires Sound(State())
      modifies this`players, this`status, this`results, this`endTick, this`endings
      ensures State() == Left(old(State()), id) && Sound(State())
    {
      LeftKeeps(State(), id);
      if id == 0 || id !in players { return; }
      if !started {
        Erase(id);
      } else {
        LatchIfOver();
      }
    }

    method SetStatus(source: nat, slot: int, side: int, isWatcher: bool, isAI: bool)
      requires Known(players) && source in players
      modifies this`players
      ensures Closed(old(players))
      ensures players == WithStatus(old(State()), source, slot, side, isWatcher, isAI)
    {
      var p := players[source].(isAI := isAI, slot := slot);
      if p.side < 0 || p.isWatcher != isWatcher || p.side != side {
        players := players[source := p.(side := side, isWatcher := isWatcher)];
        UpdatePlayerArmies();
      } else {
        players := players[source := p];
      }
    }

    method OnStatus(source: nat, mapName: string, maxUnits: nat, slot: int, side: int, isWatcher: bool, isAI: bool)
      requires Sound(State())
      modifies this`players, this`mapName, this`maxUnits
      ensures State() == Reported(old(State()), source, mapName, maxUnits, slot, side, isWatcher, isAI)
      ensures Sound(State())
    {
      ReportedKeeps(State(), source, mapName, maxUnits, slot, side, isWatcher, isAI);
      if source !in players || started { return; }
      SetStatus(source, slot, side, isWatcher, isAI);
      if source == hostId && mapName != "" && maxUnits > 0 && this.mapName != mapName {
        this.mapName, this.maxUnits := mapName, maxUnits;
      }
    }

    method SetAlliance(a: nat, b: nat, allied: bool)
      requires a in players
      modifies this`players
      ensures players == WithAlliance(old(players), a, b, allied)
    {
      var p := players[a];
      players := players[a := p.(allies := if allied then p.allies + {b} else p.allies - {b})];
    }

    /** A chat line that makes or breaks an alliance, already matched to its two players. */
    method OnChatAlliance(source: nat, other: nat, allied: bool)
      requires Sound(State())
      modifies this`players, this`status, this`results, this`endTick, this`endings
      ensures State() == ChatAllied(old(State()), source, other, allied) && Sound(State())
    {
      if source !in players || other !in players || other == source { return; }
      AllianceKeeps(State(), source, other, allied);
      SetAlliance(source, other, allied);
      Realign();
    }

    method OnAlliance(subject: nat, target: nat, allied: bool)
      requires Sound(State())
      modifies this`players, this`status, this`results, this`endTick, this`endings
      ensures State() == Allied(old(State()), subject, target, allied) && Sound(State())
    {
      if subject !in players || target !in players { return; }
      AllianceKeeps(State(), subject, target, allied);
      var wasAllied := target in players[subject].allies;
      ghost var was := players;
      SetAlliance(subject, target, allied);
      if wasAllied != allied {
        Realign();
      } else {
        assert players[subject].allies == was[subject].allies;
        assert players == was;
      }
    }

    /** Ally the source of a pick with one other player, or end their alliance. */
    method AlignWith(source: nat, o: nat, team: nat) returns (changed: bool)
      requires source in players && o in players && o != source
      modifies this`players
      ensures var qs := old(players); var allied := Befriends(qs, o, team);
        && players == qs[source := qs[source].(allies := Allying(qs[source].allies, o, allied))]
                        [o := qs[o].(allies := Allying(qs[o].allies, source, allied))]
        && (changed <==> if allied then o !in qs[source].allies || source !in qs[o].allies
                         else o in qs[source].allies || source in qs[o].allies)
    {
      var p, q := players[source], players[o];
      var wasAB, wasBA := o in p.allies, source in q.allies;
      if team < 5 && team == q.pick {
        players := players[source := p.(allies := p.allies + {o})][o := q.(allies := q.allies + {source})];
        changed := !wasAB || !wasBA;
      } else {
        players := players[source := p.(allies := p.allies - {o})][o := q.(allies := q.allies - {source})];
        changed := wasAB || wasBA;
      }
    }

    /** One step of carrying a pick to the players `ids`. */
    method CarryTo(ghost was: Players, source: nat, team: nat, ids: seq<nat>, k: nat) returns (changed: bool)
      requires Closed(was) && source in was && k < |ids| && ids[k] in was && Ascending(ids)
      requires players == WithPickFor(was, source, team, ids[..k])
      modifies this`players
      ensures players == WithPickFor(was, source, team, ids[..k + 1])
      ensures changed <==> Changes(was, source, team, ids[k])
    {
      changed := false;
      if ids[k] != source {
        PickForNext(was, source, team, ids, k);
        changed := AlignWith(source, ids[k], team);
      } else {
        PickForSelf(was, source, team, ids, k);
      }
    }

    /** Bring the alliances of one player in line with its pick. */
    method CarryPick(source: nat, team: nat) returns (changed: bool)
      requires Closed(players) && source in players
      modifies this`players
      ensures players == WithPick(old(players), source, team)
      ensures changed <==> !SameAllies(old(players), players)
    {
      ghost var was := players;
      PickForNobody(was, source, team);
      var ids := Sorted(players.Keys);
      SortedAscends(players.Keys);
      players := players[source := players[source].(pick := team)];
      changed := false;
      for k := 0 to |ids|
        invariant players == WithPickFor(was, source, team, ids[..k])
        invariant changed <==> AnyChanges(was, source, team, ids[..k])
      {
        AnyChangesNext(was, source, team, ids, k);
        assert ids[k] in ids;
        var now := CarryTo(was, source, team, ids, k);
        changed := changed || now;
      }
      PickDone(was, source, team, ids);
    }

    method OnTeamSelection(source: nat, team: nat)
      requires Sound(State())
      modifies this`players, this`status, this`results, this`endTick, this`endings
      ensures State() == Picked(old(State()), source, team) && Sound(State())
    {
      PickedKeeps(State(), source, team);
      if source !in players { return; }
      WithPickIsClosed(players, source, team);
      var changed := CarryPick(source, team);
      if changed { Realign(); }
    }

    /** A win is put off, since a draw is still possible. */
    method SettleDeath()
      requires Keyed(State())
      modifies this`status, this`results, this`endTick, this`endings
      ensures State() == ConcludeDeath(old(State()))
    {
      var verdict := CheckEndGameCondition();
      if verdict.Over? {
        if verdict.winner > 0 {
          var recent := GetMostRecentGameTick();
          LatchEndGameTick((recent + config.drawTicks) % U32);
        } else {
          LatchEndGameResult(verdict.winner);
        }
      }
    }

    method OnUnitDied(source: nat, unitId: nat)
      requires Sound(State()) && (source in players ==> maxUnits > 0)
      modifies this`players, this`status, this`results, this`endTick, this`endings
      ensures State() == CommanderDied(old(State()), source, unitId) && Sound(State())
    {
      CommanderDiedKeeps(State(), source, unitId);
      if source !in players { return; }
      if unitId % maxUnits == 1 {
        KilledKeeps(State(), source);
        players := players[source := players[source].(isDead := true)];
        SettleDeath();
      }
    }

    method OnRejectOther(source: nat, rejected: nat)
      requires Sound(State())
      modifies this`players, this`status, this`results, this`endTick, this`endings
      ensures State() == Rejected(old(State()), source, rejected) && Sound(State())
    {
      RejectedKeeps(State(), source, rejected);
      if source !in players || rejected !in players { return; }
      if !started {
        Erase(rejected);
      } else {
        KilledKeeps(State(), rejected);
        players := players[rejected := players[rejected].(isDead := true)];
        LatchIfOver();
      }
    }

    /** Freeze the teams when the first late enough tick comes. */
    method BeginIfDue(tick: nat)
      requires Sound(State())
      modifies this`launched, this`started, this`frozen, this`status, this`results, this`endTick, this`endings
      ensures State() == Begun(old(State()), tick)
    {
      launched := true;
      if !started && tick > config.startsAfter {
        frozen := players;
        started := true;
        var verdict := CheckEndGameCondition();
        if verdict.Over? { LatchEndGameResult(-1); }
      }
    }

    /** Latch the result when the end tick has come. */
    method LatchIfDue() returns (warned: bool)
      requires Keyed(State())
      modifies this`status, this`results, this`endTick, this`endings
      ensures State() == if EndReached(old(State())) then Conclude(old(State())) else old(State())
      ensures warned <==> EndReached(old(State())) && Check(old(State())) == Going
    {
      warned := false;
      if endTick > 0 {
        var recent := GetMostRecentGameTick();
        if (recent - endTick) % U32 < 0x8000_0000 {
          var verdict := CheckEndGameCondition();
          if verdict == Going { return true; }
          LatchEndGameResult(verdict.winner);
        }
      }
    }

    /** `warned` tells that a finished game was found unfinished. */
    method OnGameTick(source: nat, tick: nat) returns (warned: bool)
      requires Sound(State()) && tick < U32
      modifies this`launched, this`started, this`frozen, this`players,
               this`status, this`results, this`endTick, this`endings
      ensures State() == OnTick(old(State()), source, tick) && Sound(State())
      ensures warned <==> Warns(old(State()), source, tick)
    {
      OnTickKeeps(State(), source, tick);
      if source !in players { return false; }
      AdvancedKeeps(State(), source, tick);
      BeginIfDue(tick);
      if Later(tick, players[source].tick) {
        players := players[source := players[source].(tick := tick)];
      }
      warned := LatchIfDue();
    }

    method SetPlayerRealName(name: string, realName: string)
      requires Sound(State())
      modifies this`realNames
      ensures State() == Next(old(State()), RealNameGiven(name, realName)) && Sound(State())
    {
      NamedKeeps(State(), realNames[name := realName]);
      realNames := realNames[name := realName];
    }

    method Clear()
      modifies this`started, this`mapName, this`players, this`status, this`results, this`endTick, this`endings
      ensures State() == Cleared(old(State())) && Sound(State())
    {
      ClearedIsSound(State());
      started, mapName, players := false, "", map[];
      status, results, endTick, endings := NotReady, [], 0, [];
    }
  }
}
