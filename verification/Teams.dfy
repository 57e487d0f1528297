/** Players, alliances, and the numbering of armies and teams. */
module Teams {
  import opened Keys

  datatype PlayerData = PlayerData(
    name: string, side: int, allies: set<nat>, pick: int, isWatcher: bool, isAI: bool, slot: int,
    isDead: bool, tick: nat, dplayid: nat, army: nat, team: nat)

  const NEW_PLAYER := PlayerData("", -1, {}, 5, false, false, -1, false, 0, 0, 0, 0)

  type Players = map<nat, PlayerData>

  // ------------------------------------------------------- alliances

  /** A player who has neither died nor watches. */
  predicate Live(p: PlayerData) {
    !p.isWatcher && !p.isDead
  }

  /** Every player is filed under its own id, and allies are known players. */
  predicate Closed(ps: Players) {
    forall id :: id in ps ==> ps[id].dplayid == id && ps[id].allies <= ps.Keys
  }

  predicate Mutual(ps: Players, a: nat, b: nat) {
    a in ps && b in ps && b in ps[a].allies && a in ps[b].allies
  }

  function MutualAllies(ps: Players, id: nat): (s: set<nat>)
    requires Closed(ps) && id in ps
    ensures forall o :: o in s <==> Mutual(ps, id, o)
  {
    set o | o in ps[id].allies && id in ps[o].allies
  }

  function ActivePlayers(ps: Players): set<nat> {
    set id | id in ps && Live(ps[id])
  }

  // ------------------------------------------------------- numbering

  function Unnumbered(ps: Players): Players {
    map id | id in ps :: ps[id].(army := 0, team := 0)
  }

  /** The still unnumbered live players of `members` get team `team`. */
  function Assigned(ps: Players, members: set<nat>, team: nat): Players {
    map id | id in ps ::
      if id in members && ps[id].team == 0 && Live(ps[id]) then ps[id].(team := team) else ps[id]
  }

  /** The state of the numbering loop. */
  datatype Numbering = Numbering(ps: Players, teamCount: nat, armyCount: nat)

  function NumberOne(n: Numbering, id: nat): Numbering
    requires Closed(n.ps) && id in n.ps
  {
    if !Live(n.ps[id]) then n
    else
      var ps := n.ps[id := n.ps[id].(army := n.armyCount + 1)];
      if ps[id].team != 0 then Numbering(ps, n.teamCount, n.armyCount + 1)
      else Numbering(Assigned(ps, MutualAllies(ps, id) + {id}, n.teamCount + 1), n.teamCount + 1, n.armyCount + 1)
  }

  lemma NumberOneKeepsClosed(n: Numbering, id: nat)
    requires Closed(n.ps) && id in n.ps
    ensures Closed(NumberOne(n, id).ps) && NumberOne(n, id).ps.Keys == n.ps.Keys
  {
  }

  function NumberAll(n: Numbering, ids: seq<nat>): Numbering
    requires Closed(n.ps) && forall id :: id in ids ==> id in n.ps
    decreases |ids|
  {
    if ids == [] then n
    else
      NumberOneKeepsClosed(n, ids[0]);
      NumberAll(NumberOne(n, ids[0]), ids[1..])
  }

  lemma UnnumberedKeepsClosed(ps: Players)
    requires Closed(ps)
    ensures Closed(Unnumbered(ps)) && Unnumbered(ps).Keys == ps.Keys
  {
  }

  /** Armies and teams as they follow from the alliances and the live players. */
  function Numbered(ps: Players): Numbering
    requires Closed(ps)
  {
    UnnumberedKeepsClosed(ps);
    NumberAll(Numbering(Unnumbered(ps), 1, 0), Sorted(ps.Keys))
  }

  function Updated(ps: Players): Players
    requires Closed(ps)
  {
    Numbered(ps).ps
  }

  // ------------------------------------------------------- what the numbering means

  /** `qs` is `ps` but for army and team numbers. */
  ghost predicate SameButNumbers(ps: Players, qs: Players) {
    && qs.Keys == ps.Keys
    && forall id :: id in ps ==> qs[id] == ps[id].(army := qs[id].army, team := qs[id].team)
  }

  /** The live players among the ids up to `id`. */
  function LiveUpTo(ps: Players, id: int): set<nat> {
    set j | j in ps && j <= id && Live(ps[j])
  }

  /** `l` is the lowest id of team number `t`, and the others in the team are its mutual allies. */
  ghost predicate Leads(qs: Players, l: nat, t: nat) {
    && l in qs && Live(qs[l]) && qs[l].team == t
    && forall j :: j in qs && qs[j].team == t ==> l <= j && (j == l || Mutual(qs, l, j))
  }

  /** All live mutual allies of `l` had a team by the time team `t` was complete. */
  ghost predicate Settled(qs: Players, l: nat, t: nat) {
    forall j :: Mutual(qs, l, j) && Live(qs[j]) ==> 0 < qs[j].team <= t
  }

  ghost predicate HasLeader(qs: Players, t: nat) {
    exists l :: Leads(qs, l, t) && Settled(qs, l, t)
  }

  ghost predicate AllLed(qs: Players, teamCount: nat) {
    forall t :: 2 <= t <= teamCount ==> HasLeader(qs, t)
  }

  /** Live players below `next` have their rank as army, and all others have none. */
  ghost predicate ArmiesRight(qs: Players, next: int) {
    forall id :: id in qs ==> qs[id].army == if Live(qs[id]) && id < next then |LiveUpTo(qs, id)| else 0
  }

  ghost predicate TeamsRight(qs: Players, next: int, teamCount: nat) {
    forall id :: id in qs ==>
      && (qs[id].team != 0 ==> 2 <= qs[id].team <= teamCount && Live(qs[id]))
      && (Live(qs[id]) && id < next ==> qs[id].team != 0)
  }

  /** The numbering after all ids below `next`. */
  ghost predicate PartlyNumbered(n: Numbering, next: int) {
    && n.teamCount >= 1
    && n.armyCount == |LiveUpTo(n.ps, next - 1)|
    && ArmiesRight(n.ps, next)
    && TeamsRight(n.ps, next, n.teamCount)
    && AllLed(n.ps, n.teamCount)
  }

  lemma LiveUpToSame(ps: Players, qs: Players, id: int)
    requires SameButNumbers(ps, qs)
    ensures LiveUpTo(ps, id) == LiveUpTo(qs, id)
  {
  }

  lemma NumberOneKeepsRest(n: Numbering, id: nat)
    requires Closed(n.ps) && id in n.ps
    ensures SameButNumbers(n.ps, NumberOne(n, id).ps)
  {
    var qs := NumberOne(n, id).ps;
    forall j | j in n.ps
      ensures qs[j] == n.ps[j].(army := qs[j].army, team := qs[j].team)
    {
    }
  }

  /** The number of live players up to a key is one more than before it, if that player lives. */
  lemma OneMore(ps: Players, id: nat)
    requires id in ps
    ensures |LiveUpTo(ps, id)| == |LiveUpTo(ps, id - 1)| + if Live(ps[id]) then 1 else 0
  {
    if Live(ps[id]) {
      assert LiveUpTo(ps, id) == LiveUpTo(ps, id - 1) + {id};
    } else {
      assert LiveUpTo(ps, id) == LiveUpTo(ps, id - 1);
    }
  }

  lemma ArmiesStay(n: Numbering, id: nat)
    requires Closed(n.ps) && id in n.ps
    requires n.armyCount == |LiveUpTo(n.ps, id - 1)| && ArmiesRight(n.ps, id)
    ensures var m := NumberOne(n, id); m.armyCount == |LiveUpTo(m.ps, id)| && ArmiesRight(m.ps, id + 1)
  {
    var m := NumberOne(n, id);
    NumberOneKeepsRest(n, id);
    OneMore(n.ps, id);
    LiveUpToSame(n.ps, m.ps, id);
    forall j | j in m.ps
      ensures m.ps[j].army == if Live(m.ps[j]) && j < id + 1 then |LiveUpTo(m.ps, j)| else 0
    {
      LiveUpToSame(n.ps, m.ps, j);
    }
  }

  lemma TeamsStay(n: Numbering, id: nat)
    requires Closed(n.ps) && id in n.ps && n.teamCount >= 1
    requires TeamsRight(n.ps, id, n.teamCount)
    ensures var m := NumberOne(n, id); TeamsRight(m.ps, id + 1, m.teamCount)
  {
  }

  lemma LeaderStays(n: Numbering, id: nat, t: nat)
    requires Closed(n.ps) && id in n.ps && 2 <= t <= n.teamCount
    requires HasLeader(n.ps, t)
    ensures HasLeader(NumberOne(n, id).ps, t)
  {
    var m := NumberOne(n, id);
    var l :| Leads(n.ps, l, t) && Settled(n.ps, l, t);
    NumberOneKeepsRest(n, id);
    assert forall j :: Mutual(m.ps, l, j) ==> Mutual(n.ps, l, j);
    assert Leads(m.ps, l, t);
    assert Settled(m.ps, l, t);
  }

  /** A player without a team founds one, and nobody in it has a lower id. */
  lemma Founds(n: Numbering, id: nat)
    requires Closed(n.ps) && id in n.ps && Live(n.ps[id]) && n.ps[id].team == 0
    requires TeamsRight(n.ps, id, n.teamCount)
    ensures HasLeader(NumberOne(n, id).ps, n.teamCount + 1)
  {
    var m := NumberOne(n, id);
    var t := n.teamCount + 1;
    NumberOneKeepsRest(n, id);
    assert Leads(m.ps, id, t) by {
      forall j | j in m.ps && m.ps[j].team == t
        ensures id <= j && (j == id || Mutual(m.ps, id, j))
      {
        assert n.ps[j].team == 0 && Live(n.ps[j]);
      }
    }
    assert Settled(m.ps, id, t) by {
      forall j | Mutual(m.ps, id, j) && Live(m.ps[j])
        ensures 0 < m.ps[j].team <= t
      {
        assert Mutual(n.ps, id, j);
      }
    }
  }

  lemma PartlyNumberedStep(n: Numbering, id: nat)
    requires Closed(n.ps) && id in n.ps && PartlyNumbered(n, id)
    ensures PartlyNumbered(NumberOne(n, id), id + 1)
  {
    var m := NumberOne(n, id);
    ArmiesStay(n, id);
    TeamsStay(n, id);
    forall t | 2 <= t <= m.teamCount
      ensures HasLeader(m.ps, t)
    {
      if t <= n.teamCount {
        LeaderStays(n, id, t);
      } else {
        Founds(n, id);
      }
    }
  }

  /** Ids that belong to nobody may be skipped. */
  lemma SkipGap(n: Numbering, next: int, id: int)
    requires PartlyNumbered(n, next) && next <= id
    requires forall j :: j in n.ps ==> j < next || id <= j
    ensures PartlyNumbered(n, id)
  {
    assert LiveUpTo(n.ps, next - 1) == LiveUpTo(n.ps, id - 1);
  }

  lemma SameTwice(ps: Players, qs: Players, rs: Players)
    requires SameButNumbers(ps, qs) && SameButNumbers(qs, rs)
    ensures SameButNumbers(ps, rs)
  {
  }

  /** `ids` are the players from `next` on, in order. */
  ghost predicate IsTodo(ps: Players, ids: seq<nat>, next: int) {
    Ascending(ids) && forall j: nat :: j in ids <==> j in ps && next <= j
  }

  lemma NextTodo(ps: Players, qs: Players, ids: seq<nat>, next: int)
    requires IsTodo(ps, ids, next) && ids != [] && qs.Keys == ps.Keys
    ensures ids[0] in ps && next <= ids[0]
    ensures IsTodo(qs, ids[1..], ids[0] + 1)
    ensures forall j :: j in ps ==> j < next || ids[0] <= j
  {
    forall j | j in ps
      ensures j < next || ids[0] <= j
    {
      assert next <= j ==> j in ids;
    }
    forall j: nat
      ensures j in ids[1..] <==> j in qs && ids[0] + 1 <= j
    {
      assert ids[0] in ids;
      assert next <= ids[0];
      InTail(ids, j);
      assert j in ids <==> j in ps && next <= j;
      assert j in ps <==> j in qs;
    }
  }

  /** `ids` are the players from `next` on, and they all come before `end`. */
  ghost predicate Midway(n: Numbering, ids: seq<nat>, next: int, end: int) {
    && Closed(n.ps) && PartlyNumbered(n, next) && IsTodo(n.ps, ids, next)
    && next <= end && forall j :: j in n.ps ==> j < end
  }

  ghost predicate EndsRight(n: Numbering, m: Numbering, end: int) {
    SameButNumbers(n.ps, m.ps) && PartlyNumbered(m, end)
  }

  lemma NumberNext(n: Numbering, ids: seq<nat>, next: int, end: int) returns (m: Numbering)
    requires Midway(n, ids, next, end) && ids != []
    ensures Closed(n.ps) && ids[0] in n.ps && m == NumberOne(n, ids[0])
    ensures SameButNumbers(n.ps, m.ps) && Midway(m, ids[1..], ids[0] + 1, end)
  {
    var id := ids[0];
    NextTodo(n.ps, n.ps, ids, next);
    SkipGap(n, next, id);
    NumberOneKeepsRest(n, id);
    NumberOneKeepsClosed(n, id);
    m := NumberOne(n, id);
    NextTodo(n.ps, m.ps, ids, next);
    PartlyNumberedStep(n, id);
  }

  lemma NoneTodo(n: Numbering, next: int, end: int)
    requires Midway(n, [], next, end)
    ensures EndsRight(n, n, end)
  {
    forall j | j in n.ps
      ensures j < next
    {
      assert j !in [];
    }
    SkipGap(n, next, end);
  }

  lemma {:induction false} NumberAllIsRight(n: Numbering, ids: seq<nat>, next: int, end: int)
    requires Midway(n, ids, next, end)
    ensures Closed(n.ps) && (forall j :: j in ids ==> j in n.ps) && EndsRight(n, NumberAll(n, ids), end)
    decreases |ids|
  {
    if ids == [] {
      NoneTodo(n, next, end);
    } else {
      var m := NumberNext(n, ids, next, end);
      NumberAllIsRight(m, ids[1..], ids[0] + 1, end);
      SameTwice(n.ps, m.ps, NumberAll(m, ids[1..]).ps);
    }
  }

  /** The numbers given to the players, stated without the loop. */
  ghost predicate WellNumbered(qs: Players, teamCount: nat) {
    && (forall id :: id in qs ==> qs[id].army == if Live(qs[id]) then |LiveUpTo(qs, id)| else 0)
    && (forall id :: id in qs ==> if Live(qs[id]) then 2 <= qs[id].team <= teamCount else qs[id].team == 0)
    && AllLed(qs, teamCount)
  }

  /**
   * Live players have armies one, two, and so on in the order of their ids; their teams are numbered
   * from two without gaps, and each team is made of its lowest id and mutual allies of that player.
   */
  lemma NumberedIsRight(ps: Players)
    requires Closed(ps)
    ensures SameButNumbers(ps, Updated(ps)) && WellNumbered(Updated(ps), Numbered(ps).teamCount)
  {
    UnnumberedKeepsClosed(ps);
    var n := Numbering(Unnumbered(ps), 1, 0);
    var end := HasBound(ps.Keys);
    assert PartlyNumbered(n, 0) by {
      assert LiveUpTo(n.ps, -1) == {};
    }
    SortedAscends(ps.Keys);
    assert Midway(n, Sorted(ps.Keys), 0, end);
    NumberAllIsRight(n, Sorted(ps.Keys), 0, end);
    var m := Numbered(ps);
    assert m.ps.Keys == ps.Keys;
    assert PartlyNumbered(m, end);
  }

  ghost predicate TransitiveAlliance(ps: Players) {
    forall a, b, c ::
      Mutual(ps, a, b) && Mutual(ps, b, c) && Live(ps[a]) && Live(ps[b]) && Live(ps[c]) && a != c ==> Mutual(ps, a, c)
  }

  lemma AlliesAreNotBehind(qs: Players, teamCount: nat, p: nat, q: nat)
    requires WellNumbered(qs, teamCount) && TransitiveAlliance(qs)
    requires Mutual(qs, p, q) && Live(qs[p]) && Live(qs[q])
    ensures qs[q].team <= qs[p].team
  {
    var t := qs[p].team;
    assert HasLeader(qs, t);
    var l :| Leads(qs, l, t) && Settled(qs, l, t);
    if l != q {
      assert l == p || Mutual(qs, l, p);
      assert Mutual(qs, l, q);
    }
  }

  /** Where alliance is transitive, the teams are exactly the allied groups. */
  lemma TeamsAreAlliances(ps: Players, p: nat, q: nat)
    requires Closed(ps) && TransitiveAlliance(ps)
    requires p in ps && q in ps && p != q && Live(ps[p]) && Live(ps[q])
    ensures Updated(ps).Keys == ps.Keys
    ensures Updated(ps)[p].team == Updated(ps)[q].team <==> Mutual(ps, p, q)
  {
    NumberedIsRight(ps);
    var qs, k := Updated(ps), Numbered(ps).teamCount;
    assert forall a, b :: Mutual(ps, a, b) <==> Mutual(qs, a, b);
    if Mutual(ps, p, q) {
      AlliesAreNotBehind(qs, k, p, q);
      AlliesAreNotBehind(qs, k, q, p);
    }
    if qs[p].team == qs[q].team {
      var t := qs[p].team;
      assert HasLeader(qs, t);
      var l :| Leads(qs, l, t) && Settled(qs, l, t);
      assert p == l || Mutual(qs, l, p);
      assert q == l || Mutual(qs, l, q);
      assert Mutual(qs, p, q);
    }
  }
}
