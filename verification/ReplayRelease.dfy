/** Where a subscription starts, and when the bytes of a live game are released. */
module ReplayRelease {
  import opened Bytes
  import opened Wrappers
  import opened ReplayEscrow

  // ------------------------------------------------------- where a subscription starts

  /** The game can be followed: it is shown, its file is there, and it has had a tick. */
  predicate CanFollow(w: World, id: nat) {
    id in w.games && w.games[id].delay >= 0 && id in w.files && w.games[id].log.Some?
  }

  /** The file as it was at the oldest tick that the log knows of. */
  ghost function OldestFile(w: World, id: nat): bytes
    requires Sound(w) && CanFollow(w, id) && w.games[id].log.value != []
  {
    assert GameSound(w, id);
    w.history[id][|w.history[id]| - |w.games[id].log.value|]
  }

  /**
   * Once the log covers the delay, reading starts where the user asks, or where the file ended at the oldest
   * tick if that is less; before that it starts at the head of the file.
   */
  lemma SubscriptionStarts(w: World, id: nat, position: nat)
    requires Sound(w) && CanFollow(w, id)
    ensures var u := Next(w, Subscribe(id, position)).user; var log := w.games[id].log.value;
      && u.file == Some(id) && u.gameId == id && u.sent == [] && u.pos == u.start && u.pending == w.user.pending
      && if |log| <= w.games[id].delay then u.start == 0
         else var shown := |OldestFile(w, id)|; u.start == if position <= shown then position else shown
  {
    assert GameSound(w, id);
  }

  /** A request from the start is answered with a refusal if and only if the game cannot be followed. */
  lemma RefusedExactly(w: World, id: nat)
    requires Sound(w)
    ensures var a := Answer(GameOf(w.games, id), id in w.files, 0);
      && (a == None <==> CanFollow(w, id))
      && (a == Some(LIVE_REPLAY_DISABLED) <==> id in w.games && w.games[id].delay < 0)
      && (a.Some? ==> a.value == LIVE_REPLAY_DISABLED || a.value == GAME_NOT_FOUND)
  {
  }

  /** Whoever asks to go on from a later position is told only of a game that is unknown or not shown. */
  lemma GoingOnIsQuiet(w: World, id: nat, position: nat)
    requires Sound(w) && position > 0
    ensures Answer(GameOf(w.games, id), id in w.files, position) ==
      if id !in w.games then Some(GAME_NOT_FOUND)
      else if w.games[id].delay < 0 then Some(LIVE_REPLAY_DISABLED)
      else None
  {
  }

  /** A refused subscription stops what is being sent only if there is no file, or no log of its sizes yet. */
  lemma RefusedLeaves(w: World, id: nat, position: nat)
    requires Sound(w) && !CanFollow(w, id)
    ensures var u := Next(w, Subscribe(id, position)).user;
      && u.gameId == w.user.gameId
      && (id !in w.games || w.games[id].delay < 0 ==> u == w.user.(pending := u.pending))
      && (id in w.games && w.games[id].delay >= 0 && id !in w.files ==> u.file == None)
      && (Early(w, id) ==> u.file == Some(id) && u.pos == u.start == 0 && u.sent == [])
  {
  }

  // ------------------------------------------------------- one subscription, any run

  predicate NoSubscribe(es: seq<Event>) {
    forall e :: e in es ==> !e.Subscribe?
  }

  /** The user has been sent more of the same file, from the same place on. */
  ghost predicate SentMore(w: World, n: World) {
    && n.user.file == w.user.file && n.user.start == w.user.start && n.user.gameId == w.user.gameId
    && n.user.pos >= w.user.pos && w.user.sent <= n.user.sent
  }

  lemma NextSendsMore(w: World, e: Event)
    requires Sound(w) && Enabled(e) && !e.Subscribe?
    ensures SentMore(w, Next(w, e))
  {
  }

  lemma {:induction false} RunSendsMore(w: World, es: seq<Event>)
    requires Sound(w) && TimelyRun(w, es) && NoSubscribe(es)
    ensures SentMore(w, Run(w, es))
    decreases |es|
  {
    if es != [] {
      NextSendsMore(w, es[0]);
      NextIsSound(w, es[0]);
      assert forall e :: e in es[1..] ==> e in es;
      RunSendsMore(Next(w, es[0]), es[1..]);
    }
  }

  /**
   * Whatever happens until the next subscription, the client that asked for a position already released is
   * sent the file from exactly there.
   */
  lemma SentFromPosition(w: World, id: nat, position: nat, es: seq<Event>)
    requires Sound(w) && CanFollow(w, id) && |w.games[id].log.value| > w.games[id].delay
    requires position <= |OldestFile(w, id)|
    requires Sound(Next(w, Subscribe(id, position)))
    requires TimelyRun(Next(w, Subscribe(id, position)), es) && NoSubscribe(es)
    ensures var r := Run(Next(w, Subscribe(id, position)), es);
      && id in r.files && position <= r.user.pos <= |r.files[id]|
      && r.user.sent == r.files[id][position..r.user.pos]
  {
    SubscriptionStarts(w, id, position);
    RunSendsMore(Next(w, Subscribe(id, position)), es);
  }

  // ------------------------------------------------------- when bytes are released

  /** The log has the sizes at the last `delay + 1` ticks, as far as there were so many. */
  predicate Steady(w: World, id: nat)
    requires id in w.games && id in w.history
  {
    w.games[id].log == None || |w.games[id].log.value| == Min(|w.history[id]|, 1 + w.games[id].delay)
  }

  predicate KeepsDelay(w: World, e: Event, id: nat) {
    e.SetGameInfo? && e.id == id && id in w.games ==> e.delay == w.games[id].delay
  }

  lemma LoggedIsSteady(w: World, id: nat)
    requires Sound(w) && id in w.games && Steady(w, id)
    ensures Steady(AllLogged(w), id)
  {
    assert GameSound(w, id);
  }

  lemma NextIsSteady(w: World, e: Event, id: nat)
    requires Sound(w) && Enabled(e) && KeepsDelay(w, e, id) && (id in w.games ==> Steady(w, id))
    requires Sound(Next(w, e)) && id in Next(w, e).games
    ensures Steady(Next(w, e), id)
  {
    if e.Timer? { LoggedIsSteady(w, id); }
  }

  /** No event of the run changes the delay of game `id`. */
  ghost predicate DelayStands(w: World, es: seq<Event>, id: nat)
    requires Sound(w) && TimelyRun(w, es)
    decreases |es|
  {
    es == [] || (KeepsDelay(w, es[0], id) && (NextIsSound(w, es[0]); DelayStands(Next(w, es[0]), es[1..], id)))
  }

  lemma {:induction false} RunIsSteady(w: World, es: seq<Event>, id: nat)
    requires Sound(w) && TimelyRun(w, es) && DelayStands(w, es, id) && (id in w.games ==> Steady(w, id))
    ensures id in Run(w, es).games ==> Steady(Run(w, es), id)
    decreases |es|
  {
    if es != [] {
      NextIsSound(w, es[0]);
      if id in Next(w, es[0]).games { NextIsSteady(w, es[0], id); }
      RunIsSteady(Next(w, es[0]), es[1..], id);
    }
  }

  lemma SteadyThreshold(l: World, id: nat, pos: nat, maxBytes: nat)
    requires Sound(l) && id in l.games && l.games[id].delay >= 0 && Steady(l, id)
    ensures var h, delay := l.history[id], l.games[id].delay;
      Threshold(Some(l.games[id]), pos, maxBytes) == if |h| <= delay then None else Some(|h[|h| - 1 - delay]|)
  {
    assert GameSound(l, id);
  }

  /** From `before` to `after` a user was sent all but what a full socket held back of the first `due` bytes, no more. */
  predicate Released(before: User, after: User, due: nat, maxBytes: nat) {
    && after.pos <= Max(before.pos, due)
    && (after.pos >= due || after.pending >= maxBytes)
  }

  /** What a follower may be shown after a tick is the file as it was `delay` ticks before: no more and no less. */
  ghost predicate ReleasedOnTime(l: World, after: User, maxBytes: nat)
    requires l.user.gameId in l.history && l.user.gameId in l.games && l.games[l.user.gameId].delay >= 0
  {
    var h, delay := l.history[l.user.gameId], l.games[l.user.gameId].delay;
    if |h| <= delay then after == l.user else Released(l.user, after, |h[|h| - 1 - delay]|, maxBytes)
  }

  lemma ServicedUpTo(file: bytes, u: User, threshold: nat, maxBytes: nat, after: User)
    requires u.pos <= |file| && threshold <= |file|
    requires var s := Sent(file, Sending(u.pos, u.pending, []), threshold, maxBytes);
      after.pos == s.pos && after.pending == s.pending
    ensures Released(u, after, threshold, maxBytes)
  {
    SentIsSlice(file, Sending(u.pos, u.pending, []), threshold, maxBytes, u.pos);
  }

  lemma OldIsShorter(l: World, id: nat, k: nat)
    requires Sound(l) && id in l.games && k < |l.history[id]|
    ensures id in l.files && |l.history[id][k]| <= |l.files[id]|
  {
    assert GameSound(l, id);
  }

  lemma ServiceReleases(l: World, maxBytes: nat)
    requires Sound(l) && Bound(l.user) && l.user.file.Some? && l.user.gameId in l.games
    requires l.games[l.user.gameId].delay >= 0 && Steady(l, l.user.gameId)
    ensures ReleasedOnTime(l, Serviced(l, maxBytes), maxBytes)
  {
    var id, u := l.user.gameId, l.user;
    var h, delay := l.history[id], l.games[id].delay;
    SteadyThreshold(l, id, u.pos, maxBytes);
    if |h| > delay {
      OldIsShorter(l, id, |h| - 1 - delay);
      ServicedUpTo(l.files[id], u, |h[|h| - 1 - delay]|, maxBytes, Serviced(l, maxBytes));
    }
  }

  lemma TickReleases(w: World, maxBytes: nat)
    requires Sound(w) && Bound(w.user) && w.user.file.Some? && w.user.gameId in w.games
    requires w.games[w.user.gameId].delay >= 0 && Steady(w, w.user.gameId)
    ensures var n := Next(w, Timer(maxBytes)); ReleasedOnTime(n.(user := w.user), n.user, maxBytes)
  {
    var l := AllLogged(w);
    AllLoggedIsSound(w);
    LoggedIsSteady(w, w.user.gameId);
    ServiceReleases(l, maxBytes);
    assert Next(w, Timer(maxBytes)).(user := w.user) == l;
  }

  /** In every timely run in which the followed game's delay stands, each tick releases what the delay allows. */
  lemma {:induction false} ReleasedInEveryRun(es: seq<Event>, maxBytes: nat)
    requires Sound(START) && TimelyRun(START, es)
    requires var r := Run(START, es);
      r.user.file.Some? && r.user.gameId in r.games && r.games[r.user.gameId].delay >= 0 &&
      DelayStands(START, es, r.user.gameId)
    ensures var r := Run(START, es); var n := Next(r, Timer(maxBytes)); ReleasedOnTime(n.(user := r.user), n.user, maxBytes)
  {
    var r := Run(START, es);
    RunStaysBound(START, es);
    RunIsSteady(START, es, r.user.gameId);
    TickReleases(r, maxBytes);
  }

  /** Of a game that has ended each tick sends the next bytes up to the limit, or to the end of the file. */
  lemma EndedIsServed(w: World, maxBytes: nat)
    requires Sound(w) && w.user.file.Some? && w.user.gameId !in w.games
    ensures var n, f := Next(w, Timer(maxBytes)), w.files[w.user.file.value];
      && w.user.pos <= n.user.pos <= w.user.pos + maxBytes
      && (n.user.pos >= Min(w.user.pos + maxBytes, |f|) || n.user.pending >= maxBytes)
  {
    var u := w.user;
    SentIsSlice(w.files[u.file.value], Sending(u.pos, u.pending, []), u.pos + maxBytes, maxBytes, u.pos);
  }
}
