/** The delayed release of a live game's replay. */
module ReplayEscrow {
  import opened Bytes
  import opened Wrappers
  import opened GpgNet

  const CHUNK_SIZE: nat := 1000

  // ------------------------------------------------------- the size log of a game

  /** No log before the file was found; a negative delay means that the replay is not shown. */
  datatype Game = Game(delay: int, log: Option<seq<nat>>)

  function Trimmed(log: seq<nat>, required: nat): seq<nat> {
    if |log| > required then log[|log| - required..] else log
  }

  /** Taking off the oldest size of a log that is too long changes nothing about what it is trimmed to. */
  lemma TrimmedTail(log: seq<nat>, required: nat)
    requires |log| > required
    ensures Trimmed(log[1..], required) == Trimmed(log, required)
  {
  }

  /** Once a second: the file's size is logged, and only as many sizes are kept as the delay needs. */
  function Logged(g: Game, size: Option<nat>): Game
    requires g.delay >= -1
  {
    var log :=
      if size == None then g.log
      else if g.log == None then Some([size.value])
      else Some(g.log.value + [size.value]);
    g.(log := if log == None then None else Some(Trimmed(log.value, 1 + g.delay)))
  }

  // ------------------------------------------------------- sending

  /** How far a user may be shown the file: nothing, or up to a position. */
  function Threshold(g: Option<Game>, pos: nat, maxBytes: nat): Option<nat> {
    if g == None then Some(pos + maxBytes)
    else if g.value.log == None || g.value.log.value == [] || |g.value.log.value| <= g.value.delay then None
    else Some(g.value.log.value[0])
  }

  /** The characters of the data command's name. */
  const DATA_ID: bytes :=
    [82, 101, 112, 108, 97, 121, 83, 101, 114, 118, 101, 114, 68, 97, 116, 97]

  const OK: nat := 1
  const GAME_NOT_FOUND: nat := 2
  const LIVE_REPLAY_DISABLED: nat := 3

  function StatusMessage(status: nat, data: bytes): bytes {
    WriteCommand(Command(DATA_ID, [Int(status), Data(data)]))
  }

  function Message(data: bytes): bytes {
    StatusMessage(OK, data)
  }

  function MessageSize(n: nat): nat {
    34 + n
  }

  lemma MessageIsSized(status: nat, data: bytes)
    ensures |StatusMessage(status, data)| == MessageSize(|data|)
  {
    var args := [Int(status), Data(data)];
    var rest := [Data(data)];
    assert args[1..] == rest && rest[1..] == [];
    assert WriteArguments(rest) == WriteArgument(rest[0]) + WriteArguments(rest[1..]);
    assert WriteArguments(args) == WriteArgument(args[0]) + WriteArguments(rest);
  }

  /** What can be read next: a chunk, but not beyond the threshold or the end of the file. */
  function NextChunk(file: bytes, pos: nat, threshold: nat): bytes
    requires pos <= |file|
  {
    var n := Min(threshold - pos, CHUNK_SIZE);
    if n <= 0 then [] else file[pos..Min(pos + n, |file|)]
  }

  datatype Sending = Sending(pos: nat, pending: nat, chunks: seq<bytes>)

  /** One more chunk handed to the socket. */
  function WithChunk(s: Sending, chunk: bytes): Sending {
    Sending(s.pos + |chunk|, s.pending + MessageSize(|chunk|), s.chunks + [chunk])
  }

  /** Chunks are sent while the socket has not got enough to write. */
  function Sent(file: bytes, s: Sending, threshold: nat, maxBytes: nat): (r: Sending)
    requires s.pos <= |file|
    ensures s.pos <= r.pos <= |file|
    decreases |file| - s.pos
  {
    if s.pending >= maxBytes then s
    else
      var chunk := NextChunk(file, s.pos, threshold);
      if chunk == [] then s
      else Sent(file, WithChunk(s, chunk), threshold, maxBytes)
  }

  lemma Slices(file: bytes, a: nat, b: nat, c: nat)
    requires a <= b <= c <= |file|
    ensures file[a..b] + file[b..c] == file[a..c]
  {
  }

  lemma ChunkIsSlice(file: bytes, pos: nat, threshold: nat)
    requires pos <= |file|
    ensures var c := NextChunk(file, pos, threshold);
      && |c| <= CHUNK_SIZE && pos + |c| <= |file| && c == file[pos..pos + |c|]
      && (c != [] ==> pos + |c| <= threshold)
      && (c == [] ==> pos >= Min(threshold, |file|))
  {
  }

  lemma SentStep(file: bytes, s: Sending, threshold: nat, maxBytes: nat, chunk: bytes)
    requires s.pos <= |file| && chunk == NextChunk(file, s.pos, threshold)
    ensures s.pos + |chunk| <= |file|
    ensures Sent(file, s, threshold, maxBytes)
      == if s.pending >= maxBytes || chunk == [] then s else Sent(file, WithChunk(s, chunk), threshold, maxBytes)
  {
    ChunkIsSlice(file, s.pos, threshold);
  }

  ghost predicate SentUpTo(file: bytes, r: Sending, start: nat, threshold: nat, from: nat) {
    start <= r.pos <= |file| && Concat(r.chunks) == file[start..r.pos] && (r.pos > from ==> r.pos <= threshold)
  }

  /**
   * The chunks are one slice of the file, up to the threshold at most; and only a full socket holds back
   * what lies before it.
   */
  lemma {:induction false} SentIsSlice(file: bytes, s: Sending, threshold: nat, maxBytes: nat, start: nat)
    requires start <= s.pos <= |file| && Concat(s.chunks) == file[start..s.pos]
    ensures var r := Sent(file, s, threshold, maxBytes);
      SentUpTo(file, r, start, threshold, s.pos) && (r.pending >= maxBytes || r.pos >= Min(threshold, |file|))
    decreases |file| - s.pos
  {
    var chunk := NextChunk(file, s.pos, threshold);
    ChunkIsSlice(file, s.pos, threshold);
    SentStep(file, s, threshold, maxBytes, chunk);
    if s.pending < maxBytes && chunk != [] {
      ConcatSnoc(s.chunks, chunk);
      Slices(file, start, s.pos, s.pos + |chunk|);
      SentIsSlice(file, WithChunk(s, chunk), threshold, maxBytes, start);
    }
  }

  lemma {:induction false} ChunksAreSmall(file: bytes, s: Sending, threshold: nat, maxBytes: nat)
    requires s.pos <= |file| && forall i :: 0 <= i < |s.chunks| ==> 0 < |s.chunks[i]| <= CHUNK_SIZE
    ensures var r := Sent(file, s, threshold, maxBytes); forall i :: 0 <= i < |r.chunks| ==> 0 < |r.chunks[i]| <= CHUNK_SIZE
    decreases |file| - s.pos
  {
    var chunk := NextChunk(file, s.pos, threshold);
    ChunkIsSlice(file, s.pos, threshold);
    SentStep(file, s, threshold, maxBytes, chunk);
    if s.pending < maxBytes && chunk != [] {
      ChunksAreSmall(file, WithChunk(s, chunk), threshold, maxBytes);
    }
  }

  // ------------------------------------------------------- a server, its files and one user

  /** `sent` is what the present subscription has been sent, which began at `start`. */
  datatype User = User(gameId: nat, file: Option<nat>, start: nat, pos: nat, pending: nat, sent: bytes)

  /** `history` has a game's file as it was at each tick since its sizes are logged. */
  datatype World = World(files: map<nat, bytes>, games: map<nat, Game>, history: map<nat, seq<bytes>>, user: User)

  const START := World(map[], map[], map[], User(0, None, 0, 0, 0, []))

  datatype Event =
    | Grow(id: nat, more: bytes)
    | SetGameInfo(id: nat, delay: int)
    | EndGame(id: nat)
    | Subscribe(id: nat, position: nat)
    | Drain(written: nat)
    | Timer(maxBytes: nat)

  function FileSize(files: map<nat, bytes>, id: nat): Option<nat> {
    if id in files then Some(|files[id]|) else None
  }

  function GameOf(games: map<nat, Game>, id: nat): Option<Game> {
    if id in games then Some(games[id]) else None
  }

  function Follows(w: World, id: nat, position: nat): User
    requires id in w.games && w.games[id].log.Some?
  {
    var log := w.games[id].log.value;
    var pos := if |log| > w.games[id].delay && log != [] then Min(position, log[0]) else 0;
    w.user.(gameId := id, file := Some(id), start := pos, pos := pos, sent := [])
  }

  /** The status that a refused subscription is answered with, if any; an accepted one gets no answer of its own. */
  function Answer(game: Option<Game>, found: bool, position: nat): Option<nat> {
    if game == None then Some(GAME_NOT_FOUND)
    else if game.value.delay < 0 then Some(LIVE_REPLAY_DISABLED)
    else if (!found || game.value.log == None) && position == 0 then Some(GAME_NOT_FOUND)
    else None
  }

  function AnswerSize(answer: Option<nat>): nat {
    if answer == None then 0 else MessageSize(0)
  }

  /** A subscription that comes before the first tick of its game is refused, but has opened the file. */
  function Subscribed(w: World, id: nat, position: nat): User {
    var u := w.user.(pending := w.user.pending + AnswerSize(Answer(GameOf(w.games, id), id in w.files, position)));
    if id !in w.games || w.games[id].delay < 0 then u
    else if id !in w.files then u.(file := None)
    else if w.games[id].log == None then u.(file := Some(id), start := 0, pos := 0, sent := [])
    else Follows(w, id, position)
  }

  function Serviced(w: World, maxBytes: nat): User
    requires w.user.file.Some? ==> w.user.file.value in w.files && w.user.pos <= |w.files[w.user.file.value]|
  {
    var u := w.user;
    if u.file == None then u
    else
      match Threshold(GameOf(w.games, u.gameId), u.pos, maxBytes)
      case None => u
      case Some(threshold) =>
        var s := Sent(w.files[u.file.value], Sending(u.pos, u.pending, []), threshold, maxBytes);
        u.(pos := s.pos, pending := s.pending, sent := u.sent + Concat(s.chunks))
  }

  function AllLogged(w: World): World
    requires forall id :: id in w.games ==> w.games[id].delay >= -1
    requires w.history.Keys == w.games.Keys
  {
    w.(games := map id | id in w.games :: Logged(w.games[id], FileSize(w.files, id)),
       history := map id | id in w.history ::
         if id in w.files then w.history[id] + [w.files[id]] else w.history[id])
  }

  // ------------------------------------------------------- what every run keeps

  /** A file that only grows. */
  ghost predicate Grown(h: seq<bytes>, file: bytes) {
    && (forall i, j :: 0 <= i <= j < |h| ==> h[i] <= h[j])
    && (forall i :: 0 <= i < |h| ==> h[i] <= file)
  }

  /** The log has the sizes at the latest ticks. */
  ghost predicate LogOf(log: seq<nat>, h: seq<bytes>) {
    |log| <= |h| && forall i :: 0 <= i < |log| ==> log[i] == |h[|h| - |log| + i]|
  }

  ghost predicate GameSound(w: World, id: nat)
    requires id in w.games && id in w.history
  {
    && w.games[id].delay >= -1
    && match w.games[id].log
       case None => w.history[id] == []
       case Some(log) => id in w.files && LogOf(log, w.history[id]) && Grown(w.history[id], w.files[id])
  }

  /** What was sent is one slice of the file, from where the subscription began. */
  ghost predicate UserSound(w: World) {
    var u := w.user;
    u.file.Some? ==>
      && u.file.value in w.files
      && u.start <= u.pos <= |w.files[u.file.value]|
      && u.sent == w.files[u.file.value][u.start..u.pos]
  }

  ghost predicate Sound(w: World) {
    && w.history.Keys == w.games.Keys
    && (forall id :: id in w.games ==> GameSound(w, id))
    && UserSound(w)
  }

  predicate Enabled(e: Event) {
    e.SetGameInfo? ==> e.delay >= -1
  }

  function Next(w: World, e: Event): World
    requires Sound(w) && Enabled(e)
  {
    match e
    case Grow(id, more) => w.(files := w.files[id := (if id in w.files then w.files[id] else []) + more])
    case SetGameInfo(id, delay) =>
      if id in w.games then w.(games := w.games[id := w.games[id].(delay := delay)])
      else w.(games := w.games[id := Game(delay, None)], history := w.history[id := []])
    case EndGame(id) => w.(games := w.games - {id}, history := w.history - {id})
    case Subscribe(id, position) => w.(user := Subscribed(w, id, position))
    case Drain(written) => w.(user := w.user.(pending := if written < w.user.pending then w.user.pending - written else 0))
    case Timer(maxBytes) =>
      var l := AllLogged(w);
      l.(user := Serviced(l, maxBytes))
  }

  lemma LogAppend(log: seq<nat>, h: seq<bytes>, file: bytes)
    requires LogOf(log, h)
    ensures LogOf(log + [|file|], h + [file])
  {
  }

  lemma LogTrim(log: seq<nat>, h: seq<bytes>, required: nat)
    requires LogOf(log, h)
    ensures LogOf(Trimmed(log, required), h)
  {
    var t := Trimmed(log, required);
    forall i | 0 <= i < |t|
      ensures t[i] == |h[|h| - |t| + i]|
    {
      assert t[i] == log[|log| - |t| + i];
    }
  }

  lemma GrownAppend(h: seq<bytes>, file: bytes)
    requires Grown(h, file)
    ensures Grown(h + [file], file)
  {
  }

  lemma LoggedIsSound(w: World, id: nat)
    requires Sound(w) && id in w.games
    ensures var l := AllLogged(w); id in l.games && id in l.history && GameSound(l, id)
  {
    assert GameSound(w, id);
    if id in w.files {
      var g, h, file := w.games[id], w.history[id], w.files[id];
      var log := if g.log == None then [] else g.log.value;
      LogAppend(log, h, file);
      LogTrim(log + [|file|], h + [file], 1 + g.delay);
      GrownAppend(h, file);
      assert [] + [|file|] == [|file|];
    }
  }

  lemma AllLoggedIsSound(w: World)
    requires Sound(w)
    ensures Sound(AllLogged(w))
  {
    forall id | id in w.games
      ensures GameSound(AllLogged(w), id)
    {
      LoggedIsSound(w, id);
    }
  }

  lemma ServicedIsSound(w: World, maxBytes: nat)
    requires Sound(w)
    ensures Sound(w.(user := Serviced(w, maxBytes)))
  {
    var u := w.user;
    if u.file.Some? {
      var file := w.files[u.file.value];
      match Threshold(GameOf(w.games, u.gameId), u.pos, maxBytes)
      case None =>
      case Some(threshold) =>
        SentIsSlice(file, Sending(u.pos, u.pending, []), threshold, maxBytes, u.pos);
        Slices(file, u.start, u.pos, Serviced(w, maxBytes).pos);
    }
    assert forall id :: id in w.games ==> GameSound(w, id) ==> GameSound(w.(user := Serviced(w, maxBytes)), id);
  }

  lemma GrowIsSound(w: World, id: nat, more: bytes)
    requires Sound(w)
    ensures Sound(Next(w, Grow(id, more)))
  {
    var n := Next(w, Grow(id, more));
    forall g | g in w.games
      ensures GameSound(n, g)
    {
      assert GameSound(w, g);
    }
    if w.user.file.Some? && w.user.file.value == id {
      assert n.files[id][w.user.start..w.user.pos] == w.files[id][w.user.start..w.user.pos];
    }
  }

  lemma UserStepIsSound(w: World, u: User)
    requires Sound(w) && UserSound(w.(user := u))
    ensures Sound(w.(user := u))
  {
    forall g | g in w.games
      ensures GameSound(w.(user := u), g)
    {
      assert GameSound(w, g);
    }
  }

  lemma GamesStepIsSound(w: World, e: Event)
    requires Sound(w) && Enabled(e) && (e.SetGameInfo? || e.EndGame?)
    ensures Sound(Next(w, e))
  {
    forall g | g in Next(w, e).games
      ensures GameSound(Next(w, e), g)
    {
      assert g in w.games ==> GameSound(w, g);
    }
  }

  lemma SubscribedIsSound(w: World, id: nat, position: nat)
    requires Sound(w)
    ensures UserSound(w.(user := Subscribed(w, id, position)))
  {
    if id in w.games {
      assert GameSound(w, id);
    }
  }

  lemma NextIsSound(w: World, e: Event)
    requires Sound(w) && Enabled(e)
    ensures Sound(Next(w, e))
  {
    match e
    case Grow(id, more) => GrowIsSound(w, id, more);
    case SetGameInfo(_, _) => GamesStepIsSound(w, e);
    case EndGame(_) => GamesStepIsSound(w, e);
    case Subscribe(id, position) =>
      SubscribedIsSound(w, id, position);
      UserStepIsSound(w, Subscribed(w, id, position));
    case Drain(_) => UserStepIsSound(w, Next(w, e).user);
    case Timer(maxBytes) =>
      AllLoggedIsSound(w);
      ServicedIsSound(AllLogged(w), maxBytes);
  }

  // ------------------------------------------------------- the escrow

  /** The user's open file is that of the game it is taken to follow. */
  predicate Bound(u: User) {
    u.file.Some? ==> u.file.value == u.gameId
  }

  /** The game's file is there, but its first tick has not come yet. */
  predicate Early(w: World, id: nat) {
    id in w.games && w.games[id].delay >= 0 && id in w.files && w.games[id].log == None
  }

  /** All that the tick sends was in the file `delay` ticks before, at the same place. */
  ghost predicate Escrowed(h: seq<bytes>, delay: int, from: nat, to: nat, file: bytes) {
    && 0 <= delay < |h|
    && to <= |h[|h| - 1 - delay]|
    && from <= to <= |file|
    && h[|h| - 1 - delay][from..to] == file[from..to]
  }

  lemma FrontIsOld(w: World, id: nat, pos: nat, maxBytes: nat)
    requires id in w.games && id in w.history && GameSound(w, id)
    requires Threshold(Some(w.games[id]), pos, maxBytes).Some?
    ensures var h, d := w.history[id], w.games[id].delay;
      d < |h| && (0 <= d ==> Threshold(Some(w.games[id]), pos, maxBytes).value <= |h[|h| - 1 - d]|)
  {
    var log, h := w.games[id].log.value, w.history[id];
    assert log[0] == |h[|h| - |log|]|;
    if 0 <= w.games[id].delay {
      assert h[|h| - |log|] <= h[|h| - 1 - w.games[id].delay];
    }
  }

  /** What a follower of a live game is sent, once this tick's sizes are logged. */
  lemma ServicedKeepsEscrow(l: World, id: nat, maxBytes: nat)
    requires Sound(l) && l.user.file == Some(id) && l.user.gameId == id && id in l.games && l.games[id].delay >= 0
    ensures var u := Serviced(l, maxBytes);
      u.pos > l.user.pos ==> Escrowed(l.history[id], l.games[id].delay, l.user.pos, u.pos, l.files[id])
  {
    assert GameSound(l, id);
    match Threshold(GameOf(l.games, id), l.user.pos, maxBytes)
    case None =>
    case Some(threshold) =>
      FrontIsOld(l, id, l.user.pos, maxBytes);
      SentIsSlice(l.files[id], Sending(l.user.pos, l.user.pending, []), threshold, maxBytes, l.user.pos);
  }

  /** With a delay of no seconds or more, what a live game's follower is sent is as old as the delay asks for. */
  lemma TimerKeepsEscrow(w: World, maxBytes: nat)
    requires Sound(w) && Bound(w.user) && w.user.file.Some? && w.user.gameId in w.games
    requires w.games[w.user.gameId].delay >= 0
    ensures var n := Next(w, Timer(maxBytes)); var id := w.user.gameId;
      n.user.pos > w.user.pos ==> Escrowed(n.history[id], n.games[id].delay, w.user.pos, n.user.pos, n.files[id])
  {
    AllLoggedIsSound(w);
    ServicedKeepsEscrow(AllLogged(w), w.user.gameId, maxBytes);
  }

  /** A hidden game's followers are sent nothing. */
  lemma HiddenSendsNothing(w: World, maxBytes: nat)
    requires Sound(w) && w.user.gameId in w.games && w.games[w.user.gameId].delay == -1
    ensures Next(w, Timer(maxBytes)).user == w.user
  {
  }

  /** The user stays bound, except by subscribing to another game before its first tick. */
  lemma BoundUnlessEarly(w: World, e: Event)
    requires Sound(w) && Enabled(e) && Bound(w.user)
    ensures Bound(Next(w, e).user) <==> !(e.Subscribe? && Early(w, e.id) && w.user.gameId != e.id)
  {
  }

  /** A log of later ticks that is not longer starts with a size that is not smaller. */
  lemma LaterFront(log: seq<nat>, h: seq<bytes>, late: seq<nat>, file: bytes)
    requires LogOf(log, h) && LogOf(late, h + [file]) && Grown(h + [file], file)
    requires log != [] && late != [] && |late| <= |log| + 1
    ensures log[0] <= late[0]
  {
    var k := h + [file];
    assert log[0] == |k[|h| - |log|]|;
    assert late[0] == |k[|k| - |late|]|;
    assert k[|h| - |log|] <= k[|k| - |late|];
  }

  lemma TickedFront(w: World, id: nat)
    requires Sound(w) && id in w.games
    requires w.games[id].log.Some? && w.games[id].log.value != []
    ensures var late := AllLogged(w).games[id].log;
      late.Some? && (late.value != [] ==> w.games[id].log.value[0] <= late.value[0])
  {
    var l := AllLogged(w);
    LoggedIsSound(w, id);
    assert GameSound(w, id);
    if l.games[id].log.value != [] {
      LaterFront(w.games[id].log.value, w.history[id], l.games[id].log.value, w.files[id]);
    }
  }

  /** The front of the log, once there, never falls while the game is monitored. */
  lemma FrontNeverFalls(w: World, e: Event, id: nat)
    requires Sound(w) && Enabled(e) && id in w.games && id in Next(w, e).games
    requires w.games[id].log.Some? && w.games[id].log.value != []
    requires Next(w, e).games[id].log.Some? && Next(w, e).games[id].log.value != []
    ensures w.games[id].log.value[0] <= Next(w, e).games[id].log.value[0]
  {
    if e.Timer? {
      TickedFront(w, id);
    }
  }

  // ------------------------------------------------------- runs

  predicate Timely(w: World, e: Event) {
    !(e.Subscribe? && Early(w, e.id) && w.user.gameId != e.id)
  }

  /** A run in which nobody subscribes to another game between its announcement and its first tick. */
  ghost predicate TimelyRun(w: World, es: seq<Event>)
    requires Sound(w)
    decreases |es|
  {
    es == [] || (Enabled(es[0]) && Timely(w, es[0]) && (NextIsSound(w, es[0]); TimelyRun(Next(w, es[0]), es[1..])))
  }

  ghost function Run(w: World, es: seq<Event>): (r: World)
    requires Sound(w) && TimelyRun(w, es)
    ensures Sound(r)
    decreases |es|
  {
    if es == [] then w
    else
      NextIsSound(w, es[0]);
      Run(Next(w, es[0]), es[1..])
  }

  lemma {:induction false} RunStaysBound(w: World, es: seq<Event>)
    requires Sound(w) && TimelyRun(w, es) && Bound(w.user)
    ensures Bound(Run(w, es).user)
    decreases |es|
  {
    if es != [] {
      NextIsSound(w, es[0]);
      BoundUnlessEarly(w, es[0]);
      RunStaysBound(Next(w, es[0]), es[1..]);
    }
  }

  /** A tick that sends only what the delay of the open file's game allows, if that game is live. */
  ghost predicate TickKept(w: World, maxBytes: nat)
    requires Sound(w)
  {
    var n := Next(w, Timer(maxBytes));
    w.user.file.Some? && w.user.file.value in w.games && n.user.pos > w.user.pos ==>
      var f := w.user.file.value;
      Escrowed(n.history[f], n.games[f].delay, w.user.pos, n.user.pos, n.files[f])
  }

  lemma BoundTickKept(w: World, maxBytes: nat)
    requires Sound(w) && Bound(w.user)
    ensures TickKept(w, maxBytes)
  {
    if w.user.file.Some? && w.user.gameId in w.games {
      assert GameSound(w, w.user.gameId);
      if w.games[w.user.gameId].delay >= 0 {
        TimerKeepsEscrow(w, maxBytes);
      } else {
        HiddenSendsNothing(w, maxBytes);
      }
    }
  }

  /** Every tick of the run keeps the escrow. */
  ghost predicate KeepsEscrow(w: World, es: seq<Event>)
    requires Sound(w) && TimelyRun(w, es)
    decreases |es|
  {
    es == [] ||
    ((es[0].Timer? ==> TickKept(w, es[0].maxBytes)) && (NextIsSound(w, es[0]); KeepsEscrow(Next(w, es[0]), es[1..])))
  }

  lemma {:induction false} BoundRunKeeps(w: World, es: seq<Event>)
    requires Sound(w) && TimelyRun(w, es) && Bound(w.user)
    ensures KeepsEscrow(w, es)
    decreases |es|
  {
    if es != [] {
      if es[0].Timer? { BoundTickKept(w, es[0].maxBytes); }
      NextIsSound(w, es[0]);
      BoundUnlessEarly(w, es[0]);
      BoundRunKeeps(Next(w, es[0]), es[1..]);
    }
  }

  /** In every such run, also when the delay is changed on the way, each tick keeps the escrow of a live game. */
  lemma EscrowHolds(es: seq<Event>)
    requires Sound(START) && TimelyRun(START, es)
    ensures Bound(Run(START, es).user) && KeepsEscrow(START, es)
  {
    RunStaysBound(START, es);
    BoundRunKeeps(START, es);
  }

  // ------------------------------------------------------- the exception, exactly

  lemma SentMoves(file: bytes, s: Sending, threshold: nat, maxBytes: nat)
    requires s.pos <= |file|
    ensures Sent(file, s, threshold, maxBytes).pos > s.pos <==> s.pending < maxBytes && s.pos < Min(threshold, |file|)
  {
    var chunk := NextChunk(file, s.pos, threshold);
    ChunkIsSlice(file, s.pos, threshold);
    SentStep(file, s, threshold, maxBytes, chunk);
  }

  /** Nothing of the file `f` can be sent by the next tick, when the socket has `pending` bytes to write. */
  predicate Stopped(w: World, f: nat, pending: nat, maxBytes: nat)
    requires f in w.files && Sound(w)
  {
    var shown := Threshold(GameOf(AllLogged(w).games, w.user.gameId), 0, maxBytes);
    shown == None || shown == Some(0) || w.files[f] == [] || pending >= maxBytes
  }

  /**
   * The first tick after an early subscription to another game keeps the escrow if and only if that game
   * has no delay, or the tick can send nothing.
   */
  lemma EarlyTick(w: World, id: nat, position: nat, maxBytes: nat)
    requires Sound(w) && Early(w, id) && w.user.gameId != id
    ensures Sound(Next(w, Subscribe(id, position)))
    ensures TickKept(Next(w, Subscribe(id, position)), maxBytes) <==>
      w.games[id].delay == 0
      || Stopped(w, id, w.user.pending + (if position == 0 then MessageSize(0) else 0), maxBytes)
  {
    var a := Next(w, Subscribe(id, position));
    NextIsSound(w, Subscribe(id, position));
    assert GameSound(w, id);
    var l, file := AllLogged(a), w.files[id];
    assert l.history[id] == [file];
    match Threshold(GameOf(l.games, a.user.gameId), 0, maxBytes)
    case None =>
    case Some(threshold) => SentMoves(file, Sending(0, a.user.pending, []), threshold, maxBytes);
  }

  /** Some run goes on from here, in which every subscription is timely, and breaks the escrow. */
  ghost predicate CanBreak(w: World)
    requires Sound(w)
  {
    exists es :: TimelyRun(w, es) && !KeepsEscrow(w, es)
  }

  lemma BreaksFirst(w: World, es: seq<Event>)
    requires Sound(w) && TimelyRun(w, es) && es != [] && es[0].Timer? && !TickKept(w, es[0].maxBytes)
    ensures !KeepsEscrow(w, es)
  {
  }

  lemma BreaksNow(w: World, maxBytes: nat)
    requires Sound(w) && !TickKept(w, maxBytes)
    ensures CanBreak(w)
  {
    var es := [Timer(maxBytes)];
    NextIsSound(w, es[0]);
    assert es[1..] == [];
    BreaksFirst(w, es);
  }

  lemma BreaksLater(w: World, e: Event)
    requires Sound(w) && Enabled(e) && Timely(w, e) && Sound(Next(w, e)) && CanBreak(Next(w, e))
    ensures CanBreak(w)
  {
    var es :| TimelyRun(Next(w, e), es) && !KeepsEscrow(Next(w, e), es);
    assert ([e] + es)[1..] == es;
    assert TimelyRun(w, [e] + es) && !KeepsEscrow(w, [e] + es);
  }

  /** The user reads the file of a live game that is not the one it is taken to follow. */
  ghost predicate Strayed(w: World, f: nat) {
    && Sound(w) && w.user.file == Some(f) && w.user.gameId != f && w.user.pos == 0
    && f in w.games && w.games[f].log == None
  }

  lemma StrayedBreaks(w: World, f: nat)
    requires Strayed(w, f) && w.user.gameId !in w.games && w.user.pending == 0
    requires w.games[f].delay == 1 && w.files[f] != []
    ensures !TickKept(w, 1)
  {
    assert GameSound(w, f);
    var l, file := AllLogged(w), w.files[f];
    assert l.history[f] == [file];
    SentMoves(file, Sending(0, 0, []), 1, 1);
  }

  /** Once the other game has ended, a delay given to the strayed game is not kept. */
  lemma StrayedCanBreak(w: World, f: nat)
    requires Strayed(w, f)
    ensures CanBreak(w)
  {
    var g := w.user.gameId;
    NextIsSound(w, EndGame(g));
    var a := Next(w, EndGame(g));
    NextIsSound(a, Drain(a.user.pending));
    var b := Next(a, Drain(a.user.pending));
    NextIsSound(b, SetGameInfo(f, 1));
    var c := Next(b, SetGameInfo(f, 1));
    NextIsSound(c, Grow(f, [0]));
    var d := Next(c, Grow(f, [0]));
    StrayedBreaks(d, f);
    BreaksNow(d, 1);
    BreaksLater(c, Grow(f, [0]));
    BreaksLater(b, SetGameInfo(f, 1));
    BreaksLater(a, Drain(a.user.pending));
    BreaksLater(w, EndGame(g));
  }

  /**
   * An event is harmless, in that no run of timely subscriptions after it can ever break the escrow, if and
   * only if it is not an early subscription to another game.
   */
  lemma EscrowExactly(w: World, e: Event)
    requires Sound(w) && Enabled(e) && Bound(w.user)
    ensures Sound(Next(w, e))
    ensures Timely(w, e) <==> !CanBreak(Next(w, e))
  {
    NextIsSound(w, e);
    var n := Next(w, e);
    BoundUnlessEarly(w, e);
    if Timely(w, e) {
      forall es | TimelyRun(n, es)
        ensures KeepsEscrow(n, es)
      {
        BoundRunKeeps(n, es);
      }
    } else {
      StrayedCanBreak(n, e.id);
    }
  }

  const HASTY: World :=
    World(map[1 := [7]], map[1 := Game(300, None)], map[1 := []], User(0, None, 0, 0, 0, []))

  /** A file and the announcement of its game lead there. */
  lemma HastyIsReached()
    ensures Sound(START) && Sound(Next(START, Grow(1, [7])))
    ensures Next(Next(START, Grow(1, [7])), SetGameInfo(1, 300)) == HASTY && Sound(HASTY)
  {
    GrowIsSound(START, 1, [7]);
    assert [] + [7] == [7];
    assert Next(START, Grow(1, [7])).files == map[1 := [7]];
  }

  lemma OneByteIsSent(pending: nat)
    requires pending == MessageSize(0)
    ensures Sent([7], Sending(0, pending, []), 1000, 1000) == Sending(1, pending + MessageSize(1), [[7]])
  {
    assert NextChunk([7], 0, 1000) == [7];
    SentStep([7], Sending(0, pending, []), 1000, 1000, [7]);
    assert WithChunk(Sending(0, pending, []), [7]) == Sending(1, pending + MessageSize(1), [[7]]);
    SentStep([7], Sending(1, pending + MessageSize(1), [[7]]), 1000, 1000, []);
  }

  /** The exception is real: a subscription before the first tick is sent the file with no delay at all. */
  lemma EarlyIsNotHeldBack()
    requires Sound(HASTY)
    ensures var b := Next(HASTY, Subscribe(1, 0)); Sound(b) && !Bound(b.user) && Next(b, Timer(1000)).user.sent == [7]
  {
    NextIsSound(HASTY, Subscribe(1, 0));
    OneByteIsSent(MessageSize(0));
    ConcatSnoc([], [7]);
    assert [] + [[7]] == [[7]];
  }
}
