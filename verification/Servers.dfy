/** The whole server as a value: all sessions, the next id and the store. */
module Servers {
  import opened Options
  import opened Sessions
  import opened Database

  datatype Server = Server(sessions: map<int, Session>, nextGameId: int, db: Db)

  const EMPTY_SERVER := Server(map[], 1, Db([], [], []))

  /** A restart keeps the store and nothing else: ids start at 1 again. */
  datatype ServerRequest =
    | Restart
    | Register(name: string, password: string)
    | Create(maxPlayers: Option<int>, now: int)
    | At(gameId: int, q: Request)

  // ---------- writing a finished game to the store ----------

  function Duration(s: Session, now: int): int {
    if s.startTime > 0 then now - s.startTime else 0
  }

  function SeatRow(s: Session, i: nat, userId: int): StatsRow
    requires Seated(s) && i < s.currentPlayers
  {
    StatsRow(userId, s.gameId, i == 0, |s.table.hands[i]|, 0, s.won && |s.table.hands[i]| == 0)
  }

  /** A seat whose name belongs to no user leaves no trace. */
  function SaveSeat(db: Db, s: Session, i: nat, duration: int): Db
    requires Seated(s) && i < s.currentPlayers
  {
    match FindUser(db.users, s.playerNames[i])
    case None => db
    case Some(id) =>
      var row := SeatRow(s, i, id);
      UpdateUserStats(SavePlayerStats(db, row), id, row.won, row.finalCards, duration)
  }

  /** The store after the first n seats. */
  function SaveSeats(db: Db, s: Session, n: nat, duration: int): Db
    requires Seated(s) && n <= s.currentPlayers
  {
    if n == 0 then db else SaveSeat(SaveSeats(db, s, n - 1, duration), s, n - 1, duration)
  }

  function SaveGame(db: Db, s: Session, now: int): Db
    requires Seated(s)
  {
    var duration := Duration(s, now);
    var closed := FinishSession(db, s.gameId, s.won, |s.table.deck|, 0, now, duration).0;
    SaveSeats(closed, s, s.currentPlayers, duration)
  }

  /** Finishing a session, and nothing else a session does, writes to the store. */
  function Settled(before: Status, after: Session, db: Db, now: int): Db
    requires Seated(after)
  {
    if before != Status.Finished && after.status == Status.Finished then SaveGame(db, after, now) else db
  }

  // ---------- one request ----------

  ghost predicate AllSeated(srv: Server) {
    forall id :: id in srv.sessions ==> Seated(srv.sessions[id])
  }

  function CreateGame(srv: Server, maxPlayers: Option<int>, now: int): (Server, Response) {
    var seats := match maxPlayers case Some(n) => n case None => 4;
    if seats < 2 || seats > 5 then (srv, InvalidMaxPlayers)
    else
      var id := srv.nextGameId;
      (Server(srv.sessions[id := NewSession(id, seats)], id + 1, CreateWaitingSession(srv.db, now)), Created(id))
  }

  /** The server after one session moved to a next state and the store was settled. */
  function Installed(srv: Server, id: int, next: Session, now: int): Server
    requires id in srv.sessions && Seated(next)
  {
    Server(srv.sessions[id := next], srv.nextGameId, Settled(srv.sessions[id].status, next, srv.db, now))
  }

  function Dispatch(srv: Server, gameId: int, q: Request): (Server, Response)
    requires AllSeated(srv)
  {
    if gameId !in srv.sessions then (srv, NotFound)
    else
      var r := Step(srv.sessions[gameId], q);
      (Installed(srv, gameId, r.0, q.now), r.1)
  }

  function ServerStep(srv: Server, q: ServerRequest): (r: Server)
    requires AllSeated(srv)
    ensures AllSeated(r)
  {
    match q
    case Restart => Server(map[], 1, srv.db)
    case Register(name, password) => srv.(db := RegisterUser(srv.db, name, password).0)
    case Create(maxPlayers, now) => CreateGame(srv, maxPlayers, now).0
    case At(gameId, sq) => Dispatch(srv, gameId, sq).0
  }

  function ServerRun(srv: Server, qs: seq<ServerRequest>): (r: Server)
    requires AllSeated(srv)
    ensures AllSeated(r)
  {
    if qs == [] then srv else ServerStep(ServerRun(srv, qs[..|qs| - 1]), qs[|qs| - 1])
  }
}
