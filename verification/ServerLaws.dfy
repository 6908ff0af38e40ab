/** Facts about the whole server: isolation of sessions and what the store says about finished games. */
module ServerLaws {
  import opened Options
  import opened TableLaws
  import opened Sessions
  import opened SessionLaws
  import opened SessionTheorems
  import opened Database
  import opened Servers

  // ---------- isolation ----------

  /** Two to five seats can be asked for, none asked for means four; the session gets the next id and waits. */
  lemma CreateAnswers(srv: Server, maxPlayers: Option<int>, now: int)
    ensures var (after, r) := CreateGame(srv, maxPlayers, now);
            && (r.Created? <==> maxPlayers.None? || 2 <= maxPlayers.value <= 5)
            && (r.Created? || r == InvalidMaxPlayers)
            && (if r.Created? then
                  && r.id == srv.nextGameId && after.nextGameId == srv.nextGameId + 1
                  && after.sessions.Keys == srv.sessions.Keys + {r.id}
                  && (forall id :: id in srv.sessions && id != r.id ==> after.sessions[id] == srv.sessions[id])
                  && after.sessions[r.id].maxPlayers == (if maxPlayers.None? then 4 else maxPlayers.value)
                  && after.sessions[r.id].status == Status.Waiting && after.sessions[r.id].currentPlayers == 0
                else after == srv)
  {
  }

  /** The requests of a list that address one session. */
  function Addressed(qs: seq<ServerRequest>, id: int): seq<Request> {
    if qs == [] then []
    else
      var front := Addressed(qs[..|qs| - 1], id);
      match qs[|qs| - 1]
      case At(gameId, q) => if gameId == id then front + [q] else front
      case _ => front
  }

  /** Ids are handed out in order from 1, each key is its session's id, and no seat is overbooked. */
  ghost predicate Keyed(srv: Server) {
    && srv.nextGameId >= 1
    && (forall id :: id in srv.sessions <==> 1 <= id < srv.nextGameId)
    && (forall id :: id in srv.sessions ==> srv.sessions[id].gameId == id && Inv(srv.sessions[id]))
  }

  lemma KeyedIsSeated(srv: Server)
    requires Keyed(srv)
    ensures AllSeated(srv)
  {
  }

  lemma StepKeepsKeyed(srv: Server, q: ServerRequest)
    requires Keyed(srv)
    ensures Keyed(ServerStep(srv, q))
  {
    match q
    case Restart =>
    case Register(_, _) =>
    case Create(maxPlayers, _) =>
      var seats := match maxPlayers case Some(n) => n case None => 4;
      if 2 <= seats <= 5 { NewSessionInv(srv.nextGameId, seats); }
    case At(gameId, sq) =>
      if gameId in srv.sessions { StepKeepsInv(srv.sessions[gameId], sq); }
  }

  lemma {:induction false} RunKeepsKeyed(srv: Server, qs: seq<ServerRequest>)
    requires Keyed(srv)
    ensures Keyed(ServerRun(srv, qs))
  {
    if qs == [] {
    } else {
      RunKeepsKeyed(srv, qs[..|qs| - 1]);
      StepKeepsKeyed(ServerRun(srv, qs[..|qs| - 1]), qs[|qs| - 1]);
    }
  }

  ghost predicate NoRestart(qs: seq<ServerRequest>) {
    forall i :: 0 <= i < |qs| ==> !qs[i].Restart?
  }

  /** One request moves the session it addresses by one step and no other session. */
  lemma StepMoves(srv: Server, q: ServerRequest, id: int)
    requires Keyed(srv) && AllSeated(srv) && id in srv.sessions && !q.Restart?
    ensures id in ServerStep(srv, q).sessions
    ensures ServerStep(srv, q).sessions[id] ==
            if q.At? && q.gameId == id then Step(srv.sessions[id], q.q).0 else srv.sessions[id]
  {
    hide Step, Settled, Inv;
  }

  /** Between restarts a session of a busy server behaves as if it were alone and received only its own requests. */
  lemma {:induction false} Isolation(srv: Server, qs: seq<ServerRequest>, id: int)
    requires Keyed(srv) && id in srv.sessions && NoRestart(qs)
    ensures id in ServerRun(srv, qs).sessions
    ensures ServerRun(srv, qs).sessions[id] == Run(srv.sessions[id], Addressed(qs, id))
  {
    hide Step, ServerStep, Keyed, Inv;
    KeyedIsSeated(srv);
    if qs == [] {
    } else {
      var front, q := qs[..|qs| - 1], qs[|qs| - 1];
      Isolation(srv, front, id);
      RunKeepsKeyed(srv, front);
      StepMoves(ServerRun(srv, front), q, id);
      var mine := Addressed(front, id);
      if q.At? && q.gameId == id {
        assert (mine + [q.q])[..|mine|] == mine;
      }
    }
  }

  predicate Forces(q: ServerRequest, id: int) {
    q.At? && q.gameId == id && q.q.ForceWin?
  }

  /** No request since the last restart forces the win of this session. */
  ghost predicate NotForced(qs: seq<ServerRequest>, id: int) {
    forall i :: 0 <= i < |qs| && Forces(qs[i], id) ==> exists j :: i < j < |qs| && qs[j].Restart?
  }

  /** A session that appears is new. */
  lemma StepCreates(srv: Server, q: ServerRequest, id: int)
    requires AllSeated(srv) && id !in srv.sessions && id in ServerStep(srv, q).sessions
    ensures !q.Restart?
    ensures var s := ServerStep(srv, q).sessions[id];
            2 <= s.maxPlayers <= 5 && s == NewSession(id, s.maxPlayers)
  {
    hide Step, Settled;
  }

  lemma NotForcedBefore(front: seq<ServerRequest>, q: ServerRequest, id: int)
    requires NotForced(front + [q], id) && !q.Restart?
    ensures NotForced(front, id) && !Forces(q, id)
  {
    var qs := front + [q];
    assert !Forces(qs[|front|], id);
    forall i | 0 <= i < |front| && Forces(front[i], id) ensures exists j :: i < j < |front| && front[j].Restart? {
      assert Forces(qs[i], id);
      var j :| i < j < |qs| && qs[j].Restart?;
      assert front[j].Restart?;
    }
  }

  /** Every session of a server that started empty is a session run from its creation, so all that holds of
      session runs holds of it. */
  lemma {:induction false} SessionHistory(qs: seq<ServerRequest>, id: int)
    returns (maxPlayers: int, mine: seq<Request>)
    requires id in ServerRun(EMPTY_SERVER, qs).sessions
    ensures 2 <= maxPlayers <= 5
    ensures ServerRun(EMPTY_SERVER, qs).sessions[id] == Run(NewSession(id, maxPlayers), mine)
    ensures NotForced(qs, id) ==> Unforced(mine)
    decreases |qs|
  {
    hide Step, Settled, Keyed, NotForced;
    var front, q := qs[..|qs| - 1], qs[|qs| - 1];
    assert qs == front + [q];
    var srv := ServerRun(EMPTY_SERVER, front);
    if id in srv.sessions && !q.Restart? {
      hide ServerStep;
      EmptyServerKeyed();
      RunKeepsKeyed(EMPTY_SERVER, front);
      StepMoves(srv, q, id);
      maxPlayers, mine := SessionHistory(front, id);
      if NotForced(qs, id) {
        NotForcedBefore(front, q, id);
      }
      if q.At? && q.gameId == id {
        assert (mine + [q.q])[..|mine|] == mine;
        mine := mine + [q.q];
      }
    } else {
      StepCreates(srv, q, id);
      maxPlayers, mine := ServerStep(srv, q).sessions[id].maxPlayers, [];
    }
  }

  lemma EmptyServerKeyed()
    ensures Keyed(EMPTY_SERVER)
  {
  }

  /** Card conservation and win correctness for every session of a busy server whose win nobody forces. */
  lemma EverySessionFaithful(qs: seq<ServerRequest>, id: int)
    requires id in ServerRun(EMPTY_SERVER, qs).sessions && NotForced(qs, id)
    ensures Faithful(ServerRun(EMPTY_SERVER, qs).sessions[id])
  {
    var maxPlayers, mine := SessionHistory(qs, id);
    RunFaithful(id, maxPlayers, mine);
  }

  // ---------- scores ----------

  /** What the store of a running server satisfies about its users and history. */
  ghost predicate Tallied(u: User) {
    && u.won >= 0 && u.lost >= 0 && u.played == u.won + u.lost
    && u.score == Bucket(u.won, u.played)
  }

  ghost predicate StatsInv(db: Db) {
    && (forall i :: 0 <= i < |db.users| ==> Tallied(db.users[i]))
    && (forall i :: 0 <= i < |db.stats| ==> 0 <= db.stats[i].finalCards <= MAX_HAND)
    && (forall i, j :: 0 <= i < j < |db.users| ==> db.users[i].username != db.users[j].username)
  }

  lemma {:induction false} LossesBounded(stats: seq<StatsRow>, userId: int)
    requires forall i :: 0 <= i < |stats| ==> 0 <= stats[i].finalCards <= MAX_HAND
    ensures Losses(stats, userId).0 <= MAX_HAND * Losses(stats, userId).1
  {
    if stats == [] {
    } else {
      LossesBounded(stats[..|stats| - 1], userId);
    }
  }

  /** With hands of at most eight cards neither penalty ever applies: the score is the win-rate bucket. */
  lemma ScoreCollapses(won: int, played: int, lost: int, losses: (int, nat), cardsLeft: int)
    requires losses.0 <= MAX_HAND * losses.1 && cardsLeft <= MAX_HAND
    ensures Score(won, played, lost, losses, cardsLeft) == Bucket(won, played)
  {
  }

  lemma CreditedTallied(u: User, won: bool, duration: int, losses: (int, nat), cardsLeft: int)
    requires Tallied(u) && losses.0 <= MAX_HAND * losses.1 && cardsLeft <= MAX_HAND
    ensures Tallied(Credited(u, won, duration, losses, cardsLeft))
  {
    var next := Credited(u, won, duration, losses, cardsLeft);
    ScoreCollapses(next.won, next.played, next.lost, losses, cardsLeft);
  }

  /** In a store kept by the server, recording a win never lowers the score and recording a loss never raises it. */
  lemma ScoreMonotone(db: Db, userId: int, cardsLeft: int, duration: int)
    requires StatsInv(db) && KnownUser(db, userId) && 0 <= cardsLeft <= MAX_HAND
    ensures UpdateUserStats(db, userId, true, cardsLeft, duration).users[userId - 1].score >= db.users[userId - 1].score
    ensures UpdateUserStats(db, userId, false, cardsLeft, duration).users[userId - 1].score <= db.users[userId - 1].score
  {
    var u := db.users[userId - 1];
    var losses := Losses(db.stats, userId);
    LossesBounded(db.stats, userId);
    ScoreCollapses(u.won + 1, u.played + 1, u.lost, losses, cardsLeft);
    ScoreCollapses(u.won, u.played + 1, u.lost + 1, losses, cardsLeft);
  }

  // ---------- one saved game ----------

  /** A finished session as the store sees it: small hands, and none left in a won game. */
  ghost predicate Saveable(s: Session) {
    && Seated(s)
    && HandsBounded(s.table.hands)
    && (s.won ==> forall i :: 0 <= i < |s.table.hands| ==> s.table.hands[i] == [])
  }

  /** How many of the first n seats carry a name. */
  function SeatsNamed(names: seq<string>, name: string): nat {
    if names == [] then 0
    else SeatsNamed(names[..|names| - 1], name) + if names[|names| - 1] == name then 1 else 0
  }

  ghost predicate SameNames(db: Db, after: Db) {
    |after.users| == |db.users| &&
    forall i :: 0 <= i < |db.users| ==> after.users[i].username == db.users[i].username
  }

  function Repeated(n: nat, duration: int): int {
    if n == 0 then 0 else Repeated(n - 1, duration) + duration
  }

  /** User k gained n games, all with the same outcome. */
  ghost predicate Gained(db: Db, after: Db, k: nat, won: bool, n: nat, duration: int)
    requires k < |db.users| && |after.users| == |db.users|
  {
    && after.users[k].won == db.users[k].won + (if won then n else 0)
    && after.users[k].lost == db.users[k].lost + (if won then 0 else n)
    && after.users[k].secondsPlayed == db.users[k].secondsPlayed + Repeated(n, duration)
  }

  lemma SavedRowKeepsInv(db: Db, row: StatsRow)
    requires StatsInv(db) && 0 <= row.finalCards <= MAX_HAND
    ensures var after := SavePlayerStats(db, row);
            StatsInv(after) && after.users == db.users && after.sessions == db.sessions
  {
  }

  lemma UpdateKeepsInv(db: Db, userId: int, won: bool, cardsLeft: int, duration: int)
    requires StatsInv(db) && cardsLeft <= MAX_HAND
    ensures var after := UpdateUserStats(db, userId, won, cardsLeft, duration);
            StatsInv(after) && SameNames(db, after) && after.sessions == db.sessions
  {
    if KnownUser(db, userId) {
      var losses := Losses(db.stats, userId);
      LossesBounded(db.stats, userId);
      CreditedTallied(db.users[userId - 1], won, duration, losses, cardsLeft);
    }
  }

  lemma SaveSeatKeeps(db: Db, s: Session, i: nat, duration: int)
    requires StatsInv(db) && Saveable(s) && i < s.currentPlayers
    ensures var after := SaveSeat(db, s, i, duration);
            StatsInv(after) && SameNames(db, after) && after.sessions == db.sessions
  {
    hide StatsInv, UpdateUserStats, SavePlayerStats;
    var found := FindUser(db.users, s.playerNames[i]);
    if found.Some? {
      var row := SeatRow(s, i, found.value);
      SavedRowKeepsInv(db, row);
      UpdateKeepsInv(SavePlayerStats(db, row), found.value, row.won, row.finalCards, duration);
    }
  }

  lemma SaveSeatGains(db: Db, s: Session, i: nat, duration: int, k: nat)
    requires StatsInv(db) && Saveable(s) && i < s.currentPlayers && k < |db.users|
    ensures var after := SaveSeat(db, s, i, duration);
            && |after.users| == |db.users|
            && Gained(db, after, k, s.won, if db.users[k].username == s.playerNames[i] then 1 else 0, duration)
  {
    var found := FindUser(db.users, s.playerNames[i]);
    if found.Some? {
      var key := found.value - 1;
      assert db.users[k].username == s.playerNames[i] <==> k == key;
      assert SavePlayerStats(db, SeatRow(s, i, found.value)).users == db.users;
    }
  }

  lemma {:induction false} SaveSeatsKeep(db: Db, s: Session, n: nat, duration: int)
    requires StatsInv(db) && Saveable(s) && n <= s.currentPlayers
    ensures var after := SaveSeats(db, s, n, duration);
            StatsInv(after) && SameNames(db, after) && after.sessions == db.sessions
  {
    hide SaveSeat, Tallied;
    if n == 0 {
    } else {
      SaveSeatsKeep(db, s, n - 1, duration);
      SaveSeatKeeps(SaveSeats(db, s, n - 1, duration), s, n - 1, duration);
    }
  }

  lemma SeatsNamedNext(names: seq<string>, n: nat, name: string)
    requires 0 < n <= |names|
    ensures SeatsNamed(names[..n], name) ==
            SeatsNamed(names[..n - 1], name) + if name == names[n - 1] then 1 else 0
  {
    assert names[..n][..n - 1] == names[..n - 1];
  }

  lemma GainedAdds(db: Db, mid: Db, after: Db, k: nat, won: bool, n: nat, more: bool, duration: int)
    requires k < |db.users| == |mid.users| == |after.users|
    requires Gained(db, mid, k, won, n, duration) && Gained(mid, after, k, won, if more then 1 else 0, duration)
    ensures Gained(db, after, k, won, n + (if more then 1 else 0), duration)
  {
    assert Repeated(1, duration) == Repeated(0, duration) + duration;
  }

  lemma {:induction false} SaveSeatsGain(db: Db, s: Session, n: nat, duration: int, k: nat)
    requires StatsInv(db) && Saveable(s) && n <= s.currentPlayers && k < |db.users|
    ensures |SaveSeats(db, s, n, duration).users| == |db.users|
    ensures Gained(db, SaveSeats(db, s, n, duration), k, s.won, SeatsNamed(s.playerNames[..n], db.users[k].username),
                   duration)
  {
    hide SaveSeat, StatsInv;
    if n > 0 {
      SaveSeatsGain(db, s, n - 1, duration, k);
      SeatsNamedNext(s.playerNames, n, db.users[k].username);
      SaveSeatsKeep(db, s, n - 1, duration);
      var mid := SaveSeats(db, s, n - 1, duration);
      assert mid.users[k].username == db.users[k].username;
      SaveSeatGains(mid, s, n - 1, duration, k);
      assert SaveSeats(db, s, n, duration) == SaveSeat(mid, s, n - 1, duration);
      GainedAdds(db, mid, SaveSeat(mid, s, n - 1, duration), k, s.won,
                 SeatsNamed(s.playerNames[..n - 1], db.users[k].username),
                 db.users[k].username == s.playerNames[n - 1], duration);
    } else {
      assert s.playerNames[..n] == [] && SaveSeats(db, s, n, duration) == db;
    }
  }

  /** Saving a game credits every user once per seat under the user's name, with the session's own outcome and the
      time since the start, or none when the session never started. */
  lemma SaveGameEffect(db: Db, s: Session, now: int)
    requires StatsInv(db) && Saveable(s)
    ensures var after := SaveGame(db, s, now);
            var duration := if s.startTime > 0 then now - s.startTime else 0;
            && StatsInv(after) && SameNames(db, after)
            && after.sessions == FinishSession(db, s.gameId, s.won, |s.table.deck|, 0, now, duration).0.sessions
            && forall k :: 0 <= k < |db.users| ==>
                 Gained(db, after, k, s.won, SeatsNamed(s.playerNames, db.users[k].username), duration)
  {
    var duration := Duration(s, now);
    var closed := FinishSession(db, s.gameId, s.won, |s.table.deck|, 0, now, duration).0;
    assert closed.users == db.users && closed.stats == db.stats;
    SaveSeatsKeep(closed, s, s.currentPlayers, duration);
    assert s.playerNames[..s.currentPlayers] == s.playerNames;
    forall k | 0 <= k < |db.users|
      ensures Gained(db, SaveGame(db, s, now), k, s.won, SeatsNamed(s.playerNames, db.users[k].username), Duration(s, now))
    {
      SaveSeatsGain(closed, s, s.currentPlayers, duration, k);
    }
  }

  /** The row tells the truth about a seat of the session under the user's name. */
  ghost predicate Reports(row: StatsRow, s: Session, users: seq<User>)
    requires Seated(s)
  {
    && row.sessionId == s.gameId && row.won == s.won && row.moves == 0
    && 1 <= row.userId <= |users|
    && exists i :: 0 <= i < s.currentPlayers
                   && s.playerNames[i] == users[row.userId - 1].username
                   && row.finalCards == |s.table.hands[i]|
  }

  lemma StillReports(row: StatsRow, s: Session, users: seq<User>, after: seq<User>)
    requires Seated(s) && Reports(row, s, users) && |users| <= |after|
    requires forall k :: 0 <= k < |users| ==> after[k].username == users[k].username
    ensures Reports(row, s, after)
  {
  }

  /** Every row was there before or reports a seat of the session. */
  ghost predicate RowsAdded(db: Db, after: Db, s: Session)
    requires Seated(s)
  {
    forall j :: 0 <= j < |after.stats| ==>
      (j < |db.stats| && after.stats[j] == db.stats[j]) || Reports(after.stats[j], s, after.users)
  }

  lemma SaveSeatRows(db: Db, s: Session, i: nat, duration: int)
    requires StatsInv(db) && Saveable(s) && i < s.currentPlayers
    ensures RowsAdded(db, SaveSeat(db, s, i, duration), s)
  {
    SaveSeatKeeps(db, s, i, duration);
    var found := FindUser(db.users, s.playerNames[i]);
    if found.Some? {
      var row := SeatRow(s, i, found.value);
      var after := SaveSeat(db, s, i, duration);
      assert after.stats == SavePlayerStats(db, row).stats;
      assert row.won == s.won && s.playerNames[i] == after.users[row.userId - 1].username;
    }
  }

  lemma {:induction false} SaveSeatsRows(db: Db, s: Session, n: nat, duration: int)
    requires StatsInv(db) && Saveable(s) && n <= s.currentPlayers
    ensures RowsAdded(db, SaveSeats(db, s, n, duration), s)
  {
    hide SaveSeat, StatsInv, Reports;
    if n == 0 {
    } else {
      var mid := SaveSeats(db, s, n - 1, duration);
      var after := SaveSeats(db, s, n, duration);
      SaveSeatsRows(db, s, n - 1, duration);
      SaveSeatsKeep(db, s, n - 1, duration);
      SaveSeatRows(mid, s, n - 1, duration);
      SaveSeatKeeps(mid, s, n - 1, duration);
      forall j | 0 <= j < |mid.stats| && Reports(mid.stats[j], s, mid.users)
        ensures Reports(mid.stats[j], s, after.users)
      {
        StillReports(mid.stats[j], s, mid.users, after.users);
      }
    }
  }

  /** Whoever has a seat among the first n and a user has a row about the session. */
  ghost predicate SeatsReported(db: Db, s: Session, n: nat)
    requires Seated(s) && n <= s.currentPlayers
  {
    forall i, k :: 0 <= i < n && 0 <= k < |db.users| && s.playerNames[i] == db.users[k].username ==>
      FindStats(db.stats, k + 1, s.gameId).Some?
  }

  /** Of the rows behind the first m exactly that of the user in the first seat is the host's. */
  ghost predicate HostMarked(db: Db, s: Session, m: nat)
    requires Seated(s)
  {
    forall j :: m <= j < |db.stats| ==>
      && KnownUser(db, db.stats[j].userId) && s.playerNames != []
      && (db.stats[j].isHost <==> db.users[db.stats[j].userId - 1].username == s.playerNames[0])
  }

  /** The rows keep their places, pairs and host marks; more may follow. */
  ghost predicate RowsKept(stats: seq<StatsRow>, after: seq<StatsRow>) {
    && |stats| <= |after|
    && forall j :: 0 <= j < |stats| ==>
         && after[j].userId == stats[j].userId && after[j].sessionId == stats[j].sessionId
         && after[j].isHost == stats[j].isHost
  }

  lemma KeepsFinding(stats: seq<StatsRow>, after: seq<StatsRow>, userId: int, sessionId: int)
    requires RowsKept(stats, after) && FindStats(stats, userId, sessionId).Some?
    ensures FindStats(after, userId, sessionId).Some?
  {
    var j := FindStats(stats, userId, sessionId).value;
    assert About(after[j], userId, sessionId);
  }

  lemma SavedRow(db: Db, row: StatsRow)
    ensures var after := SavePlayerStats(db, row).stats;
            && RowsKept(db.stats, after)
            && FindStats(after, row.userId, row.sessionId).Some?
            && (if FindStats(db.stats, row.userId, row.sessionId).Some? then |after| == |db.stats|
                else after == db.stats + [row])
  {
    var after := SavePlayerStats(db, row).stats;
    var found := FindStats(db.stats, row.userId, row.sessionId);
    assert About(after[if found.Some? then found.value else |db.stats|], row.userId, row.sessionId);
  }

  lemma SeatsStillReported(db: Db, after: Db, s: Session, i: nat, userId: int)
    requires StatsInv(db) && Seated(s) && i < s.currentPlayers && SeatsReported(db, s, i)
    requires SameNames(db, after) && RowsKept(db.stats, after.stats)
    requires KnownUser(db, userId) && db.users[userId - 1].username == s.playerNames[i]
    requires FindStats(after.stats, userId, s.gameId).Some?
    ensures SeatsReported(after, s, i + 1)
  {
    forall j, k | 0 <= j < i + 1 && 0 <= k < |after.users| && s.playerNames[j] == after.users[k].username
      ensures FindStats(after.stats, k + 1, s.gameId).Some?
    {
      if j < i {
        KeepsFinding(db.stats, after.stats, k + 1, s.gameId);
      } else {
        assert k == userId - 1;
      }
    }
  }

  lemma HostsStillMarked(db: Db, after: Db, s: Session, i: nat, row: StatsRow, m: nat)
    requires Seated(s) && i < s.currentPlayers && m <= |db.stats|
    requires SeatsReported(db, s, i) && HostMarked(db, s, m)
    requires SameNames(db, after) && RowsKept(db.stats, after.stats)
    requires KnownUser(db, row.userId) && db.users[row.userId - 1].username == s.playerNames[i]
    requires row.sessionId == s.gameId && row.isHost == (i == 0)
    requires if FindStats(db.stats, row.userId, s.gameId).Some? then |after.stats| == |db.stats|
             else after.stats == db.stats + [row]
    ensures HostMarked(after, s, m)
  {
  }

  /** What saving one seat does to the rows, with or without a user of that name. */
  lemma SaveSeatRow(db: Db, s: Session, i: nat, duration: int)
    requires Seated(s) && i < s.currentPlayers
    ensures var found := FindUser(db.users, s.playerNames[i]);
            SaveSeat(db, s, i, duration).stats ==
            if found.Some? then SavePlayerStats(db, SeatRow(s, i, found.value)).stats else db.stats
    ensures FindUser(db.users, s.playerNames[i]).None? ==> SaveSeat(db, s, i, duration) == db
  {
  }

  lemma NobodySeated(db: Db, s: Session, i: nat)
    requires Seated(s) && i < s.currentPlayers && SeatsReported(db, s, i)
    requires FindUser(db.users, s.playerNames[i]).None?
    ensures SeatsReported(db, s, i + 1)
  {
  }

  lemma SaveSeatReports(db: Db, s: Session, i: nat, duration: int, m: nat)
    requires StatsInv(db) && Saveable(s) && i < s.currentPlayers && m <= |db.stats|
    requires SeatsReported(db, s, i) && HostMarked(db, s, m)
    ensures var after := SaveSeat(db, s, i, duration);
            SeatsReported(after, s, i + 1) && HostMarked(after, s, m) && m <= |after.stats|
  {
    hide SavePlayerStats, SaveSeat, StatsInv, SeatsReported, HostMarked, FindStats, RowsKept, FindUser;
    var after := SaveSeat(db, s, i, duration);
    var found := FindUser(db.users, s.playerNames[i]);
    SaveSeatKeeps(db, s, i, duration);
    SaveSeatRow(db, s, i, duration);
    if found.None? {
      NobodySeated(db, s, i);
    } else {
      var row := SeatRow(s, i, found.value);
      SavedRow(db, row);
      SeatsStillReported(db, after, s, i, found.value);
      HostsStillMarked(db, after, s, i, row, m);
      KeptIsLonger(db.stats, after.stats);
    }
  }

  lemma KeptIsLonger(stats: seq<StatsRow>, after: seq<StatsRow>)
    requires RowsKept(stats, after)
    ensures |stats| <= |after|
  {
  }

  lemma {:induction false} SaveSeatsReport(db: Db, s: Session, n: nat, duration: int)
    requires StatsInv(db) && Saveable(s) && n <= s.currentPlayers
    ensures var after := SaveSeats(db, s, n, duration);
            SeatsReported(after, s, n) && HostMarked(after, s, |db.stats|) && |db.stats| <= |after.stats|
  {
    hide SaveSeat, StatsInv;
    if n == 0 {
    } else {
      SaveSeatsReport(db, s, n - 1, duration);
      SaveSeatsKeep(db, s, n - 1, duration);
      SaveSeatReports(SaveSeats(db, s, n - 1, duration), s, n - 1, duration, |db.stats|);
    }
  }

  /** Saving a game leaves a row for every seat whose name is a user's, and among the rows it adds marks exactly that
      of the user in the first seat as the host's. */
  lemma SavedSeats(db: Db, s: Session, now: int)
    requires StatsInv(db) && Saveable(s)
    ensures var after := SaveGame(db, s, now);
            && SeatsReported(after, s, s.currentPlayers)
            && HostMarked(after, s, |db.stats|) && |db.stats| <= |after.stats|
  {
    var closed := FinishSession(db, s.gameId, s.won, |s.table.deck|, 0, now, Duration(s, now)).0;
    SaveSeatsReport(closed, s, s.currentPlayers, Duration(s, now));
  }

  lemma EndedIsSaveable(s: Session)
    requires Inv(s) && s.status == Status.Finished
    ensures Saveable(s)
  {
  }

  // ---------- runs ----------

  /** Seats under a name in the finished games below an id that ended with the given outcome. */
  function FinishedSeats(sessions: map<int, Session>, name: string, won: bool, upTo: int): nat
    decreases upTo
  {
    if upTo <= 1 then 0
    else
      FinishedSeats(sessions, name, won, upTo - 1) + SeatsIn(sessions, name, won, upTo - 1)
  }

  function SeatsIn(sessions: map<int, Session>, name: string, won: bool, id: int): nat {
    if id in sessions && sessions[id].status == Status.Finished && sessions[id].won == won then
      SeatsNamed(sessions[id].playerNames, name)
    else 0
  }

  /** Changing one session changes the sum by that session's share. */
  lemma {:induction false} FinishedSeatsUpdate(sessions: map<int, Session>, name: string, won: bool, upTo: int,
                                               id: int, s: Session)
    requires id >= 1
    ensures FinishedSeats(sessions[id := s], name, won, upTo) ==
            FinishedSeats(sessions, name, won, upTo) +
            (if id < upTo then SeatsIn(sessions[id := s], name, won, id) - SeatsIn(sessions, name, won, id) else 0)
    decreases upTo
  {
    if upTo <= 1 {
    } else {
      FinishedSeatsUpdate(sessions, name, won, upTo - 1, id, s);
    }
  }

  ghost predicate RowMirrors(row: SessionRow, s: Session) {
    && row.status != Running
    && (row.status == RowStatus.Finished <==> s.status == Status.Finished)
    && (row.status == RowStatus.Finished ==> row.won == s.won && row.cardsLeft == |s.table.deck|)
  }

  /** The row reports the session whose id is the row's key, and waits as long as there is none. */
  ghost predicate RowFiled(srv: Server, key: int)
    requires KnownSession(srv.db, key)
  {
    var row := srv.db.sessions[key - 1];
    if key in srv.sessions then RowMirrors(row, srv.sessions[key]) else row.status == RowStatus.Waiting
  }

  /** One row was added for each session behind the n rows of the start; the row of session id has the key n + id. */
  ghost predicate RowsMirror(srv: Server, n: nat) {
    && |srv.db.sessions| == n + srv.nextGameId - 1
    && forall key :: n < key <= |srv.db.sessions| ==> RowFiled(srv, key)
  }

  /** A statistics row is about a finished session in memory: its outcome is the session's, its user sat there and
      its cards are those left in that seat. */
  ghost predicate RowTrue(srv: Server, row: StatsRow)
    requires AllSeated(srv)
  {
    && row.sessionId in srv.sessions && srv.sessions[row.sessionId].status == Status.Finished
    && Reports(row, srv.sessions[row.sessionId], srv.db.users)
  }

  /** Every statistics row is untouched since the start or true. */
  ghost predicate RowsTrue(srv: Server, start: seq<StatsRow>)
    requires AllSeated(srv)
  {
    forall j :: 0 <= j < |srv.db.stats| ==>
      (j < |start| && srv.db.stats[j] == start[j]) || RowTrue(srv, srv.db.stats[j])
  }

  /** What every server satisfies, on whatever store it was started. */
  ghost predicate Stable(srv: Server) {
    Keyed(srv) && StatsInv(srv.db)
  }

  /** What the store of a running server holds beside what it held at the start. */
  ghost predicate Accounted(srv: Server, start: Db) {
    Stable(srv) && RowsMirror(srv, |start.sessions|) && RowsTrue(srv, start.stats)
  }

  function WonSeats(srv: Server, name: string): nat {
    FinishedSeats(srv.sessions, name, true, srv.nextGameId)
  }

  function LostSeats(srv: Server, name: string): nat {
    FinishedSeats(srv.sessions, name, false, srv.nextGameId)
  }

  /** Users keep their keys and names, and their counters move with the seats of finished games. */
  ghost predicate CountersFollow(srv: Server, after: Server) {
    && |srv.db.users| <= |after.db.users|
    && forall k :: 0 <= k < |srv.db.users| ==>
         var u := srv.db.users[k];
         var v := after.db.users[k];
         && v.username == u.username
         && v.won - u.won == WonSeats(after, u.username) - WonSeats(srv, u.username)
         && v.lost - u.lost == LostSeats(after, u.username) - LostSeats(srv, u.username)
  }

  predicate JustFinished(s: Session, next: Session) {
    s.status != Status.Finished && next.status == Status.Finished
  }

  function Credit(s: Session, next: Session, name: string): nat {
    if JustFinished(s, next) then SeatsNamed(next.playerNames, name) else 0
  }

  lemma SettledEffect(db: Db, s: Session, next: Session, now: int)
    requires StatsInv(db) && Inv(next)
    ensures var after := Settled(s.status, next, db, now);
            && StatsInv(after) && SameNames(db, after)
            && after.sessions == (if JustFinished(s, next) then
                                    FinishSession(db, next.gameId, next.won, |next.table.deck|, 0, now,
                                                  Duration(next, now)).0.sessions
                                  else db.sessions)
            && forall k :: 0 <= k < |db.users| ==>
                 Gained(db, after, k, next.won, Credit(s, next, db.users[k].username), Duration(next, now))
  {
    if JustFinished(s, next) {
      EndedIsSaveable(next);
      SaveGameEffect(db, next, now);
    }
  }

  /** Only finishing a session adds or rewrites statistics rows, and those report that session. */
  lemma SettledRows(db: Db, s: Session, next: Session, now: int)
    requires StatsInv(db) && Inv(next)
    ensures RowsAdded(db, Settled(s.status, next, db, now), next)
    ensures next.status != Status.Finished ==> Settled(s.status, next, db, now).stats == db.stats
  {
    if JustFinished(s, next) {
      EndedIsSaveable(next);
      var duration := Duration(next, now);
      var closed := FinishSession(db, next.gameId, next.won, |next.table.deck|, 0, now, duration).0;
      SaveSeatsRows(closed, next, next.currentPlayers, duration);
    }
  }

  /** Finishing a session touches the row under its id and no other. */
  lemma RowFollows(db: Db, s: Session, next: Session, now: int)
    requires StatsInv(db) && Inv(next) && KnownSession(db, s.gameId) && next.gameId == s.gameId
    requires s.status == Status.Finished ==> next == s
    ensures var after := Settled(s.status, next, db, now).sessions;
            && |after| == |db.sessions|
            && (RowMirrors(db.sessions[s.gameId - 1], s) ==> RowMirrors(after[s.gameId - 1], next))
            && forall i :: 0 <= i < |after| && i != s.gameId - 1 ==> after[i] == db.sessions[i]
  {
    SettledEffect(db, s, next, now);
  }

  lemma InstallKeepsStable(srv: Server, id: int, next: Session, now: int)
    requires Stable(srv) && id in srv.sessions && Inv(next) && StillSeated(srv.sessions[id], next)
    ensures Stable(Installed(srv, id, next, now))
    ensures SameNames(srv.db, Installed(srv, id, next, now).db)
    ensures |Installed(srv, id, next, now).db.sessions| == |srv.db.sessions|
  {
    hide Settled, Inv, StatsInv, Gained;
    SettledEffect(srv.db, srv.sessions[id], next, now);
  }

  lemma InstallKeepsMirror(srv: Server, id: int, next: Session, now: int, n: nat)
    requires Stable(srv) && RowsMirror(srv, n)
    requires id in srv.sessions && Inv(next) && StillSeated(srv.sessions[id], next)
    ensures RowsMirror(Installed(srv, id, next, now), n)
  {
    hide Settled, Inv, StatsInv, RowMirrors;
    RowFollows(srv.db, srv.sessions[id], next, now);
    var after := Installed(srv, id, next, now);
    forall key | n < key <= |after.db.sessions| ensures RowFiled(after, key) {
      assert RowFiled(srv, key);
    }
  }

  lemma InstallKeepsTrue(srv: Server, id: int, next: Session, now: int, start: seq<StatsRow>)
    requires Stable(srv) && AllSeated(srv) && RowsTrue(srv, start)
    requires id in srv.sessions && Inv(next) && StillSeated(srv.sessions[id], next)
    ensures RowsTrue(Installed(srv, id, next, now), start)
  {
    hide Settled, Inv, StatsInv, Reports;
    var after := Installed(srv, id, next, now);
    InstallKeepsStable(srv, id, next, now);
    SettledRows(srv.db, srv.sessions[id], next, now);
    forall j | 0 <= j < |after.db.stats|
      ensures (j < |start| && after.db.stats[j] == start[j]) || RowTrue(after, after.db.stats[j])
    {
      var row := after.db.stats[j];
      if j < |srv.db.stats| && row == srv.db.stats[j] {
        if RowTrue(srv, row) {
          StillReports(row, srv.sessions[row.sessionId], srv.db.users, after.db.users);
        }
      } else {
        ReportsOwn(row, next, after.db.users);
      }
    }
  }

  lemma ReportsOwn(row: StatsRow, s: Session, users: seq<User>)
    requires Seated(s) && Reports(row, s, users)
    ensures row.sessionId == s.gameId
  {
  }

  /** The finished seats of a server move with the one session that moved. */
  lemma ShareOf(sessions: map<int, Session>, id: int, next: Session, upTo: int, name: string, won: bool)
    requires id in sessions && 1 <= id < upTo && (sessions[id].status == Status.Finished ==> next == sessions[id])
    ensures FinishedSeats(sessions[id := next], name, won, upTo) ==
            FinishedSeats(sessions, name, won, upTo) +
            (if next.won == won then Credit(sessions[id], next, name) else 0)
  {
    FinishedSeatsUpdate(sessions, name, won, upTo, id, next);
  }

  lemma InstallCounters(srv: Server, id: int, next: Session, now: int)
    requires Stable(srv) && id in srv.sessions && Inv(next) && StillSeated(srv.sessions[id], next)
    ensures CountersFollow(srv, Installed(srv, id, next, now))
  {
    hide Settled, Inv, StatsInv, FinishedSeats, Credit;
    SettledEffect(srv.db, srv.sessions[id], next, now);
    forall name: string, won: bool
      ensures FinishedSeats(srv.sessions[id := next], name, won, srv.nextGameId) ==
              FinishedSeats(srv.sessions, name, won, srv.nextGameId) +
              (if next.won == won then Credit(srv.sessions[id], next, name) else 0)
    {
      ShareOf(srv.sessions, id, next, srv.nextGameId, name, won);
    }
  }

  /** What one step does between restarts, on whatever store the server was started. */
  ghost predicate Follows(srv: Server, after: Server, start: Db) {
    && Stable(after) && CountersFollow(srv, after)
    && (Accounted(srv, start) ==> Accounted(after, start))
  }

  lemma DispatchEffect(srv: Server, gameId: int, q: Request, start: Db)
    requires Stable(srv) && AllSeated(srv) && gameId in srv.sessions
    ensures Follows(srv, Dispatch(srv, gameId, q).0, start)
  {
    hide Step, Settled, Inv, StatsInv, CountersFollow, RowsMirror, RowsTrue;
    var next := Step(srv.sessions[gameId], q).0;
    StepKeepsInv(srv.sessions[gameId], q);
    InstallKeepsStable(srv, gameId, next, q.now);
    InstallCounters(srv, gameId, next, q.now);
    if Accounted(srv, start) {
      InstallKeepsMirror(srv, gameId, next, q.now, |start.sessions|);
      InstallKeepsTrue(srv, gameId, next, q.now, start.stats);
    }
  }

  lemma CreateEffect(srv: Server, maxPlayers: Option<int>, now: int, start: Db)
    requires Stable(srv) && AllSeated(srv)
    ensures Follows(srv, CreateGame(srv, maxPlayers, now).0, start)
  {
    hide Keyed, Bucket, SeatsNamed, Inv, Reports, RowsMirror;
    StepKeepsKeyed(srv, Create(maxPlayers, now));
    var after := CreateGame(srv, maxPlayers, now).0;
    if after != srv {
      var id := srv.nextGameId;
      NotYetHandedOut(srv);
      forall name: string, won: bool
        ensures FinishedSeats(after.sessions, name, won, id + 1) == FinishedSeats(srv.sessions, name, won, id)
      {
        FinishedSeatsUpdate(srv.sessions, name, won, id, id, after.sessions[id]);
      }
      if RowsMirror(srv, |start.sessions|) {
        CreateKeepsMirror(srv, maxPlayers, now, |start.sessions|);
      }
    }
  }

  lemma CreateKeepsMirror(srv: Server, maxPlayers: Option<int>, now: int, n: nat)
    requires Keyed(srv) && RowsMirror(srv, n)
    ensures RowsMirror(CreateGame(srv, maxPlayers, now).0, n)
  {
    hide Inv;
    var after := CreateGame(srv, maxPlayers, now).0;
    if after != srv {
      forall key | n < key <= |after.db.sessions| ensures RowFiled(after, key) {
        assert key <= |srv.db.sessions| ==> RowFiled(srv, key);
      }
    }
  }

  lemma NotYetHandedOut(srv: Server)
    requires Keyed(srv)
    ensures srv.nextGameId !in srv.sessions && srv.nextGameId >= 1
  {
  }

  lemma RegisterEffect(srv: Server, name: string, password: string, start: Db)
    requires Stable(srv) && AllSeated(srv)
    ensures Follows(srv, ServerStep(srv, Register(name, password)), start)
  {
    hide Keyed, RowMirrors, Reports, FinishedSeats;
    var after := ServerStep(srv, Register(name, password));
    StepKeepsKeyed(srv, Register(name, password));
    assert forall key :: KnownSession(srv.db, key) && RowFiled(srv, key) ==> RowFiled(after, key);
    forall j | 0 <= j < |srv.db.stats| && RowTrue(srv, srv.db.stats[j])
      ensures RowTrue(after, srv.db.stats[j])
    {
      StillReports(srv.db.stats[j], srv.sessions[srv.db.stats[j].sessionId], srv.db.users, after.db.users);
    }
  }

  lemma ServerStepEffect(srv: Server, q: ServerRequest, start: Db)
    requires Stable(srv) && !q.Restart?
    ensures AllSeated(srv) && Follows(srv, ServerStep(srv, q), start)
  {
    KeyedIsSeated(srv);
    hide Stable, CountersFollow, Accounted;
    match q
    case Register(name, password) => RegisterEffect(srv, name, password, start);
    case Create(maxPlayers, now) => CreateEffect(srv, maxPlayers, now, start);
    case At(gameId, sq) =>
      if gameId in srv.sessions {
        DispatchEffect(srv, gameId, sq, start);
      } else {
        Idle(srv, start);
      }
  }

  lemma Idle(srv: Server, start: Db)
    requires Stable(srv)
    ensures Follows(srv, srv, start)
  {
  }

  /** Seats under a name in the games that ended with the given outcome in sessions a restart dropped. */
  function DroppedSeats(srv: Server, qs: seq<ServerRequest>, name: string, won: bool): nat
    requires AllSeated(srv)
  {
    if qs == [] then 0
    else
      var before := ServerRun(srv, qs[..|qs| - 1]);
      DroppedSeats(srv, qs[..|qs| - 1], name, won) +
      if qs[|qs| - 1].Restart? then FinishedSeats(before.sessions, name, won, before.nextGameId) else 0
  }

  /** The counters of every user move with the seats of all games finished since, in memory or dropped. */
  ghost predicate CountersMirror(srv: Server, qs: seq<ServerRequest>)
    requires AllSeated(srv)
  {
    var after := ServerRun(srv, qs);
    && |srv.db.users| <= |after.db.users|
    && forall k :: 0 <= k < |srv.db.users| ==>
         var u := srv.db.users[k];
         var v := after.db.users[k];
         && v.username == u.username
         && v.won - u.won ==
            DroppedSeats(srv, qs, u.username, true) + WonSeats(after, u.username) - WonSeats(srv, u.username)
         && v.lost - u.lost ==
            DroppedSeats(srv, qs, u.username, false) + LostSeats(after, u.username) - LostSeats(srv, u.username)
  }

  lemma CountersRestart(srv: Server, front: seq<ServerRequest>)
    requires AllSeated(srv) && CountersMirror(srv, front)
    ensures CountersMirror(srv, front + [Restart])
  {
    assert (front + [Restart])[..|front|] == front;
  }

  lemma CountersNext(srv: Server, front: seq<ServerRequest>, q: ServerRequest)
    requires AllSeated(srv) && CountersMirror(srv, front) && !q.Restart?
    requires CountersFollow(ServerRun(srv, front), ServerStep(ServerRun(srv, front), q))
    ensures CountersMirror(srv, front + [q])
  {
    hide ServerStep, FinishedSeats;
    assert (front + [q])[..|front|] == front;
  }

  /** From any server on any store, over any requests and restarts: a user's wins and losses grow by exactly the
      seats under the user's name in the games that were won and lost meanwhile. */
  lemma {:induction false} StatsMirrorGames(srv: Server, qs: seq<ServerRequest>)
    requires Stable(srv)
    ensures Stable(ServerRun(srv, qs)) && CountersMirror(srv, qs)
  {
    if qs == [] {
    } else {
      var front, q := qs[..|qs| - 1], qs[|qs| - 1];
      StatsMirrorGames(srv, front);
      assert qs == front + [q];
      if q.Restart? {
        CountersRestart(srv, front);
      } else {
        ServerStepEffect(ServerRun(srv, front), q, srv.db);
        CountersNext(srv, front, q);
      }
    }
  }

  /** The store as it was when the server was last started. */
  function StoreAtStart(qs: seq<ServerRequest>): Db {
    if qs == [] then EMPTY_SERVER.db
    else if qs[|qs| - 1].Restart? then ServerRun(EMPTY_SERVER, qs).db
    else StoreAtStart(qs[..|qs| - 1])
  }

  lemma StartAccounted(srv: Server)
    requires StatsInv(srv.db)
    ensures Accounted(Server(map[], 1, srv.db), srv.db)
  {
  }

  /** Over all requests and restarts, every row of the store is accounted for: session rows report the session
      whose id is the row's key, which is the session created with the row exactly when the store held no session
      rows at the start; statistics written since the start are true. */
  lemma {:induction false} StoreAccounted(qs: seq<ServerRequest>)
    ensures Accounted(ServerRun(EMPTY_SERVER, qs), StoreAtStart(qs))
  {
    if qs == [] {
      StartAccounted(EMPTY_SERVER);
    } else {
      var front, q := qs[..|qs| - 1], qs[|qs| - 1];
      StoreAccounted(front);
      var srv := ServerRun(EMPTY_SERVER, front);
      if q.Restart? {
        StartAccounted(srv);
      } else {
        ServerStepEffect(srv, q, StoreAtStart(front));
      }
    }
  }

  lemma FiledBehind(srv: Server, n: nat, id: int)
    requires Keyed(srv) && RowsMirror(srv, n) && id in srv.sessions
    ensures KnownSession(srv.db, n + id) && RowFiled(srv, n + id)
  {
  }

  lemma RowFiledMeans(srv: Server, key: int)
    requires KnownSession(srv.db, key) && RowFiled(srv, key)
    ensures srv.db.sessions[key - 1].status == RowStatus.Finished <==>
            key in srv.sessions && srv.sessions[key].status == Status.Finished
    ensures key in srv.sessions ==> RowMirrors(srv.db.sessions[key - 1], srv.sessions[key])
  {
  }

  /** The row created with a session is finished exactly when the session under the row's key is: its own session
      when the store held no session rows at the start, a later one or none otherwise. */
  lemma OwnRow(qs: seq<ServerRequest>, id: int)
    requires id in ServerRun(EMPTY_SERVER, qs).sessions
    ensures var srv := ServerRun(EMPTY_SERVER, qs);
            var key := |StoreAtStart(qs).sessions| + id;
            && KnownSession(srv.db, key)
            && (srv.db.sessions[key - 1].status == RowStatus.Finished <==>
                key in srv.sessions && srv.sessions[key].status == Status.Finished)
            && (key == id ==> RowMirrors(srv.db.sessions[key - 1], srv.sessions[id]))
  {
    hide ServerRun, StoreAtStart, Keyed, StatsInv, RowsMirror, RowsTrue, RowFiled, RowMirrors;
    StoreAccounted(qs);
    var srv := ServerRun(EMPTY_SERVER, qs);
    FiledBehind(srv, |StoreAtStart(qs).sessions|, id);
    RowFiledMeans(srv, |StoreAtStart(qs).sessions| + id);
  }

  lemma ServerRunOneMore(srv: Server, qs: seq<ServerRequest>, q: ServerRequest)
    requires AllSeated(srv)
    ensures ServerRun(srv, qs + [q]) == ServerStep(ServerRun(srv, qs), q)
  {
    assert (qs + [q])[..|qs|] == qs;
  }

  /** After a restart on a store with one session row, the game won next leaves its own row waiting. */
  lemma RestartMisfiles() returns (qs: seq<ServerRequest>)
    ensures var srv := ServerRun(EMPTY_SERVER, qs);
            && 1 in srv.sessions && srv.sessions[1].status == Status.Finished && srv.sessions[1].won
            && |srv.db.sessions| == 2 && srv.db.sessions[1].status == RowStatus.Waiting
  {
    var create, win := Create(Some(2), 0), At(1, Request.ForceWin(0));
    ServerRunOneMore(EMPTY_SERVER, [], create);
    ServerRunOneMore(EMPTY_SERVER, [] + [create], Restart);
    ServerRunOneMore(EMPTY_SERVER, [] + [create] + [Restart], create);
    ServerRunOneMore(EMPTY_SERVER, [] + [create] + [Restart] + [create], win);
    qs := [] + [create] + [Restart] + [create] + [win];
    var srv := ServerRun(EMPTY_SERVER, [] + [create] + [Restart] + [create]);
    assert srv.sessions == map[1 := NewSession(1, 2)];
    assert ServerRun(EMPTY_SERVER, qs).sessions[1] == ForceWinGame(NewSession(1, 2)).0;
  }

  lemma {:induction false} NeverRestarted(qs: seq<ServerRequest>)
    requires NoRestart(qs)
    ensures StoreAtStart(qs) == EMPTY_SERVER.db
  {
    if qs == [] {
    } else {
      NeverRestarted(qs[..|qs| - 1]);
    }
  }

  /** In every store that servers build from nothing, across all restarts: games played are games won plus games
      lost and no penalty ever shaped a score. As long as the store was started without statistics, each row of
      them names a finished session and carries that session's outcome. */
  lemma StoreFromNothing(qs: seq<ServerRequest>)
    ensures var srv := ServerRun(EMPTY_SERVER, qs);
            && (forall i :: 0 <= i < |srv.db.users| ==>
                  var u := srv.db.users[i];
                  u.played == u.won + u.lost && u.score == Bucket(u.won, u.played))
            && (forall i :: 0 <= i < |srv.db.stats| ==> 0 <= srv.db.stats[i].finalCards <= 8)
            && (NoRestart(qs) || StoreAtStart(qs).stats == [] ==>
                  forall i :: 0 <= i < |srv.db.stats| ==>
                    var row := srv.db.stats[i];
                    && row.sessionId in srv.sessions
                    && srv.sessions[row.sessionId].status == Status.Finished
                    && row.won == srv.sessions[row.sessionId].won)
  {
    StoreAccounted(qs);
    if NoRestart(qs) {
      NeverRestarted(qs);
    }
    var srv := ServerRun(EMPTY_SERVER, qs);
    assert forall i :: 0 <= i < |srv.db.users| ==> Tallied(srv.db.users[i]);
    assert StoreAtStart(qs).stats == [] ==> forall i :: 0 <= i < |srv.db.stats| ==> RowTrue(srv, srv.db.stats[i]);
  }
}
