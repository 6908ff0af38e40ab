/** The store: users, session rows and per-player statistics. A row's primary key is its position plus one. */
module Database {
  import opened Options
  import opened Sorting

  datatype User = User(
    username: string,
    password: string,
    secondsPlayed: int,
    score: int,
    played: int,
    won: int,
    lost: int)

  datatype RowStatus = Waiting | Running | Finished

  datatype SessionRow = SessionRow(
    createdAt: int,
    startTime: int,
    endTime: int,
    status: RowStatus,
    numPlayers: int,
    won: bool,
    cardsLeft: int,
    totalMoves: int,
    duration: int)

  datatype StatsRow = StatsRow(
    userId: int,
    sessionId: int,
    isHost: bool,
    finalCards: int,
    moves: int,
    won: bool)

  datatype Db = Db(users: seq<User>, sessions: seq<SessionRow>, stats: seq<StatsRow>)

  const MAX_SEATS := 5

  predicate KnownUser(db: Db, id: int) { 1 <= id <= |db.users| }

  predicate KnownSession(db: Db, id: int) { 1 <= id <= |db.sessions| }

  // ---------- queries ----------

  predicate WordCharacter(c: char) {
    'a' <= c <= 'z' || 'A' <= c <= 'Z' || '0' <= c <= '9' || c == '_'
  }

  predicate ValidUsername(name: string) {
    3 <= |name| <= 16 && forall c | c in name :: WordCharacter(c)
  }

  /** The key of the first user row with this name. */
  function FindUser(users: seq<User>, name: string): (r: Option<int>)
    ensures r.Some? ==> 1 <= r.value <= |users| && users[r.value - 1].username == name
    ensures r.None? <==> forall i :: 0 <= i < |users| ==> users[i].username != name
  {
    if users == [] then None
    else
      var n := |users| - 1;
      match FindUser(users[..n], name)
      case Some(id) => Some(id)
      case None => if users[n].username == name then Some(n + 1) else None
  }

  predicate About(row: StatsRow, userId: int, sessionId: int) {
    row.userId == userId && row.sessionId == sessionId
  }

  /** The position of the first statistics row of a user in a session. */
  function FindStats(stats: seq<StatsRow>, userId: int, sessionId: int): (r: Option<nat>)
    ensures r.Some? ==> r.value < |stats| && About(stats[r.value], userId, sessionId)
    ensures r.None? <==> forall i :: 0 <= i < |stats| ==> !About(stats[i], userId, sessionId)
  {
    if stats == [] then None
    else
      var n := |stats| - 1;
      match FindStats(stats[..n], userId, sessionId)
      case Some(i) => Some(i)
      case None => if About(stats[n], userId, sessionId) then Some(n) else None
  }

  /** The user id of the first host row of a session. */
  function FindHost(stats: seq<StatsRow>, sessionId: int): Option<int> {
    if stats == [] then None
    else
      var n := |stats| - 1;
      match FindHost(stats[..n], sessionId)
      case Some(u) => Some(u)
      case None => if stats[n].sessionId == sessionId && stats[n].isHost then Some(stats[n].userId) else None
  }

  // ---------- session rows ----------

  function RegisterUser(db: Db, name: string, password: string): (Db, bool) {
    if !ValidUsername(name) || FindUser(db.users, name).Some? then (db, false)
    else (db.(users := db.users + [User(name, password, 0, 1, 0, 0, 0)]), true)
  }

  function CreateWaitingSession(db: Db, createdAt: int): Db {
    db.(sessions := db.sessions + [SessionRow(createdAt, 0, 0, Waiting, 0, false, 0, 0, 0)])
  }

  function AddPlayer(db: Db, sessionId: int, userId: int, isHost: bool): (Db, bool) {
    if !KnownSession(db, sessionId) then (db, false)
    else
      var row := db.sessions[sessionId - 1];
      if row.status != Waiting || row.numPlayers >= MAX_SEATS || FindStats(db.stats, userId, sessionId).Some? then
        (db, false)
      else
        (db.(sessions := db.sessions[sessionId - 1 := row.(numPlayers := row.numPlayers + 1)],
             stats := db.stats + [StatsRow(userId, sessionId, isHost, 0, 0, false)]), true)
  }

  function SetRunning(db: Db, sessionId: int, startTime: int): (Db, bool) {
    if !KnownSession(db, sessionId) then (db, false)
    else
      var row := db.sessions[sessionId - 1];
      if row.status != Waiting || row.numPlayers < 2 then (db, false)
      else (db.(sessions := db.sessions[sessionId - 1 := row.(status := Running, startTime := startTime)]), true)
  }

  function FinishSession(db: Db, sessionId: int, won: bool, cardsLeft: int, totalMoves: int,
                         endTime: int, duration: int): (Db, bool)
  {
    if !KnownSession(db, sessionId) then (db, false)
    else
      var row := db.sessions[sessionId - 1];
      if row.status == Finished then (db, false)
      else
        (db.(sessions := db.sessions[sessionId - 1 :=
           row.(status := Finished, won := won, cardsLeft := cardsLeft, totalMoves := totalMoves,
                endTime := endTime, duration := if duration < 0 then 0 else duration)]), true)
  }

  // ---------- statistics ----------

  /** Updates the row of this user and session when there is one, inserts it otherwise. */
  function SavePlayerStats(db: Db, row: StatsRow): Db {
    match FindStats(db.stats, row.userId, row.sessionId)
    case None => db.(stats := db.stats + [row])
    case Some(i) =>
      db.(stats := db.stats[i := db.stats[i].(finalCards := row.finalCards, moves := row.moves, won := row.won)])
  }

  /** Cards left over all lost rows of a user, and the number of those rows. */
  function Losses(stats: seq<StatsRow>, userId: int): (r: (int, nat)) {
    if stats == [] then (0, 0)
    else
      var n := |stats| - 1;
      var before := Losses(stats[..n], userId);
      if stats[n].userId == userId && !stats[n].won then (before.0 + stats[n].finalCards, before.1 + 1)
      else before
  }

  function ClampScore(s: int): int {
    if s < 1 then 1 else if s > 5 then 5 else s
  }

  /** The bucket of the win rate won / played, compared as exact fractions; no game counts as rate 0. */
  function Bucket(won: int, played: int): int {
    if played <= 0 || 5 * won < played then 1
    else if 5 * won < 2 * played then 2
    else if 5 * won < 3 * played then 3
    else if 5 * won < 4 * played then 4
    else 5
  }

  /** The buckets of the win rate as a fraction. */
  function ScoreFromWinRate(rate: real): int {
    if rate < 0.2 then 1 else if rate < 0.4 then 2 else if rate < 0.6 then 3 else if rate < 0.8 then 4 else 5
  }

  function WinRate(won: int, played: int): real {
    if played > 0 then won as real / played as real else 0.0
  }

  /** Comparing counters gives the bucket of the exact win rate. */
  lemma BucketIsByRate(won: int, played: int)
    requires won >= 0
    ensures Bucket(won, played) == ScoreFromWinRate(WinRate(won, played))
  {
    if played > 0 {
      var rate := WinRate(won, played);
      RateBelow(won, played, 1, 0.2);
      RateBelow(won, played, 2, 0.4);
      RateBelow(won, played, 3, 0.6);
      RateBelow(won, played, 4, 0.8);
    }
  }

  lemma RateBelow(won: int, played: int, k: int, bound: real)
    requires played > 0 && bound == k as real / 5.0
    ensures won as real / played as real < bound <==> 5 * won < k * played
  {
    var p := played as real;
    var rate := won as real / p;
    assert rate * p == won as real;
    if rate < bound {
      assert rate * p < bound * p;
    } else {
      assert rate * p >= bound * p;
    }
    assert 5.0 * (bound * p) == (k * played) as real;
  }

  /** Whether the average of cards on losses reaches k; without losses the current count stands in. */
  predicate AverageReaches(k: int, losses: (int, nat), cardsLeft: int) {
    if losses.1 > 0 then losses.0 >= k * losses.1
    else (if cardsLeft > 0 then cardsLeft else 0) >= k
  }

  function Score(won: int, played: int, lost: int, losses: (int, nat), cardsLeft: int): int {
    var score := Bucket(won, played);
    var once := if lost > 0 && AverageReaches(10, losses, cardsLeft) then score - 1 else score;
    var twice := if lost > 0 && AverageReaches(15, losses, cardsLeft) then once - 1 else once;
    ClampScore(twice)
  }

  function Credited(u: User, won: bool, duration: int, losses: (int, nat), cardsLeft: int): User {
    var played := u.played + 1;
    var gamesWon := if won then u.won + 1 else u.won;
    var gamesLost := if won then u.lost else u.lost + 1;
    u.(played := played, won := gamesWon, lost := gamesLost,
       secondsPlayed := u.secondsPlayed + duration,
       score := Score(gamesWon, played, gamesLost, losses, cardsLeft))
  }

  function UpdateUserStats(db: Db, userId: int, won: bool, cardsLeft: int, duration: int): Db {
    if !KnownUser(db, userId) then db
    else
      var u := db.users[userId - 1];
      db.(users := db.users[userId - 1 := Credited(u, won, duration, Losses(db.stats, userId), cardsLeft)])
  }

  // ---------- matchmaking ----------

  /** A session that a user could still be matched to. */
  predicate Open(db: Db, id: int) {
    KnownSession(db, id) && db.sessions[id - 1].status == Waiting && db.sessions[id - 1].numPlayers < MAX_SEATS
  }

  /** Distance of a score to the score of a session's host; an unhosted session is at distance 0. */
  function Difference(db: Db, score: int, sessionId: int): int {
    var base := match FindHost(db.stats, sessionId)
                case Some(host) => if KnownUser(db, host) then db.users[host - 1].score else score
                case None => score;
    if base >= score then base - score else score - base
  }

  datatype Candidate = Candidate(sessionId: int, diff: int)

  predicate Precedes(a: Candidate, b: Candidate) {
    a.diff < b.diff || (a.diff == b.diff && a.sessionId <= b.sessionId)
  }

  /** The session is open and no open session comes before it by score distance and then by id. */
  ghost predicate BestFor(db: Db, userId: int, sessionId: int)
    requires KnownUser(db, userId)
  {
    var score := db.users[userId - 1].score;
    && Open(db, sessionId)
    && forall other :: Open(db, other) ==>
         Precedes(Candidate(sessionId, Difference(db, score, sessionId)),
                  Candidate(other, Difference(db, score, other)))
  }

  class DatabaseManager {
    var users: seq<User>
    var sessions: seq<SessionRow>
    var stats: seq<StatsRow>

    function Model(): Db
      reads this
    {
      Db(users, sessions, stats)
    }

    constructor ()
      ensures Model() == Db([], [], [])
    {
      users, sessions, stats := [], [], [];
    }

    method Register(name: string, password: string) returns (ok: bool)
      modifies this
      ensures (Model(), ok) == RegisterUser(old(Model()), name, password)
    {
      if !ValidUsername(name) {
        return false;
      }
      var existing := FindUser(users, name);
      if existing.Some? {
        return false;
      }
      users := users + [User(name, password, 0, 1, 0, 0, 0)];
      return true;
    }

    method CreateWaiting(createdAt: int) returns (id: int)
      modifies this
      ensures Model() == CreateWaitingSession(old(Model()), createdAt)
      ensures id == |sessions|
    {
      sessions := sessions + [SessionRow(createdAt, 0, 0, Waiting, 0, false, 0, 0, 0)];
      id := |sessions|;
    }

    method AddPlayerToSession(sessionId: int, userId: int, isHost: bool) returns (ok: bool)
      modifies this
      ensures (Model(), ok) == AddPlayer(old(Model()), sessionId, userId, isHost)
    {
      if !KnownSession(Model(), sessionId) {
        return false;
      }
      var sess := sessions[sessionId - 1];
      if sess.status != Waiting {
        return false;
      }
      if sess.numPlayers >= MAX_SEATS {
        return false;
      }
      var existing := FindStats(stats, userId, sessionId);
      if existing.Some? {
        return false;
      }
      sess := sess.(numPlayers := sess.numPlayers + 1);
      sessions := sessions[sessionId - 1 := sess];
      stats := stats + [StatsRow(userId, sessionId, isHost, 0, 0, false)];
      return true;
    }

    method SetSessionRunning(sessionId: int, startTime: int) returns (ok: bool)
      modifies this
      ensures (Model(), ok) == SetRunning(old(Model()), sessionId, startTime)
    {
      if !KnownSession(Model(), sessionId) {
        return false;
      }
      var s := sessions[sessionId - 1];
      if s.status != Waiting {
        return false;
      }
      if s.numPlayers < 2 {
        return false;
      }
      s := s.(status := Running, startTime := startTime);
      sessions := sessions[sessionId - 1 := s];
      return true;
    }

    method Finish(sessionId: int, won: bool, cardsLeft: int, totalMoves: int, endTime: int, duration: int)
      returns (ok: bool)
      modifies this
      ensures (Model(), ok) == FinishSession(old(Model()), sessionId, won, cardsLeft, totalMoves, endTime, duration)
    {
      if !KnownSession(Model(), sessionId) {
        return false;
      }
      var s := sessions[sessionId - 1];
      if s.status == Finished {
        return false;
      }
      s := s.(status := Finished);
      s := s.(won := won, cardsLeft := cardsLeft, totalMoves := totalMoves);
      s := s.(endTime := endTime, duration := if duration < 0 then 0 else duration);
      sessions := sessions[sessionId - 1 := s];
      return true;
    }

    method SaveStats(row: StatsRow)
      modifies this
      ensures Model() == SavePlayerStats(old(Model()), row)
    {
      var found := FindStats(stats, row.userId, row.sessionId);
      if found.None? {
        stats := stats + [row];
        return;
      }
      var s := stats[found.value];
      s := s.(finalCards := row.finalCards);
      s := s.(moves := row.moves);
      s := s.(won := row.won);
      stats := stats[found.value := s];
    }

    method UpdateUserStatsIncrement(userId: int, won: bool, cardsLeft: int, duration: int)
      modifies this
      ensures Model() == UpdateUserStats(old(Model()), userId, won, cardsLeft, duration)
    {
      if !KnownUser(Model(), userId) {
        return;
      }
      var u := users[userId - 1];
      u := u.(played := u.played + 1);
      if won {
        u := u.(won := u.won + 1);
      } else {
        u := u.(lost := u.lost + 1);
      }
      u := u.(secondsPlayed := u.secondsPlayed + duration);

      var sumCardsOnLoss, losses := 0, 0;
      for i := 0 to |stats|
        invariant (sumCardsOnLoss, losses) == Losses(stats[..i], userId)
      {
        assert stats[..i + 1][..i] == stats[..i];
        var p := stats[i];
        if p.userId == userId && !p.won {
          sumCardsOnLoss := sumCardsOnLoss + p.finalCards;
          losses := losses + 1;
        }
      }
      assert stats[..|stats|] == stats;

      var score := Bucket(u.won, u.played);
      if u.lost > 0 && AverageReaches(10, (sumCardsOnLoss, losses), cardsLeft) {
        score := score - 1;
      }
      if u.lost > 0 && AverageReaches(15, (sumCardsOnLoss, losses), cardsLeft) {
        score := score - 1;
      }
      u := u.(score := ClampScore(score));
      users := users[userId - 1 := u];
    }

    /** The tolerance decides nothing: the answer is the best open session or none. */
    method FindBestWaitingSessionForUser(userId: int, tolerance: int) returns (best: Option<int>)
      ensures best.Some? <==> KnownUser(Model(), userId) && exists id :: Open(Model(), id)
      ensures best.Some? ==> BestFor(Model(), userId, best.value)
    {
      if !KnownUser(Model(), userId) {
        return None;
      }
      var score := users[userId - 1].score;
      var cand: seq<Candidate> := [];
      for i := 0 to |sessions|
        invariant forall id :: 1 <= id <= i && Open(Model(), id) ==>
                    Candidate(id, Difference(Model(), score, id)) in cand
        invariant forall c :: c in cand ==>
                    Open(Model(), c.sessionId) && c.diff == Difference(Model(), score, c.sessionId)
      {
        var sess := sessions[i];
        if sess.status == Waiting && sess.numPlayers < MAX_SEATS {
          var host := FindHost(stats, i + 1);
          var baseScore := score;
          if host.Some? && KnownUser(Model(), host.value) {
            baseScore := users[host.value - 1].score;
          }
          var diff := if baseScore >= score then baseScore - score else score - baseScore;
          cand := cand + [Candidate(i + 1, diff)];
        }
      }
      if cand == [] {
        return None;
      }
      ghost var unsorted := cand;
      cand := Sort(cand, Precedes);
      assert forall c :: c in cand <==> c in multiset(unsorted);
      assert |cand| == |multiset(unsorted)|;
      FrontIsBest(Model(), userId, cand);
      for i := 0 to |cand|
        invariant forall k :: 0 <= k < i ==> cand[k].diff > tolerance
      {
        if cand[i].diff <= tolerance {
          assert i > 0 ==> Precedes(cand[0], cand[i]);
          return Some(cand[i].sessionId);
        }
      }
      return Some(cand[0].sessionId);
    }
  }

  /** The head of the sorted candidates is the best open session. */
  lemma FrontIsBest(db: Db, userId: int, cand: seq<Candidate>)
    requires KnownUser(db, userId) && cand != [] && SortedBy(cand, Precedes)
    requires var score := db.users[userId - 1].score;
             && (forall c :: c in cand ==> Open(db, c.sessionId) && c.diff == Difference(db, score, c.sessionId))
             && (forall id :: Open(db, id) ==> Candidate(id, Difference(db, score, id)) in cand)
    ensures BestFor(db, userId, cand[0].sessionId)
  {
    var score := db.users[userId - 1].score;
    assert cand[0] in cand;
    forall other | Open(db, other)
      ensures Precedes(cand[0], Candidate(other, Difference(db, score, other)))
    {
      var c := Candidate(other, Difference(db, score, other));
      assert c in cand;
    }
  }

  /** There is at most one best session, so the search is a function of the store and the user alone. */
  lemma BestIsUnique(db: Db, userId: int, a: int, b: int)
    requires KnownUser(db, userId) && BestFor(db, userId, a) && BestFor(db, userId, b)
    ensures a == b
  {
    var score := db.users[userId - 1].score;
    assert Precedes(Candidate(a, Difference(db, score, a)), Candidate(b, Difference(db, score, b)));
    assert Precedes(Candidate(b, Difference(db, score, b)), Candidate(a, Difference(db, score, a)));
  }
}
