/** The rules of the store in plain numbers: which operations succeed, what they write, how a score and a match come
    about. */
module StoreRules {
  import opened Options
  import opened Database

  // ---------- users ----------

  /** Letters, digits and the underscore by their character codes. */
  predicate PlainCharacter(c: char) {
    48 <= c as int <= 57 || 65 <= c as int <= 90 || c as int == 95 || 97 <= c as int <= 122
  }

  /** A name is registered exactly when it has 3 to 16 plain characters and nobody has it; the new user starts with
      score 1 and without games. */
  lemma RegisterRule(db: Db, name: string, password: string)
    ensures var (after, ok) := RegisterUser(db, name, password);
            && (ok <==>
                  && 3 <= |name| <= 16 && (forall i :: 0 <= i < |name| ==> PlainCharacter(name[i]))
                  && (forall i :: 0 <= i < |db.users| ==> db.users[i].username != name))
            && (if ok then
                  && after == db.(users := after.users) && |after.users| == |db.users| + 1
                  && after.users[..|db.users|] == db.users
                  && after.users[|db.users|] == User(name, password, 0, 1, 0, 0, 0)
                else after == db)
  {
    assert forall i :: 0 <= i < |name| ==> name[i] in name;
    forall c: char ensures WordCharacter(c) <==> PlainCharacter(c) {
    }
  }

  // ---------- session rows ----------

  /** A new row is waiting and empty. */
  lemma CreateRule(db: Db, createdAt: int)
    ensures var after := CreateWaitingSession(db, createdAt);
            && after == db.(sessions := after.sessions) && |after.sessions| == |db.sessions| + 1
            && after.sessions[..|db.sessions|] == db.sessions
            && after.sessions[|db.sessions|] ==
               SessionRow(createdAt, 0, 0, Waiting, numPlayers := 0, won := false, cardsLeft := 0, totalMoves := 0,
                          duration := 0)
  {
  }

  /** One row of a table was replaced. */
  ghost predicate Replaced<T>(rows: seq<T>, after: seq<T>, id: int, row: T) {
    && 1 <= id <= |rows| == |after| && after[id - 1] == row
    && forall i :: 0 <= i < |rows| && i != id - 1 ==> after[i] == rows[i]
  }

  /** A player is added exactly to a waiting session with fewer than five players that has no row of the player. */
  lemma AddPlayerRule(db: Db, sessionId: int, userId: int, isHost: bool)
    ensures var (after, ok) := AddPlayer(db, sessionId, userId, isHost);
            && (ok <==>
                  && 1 <= sessionId <= |db.sessions| && db.sessions[sessionId - 1].status == Waiting
                  && db.sessions[sessionId - 1].numPlayers < 5
                  && forall j :: 0 <= j < |db.stats| ==>
                       !(db.stats[j].userId == userId && db.stats[j].sessionId == sessionId))
            && (if ok then
                  var row := db.sessions[sessionId - 1];
                  && Replaced(db.sessions, after.sessions, sessionId, row.(numPlayers := row.numPlayers + 1))
                  && after.stats == db.stats + [StatsRow(userId, sessionId, isHost, 0, 0, false)]
                  && after.users == db.users
                else after == db)
  {
  }

  /** A session row starts running exactly when it waits and has two players. */
  lemma SetRunningRule(db: Db, sessionId: int, startTime: int)
    ensures var (after, ok) := SetRunning(db, sessionId, startTime);
            && (ok <==>
                  && 1 <= sessionId <= |db.sessions| && db.sessions[sessionId - 1].status == Waiting
                  && db.sessions[sessionId - 1].numPlayers >= 2)
            && (if ok then
                  && Replaced(db.sessions, after.sessions, sessionId,
                              db.sessions[sessionId - 1].(status := Running, startTime := startTime))
                  && after == db.(sessions := after.sessions)
                else after == db)
  {
  }

  /** A session row is finished exactly once, and a negative duration is stored as zero. */
  lemma FinishRule(db: Db, sessionId: int, won: bool, cardsLeft: int, totalMoves: int, endTime: int, duration: int)
    ensures var (after, ok) := FinishSession(db, sessionId, won, cardsLeft, totalMoves, endTime, duration);
            && (ok <==> 1 <= sessionId <= |db.sessions| && db.sessions[sessionId - 1].status != Finished)
            && (if ok then
                  var row := db.sessions[sessionId - 1];
                  && Replaced(db.sessions, after.sessions, sessionId,
                              SessionRow(row.createdAt, row.startTime, endTime, Finished, row.numPlayers, won,
                                         cardsLeft, totalMoves, if duration > 0 then duration else 0))
                  && after == db.(sessions := after.sessions)
                else after == db)
  {
  }

  // ---------- the score ----------

  /** The history of losses adds up over any cut of the rows ... */
  lemma {:induction false} LossesSplit(a: seq<StatsRow>, b: seq<StatsRow>, userId: int)
    ensures Losses(a + b, userId) ==
            (Losses(a, userId).0 + Losses(b, userId).0, Losses(a, userId).1 + Losses(b, userId).1)
    decreases |b|
  {
    if b == [] {
      assert a + b == a;
    } else {
      var n := |b| - 1;
      assert (a + b)[..|a| + n] == a + b[..n];
      LossesSplit(a, b[..n], userId);
    }
  }

  /** ... and one row counts exactly when it is the user's and was not won. */
  lemma LossesOne(row: StatsRow, userId: int)
    ensures Losses([row], userId) == if row.userId == userId && !row.won then (row.finalCards, 1) else (0, 0)
  {
    assert [row][..0] == [];
    assert Losses([], userId) == (0, 0);
  }

  /** The documented formula on exact fractions: a bucket of width one fifth of the win rate, one point off for an
      average of ten cards on losses and another for fifteen, and never below 1. */
  lemma ScoreRule(won: int, played: int, lost: int, losses: (int, nat), cardsLeft: int)
    requires won >= 0
    ensures var rate := if played > 0 then won as real / played as real else 0.0;
            var average := if losses.1 > 0 then losses.0 as real / losses.1 as real
                           else if cardsLeft > 0 then cardsLeft as real else 0.0;
            var points := if rate < 0.2 then 1 else if rate < 0.4 then 2 else if rate < 0.6 then 3
                          else if rate < 0.8 then 4 else 5;
            var off := if lost <= 0 || average < 10.0 then 0 else if average < 15.0 then 1 else 2;
            Score(won, played, lost, losses, cardsLeft) == if points > off then points - off else 1
  {
    BucketIsByRate(won, played);
    AverageRule(10, losses, cardsLeft);
    AverageRule(15, losses, cardsLeft);
    hide Bucket, AverageReaches;
  }

  lemma AverageRule(k: int, losses: (int, nat), cardsLeft: int)
    requires k > 0
    ensures var average := if losses.1 > 0 then losses.0 as real / losses.1 as real
                           else if cardsLeft > 0 then cardsLeft as real else 0.0;
            AverageReaches(k, losses, cardsLeft) <==> average >= k as real
  {
    if losses.1 > 0 {
      QuotientReaches(losses.0, losses.1, k);
    }
  }

  lemma QuotientReaches(sum: int, n: int, k: int)
    requires n > 0
    ensures sum as real / n as real >= k as real <==> sum >= k * n
  {
    var m := n as real;
    var average := sum as real / m;
    assert average * m == sum as real;
    assert (k * n) as real == k as real * m;
    if average >= k as real {
      assert average * m >= k as real * m;
    } else {
      assert average * m < k as real * m;
    }
  }

  /** One more game of a known user: the counters of the outcome, the time and the score over the user's history. */
  lemma UpdateRule(db: Db, userId: int, won: bool, cardsLeft: int, duration: int)
    ensures var after := UpdateUserStats(db, userId, won, cardsLeft, duration);
            if 1 <= userId <= |db.users| then
              && |after.users| == |db.users|
              && var u, v := db.users[userId - 1], after.users[userId - 1];
              && Replaced(db.users, after.users, userId, v) && after == db.(users := after.users)
              && v.username == u.username && v.password == u.password
              && v.played == u.played + 1 && v.secondsPlayed == u.secondsPlayed + duration
              && v.won == u.won + (if won then 1 else 0) && v.lost == u.lost + (if won then 0 else 1)
              && v.score == Score(v.won, v.played, v.lost, Losses(db.stats, userId), cardsLeft)
            else after == db
  {
    hide Score, Losses;
  }

  // ---------- matchmaking ----------

  predicate HostRow(row: StatsRow, sessionId: int) {
    row.sessionId == sessionId && row.isHost
  }

  lemma {:induction false} HostIsFirst(stats: seq<StatsRow>, sessionId: int, h: nat)
    requires h <= |stats| && forall j :: 0 <= j < h ==> !HostRow(stats[j], sessionId)
    requires h < |stats| ==> HostRow(stats[h], sessionId)
    ensures FindHost(stats, sessionId) == if h < |stats| then Some(stats[h].userId) else None
    decreases |stats|
  {
    if stats == [] {
    } else if h < |stats| - 1 {
      HostIsFirst(stats[..|stats| - 1], sessionId, h);
    } else {
      HostIsFirst(stats[..|stats| - 1], sessionId, |stats| - 1);
    }
  }

  /** A session is as far away as the score of its first host row's user, and at distance 0 without a known host. */
  lemma DifferenceRule(db: Db, score: int, sessionId: int, h: nat)
    requires h <= |db.stats| && forall j :: 0 <= j < h ==> !HostRow(db.stats[j], sessionId)
    requires h < |db.stats| ==> HostRow(db.stats[h], sessionId)
    ensures var d := Difference(db, score, sessionId);
            if h < |db.stats| && 1 <= db.stats[h].userId <= |db.users| then
              var host := db.users[db.stats[h].userId - 1].score;
              d >= 0 && (d == host - score || d == score - host)
            else d == 0
  {
    HostIsFirst(db.stats, sessionId, h);
  }

  /** The best session waits, has a free seat among five, and every other such session is farther away or as far
      away with a higher id. */
  lemma BestRule(db: Db, userId: int, id: int)
    requires 1 <= userId <= |db.users|
    ensures var score := db.users[userId - 1].score;
            BestFor(db, userId, id) <==>
            && 1 <= id <= |db.sessions| && db.sessions[id - 1].status == Waiting && db.sessions[id - 1].numPlayers < 5
            && forall other ::
                 && 1 <= other <= |db.sessions| && other != id
                 && db.sessions[other - 1].status == Waiting && db.sessions[other - 1].numPlayers < 5
                 ==> || Difference(db, score, id) < Difference(db, score, other)
                     || (Difference(db, score, id) == Difference(db, score, other) && id < other)
  {
    hide Difference;
  }
}
