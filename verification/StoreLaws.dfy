/** The life of session rows and the uniqueness of statistics rows, over any interleaving of store operations. */
module StoreLaws {
  import opened Options
  import opened Database

  datatype StoreOp =
    | NewUser(name: string, password: string)
    | NewSession(createdAt: int)
    | AddSeat(sessionId: int, userId: int, isHost: bool)
    | MarkRunning(sessionId: int, startTime: int)
    | MarkFinished(sessionId: int, won: bool, cardsLeft: int, totalMoves: int, endTime: int, duration: int)
    | Save(row: StatsRow)
    | Increment(userId: int, won: bool, cardsLeft: int, duration: int)

  function StoreStep(db: Db, op: StoreOp): Db {
    match op
    case NewUser(name, password) => RegisterUser(db, name, password).0
    case NewSession(createdAt) => CreateWaitingSession(db, createdAt)
    case AddSeat(sessionId, userId, isHost) => AddPlayer(db, sessionId, userId, isHost).0
    case MarkRunning(sessionId, startTime) => SetRunning(db, sessionId, startTime).0
    case MarkFinished(sessionId, won, cardsLeft, totalMoves, endTime, duration) =>
      FinishSession(db, sessionId, won, cardsLeft, totalMoves, endTime, duration).0
    case Save(row) => SavePlayerStats(db, row)
    case Increment(userId, won, cardsLeft, duration) => UpdateUserStats(db, userId, won, cardsLeft, duration)
  }

  function StoreRun(db: Db, ops: seq<StoreOp>): Db {
    if ops == [] then db else StoreStep(StoreRun(db, ops[..|ops| - 1]), ops[|ops| - 1])
  }

  function Rank(s: RowStatus): nat {
    match s case Waiting => 0 case Running => 1 case Finished => 2
  }

  /** A status only moves forward, a finished row is frozen, and seats are only added while waiting. */
  ghost predicate RowEvolves(a: SessionRow, b: SessionRow) {
    && Rank(a.status) <= Rank(b.status)
    && (a.status == Finished ==> b == a)
    && a.numPlayers <= b.numPlayers
    && (a.status != Waiting ==> b.numPlayers == a.numPlayers)
  }

  ghost predicate Evolves(db: Db, after: Db) {
    && |db.sessions| <= |after.sessions|
    && forall i :: 0 <= i < |db.sessions| ==> RowEvolves(db.sessions[i], after.sessions[i])
  }

  ghost predicate StoreInv(db: Db) {
    && (forall i :: 0 <= i < |db.sessions| ==>
          && 0 <= db.sessions[i].numPlayers <= MAX_SEATS
          && (db.sessions[i].status == Running ==> db.sessions[i].numPlayers >= 2))
    && (forall i, j :: 0 <= i < j < |db.stats| ==>
          !About(db.stats[j], db.stats[i].userId, db.stats[i].sessionId))
  }

  lemma StoreStepKeeps(db: Db, op: StoreOp)
    requires StoreInv(db)
    ensures StoreInv(StoreStep(db, op)) && Evolves(db, StoreStep(db, op))
  {
  }

  /** Lifecycle of the rows over every interleaving of operations on the store. */
  lemma {:induction false} StoreLifecycle(db: Db, ops: seq<StoreOp>)
    requires StoreInv(db)
    ensures StoreInv(StoreRun(db, ops)) && Evolves(db, StoreRun(db, ops))
  {
    if ops == [] {
    } else {
      StoreLifecycle(db, ops[..|ops| - 1]);
      StoreStepKeeps(StoreRun(db, ops[..|ops| - 1]), ops[|ops| - 1]);
    }
  }

  /** How many statistics rows a session has. */
  function RowsOf(stats: seq<StatsRow>, sessionId: int): nat {
    if stats == [] then 0
    else RowsOf(stats[..|stats| - 1], sessionId) + if stats[|stats| - 1].sessionId == sessionId then 1 else 0
  }

  /** Statistics rows belong to known sessions, and a session's seat count is the number of its rows. */
  ghost predicate SeatsCounted(db: Db) {
    && (forall i :: 0 <= i < |db.stats| ==> KnownSession(db, db.stats[i].sessionId))
    && (forall id :: KnownSession(db, id) ==> db.sessions[id - 1].numPlayers == RowsOf(db.stats, id))
  }

  /** Saving statistics only for players who were added. */
  predicate SavesMembers(db: Db, op: StoreOp) {
    op.Save? ==> FindStats(db.stats, op.row.userId, op.row.sessionId).Some?
  }

  lemma {:induction false} RowsOfNone(stats: seq<StatsRow>, id: int)
    requires forall i :: 0 <= i < |stats| ==> stats[i].sessionId != id
    ensures RowsOf(stats, id) == 0
  {
    if stats == [] {
    } else {
      RowsOfNone(stats[..|stats| - 1], id);
    }
  }

  lemma {:induction false} RowsOfUpdate(stats: seq<StatsRow>, k: nat, row: StatsRow, id: int)
    requires k < |stats| && row.sessionId == stats[k].sessionId
    ensures RowsOf(stats[k := row], id) == RowsOf(stats, id)
    decreases |stats|
  {
    var n := |stats| - 1;
    if k == n {
      assert stats[k := row][..n] == stats[..n];
    } else {
      RowsOfUpdate(stats[..n], k, row, id);
      assert stats[k := row][..n] == stats[..n][k := row];
    }
  }

  lemma RowsOfNext(stats: seq<StatsRow>, row: StatsRow, id: int)
    ensures RowsOf(stats + [row], id) == RowsOf(stats, id) + if row.sessionId == id then 1 else 0
  {
    assert (stats + [row])[..|stats|] == stats;
  }

  lemma AddKeepsSeatsCounted(db: Db, sessionId: int, userId: int, isHost: bool)
    requires SeatsCounted(db)
    ensures SeatsCounted(AddPlayer(db, sessionId, userId, isHost).0)
  {
    var row := StatsRow(userId, sessionId, isHost, 0, 0, false);
    forall id ensures RowsOf(db.stats + [row], id) == RowsOf(db.stats, id) + if sessionId == id then 1 else 0 {
      RowsOfNext(db.stats, row, id);
    }
    hide RowsOf;
  }

  lemma SaveKeepsSeatsCounted(db: Db, row: StatsRow)
    requires SeatsCounted(db) && FindStats(db.stats, row.userId, row.sessionId).Some?
    ensures SeatsCounted(SavePlayerStats(db, row))
  {
    var k := FindStats(db.stats, row.userId, row.sessionId).value;
    var after := SavePlayerStats(db, row);
    forall id ensures RowsOf(after.stats, id) == RowsOf(db.stats, id) {
      RowsOfUpdate(db.stats, k, after.stats[k], id);
    }
    hide RowsOf;
  }

  /** As long as statistics are saved for members only, the seat count of a session is the number of its members. */
  lemma StepKeepsSeatsCounted(db: Db, op: StoreOp)
    requires SeatsCounted(db) && SavesMembers(db, op)
    ensures SeatsCounted(StoreStep(db, op))
  {
    match op
    case NewSession(_) =>
      RowsOfNone(db.stats, |db.sessions| + 1);
    case AddSeat(sessionId, userId, isHost) => AddKeepsSeatsCounted(db, sessionId, userId, isHost);
    case Save(row) => SaveKeepsSeatsCounted(db, row);
    case _ =>
  }

  /** With unique rows, the row found is any row there is about the pair. */
  lemma FoundIs(stats: seq<StatsRow>, i: nat, userId: int, sessionId: int)
    requires i < |stats| && About(stats[i], userId, sessionId)
    requires forall j, k :: 0 <= j < k < |stats| ==> !About(stats[k], stats[j].userId, stats[j].sessionId)
    ensures FindStats(stats, userId, sessionId) == Some(i)
  {
  }

  /** Saving is an upsert: the row of this user and session now carries the new result. */
  lemma SaveThenFind(db: Db, row: StatsRow)
    requires StoreInv(db)
    ensures var after := SavePlayerStats(db, row);
            var found := FindStats(after.stats, row.userId, row.sessionId);
            found.Some? && after.stats[found.value].(isHost := row.isHost) == row
  {
    StoreStepKeeps(db, Save(row));
    var before := FindStats(db.stats, row.userId, row.sessionId);
    FoundIs(SavePlayerStats(db, row).stats, if before.Some? then before.value else |db.stats|,
            row.userId, row.sessionId);
  }

  /** Saving leaves the result of every other user and session as it was. */
  lemma SaveKeepsOthers(db: Db, row: StatsRow, userId: int, sessionId: int)
    requires StoreInv(db) && !About(row, userId, sessionId)
    ensures FindStats(SavePlayerStats(db, row).stats, userId, sessionId) == FindStats(db.stats, userId, sessionId)
    ensures var found := FindStats(db.stats, userId, sessionId);
            found.Some? ==> SavePlayerStats(db, row).stats[found.value] == db.stats[found.value]
  {
    StoreStepKeeps(db, Save(row));
    var after := SavePlayerStats(db, row).stats;
    var before := FindStats(db.stats, userId, sessionId);
    if before.Some? {
      FoundIs(after, before.value, userId, sessionId);
    } else {
      assert forall i :: 0 <= i < |after| ==> !About(after[i], userId, sessionId);
    }
  }
}
