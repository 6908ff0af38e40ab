/** The promises of a session: conservation, winning, progress, polling and the length of a game. */
module SessionTheorems {
  import opened Cards
  import opened Tables
  import opened TableLaws
  import opened Sessions
  import opened SessionLaws
  import opened GameRules

  ghost predicate Unforced(qs: seq<Request>) {
    forall i :: 0 <= i < |qs| ==> !qs[i].ForceWin?
  }

  // ---------- conservation and winning ----------

  /** Started tables are complete, and a session counts as won exactly when all 98 cards are placed. */
  ghost predicate Faithful(s: Session) {
    && (s.status != Waiting ==> Dealt(s.table))
    && (s.won <==> PlacedCount(s.table) == 98)
  }

  lemma PlayKeepsFaithful(s: Session, playerIndex: int, card: Card, stack: int)
    requires Inv(s) && Faithful(s)
    ensures Faithful(PlayCard(s, playerIndex, card, stack).0)
  {
    var (after, r) := PlayCard(s, playerIndex, card, stack);
    if PlayAccepted(r) {
      PlayOutcome(s, playerIndex, card, stack);
    }
  }

  /** Opening the table keeps the promise: nothing is placed yet. */
  lemma OtherKeepsFaithful(s: Session, q: Request)
    requires Inv(s) && Faithful(s) && !q.ForceWin? && !q.Play?
    ensures Faithful(Step(s, q).0)
  {
    hide PlayCard, AfterPlay, IsLost, IsWon, HasPlay;
    StepKeepsInv(s, q);
    if s.status == Waiting {
      WaitingStaysEmpty(s, q);
    } else {
      OtherKeepsPiles(s, q);
    }
  }

  lemma StepKeepsFaithful(s: Session, q: Request)
    requires Inv(s) && Faithful(s) && !q.ForceWin?
    ensures Faithful(Step(s, q).0)
  {
    hide PlayCard, AfterPlay, Dealt;
    if q.Play? {
      PlayKeepsFaithful(s, q.playerIndex, q.card, q.stack);
    } else {
      OtherKeepsFaithful(s, q);
    }
  }

  /** Conservation and win correctness over every run in which nobody forces the win. */
  lemma {:induction false} RunFaithful(gameId: int, maxPlayers: int, qs: seq<Request>)
    requires 2 <= maxPlayers <= 5 && Unforced(qs)
    ensures var s := Run(NewSession(gameId, maxPlayers), qs);
            Inv(s) && Faithful(s)
  {
    var s := NewSession(gameId, maxPlayers);
    RunKeepsInv(s, qs);
    if qs == [] {
    } else {
      var front := qs[..|qs| - 1];
      RunFaithful(gameId, maxPlayers, front);
      StepKeepsFaithful(Run(s, front), qs[|qs| - 1]);
    }
  }

  /** Every card on an increasing pile is higher than the one below it or exactly ten lower. */
  ghost predicate Climbs(pile: seq<Card>) {
    && |pile| > 0 && pile[0] == 1
    && forall i :: 0 < i < |pile| ==> pile[i] > pile[i - 1] || pile[i] == pile[i - 1] - 10
  }

  /** Every card on a decreasing pile is lower than the one below it or exactly ten higher. */
  ghost predicate Descends(pile: seq<Card>) {
    && |pile| > 0 && pile[0] == 100
    && forall i :: 0 < i < |pile| ==> pile[i] < pile[i - 1] || pile[i] == pile[i - 1] + 10
  }

  /** Over every unforced run the piles of a started game grow from 1 and from 100 by these rules. */
  lemma PilesObeyRules(gameId: int, maxPlayers: int, qs: seq<Request>)
    requires 2 <= maxPlayers <= 5 && Unforced(qs)
    ensures var s := Run(NewSession(gameId, maxPlayers), qs);
            s.status != Waiting ==>
              Climbs(s.table.inc1) && Climbs(s.table.inc2) && Descends(s.table.dec1) && Descends(s.table.dec2)
  {
    RunFaithful(gameId, maxPlayers, qs);
  }

  /** A won game has every card of 2..99 on the piles, and every pile obeys its ordering rule from its foundation on. */
  lemma WonMeansAllPlaced(gameId: int, maxPlayers: int, qs: seq<Request>)
    requires 2 <= maxPlayers <= 5 && Unforced(qs)
    ensures var s := Run(NewSession(gameId, maxPlayers), qs);
            s.won ==>
              && Climbs(s.table.inc1) && Climbs(s.table.inc2) && Descends(s.table.dec1) && Descends(s.table.dec2)
              && forall c :: PileCopies(s.table, c) == if 2 <= c <= 99 then 1 else if c == 1 || c == 100 then 2 else 0
  {
    RunFaithful(gameId, maxPlayers, qs);
    PilesObeyRules(gameId, maxPlayers, qs);
    var s := Run(NewSession(gameId, maxPlayers), qs);
    if s.won {
      WonIffAllPlaced(s.table);
    }
  }

  // ---------- progress ----------

  ghost predicate CanAct(s: Session)
    requires Seated(s)
  {
    exists q: Request :: PlayAccepted(Step(s, q).1) || TurnEndAccepted(Step(s, q).1)
  }

  /** Somebody can always move, except in the one shape where the turn sits with a finished seat. */
  lemma Progress(s: Session)
    requires Inv(s) && s.status == Playing
    ensures CanAct(s) <==> !Stuck(s)
  {
    var i := s.currentPlayerIndex;
    if HasPlay(s.table, i) {
      var card :| card in s.table.hands[i] && Playable(s.table, card);
      var stack :| 1 <= stack <= 4 && ValidMove(s.table, card, stack);
      assert PlayAccepted(Step(s, Play(i, card, stack, 0)).1);
    } else if QuotaMet(s) {
      assert TurnEndAccepted(Step(s, EndTurn(i, 0)).1);
    }
    if Stuck(s) {
      forall q: Request ensures !PlayAccepted(Step(s, q).1) && !TurnEndAccepted(Step(s, q).1) {
        assert q.Play? ==> q.card !in s.table.hands[i];
      }
    }
  }

  /** A stuck session never changes again unless the win is forced, although cards are left to play. */
  lemma {:induction false} StuckForever(s: Session, qs: seq<Request>)
    requires Inv(s) && Stuck(s) && Unforced(qs)
    ensures Run(s, qs) == s
    ensures exists i :: 0 <= i < |s.table.hands| && i != s.currentPlayerIndex && s.table.hands[i] != []
  {
    if qs == [] {
    } else {
      var q := qs[|qs| - 1];
      StuckForever(s, qs[..|qs| - 1]);
      assert q.Play? ==> q.card !in s.table.hands[s.currentPlayerIndex];
    }
    assert !IsWon(s.table);
    var hand :| hand in s.table.hands && hand != [];
    var i :| 0 <= i < |s.table.hands| && s.table.hands[i] == hand;
  }

  // ---------- polling ----------

  /** Polling ends a game exactly when the player met the quota and holds only blocked cards; the player could
      still have ended the turn. In every other state polling changes nothing. */
  lemma PollChangesOnlyBlockedQuota(s: Session, userId: int, now: int)
    requires Inv(s)
    ensures var i := s.currentPlayerIndex;
            && (Step(s, Poll(userId, now)).0 != s <==>
                && s.status == Playing && s.cardsPlayedThisTurn >= (if |s.table.deck| > 0 then 2 else 1)
                && s.table.hands[i] != []
                && forall card, stack: int :: card in s.table.hands[i] ==> !ValidMove(s.table, card, stack))
            && (Step(s, Poll(userId, now)).0 != s ==>
                && Step(s, Poll(userId, now)).0 == s.(status := Finished, won := false)
                && TurnEndAccepted(Step(s, EndTurn(i, now)).1))
  {
    if s.status == Playing {
      NoMoveIff(s.table, s.currentPlayerIndex);
    }
  }

  /** Sessions that differ at most in the cards a seat does not see: those of the other hands and of the deck, and
      the piles below their tops. */
  ghost predicate AlikeFor(s: Session, other: Session, userId: int)
    requires Seated(s) && Seated(other)
  {
    var t, u := s.table, other.table;
    && other == s.(table := u)
    && |t.deck| == |u.deck|
    && (t.inc1 == [] <==> u.inc1 == []) && Top(t.inc1, INCREASING_BASE) == Top(u.inc1, INCREASING_BASE)
    && (t.inc2 == [] <==> u.inc2 == []) && Top(t.inc2, INCREASING_BASE) == Top(u.inc2, INCREASING_BASE)
    && (t.dec1 == [] <==> u.dec1 == []) && Top(t.dec1, DECREASING_BASE) == Top(u.dec1, DECREASING_BASE)
    && (t.dec2 == [] <==> u.dec2 == []) && Top(t.dec2, DECREASING_BASE) == Top(u.dec2, DECREASING_BASE)
    && (forall i :: 0 <= i < |t.hands| ==> |t.hands[i]| == |u.hands[i]|)
    && (0 <= userId < |t.hands| ==> t.hands[userId] == u.hands[userId])
  }

  /** Of the cards a seat does not see a poll tells it one thing, whether the seat in turn is blocked; to the seat
      in turn it tells nothing. */
  lemma PollTellsOnlyBlocked(s: Session, other: Session, userId: int)
    requires Seated(s) && Seated(other) && AlikeFor(s, other, userId)
    ensures PollState(s, userId).1 == PollState(other, userId).1 <==>
            (s.status != Playing || (IsLost(s.table, s.currentPlayerIndex) <==> IsLost(other.table, s.currentPlayerIndex)))
    ensures userId == s.currentPlayerIndex ==> PollState(s, userId).1 == PollState(other, userId).1
  {
    assert SeatInfos(s) == SeatInfos(other);
    forall card, stack ensures ValidMove(s.table, card, stack) == ValidMove(other.table, card, stack) {
    }
  }

  /** A game is lost only when the seat whose turn it is holds cards and can place none of them. The documented
      reason, a minimum that cannot be reached, is behind every loss except the ones that polling detects. */
  lemma LossMeansBlocked(s: Session, q: Request)
    requires Inv(s) && s.status != Finished && Step(s, q).0.status == Finished && !Step(s, q).0.won
    ensures var after := Step(s, q).0;
            var i := after.currentPlayerIndex;
            && s.status == Playing && i < |after.table.hands|
            && after.table.hands[i] != []
            && (forall card, stack: int :: card in after.table.hands[i] ==> !ValidMove(after.table, card, stack))
            && (after.cardsPlayedThisTurn >= (if |after.table.deck| > 0 then 2 else 1) <==> q.Poll?)
  {
    LossIsBlocked(s, q);
    var after := Step(s, q).0;
    hide Step, Inv;
    NoMoveIff(after.table, after.currentPlayerIndex);
  }

  lemma LossIsBlocked(s: Session, q: Request)
    requires Inv(s) && s.status != Finished && Step(s, q).0.status == Finished && !Step(s, q).0.won
    ensures var after := Step(s, q).0;
            var i := after.currentPlayerIndex;
            && s.status == Playing && i < |after.table.hands|
            && after.table.hands[i] != [] && !HasPlay(after.table, i)
            && (QuotaMet(after) <==> q.Poll?)
  {
    if s.status == Waiting {
      if q.Start? {
        StartNeverLoses(s, q.deck, q.now);
      }
    } else if q.Play? {
      LostPlay(s, q.playerIndex, q.card, q.stack);
    } else if q.Poll? {
      PollChangesOnlyBlockedQuota(s, q.userId, q.now);
    }
  }

  lemma LostPlay(s: Session, playerIndex: int, card: Card, stack: int)
    requires Seated(s) && s.status == Playing
    requires PlayCard(s, playerIndex, card, stack).0.status == Finished
    requires !PlayCard(s, playerIndex, card, stack).0.won
    ensures var after := PlayCard(s, playerIndex, card, stack).0;
            && IsLost(after.table, after.currentPlayerIndex) && !QuotaMet(after)
            && after.currentPlayerIndex == s.currentPlayerIndex && |after.table.hands| == |s.table.hands|
  {
    hide Played, Refilled;
  }

  /** The seat in turn holds cards and every one of them is refused on every stack. */
  ghost predicate Blocked(s: Session)
    requires Seated(s)
  {
    && 0 <= s.currentPlayerIndex < |s.table.hands| && s.table.hands[s.currentPlayerIndex] != []
    && NoMove(s.table, s.currentPlayerIndex)
  }

  /** A running game is lost by exactly three kinds of requests that leave the seat in turn blocked: a poll, an
      accepted end of a turn, and an accepted play with fewer cards played than the turn needs. */
  lemma LostIff(s: Session, q: Request)
    requires Inv(s) && s.status == Playing
    ensures var (after, r) := Step(s, q);
            after.status == Finished && !after.won <==>
            && Blocked(after)
            && (|| q.Poll?
                || (q.EndTurn? && TurnEndAccepted(r))
                || (q.Play? && PlayAccepted(r)
                    && after.cardsPlayedThisTurn < if |after.table.deck| > 0 then 2 else 1))
  {
    hide Dealt, Played, Refilled, ValidMove, IsLost, IsWon;
    var (after, r) := Step(s, q);
    match q
    case Play(playerIndex, card, stack, _) =>
      PlayAnswers(s, playerIndex, card, stack);
      if PlayAccepted(r) { PlayLosesIff(s, playerIndex, card, stack); }
    case EndTurn(playerIndex, _) => EndTurnAnswers(s, playerIndex);
    case Poll(_, _) => NoMoveIff(s.table, s.currentPlayerIndex);
    case Join(_, _, _) =>
    case Start(_, _) =>
    case ForceWin(_) =>
  }

  // ---------- the length of a game ----------

  /** Accepted plays, accepted turn ends while cards were left to draw, and turn ends after that. */
  datatype Tally = Tally(plays: nat, fullEnds: nat, emptyEnds: nat)

  function Counted(s: Session, q: Request, n: Tally): Tally
    requires Seated(s)
  {
    var r := Step(s, q).1;
    if PlayAccepted(r) then n.(plays := n.plays + 1)
    else if TurnEndAccepted(r) then
      if s.table.deck != [] then n.(fullEnds := n.fullEnds + 1) else n.(emptyEnds := n.emptyEnds + 1)
    else n
  }

  function CountRun(s: Session, qs: seq<Request>): Tally
    requires Seated(s)
  {
    if qs == [] then Tally(0, 0, 0)
    else
      var front := qs[..|qs| - 1];
      Counted(Run(s, front), qs[|qs| - 1], CountRun(s, front))
  }

  ghost predicate Bounded(s: Session, n: Tally) {
    && n.plays == PlacedCount(s.table) <= 98
    && 0 <= s.cardsPlayedThisTurn
    && 2 * n.fullEnds + n.emptyEnds + s.cardsPlayedThisTurn <= n.plays
  }

  /** Requests other than a play leave the piles of a started table alone. */
  lemma OtherKeepsPiles(s: Session, q: Request)
    requires Inv(s) && s.status != Waiting && !q.Play?
    ensures var (after, r) := Step(s, q);
            && PlacedCount(after.table) == PlacedCount(s.table) && !PlayAccepted(r)
            && (if TurnEndAccepted(r) then after.cardsPlayedThisTurn == 0 && QuotaMet(s)
                else after.cardsPlayedThisTurn == s.cardsPlayedThisTurn)
  {
    hide Dealt, Opened, PlayCard, IsLost, IsWon, HasPlay;
  }

  lemma OpeningPlacesNothing(s: Session, deck: Shuffle, now: int, name: string)
    requires Inv(s) && s.status == Waiting
    ensures PlacedCount(JoinGame(s, name, deck, now).0.table) == 0
    ensures PlacedCount(StartGame(s, deck, now).0.table) == 0
  {
    if s.currentPlayers + 1 == s.maxPlayers {
      OpenedUnderway(s.table.(nrGamer := s.currentPlayers + 1, hands := s.table.hands + [[SENTINEL]]), deck);
    }
    if s.currentPlayers >= 2 {
      OpenedUnderway(s.table.(nrGamer := s.currentPlayers), deck);
    }
  }

  lemma WaitingStaysEmpty(s: Session, q: Request)
    requires Inv(s) && s.status == Waiting
    ensures PlacedCount(Step(s, q).0.table) == 0 && Step(s, q).0.cardsPlayedThisTurn == 0
    ensures !PlayAccepted(Step(s, q).1) && !TurnEndAccepted(Step(s, q).1)
  {
    match q
    case Join(name, deck, now) => OpeningPlacesNothing(s, deck, now, name);
    case Start(deck, now) => OpeningPlacesNothing(s, deck, now, "");
    case _ =>
  }

  lemma StepKeepsBounded(s: Session, q: Request, n: Tally)
    requires Inv(s) && Bounded(s, n)
    ensures Bounded(Step(s, q).0, Counted(s, q, n))
  {
    var (after, r) := Step(s, q);
    if s.status == Waiting {
      WaitingStaysEmpty(s, q);
    } else if !q.Play? {
      OtherKeepsPiles(s, q);
    } else if PlayAccepted(r) {
      PlayOutcome(s, q.playerIndex, q.card, q.stack);
      WonIffAllPlaced(after.table);
    }
  }

  // ---------- whose turn it is ----------

  /** The seat whose turn it is after a number of turn ends: one further each time, from the last back to the first. */
  function Turn(ends: nat, seats: nat): (seat: nat)
    requires seats > 0
    ensures seat < seats
  {
    if ends == 0 then 0
    else
      var before := Turn(ends - 1, seats);
      if before + 1 == seats then 0 else before + 1
  }

  ghost predicate InTurn(s: Session, n: Tally)
    requires Seated(s)
  {
    if s.status == Waiting then n.fullEnds + n.emptyEnds == 0 && s.currentPlayerIndex == 0
    else s.currentPlayers > 0 ==> s.currentPlayerIndex == Turn(n.fullEnds + n.emptyEnds, s.currentPlayers)
  }

  lemma EndTurnMovesOn(s: Session, playerIndex: int)
    requires Seated(s) && TurnEndAccepted(EndTurnOf(s, playerIndex).1)
    ensures var next := EndTurnOf(s, playerIndex).0.currentPlayerIndex;
            next == if s.currentPlayerIndex + 1 == s.currentPlayers then 0 else s.currentPlayerIndex + 1
  {
    assert s.currentPlayers in {2, 3, 4, 5};
  }

  ghost predicate SameTurn(s: Session, after: Session) {
    && (s.status != Waiting ==> after.status != Waiting && after.currentPlayers == s.currentPlayers)
    && after.currentPlayerIndex == s.currentPlayerIndex
  }

  lemma PlayKeepsTurn(s: Session, playerIndex: int, card: Card, stack: int)
    requires Seated(s)
    ensures SameTurn(s, PlayCard(s, playerIndex, card, stack).0)
    ensures !TurnEndAccepted(PlayCard(s, playerIndex, card, stack).1)
  {
    hide Played, Refilled;
  }

  lemma OpeningKeepsTurn(s: Session, name: string, deck: Shuffle, now: int)
    requires Inv(s)
    ensures SameTurn(s, JoinGame(s, name, deck, now).0) && SameTurn(s, StartGame(s, deck, now).0)
    ensures !TurnEndAccepted(JoinGame(s, name, deck, now).1) && !TurnEndAccepted(StartGame(s, deck, now).1)
  {
    hide Opened;
  }

  /** Only an accepted turn end moves the turn on. */
  lemma InvSeats(s: Session)
    requires Inv(s)
    ensures Seated(s)
  {
  }

  lemma StepSeat(s: Session, q: Request)
    requires Inv(s)
    ensures var (after, r) := Step(s, q);
            if TurnEndAccepted(r) then
              && s.status == Playing && after.status != Waiting && after.currentPlayers == s.currentPlayers
              && !PlayAccepted(r)
              && after.currentPlayerIndex ==
                 if s.currentPlayerIndex + 1 == s.currentPlayers then 0 else s.currentPlayerIndex + 1
            else
              SameTurn(s, after)
  {
    hide PlayCard, JoinGame, StartGame, ViewOf, IsLost, Inv;
    InvSeats(s);
    match q
    case Join(name, deck, now) => OpeningKeepsTurn(s, name, deck, now);
    case Start(deck, now) => OpeningKeepsTurn(s, "", deck, now);
    case Play(playerIndex, card, stack, _) => PlayKeepsTurn(s, playerIndex, card, stack);
    case EndTurn(playerIndex, _) =>
      if TurnEndAccepted(Step(s, q).1) { EndTurnMovesOn(s, playerIndex); }
    case _ =>
  }

  lemma StepKeepsInTurn(s: Session, q: Request, n: Tally)
    requires Inv(s) && InTurn(s, n)
    ensures InTurn(Step(s, q).0, Counted(s, q, n))
  {
    hide Step, Inv;
    StepSeat(s, q);
    assert s.status == Waiting ==> s.currentPlayerIndex == 0;
  }

  /** Turns go round the seats in order: the number of accepted turn ends decides whose turn it is. */
  lemma {:induction false} TurnOrder(gameId: int, maxPlayers: int, qs: seq<Request>)
    requires 2 <= maxPlayers <= 5
    ensures var start := NewSession(gameId, maxPlayers);
            var s := Run(start, qs);
            var n := CountRun(start, qs);
            InTurn(s, n)
  {
    if qs == [] {
    } else {
      hide Step, Counted;
      var s := NewSession(gameId, maxPlayers);
      var front := qs[..|qs| - 1];
      TurnOrder(gameId, maxPlayers, front);
      RunKeepsInv(s, front);
      StepKeepsInTurn(Run(s, front), qs[|qs| - 1], CountRun(s, front));
    }
  }

  // ---------- the bound ----------

  /** Every run of a session accepts at most 98 plays, and every accepted turn end has paid for itself:
      two plays while the deck lasts, one afterwards. */
  lemma {:induction false} RunBound(gameId: int, maxPlayers: int, qs: seq<Request>)
    requires 2 <= maxPlayers <= 5
    ensures var s := Run(NewSession(gameId, maxPlayers), qs);
            var n := CountRun(NewSession(gameId, maxPlayers), qs);
            && Bounded(s, n)
            && n.plays <= 98 && n.plays + n.fullEnds + n.emptyEnds <= 196
            && 2 * n.fullEnds + n.emptyEnds <= n.plays - s.cardsPlayedThisTurn
  {
    if qs == [] {
    } else {
      var s := NewSession(gameId, maxPlayers);
      var front := qs[..|qs| - 1];
      RunBound(gameId, maxPlayers, front);
      RunKeepsInv(s, front);
      StepKeepsBounded(Run(s, front), qs[|qs| - 1], CountRun(s, front));
    }
  }
}
