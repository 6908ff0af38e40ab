/** The rules of the server game in plain numbers: which requests a session accepts and what it answers. */
module GameRules {
  import opened Cards
  import opened Options
  import opened Tables
  import opened TableLaws
  import opened Sessions
  import opened SessionLaws

  // ---------- moves ----------

  /** Stacks 1 and 2 take a higher card or one exactly ten lower, stacks 3 and 4 a lower card or one exactly ten
      higher; there is no other stack and no move onto an empty one. */
  lemma MoveRule(t: Table, card: Card, stack: int)
    ensures ValidMove(t, card, stack) <==>
            || (stack == 1 && |t.inc1| > 0 && (card > t.inc1[|t.inc1| - 1] || card == t.inc1[|t.inc1| - 1] - 10))
            || (stack == 2 && |t.inc2| > 0 && (card > t.inc2[|t.inc2| - 1] || card == t.inc2[|t.inc2| - 1] - 10))
            || (stack == 3 && |t.dec1| > 0 && (card < t.dec1[|t.dec1| - 1] || card == t.dec1[|t.dec1| - 1] + 10))
            || (stack == 4 && |t.dec2| > 0 && (card < t.dec2[|t.dec2| - 1] || card == t.dec2[|t.dec2| - 1] + 10))
  {
  }

  /** Every card of the seat is refused on every stack. */
  ghost predicate NoMove(t: Table, i: int)
    requires 0 <= i < |t.hands|
  {
    forall card, stack: int :: card in t.hands[i] ==> !ValidMove(t, card, stack)
  }

  lemma NoMoveIff(t: Table, i: int)
    requires 0 <= i < |t.hands|
    ensures HasPlay(t, i) <==> !NoMove(t, i)
    ensures IsLost(t, i) <==> t.hands[i] != [] && NoMove(t, i)
  {
    if !NoMove(t, i) {
      var card, stack: int :| card in t.hands[i] && ValidMove(t, card, stack);
      assert 1 <= stack <= 4;
      assert Playable(t, card);
    }
  }

  /** The seat in turn may play a card exactly when it holds it and the card is higher than the last card of an
      increasing pile or ten lower, or lower than the last card of a decreasing pile or ten higher. */
  lemma PlayAcceptedIff(s: Session, playerIndex: int, card: Card, stack: int)
    requires Inv(s) && s.status == Playing
    ensures var t := s.table;
            && |t.inc1| > 0 && |t.inc2| > 0 && |t.dec1| > 0 && |t.dec2| > 0
            && (PlayAccepted(PlayCard(s, playerIndex, card, stack).1) <==>
                && playerIndex == s.currentPlayerIndex && card in t.hands[playerIndex]
                && (|| (stack == 1 && (card > t.inc1[|t.inc1| - 1] || card == t.inc1[|t.inc1| - 1] - 10))
                    || (stack == 2 && (card > t.inc2[|t.inc2| - 1] || card == t.inc2[|t.inc2| - 1] - 10))
                    || (stack == 3 && (card < t.dec1[|t.dec1| - 1] || card == t.dec1[|t.dec1| - 1] + 10))
                    || (stack == 4 && (card < t.dec2[|t.dec2| - 1] || card == t.dec2[|t.dec2| - 1] + 10))))
  {
    hide Dealt, IsWon, HasPlay, ValidMove, Stuck, AfterPlay;
    PilesLaidOut(s.table);
    MoveRule(s.table, card, stack);
    AfterPlayAccepts(s, playerIndex, card, stack);
  }

  lemma PilesLaidOut(t: Table)
    requires Dealt(t)
    ensures |t.inc1| > 0 && |t.inc2| > 0 && |t.dec1| > 0 && |t.dec2| > 0
  {
  }

  lemma AfterPlayAccepts(s: Session, playerIndex: int, card: Card, stack: int)
    requires Seated(s)
    ensures PlayAccepted(PlayCard(s, playerIndex, card, stack).1) <==> PlayRefusal(s, playerIndex, card, stack).None?
  {
    hide Refilled, Played;
  }

  /** The refusals in the order of the checks. A refused play changes nothing. */
  lemma PlayAnswers(s: Session, playerIndex: int, card: Card, stack: int)
    requires Seated(s)
    ensures var (after, r) := PlayCard(s, playerIndex, card, stack);
            && (r == NotPlaying <==> s.status != Playing)
            && (r == NotYourTurn <==> s.status == Playing && playerIndex != s.currentPlayerIndex)
            && (r == CardNotHeld <==> s.status == Playing && playerIndex == s.currentPlayerIndex
                                      && card !in s.table.hands[playerIndex])
            && (r == InvalidMove <==> s.status == Playing && playerIndex == s.currentPlayerIndex
                                      && card in s.table.hands[playerIndex] && !ValidMove(s.table, card, stack))
            && (!PlayAccepted(r) ==> after == s)
  {
    hide Refilled, Played, ValidMove;
  }

  // ---------- the quota ----------

  /** A turn may end after two cards while the deck lasts and after one card when it is empty. */
  lemma EndTurnAnswers(s: Session, playerIndex: int)
    requires Seated(s)
    ensures var (after, r) := EndTurnOf(s, playerIndex);
            && (r == NotPlaying <==> s.status != Playing)
            && (r == NotYourTurn <==> s.status == Playing && playerIndex != s.currentPlayerIndex)
            && (forall n :: r == QuotaUnmet(n) <==>
                  && s.status == Playing && playerIndex == s.currentPlayerIndex && s.cardsPlayedThisTurn < n
                  && n == if |s.table.deck| > 0 then 2 else 1)
            && (TurnEndAccepted(r) <==>
                  && s.status == Playing && playerIndex == s.currentPlayerIndex
                  && s.cardsPlayedThisTurn >= if |s.table.deck| > 0 then 2 else 1)
            && (if TurnEndAccepted(r) then
                  && after.cardsPlayedThisTurn == 0 && after.table == s.table
                  && after.currentPlayerIndex ==
                     (if s.currentPlayerIndex + 1 == s.currentPlayers then 0 else s.currentPlayerIndex + 1)
                  && (r == TurnEndedLoss <==> after.table.hands[after.currentPlayerIndex] != []
                                              && NoMove(after.table, after.currentPlayerIndex))
                else after == s)
  {
    hide IsLost, ValidMove;
    if s.status == Playing {
      NoMoveIff(s.table, if s.currentPlayerIndex + 1 == s.currentPlayers then 0 else s.currentPlayerIndex + 1);
    }
  }

  /** An accepted play loses the game exactly when the turn has fewer cards than it needs, two while the deck lasts
      and one after, and every card in the hand is refused on every stack. */
  lemma PlayLosesIff(s: Session, playerIndex: int, card: Card, stack: int)
    requires Inv(s) && PlayAccepted(PlayCard(s, playerIndex, card, stack).1)
    ensures var (after, r) := PlayCard(s, playerIndex, card, stack);
            && 0 <= playerIndex < |after.table.hands|
            && after.cardsPlayedThisTurn == s.cardsPlayedThisTurn + 1
            && (r == BlockedLoss <==>
                  && after.cardsPlayedThisTurn < (if |after.table.deck| > 0 then 2 else 1)
                  && after.table.hands[playerIndex] != [] && NoMove(after.table, playerIndex))
  {
    hide Played, Refilled, ValidMove, IsLost;
    PlayOutcome(s, playerIndex, card, stack);
    var after := PlayCard(s, playerIndex, card, stack).0;
    NoMoveIff(after.table, playerIndex);
    if IsWon(after.table) {
      WonHandsEmpty(after.table);
    }
    BlockedIff(s, playerIndex, card, stack);
  }

  lemma BlockedIff(s: Session, playerIndex: int, card: Card, stack: int)
    requires Seated(s) && PlayAccepted(PlayCard(s, playerIndex, card, stack).1)
    ensures var (after, r) := PlayCard(s, playerIndex, card, stack);
            && r != GameWon ==> (r == BlockedLoss <==>
                                   && after.cardsPlayedThisTurn < (if |after.table.deck| > 0 then 2 else 1)
                                   && IsLost(after.table, playerIndex))
  {
    hide Played, Refilled, ValidMove, IsLost, IsWon;
  }

  /** A hand with cards is lost exactly when each play the seat could ask for would be refused. */
  lemma LostIffAllRefused(s: Session)
    requires Seated(s) && s.status == Playing && s.table.hands[s.currentPlayerIndex] != []
    ensures IsLost(s.table, s.currentPlayerIndex) <==>
            forall card, stack: int :: PlayRefusal(s, s.currentPlayerIndex, card, stack).Some?
  {
    var i := s.currentPlayerIndex;
    NoMoveIff(s.table, i);
    hide ValidMove, IsLost;
    if forall card, stack: int :: PlayRefusal(s, i, card, stack).Some? {
      forall card, stack: int | card in s.table.hands[i] ensures !ValidMove(s.table, card, stack) {
        assert PlayRefusal(s, i, card, stack).Some?;
      }
    }
  }

  // ---------- seats and the start ----------

  /** A player joins exactly while the session waits and has a free seat, and gets the next seat; the last seat opens
      the game. */
  lemma JoinAnswers(s: Session, name: string, deck: Shuffle, now: int)
    requires Seated(s)
    ensures var (after, r) := JoinGame(s, name, deck, now);
            && (r == GameFull <==> s.currentPlayers == s.maxPlayers)
            && (r == AlreadyStarted <==> s.currentPlayers < s.maxPlayers && s.status != Waiting)
            && (forall k :: r == Joined(k) <==>
                  s.status == Waiting && s.currentPlayers < s.maxPlayers && k == s.currentPlayers)
            && (if r.Joined? then
                  && after.playerNames == s.playerNames + [name] && after.currentPlayers == s.currentPlayers + 1
                  && (after.status == Playing <==> after.currentPlayers == s.maxPlayers)
                  && (after.status != Playing ==>
                        && after.status == Waiting && after.startTime == s.startTime
                        && after.table.hands == s.table.hands + [[-1]])
                else after == s)
  {
    hide Opened;
  }

  /** Two seats are enough to start a waiting session. */
  lemma StartAnswers(s: Session, deck: Shuffle, now: int)
    requires Inv(s)
    ensures var (after, r) := StartGame(s, deck, now);
            && (r == NotEnoughPlayers <==> s.currentPlayers < 2)
            && (r == AlreadyStarted <==> s.currentPlayers >= 2 && s.status != Waiting)
            && (r == Started <==> s.currentPlayers >= 2 && s.status == Waiting)
            && (if r == Started then after.status == Playing else after == s)
  {
    if s.status == Waiting && s.currentPlayers >= 2 {
      StartNeverLoses(s, deck, now);
    }
  }

  /** The start time is the clock of the request that opens the game and nothing else ever changes it. */
  lemma StartTimeRule(s: Session, q: Request)
    requires Inv(s)
    ensures var after := Step(s, q).0;
            after.startTime == if s.status == Waiting && after.status == Playing then q.now else s.startTime
  {
    hide Opened, Played, Refilled, IsLost, IsWon, Dealt, ValidMove;
    if q.Start? && s.status == Waiting && s.currentPlayers >= 2 {
      StartNeverLoses(s, q.deck, q.now);
    }
  }

  /** A win is forced in any session that is not over; it empties the hands and keeps deck and piles. */
  lemma ForceWinAnswers(s: Session)
    requires Seated(s)
    ensures var (after, r) := ForceWinGame(s);
            && (r == AlreadyFinished <==> s.status == Finished) && (r == ForcedWin <==> s.status != Finished)
            && (if r == ForcedWin then
                  && after.status == Finished && after.won
                  && (forall i :: 0 <= i < |s.table.hands| ==> after.table.hands[i] == [])
                  && after.table == s.table.(hands := after.table.hands)
                else after == s)
  {
  }

  // ---------- what a poll shows ----------

  /** What a seat sees decides which of its plays are accepted: no other knowledge of the session is needed. */
  lemma ViewDecidesPlays(s: Session, userId: int, card: Card, stack: int)
    requires Inv(s) && s.status == Playing && !IsLost(s.table, s.currentPlayerIndex)
    ensures PollState(s, userId).1.State?
    ensures var v := PollState(s, userId).1.view;
            PlayAccepted(PlayCard(s, userId, card, stack).1) <==>
            && userId == v.currentPlayerIndex && v.myHand.Some? && card in v.myHand.value
            && (|| (stack == 1 && (card > v.inc1 || card == v.inc1 - 10))
                || (stack == 2 && (card > v.inc2 || card == v.inc2 - 10))
                || (stack == 3 && (card < v.dec1 || card == v.dec1 + 10))
                || (stack == 4 && (card < v.dec2 || card == v.dec2 + 10)))
  {
    PlayAcceptedIff(s, userId, card, stack);
    hide Inv, PlayCard, IsLost;
  }

  /** Besides the own hand a poll shows who sits where with how many cards, whose turn it is and the deck's size. An
      unopened game shows the foundations 1 and 100. */
  lemma ViewShows(s: Session, userId: int)
    requires Inv(s) && s.currentPlayers > 0
    ensures var (after, r) := PollState(s, userId);
            && r.State?
            && r.view.status == after.status && r.view.won == after.won
            && r.view.currentPlayerIndex == s.currentPlayerIndex && r.view.maxPlayers == s.maxPlayers
            && r.view.currentPlayerName == Some(s.playerNames[s.currentPlayerIndex])
            && r.view.deckCount == |s.table.deck|
            && |r.view.players| == r.view.currentPlayers == s.currentPlayers
            && (forall i :: 0 <= i < s.currentPlayers ==>
                  r.view.players[i].name == s.playerNames[i] && r.view.players[i].cardCount == |s.table.hands[i]|)
            && r.view.myHand == (if 0 <= userId < s.currentPlayers then Some(s.table.hands[userId]) else None)
            && (s.status == Waiting ==> r.view.inc1 == r.view.inc2 == 1 && r.view.dec1 == r.view.dec2 == 100)
  {
    hide IsLost, Dealt, IsWon, HasPlay, Stuck;
  }
}
