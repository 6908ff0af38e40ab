/** What holds in every reachable state of a session, and over whole runs of it. */
module SessionLaws {
  import opened Cards
  import opened Tables
  import opened TableLaws
  import opened Sessions

  /** The current seat has an empty hand, nothing to draw and nothing played: it can never move again. */
  predicate Stuck(s: Session)
    requires Seated(s)
  {
    && s.status == Playing
    && s.table.hands[s.currentPlayerIndex] == []
    && s.table.deck == []
    && s.cardsPlayedThisTurn == 0
  }

  predicate QuotaMet(s: Session) {
    s.cardsPlayedThisTurn >= MinCards(s.table)
  }

  ghost predicate Unstarted(s: Session) {
    && s.currentPlayers < s.maxPlayers
    && AllNew(s.table.hands)
    && s.table.deck == s.table.inc1 == s.table.inc2 == s.table.dec1 == s.table.dec2 == []
    && s.currentPlayerIndex == 0 && s.cardsPlayedThisTurn == 0 && !s.won
  }

  ghost predicate Underway(s: Session)
    requires Seated(s)
  {
    && s.currentPlayers >= 2 && !s.won && s.cardsPlayedThisTurn >= 0
    && Dealt(s.table) && !IsWon(s.table)
    && (HasPlay(s.table, s.currentPlayerIndex) || QuotaMet(s) || Stuck(s))
  }

  /** What every ending guarantees: a win, forced or not, leaves the hands empty, and a loss keeps all cards. */
  ghost predicate Ended(s: Session) {
    if s.won then s.table.hands == EmptyHands(|s.table.hands|) else Dealt(s.table)
  }

  ghost predicate Inv(s: Session) {
    Seated(s) &&
    match s.status
    case Waiting => Unstarted(s)
    case Playing => Underway(s)
    case Finished => Ended(s)
  }

  lemma NewSessionInv(gameId: int, maxPlayers: int)
    requires 2 <= maxPlayers <= 5
    ensures Inv(NewSession(gameId, maxPlayers))
  {
  }

  // ---------- one step ----------

  /** Opening the table starts a game nobody has lost. */
  lemma OpenedUnderway(t: Table, deck: Shuffle)
    requires AllNew(t.hands) && t.nrGamer == |t.hands| && 2 <= |t.hands| <= 5
    ensures var r := Opened(t, deck);
            Dealt(r) && PlacedCount(r) == 0 && !IsWon(r) && HasPlay(r, 0) && !IsLost(r, 0)
  {
    Deal(t, deck);
    var r := Opened(t, deck);
    assert r.hands[0] in r.hands && r.hands[0] != [];
    OpeningHasPlay(r, 0);
  }

  lemma JoinKeepsInv(s: Session, name: string, deck: Shuffle, now: int)
    requires Inv(s)
    ensures Inv(JoinGame(s, name, deck, now).0)
  {
    if s.status == Waiting && s.currentPlayers + 1 == s.maxPlayers {
      var seats := s.currentPlayers + 1;
      OpenedUnderway(s.table.(nrGamer := seats, hands := s.table.hands + [[SENTINEL]]), deck);
    }
  }

  /** The loss check of the start route never fires. */
  lemma StartNeverLoses(s: Session, deck: Shuffle, now: int)
    requires Inv(s) && s.status == Waiting && s.currentPlayers >= 2
    ensures var r := StartGame(s, deck, now);
            r.1 == Started && r.0.status == Playing && Inv(r.0) && HasPlay(r.0.table, 0)
  {
    OpenedUnderway(s.table.(nrGamer := s.currentPlayers), deck);
  }

  /** The table an accepted play leaves: the refill runs unless the play won. */
  function TableAfterPlay(s: Session, card: Card, stack: int): Table
    requires Seated(s) && s.status == Playing
  {
    var t := Played(s.table, s.currentPlayerIndex, card, stack);
    if IsWon(t) then t else Refilled(t, s.currentPlayerIndex, RefillTarget(s.maxPlayers))
  }

  lemma TableAfterPlayDealt(s: Session, card: Card, stack: int)
    requires Inv(s) && s.status == Playing
    requires card in s.table.hands[s.currentPlayerIndex] && ValidMove(s.table, card, stack)
    ensures var i := s.currentPlayerIndex;
            var after := TableAfterPlay(s, card, stack);
            && Dealt(after) && |after.hands| == |s.table.hands|
            && PlacedCount(after) == PlacedCount(s.table) + 1
            && (after.hands[i] == [] ==> after.deck == [])
            && (IsWon(Played(s.table, i, card, stack)) <==> IsWon(after))
            && (IsWon(after) <==> PlacedCount(after) == 98)
  {
    var i := s.currentPlayerIndex;
    var t := Played(s.table, i, card, stack);
    PlayKeepsCards(s.table, i, card, stack);
    assert t.deck == s.table.deck;
    assert forall j :: 0 <= j < |t.hands| && j != i ==> t.hands[j] == s.table.hands[j];
    WonIffAllPlaced(t);
    if !IsWon(t) {
      RefillKeepsCards(t, i, RefillTarget(s.maxPlayers));
      WonIffAllPlaced(TableAfterPlay(s, card, stack));
    }
  }

  lemma WonHandsEmpty(t: Table)
    requires IsWon(t)
    ensures t.hands == EmptyHands(|t.hands|)
  {
    forall i | 0 <= i < |t.hands| ensures t.hands[i] == [] {
      assert t.hands[i] in t.hands;
    }
  }

  predicate PlayAccepted(r: Response) {
    r.GameWon? || r.BlockedLoss? || r.MoveAccepted?
  }

  predicate TurnEndAccepted(r: Response) {
    r.TurnEnded? || r.TurnEndedLoss?
  }

  lemma AcceptedPlay(s: Session, playerIndex: int, card: Card, stack: int)
    requires Seated(s) && PlayAccepted(PlayCard(s, playerIndex, card, stack).1)
    ensures s.status == Playing && playerIndex == s.currentPlayerIndex
    ensures card in s.table.hands[playerIndex] && ValidMove(s.table, card, stack)
    ensures var (after, r) := PlayCard(s, playerIndex, card, stack);
            && after.table == TableAfterPlay(s, card, stack)
            && after.cardsPlayedThisTurn == s.cardsPlayedThisTurn + 1
            && (r == GameWon <==> IsWon(Played(s.table, playerIndex, card, stack)))
  {
  }

  /** An accepted play puts one more card on the piles; it wins exactly when that was the 98th. */
  lemma PlayOutcome(s: Session, playerIndex: int, card: Card, stack: int)
    requires Inv(s) && PlayAccepted(PlayCard(s, playerIndex, card, stack).1)
    ensures s.status == Playing && playerIndex == s.currentPlayerIndex
    ensures var (after, r) := PlayCard(s, playerIndex, card, stack);
            && Dealt(after.table) && PlacedCount(after.table) == PlacedCount(s.table) + 1
            && (r == GameWon <==> PlacedCount(after.table) == 98)
            && (r == GameWon <==> IsWon(after.table))
            && after.cardsPlayedThisTurn == s.cardsPlayedThisTurn + 1
            && (after.table.hands[playerIndex] == [] ==> after.table.deck == [])
  {
    AcceptedPlay(s, playerIndex, card, stack);
    TableAfterPlayDealt(s, card, stack);
  }

  /** A pile before and after a play on a pile of the given number. */
  predicate Grows(pile: seq<Card>, after: seq<Card>, card: Card, here: bool) {
    after == if here then pile + [card] else pile
  }

  /** The card lies on top of the named pile, the other piles and the other hands are as they were. */
  ghost predicate MovedOnly(before: Table, after: Table, i: int, card: Card, stack: int) {
    && Grows(before.inc1, after.inc1, card, stack == 1)
    && Grows(before.inc2, after.inc2, card, stack == 2)
    && Grows(before.dec1, after.dec1, card, stack == 3)
    && Grows(before.dec2, after.dec2, card, stack == 4)
    && |after.hands| == |before.hands|
    && forall k :: 0 <= k < |before.hands| && k != i ==> after.hands[k] == before.hands[k]
  }

  /** Where the piles are after an accepted play. */
  lemma PlayMovesCard(s: Session, playerIndex: int, card: Card, stack: int)
    requires Seated(s) && PlayAccepted(PlayCard(s, playerIndex, card, stack).1)
    ensures 1 <= stack <= 4
    ensures MovedOnly(s.table, PlayCard(s, playerIndex, card, stack).0.table, playerIndex, card, stack)
  {
    AcceptedPlay(s, playerIndex, card, stack);
    hide PlayCard;
  }

  lemma RefillsEmptied(t: Table, i: nat, n: nat)
    requires i < |t.hands| && t.hands[i] == [] && SENTINEL !in t.deck
    ensures var d := if |t.deck| < n then |t.deck| else n;
            var r := Refilled(t, i, n);
            && r.hands[i] == Reversed(t.deck[|t.deck| - d..]) && r.deck == t.deck[..|t.deck| - d]
    ensures t.deck == [] ==> Refilled(t, i, n).hands[i] == [] && Refilled(t, i, n).deck == []
  {
    FillDraws([], t.deck, n);
  }

  /** The hand and the deck after an accepted play: only a hand that became empty draws, from the end of the deck,
      up to the hand size of the seats the session was created for. */
  lemma PlayDraws(s: Session, playerIndex: int, card: Card, stack: int)
    requires Inv(s) && PlayAccepted(PlayCard(s, playerIndex, card, stack).1)
    ensures var before := s.table;
            var after := PlayCard(s, playerIndex, card, stack).0.table;
            var size := if s.maxPlayers == 2 then 8 else if s.maxPlayers == 3 then 7 else 6;
            var d := if |before.deck| < size then |before.deck| else size;
            if |before.hands[playerIndex]| > 1 then
              && multiset(after.hands[playerIndex]) == multiset(before.hands[playerIndex]) - multiset{card}
              && after.deck == before.deck
            else
              && after.hands[playerIndex] == Reversed(before.deck[|before.deck| - d..])
              && after.deck == before.deck[..|before.deck| - d]
  {
    AcceptedPlay(s, playerIndex, card, stack);
    hide PlayCard;
    HeldOnce(s.table, playerIndex, card);
    WithoutRemovesOne(s.table.hands[playerIndex], card);
    var t := Played(s.table, playerIndex, card, stack);
    assert t.deck == s.table.deck && t.hands[playerIndex] == Without(s.table.hands[playerIndex], card);
    NoSentinel(s.table, playerIndex);
    hide Played, Dealt, Refilled;
    if |s.table.hands[playerIndex]| == 1 {
      RefillsEmptied(t, playerIndex, RefillTarget(s.maxPlayers));
    }
  }

  lemma PlayKeepsInv(s: Session, playerIndex: int, card: Card, stack: int)
    requires Inv(s)
    ensures Inv(PlayCard(s, playerIndex, card, stack).0)
  {
    var (after, r) := PlayCard(s, playerIndex, card, stack);
    if PlayAccepted(r) {
      PlayOutcome(s, playerIndex, card, stack);
      if r == GameWon {
        WonHandsEmpty(after.table);
      }
    }
  }

  lemma EndTurnKeepsInv(s: Session, playerIndex: int)
    requires Inv(s)
    ensures Inv(EndTurnOf(s, playerIndex).0)
  {
  }

  lemma StepKeepsInv(s: Session, q: Request)
    requires Inv(s)
    ensures Inv(Step(s, q).0)
  {
    match q
    case Join(name, deck, now) => JoinKeepsInv(s, name, deck, now);
    case Start(deck, now) =>
      if s.status == Waiting && s.currentPlayers >= 2 { StartNeverLoses(s, deck, now); }
    case ForceWin(_) =>
    case Poll(_, _) =>
    case Play(playerIndex, card, stack, _) => PlayKeepsInv(s, playerIndex, card, stack);
    case EndTurn(playerIndex, _) => EndTurnKeepsInv(s, playerIndex);
  }

  lemma {:induction false} RunKeepsInv(s: Session, qs: seq<Request>)
    requires Inv(s)
    ensures Inv(Run(s, qs))
  {
    if qs == [] {
    } else {
      RunKeepsInv(s, qs[..|qs| - 1]);
      StepKeepsInv(Run(s, qs[..|qs| - 1]), qs[|qs| - 1]);
    }
  }
}
