/** One game session as a state machine: every request is one atomic step. */
module Sessions {
  import opened Cards
  import opened Options
  import opened Tables
  import opened TableLaws

  datatype Status = Waiting | Playing | Finished

  datatype Session = Session(
    gameId: int,
    maxPlayers: int,
    currentPlayers: int,
    status: Status,
    won: bool,
    playerNames: seq<string>,
    startTime: int,
    table: Table,
    currentPlayerIndex: int,
    cardsPlayedThisTurn: int)

  datatype SeatInfo = SeatInfo(name: string, cardCount: nat)

  /** What a poll shows to one seat: its own hand, and of the other hands and the deck only the sizes. */
  datatype View = View(
    status: Status,
    won: bool,
    currentPlayerIndex: int,
    currentPlayerName: Option<string>,
    currentPlayers: int,
    maxPlayers: int,
    deckCount: nat,
    inc1: Card,
    inc2: Card,
    dec1: Card,
    dec2: Card,
    myHand: Option<seq<Card>>,
    players: seq<SeatInfo>)

  datatype Response =
    | InvalidMaxPlayers
    | Created(id: int)
    | NotFound
    | GameFull
    | AlreadyStarted
    | Joined(index: int)
    | NotEnoughPlayers
    | Started
    | AlreadyFinished
    | ForcedWin
    | State(view: View)
    | NotPlaying
    | NotYourTurn
    | CardNotHeld
    | InvalidMove
    | GameWon
    | BlockedLoss
    | MoveAccepted
    | QuotaUnmet(minCards: int)
    | TurnEndedLoss
    | TurnEnded

  /** A request to one session; now is the clock, deck the order a shuffle produces. */
  datatype Request =
    | Join(name: string, deck: Shuffle, now: int)
    | Start(deck: Shuffle, now: int)
    | ForceWin(now: int)
    | Poll(userId: int, now: int)
    | Play(playerIndex: int, card: Card, stack: int, now: int)
    | EndTurn(playerIndex: int, now: int)

  /** Seats, names and counters agree, and whose turn it is names a seat. */
  predicate Seated(s: Session) {
    && 2 <= s.maxPlayers <= 5
    && 0 <= s.currentPlayers <= s.maxPlayers
    && |s.playerNames| == |s.table.hands| == s.currentPlayers
    && 0 <= s.currentPlayerIndex
    && (s.currentPlayerIndex < s.currentPlayers || s.currentPlayerIndex == 0)
    && (s.status == Playing ==> s.currentPlayers >= 2)
  }

  /** No request unseats anybody, renames the session or touches a finished one. */
  predicate StillSeated(s: Session, after: Session) {
    && Seated(after)
    && after.gameId == s.gameId && after.maxPlayers == s.maxPlayers
    && (s.status == Finished ==> after == s)
  }

  function NewSession(gameId: int, maxPlayers: int): Session {
    Session(gameId, maxPlayers, 0, Waiting, false, [], 0, Table(maxPlayers, [], [], [], [], [], []), 0, 0)
  }

  function Finish(s: Session, won: bool): Session {
    if s.status == Finished then s else s.(status := Finished, won := won)
  }

  function JoinGame(s: Session, name: string, deck: Shuffle, now: int): (r: (Session, Response))
    requires Seated(s)
    ensures StillSeated(s, r.0)
  {
    if s.currentPlayers >= s.maxPlayers then (s, GameFull)
    else if s.status != Waiting then (s, AlreadyStarted)
    else
      var seats := s.currentPlayers + 1;
      var table := s.table.(nrGamer := seats, hands := s.table.hands + [[SENTINEL]]);
      var joined := s.(playerNames := s.playerNames + [name], currentPlayers := seats, table := table);
      if seats == s.maxPlayers then
        (joined.(status := Playing, startTime := now, table := Opened(table, deck), currentPlayerIndex := 0),
         Joined(seats - 1))
      else
        (joined, Joined(seats - 1))
  }

  function StartGame(s: Session, deck: Shuffle, now: int): (r: (Session, Response))
    requires Seated(s)
    ensures StillSeated(s, r.0)
  {
    if s.currentPlayers < 2 then (s, NotEnoughPlayers)
    else if s.status != Waiting then (s, AlreadyStarted)
    else
      var table := Opened(s.table.(nrGamer := s.currentPlayers), deck);
      var started := s.(status := Playing, startTime := now, table := table,
                        currentPlayerIndex := 0, cardsPlayedThisTurn := 0);
      (if IsLost(table, 0) then Finish(started, false) else started, Started)
  }

  function EmptyHands(n: nat): seq<seq<Card>> {
    seq(n, i => [])
  }

  function ForceWinGame(s: Session): (r: (Session, Response))
    requires Seated(s)
    ensures StillSeated(s, r.0)
  {
    if s.status == Finished then (s, AlreadyFinished)
    else (Finish(s.(table := s.table.(hands := EmptyHands(s.currentPlayers))), true), ForcedWin)
  }

  /** The view of a seat, or of somebody without a seat. Before anybody joined there is no name to show. */
  function ViewOf(s: Session, userId: int): View
    requires Seated(s)
  {
    View(s.status, s.won, s.currentPlayerIndex,
         if s.currentPlayerIndex < |s.playerNames| then Some(s.playerNames[s.currentPlayerIndex]) else None,
         s.currentPlayers, s.maxPlayers, |s.table.deck|,
         Top(s.table.inc1, INCREASING_BASE), Top(s.table.inc2, INCREASING_BASE),
         Top(s.table.dec1, DECREASING_BASE), Top(s.table.dec2, DECREASING_BASE),
         if 0 <= userId < s.currentPlayers then Some(s.table.hands[userId]) else None,
         SeatInfos(s))
  }

  function SeatInfos(s: Session): (infos: seq<SeatInfo>)
    requires Seated(s)
    ensures |infos| == s.currentPlayers
    ensures forall i :: 0 <= i < |infos| ==> infos[i] == SeatInfo(s.playerNames[i], |s.table.hands[i]|)
  {
    seq(s.currentPlayers, i requires 0 <= i < s.currentPlayers => SeatInfo(s.playerNames[i], |s.table.hands[i]|))
  }

  function PollState(s: Session, userId: int): (r: (Session, Response))
    requires Seated(s)
    ensures StillSeated(s, r.0)
  {
    var after := if s.status == Playing && IsLost(s.table, s.currentPlayerIndex) then Finish(s, false) else s;
    (after, State(ViewOf(after, userId)))
  }

  /** Cards a turn has to play before it may end. */
  function MinCards(t: Table): int {
    if |t.deck| > 0 then 2 else 1
  }

  /** The refill goes by the seats the session was created for, not by the seats taken. */
  function RefillTarget(maxPlayers: int): int {
    if maxPlayers == 2 then 8 else if maxPlayers == 3 then 7 else 6
  }

  /** Once the card lies on its pile: the win check, the refill of an emptied hand, the early loss check. */
  function AfterPlay(played: Session): (r: (Session, Response))
    requires Seated(played) && played.status == Playing
    ensures StillSeated(played, r.0)
  {
    var i := played.currentPlayerIndex;
    if IsWon(played.table) then (Finish(played, true), GameWon)
    else
      var next := played.(table := Refilled(played.table, i, RefillTarget(played.maxPlayers)));
      if next.cardsPlayedThisTurn < MinCards(next.table) && IsLost(next.table, i) then
        (Finish(next, false), BlockedLoss)
      else
        (next, MoveAccepted)
  }

  /** Why a play is refused, in the order the checks run; None when it is accepted. */
  function PlayRefusal(s: Session, playerIndex: int, card: Card, stack: int): Option<Response>
    requires Seated(s)
  {
    if s.status != Playing then Some(NotPlaying)
    else if playerIndex != s.currentPlayerIndex then Some(NotYourTurn)
    else if card !in s.table.hands[playerIndex] then Some(CardNotHeld)
    else if !ValidMove(s.table, card, stack) then Some(InvalidMove)
    else None
  }

  function PlayCard(s: Session, playerIndex: int, card: Card, stack: int): (r: (Session, Response))
    requires Seated(s)
    ensures StillSeated(s, r.0)
  {
    match PlayRefusal(s, playerIndex, card, stack)
    case Some(refusal) => (s, refusal)
    case None =>
      AfterPlay(s.(table := Played(s.table, playerIndex, card, stack),
                   cardsPlayedThisTurn := s.cardsPlayedThisTurn + 1))
  }

  function EndTurnOf(s: Session, playerIndex: int): (r: (Session, Response))
    requires Seated(s)
    ensures StillSeated(s, r.0)
  {
    if s.status != Playing then (s, NotPlaying)
    else if playerIndex != s.currentPlayerIndex then (s, NotYourTurn)
    else if s.cardsPlayedThisTurn < MinCards(s.table) then (s, QuotaUnmet(MinCards(s.table)))
    else
      var next := s.(cardsPlayedThisTurn := 0,
                     currentPlayerIndex := (s.currentPlayerIndex + 1) % s.currentPlayers);
      if IsLost(next.table, next.currentPlayerIndex) then (Finish(next, false), TurnEndedLoss)
      else (next, TurnEnded)
  }

  function Step(s: Session, q: Request): (r: (Session, Response))
    requires Seated(s)
    ensures StillSeated(s, r.0)
  {
    match q
    case Join(name, deck, now) => JoinGame(s, name, deck, now)
    case Start(deck, now) => StartGame(s, deck, now)
    case ForceWin(_) => ForceWinGame(s)
    case Poll(userId, _) => PollState(s, userId)
    case Play(playerIndex, card, stack, _) => PlayCard(s, playerIndex, card, stack)
    case EndTurn(playerIndex, _) => EndTurnOf(s, playerIndex)
  }

  /** The session after a list of requests. */
  function Run(s: Session, qs: seq<Request>): (r: Session)
    requires Seated(s)
    ensures Seated(r)
  {
    if qs == [] then s else Step(Run(s, qs[..|qs| - 1]), qs[|qs| - 1]).0
  }
}
