/** The server's sessions as objects that the handlers update in place; each handler meets its step function. */
module Manager {
  import opened Cards
  import opened Options
  import opened Tables
  import opened TableLaws
  import opened Sessions
  import opened Database
  import opened Servers

  class GameSession {
    const gameId: int
    const maxPlayers: int
    const table: GameTable
    var currentPlayers: int
    var status: Status
    var won: bool
    var playerNames: seq<string>
    var startTime: int
    var currentPlayerIndex: int
    var cardsPlayedThisTurn: int

    ghost function Footprint(): (f: set<object>)
      reads this, table
      ensures this in f && table in f && forall p :: p in table.gamers ==> p in f
    {
      {this, table} + set p: object | p in table.gamers
    }

    function Model(): Session
      reads this, table, table.gamers
    {
      Session(gameId, maxPlayers, currentPlayers, status, won, playerNames, startTime, table.Model(),
              currentPlayerIndex, cardsPlayedThisTurn)
    }

    ghost predicate Valid()
      reads this, table, table.gamers
    {
      table.Valid() && Seated(Model())
    }

    constructor (gameId: int, maxPlayers: int)
      requires 2 <= maxPlayers <= 5
      ensures Valid() && fresh(Footprint())
      ensures Model() == NewSession(gameId, maxPlayers)
    {
      this.gameId, this.maxPlayers := gameId, maxPlayers;
      currentPlayers, status, won, playerNames := 0, Status.Waiting, false, [];
      startTime, currentPlayerIndex, cardsPlayedThisTurn := 0, 0, 0;
      table := new GameTable(maxPlayers);
    }

    /** Marks the session finished and writes it and its seats to the store, once. */
    method FinishGameAndSaveStats(win: bool, store: DatabaseManager, now: int)
      requires Valid()
      modifies this`status, this`won, store
      ensures Valid() && Model() == Finish(old(Model()), win)
      ensures store.Model() ==
              if old(status) == Status.Finished then old(store.Model()) else SaveGame(old(store.Model()), Model(), now)
    {
      if status == Status.Finished {
        return;
      }
      status := Status.Finished;
      won := win;
      WriteToStore(store, now);
    }

    method WriteToStore(store: DatabaseManager, now: int)
      requires Valid()
      modifies store
      ensures store.Model() == SaveGame(old(store.Model()), Model(), now)
    {
      hide SaveSeats, FinishSession;
      var duration := if startTime > 0 then now - startTime else 0;
      var closed := store.Finish(gameId, won, |table.deckCards|, 0, now, duration);
      SaveSeatStats(store, duration);
    }

    method SaveSeatStats(store: DatabaseManager, duration: int)
      requires Valid()
      modifies store
      ensures store.Model() == SaveSeats(old(store.Model()), Model(), currentPlayers, duration)
    {
      ghost var s := Model();
      for i := 0 to currentPlayers
        invariant Valid() && Model() == s
        invariant store.Model() == SaveSeats(old(store.Model()), s, i, duration)
      {
        SaveOneSeat(i, store, duration);
      }
    }

    method SaveOneSeat(i: nat, store: DatabaseManager, duration: int)
      requires Valid() && i < currentPlayers
      modifies store
      ensures store.Model() == SaveSeat(old(store.Model()), Model(), i, duration)
    {
      var name := playerNames[i];
      var u := FindUser(store.users, name);
      if u.Some? {
        var cardsInHand := |table.gamers[i].cards|;
        var seatWon := won && cardsInHand == 0;
        ghost var row := SeatRow(Model(), i, u.value);
        assert row == StatsRow(u.value, gameId, i == 0, cardsInHand, 0, seatWon);
        store.SaveStats(StatsRow(u.value, gameId, i == 0, cardsInHand, 0, seatWon));
        store.UpdateUserStatsIncrement(u.value, seatWon, cardsInHand, duration);
      }
    }

    /** The opening both start routes run once the seats are fixed. */
    method Begin(deck: Shuffle, now: int)
      requires table.Valid() && 0 <= currentPlayers <= |table.gamers|
      modifies this`status, this`startTime, this`currentPlayerIndex, table, table.gamers
      ensures table.Valid() && table.gamers == old(table.gamers)
      ensures Model() == old(Model()).(
                status := Playing, startTime := now, currentPlayerIndex := 0,
                table := Opened(old(table.Model()).(nrGamer := currentPlayers), deck))
    {
      status := Playing;
      startTime := now;
      table.SetNrGamer(currentPlayers);
      table.AddInitialCards();
      table.MixingDeckCards(deck);
      table.IssuerCard();
      currentPlayerIndex := 0;
    }

    method TakeSeat(name: string)
      requires Valid() && currentPlayers < maxPlayers
      modifies this`playerNames, this`currentPlayers, table
      ensures table.Valid() && fresh(Footprint() - old(Footprint()))
      ensures Model() == old(Model()).(
                playerNames := old(playerNames) + [name],
                currentPlayers := old(currentPlayers) + 1,
                table := old(table.Model()).(nrGamer := old(currentPlayers) + 1,
                                             hands := old(table.Hands()) + [[SENTINEL]]))
      ensures |table.gamers| == currentPlayers && fresh(table.gamers[old(currentPlayers)])
      ensures table.gamers == old(table.gamers) + [table.gamers[old(currentPlayers)]]
    {
      playerNames := playerNames + [name];
      currentPlayers := currentPlayers + 1;
      table.AddGamer(name);
    }

    method JoinGame(name: string, deck: Shuffle, now: int) returns (r: Response)
      requires Valid()
      modifies this, table, table.gamers
      ensures Valid() && fresh(Footprint() - old(Footprint()))
      ensures (Model(), r) == Sessions.JoinGame(old(Model()), name, deck, now)
    {
      if currentPlayers >= maxPlayers {
        return GameFull;
      }
      if status != Status.Waiting {
        return AlreadyStarted;
      }
      TakeSeat(name);
      if currentPlayers == maxPlayers {
        Begin(deck, now);
      }
      return Joined(currentPlayers - 1);
    }

    method StartGame(deck: Shuffle, store: DatabaseManager, now: int) returns (r: Response)
      requires Valid()
      modifies this, table, table.gamers, store
      ensures Valid() && Footprint() == old(Footprint())
      ensures (Model(), r) == Sessions.StartGame(old(Model()), deck, now)
      ensures store.Model() == Settled(old(status), Model(), old(store.Model()), now)
    {
      hide SaveGame, IsLost, Opened;
      if currentPlayers < 2 {
        return NotEnoughPlayers;
      }
      if status != Status.Waiting {
        return AlreadyStarted;
      }
      Begin(deck, now);
      cardsPlayedThisTurn := 0;
      var lost := table.IsGameLost(0);
      if lost {
        FinishGameAndSaveStats(false, store, now);
      }
      return Started;
    }

    method ClearHand(i: nat)
      requires table.Valid() && i < |table.gamers|
      modifies table.gamers[i]
      ensures table.Model() == old(table.Model()).(hands := old(table.Hands())[i := []])
    {
      while |table.gamers[i].cards| > 0
        invariant forall k :: 0 <= k < |table.gamers| && k != i ==> table.gamers[k].cards == old(table.gamers[k].cards)
        decreases |table.gamers[i].cards|
      {
        var hand := table.gamers[i].cards;
        var c := hand[|hand| - 1];
        WithoutLast(hand);
        table.RemoveCardFromHand(i, c);
        assert table.Hands()[i] == Without(hand, c);
      }
      assert table.Hands() == old(table.Hands())[i := []];
    }

    method ForceWin(store: DatabaseManager, now: int) returns (r: Response)
      requires Valid()
      modifies this, table.gamers, store
      ensures Valid() && Footprint() == old(Footprint())
      ensures (Model(), r) == ForceWinGame(old(Model()))
      ensures store.Model() == Settled(old(status), Model(), old(store.Model()), now)
    {
      if status == Status.Finished {
        return AlreadyFinished;
      }
      ghost var s := Model();
      for i := 0 to currentPlayers
        invariant Model() == s.(table := s.table.(hands := table.Hands()))
        invariant forall k :: 0 <= k < i ==> table.Hands()[k] == []
        invariant |table.gamers| == currentPlayers
        invariant store.Model() == old(store.Model())
      {
        ClearHand(i);
      }
      assert table.Hands() == EmptyHands(currentPlayers);
      FinishGameAndSaveStats(true, store, now);
      return ForcedWin;
    }

    method GetGameState(userId: int, store: DatabaseManager, now: int) returns (r: Response)
      requires Valid()
      modifies this, store
      ensures Valid() && Footprint() == old(Footprint())
      ensures (Model(), r) == PollState(old(Model()), userId)
      ensures store.Model() == Settled(old(status), Model(), old(store.Model()), now)
    {
      hide SaveGame, ViewOf, IsLost;
      if status == Playing {
        var lost := table.IsGameLost(currentPlayerIndex);
        if lost {
          FinishGameAndSaveStats(false, store, now);
        }
      }
      var view := ShowTo(userId);
      return State(view);
    }

    method ShowTo(userId: int) returns (view: View)
      requires Valid()
      ensures view == ViewOf(Model(), userId)
    {
      var currentPlayerName := None;
      if currentPlayerIndex < |playerNames| {
        currentPlayerName := Some(playerNames[currentPlayerIndex]);
      }
      var inc1, inc2, dec1, dec2 := table.LastCards();
      var myHand := None;
      if 0 <= userId < currentPlayers {
        myHand := Some(table.gamers[userId].cards);
      }
      var players: seq<SeatInfo> := [];
      for i := 0 to currentPlayers
        invariant players == SeatInfos(Model())[..i]
      {
        players := players + [SeatInfo(playerNames[i], |table.gamers[i].cards|)];
      }
      return View(status, won, currentPlayerIndex, currentPlayerName, currentPlayers, maxPlayers, |table.deckCards|,
                  inc1, inc2, dec1, dec2, myHand, players);
    }

    /** Moves a held card to a pile. */
    method MoveCard(card: Card, stack: int)
      requires Valid() && status == Playing
      modifies this`cardsPlayedThisTurn, table, table.gamers
      ensures Valid() && table.gamers == old(table.gamers)
      ensures Model() == old(Model()).(table := Played(old(table.Model()), currentPlayerIndex, card, stack),
                                       cardsPlayedThisTurn := old(cardsPlayedThisTurn) + 1)
    {
      table.RemoveCardFromHand(currentPlayerIndex, card);
      table.Push(card, stack);
      cardsPlayedThisTurn := cardsPlayedThisTurn + 1;
    }

    method RefillIfEmpty(i: nat)
      requires table.Valid() && i < |table.gamers|
      modifies table`deckCards, table.gamers[i]
      ensures table.Valid() && table.gamers == old(table.gamers)
      ensures table.Model() == Refilled(old(table.Model()), i, RefillTarget(maxPlayers))
    {
      if |table.gamers[i].cards| == 0 {
        var targetHandSize := 6;
        if maxPlayers == 2 {
          targetHandSize := 8;
        } else if maxPlayers == 3 {
          targetHandSize := 7;
        }
        table.FillHand(i, targetHandSize);
      }
    }

    method CheckPlay(playerIndex: int, card: Card, stack: int) returns (refusal: Option<Response>)
      requires Valid()
      ensures refusal == PlayRefusal(Model(), playerIndex, card, stack)
    {
      if status != Playing {
        return Some(NotPlaying);
      }
      if playerIndex != currentPlayerIndex {
        return Some(NotYourTurn);
      }
      var held := table.gamers[playerIndex].HasCard(card);
      if !held {
        return Some(CardNotHeld);
      }
      var valid := table.IsValidMove(card, stack);
      if !valid {
        return Some(InvalidMove);
      }
      return None;
    }

    method PlayCard(playerIndex: int, card: Card, stack: int, store: DatabaseManager, now: int)
      returns (r: Response)
      requires Valid()
      modifies this, table, table.gamers, store
      ensures Valid() && Footprint() == old(Footprint())
      ensures (Model(), r) == Sessions.PlayCard(old(Model()), playerIndex, card, stack)
      ensures store.Model() == Settled(old(status), Model(), old(store.Model()), now)
    {
      var refusal := CheckPlay(playerIndex, card, stack);
      if refusal.Some? {
        return refusal.value;
      }
      r := AcceptPlay(card, stack, store, now);
    }

    method AcceptPlay(card: Card, stack: int, store: DatabaseManager, now: int) returns (r: Response)
      requires Valid() && PlayRefusal(Model(), currentPlayerIndex, card, stack).None?
      modifies this, table, table.gamers, store
      ensures Valid() && Footprint() == old(Footprint())
      ensures (Model(), r) == Sessions.PlayCard(old(Model()), old(currentPlayerIndex), card, stack)
      ensures store.Model() == Settled(old(status), Model(), old(store.Model()), now)
    {
      hide AfterPlay, Played, Settled;
      MoveCard(card, stack);
      r := SettlePlay(store, now);
    }

    method SettlePlay(store: DatabaseManager, now: int) returns (r: Response)
      requires Valid() && status == Playing
      modifies this, table, table.gamers, store
      ensures Valid() && Footprint() == old(Footprint())
      ensures (Model(), r) == AfterPlay(old(Model()))
      ensures store.Model() == Settled(old(status), Model(), old(store.Model()), now)
    {
      var win := table.IsGameWon();
      if win {
        FinishGameAndSaveStats(true, store, now);
        return GameWon;
      }
      RefillIfEmpty(currentPlayerIndex);
      var minCards := if |table.deckCards| > 0 then 2 else 1;
      if cardsPlayedThisTurn < minCards {
        var lost := table.IsGameLost(currentPlayerIndex);
        if lost {
          FinishGameAndSaveStats(false, store, now);
          return BlockedLoss;
        }
      }
      return MoveAccepted;
    }

    method EndTurn(playerIndex: int, store: DatabaseManager, now: int) returns (r: Response)
      requires Valid()
      modifies this, store
      ensures Valid() && Footprint() == old(Footprint())
      ensures (Model(), r) == EndTurnOf(old(Model()), playerIndex)
      ensures store.Model() == Settled(old(status), Model(), old(store.Model()), now)
    {
      hide SaveGame, IsLost;
      if status != Playing {
        return NotPlaying;
      }
      if playerIndex != currentPlayerIndex {
        return NotYourTurn;
      }
      var minCards := if |table.deckCards| > 0 then 2 else 1;
      if cardsPlayedThisTurn < minCards {
        return QuotaUnmet(minCards);
      }
      cardsPlayedThisTurn := 0;
      currentPlayerIndex := (currentPlayerIndex + 1) % currentPlayers;
      var lost := table.IsGameLost(currentPlayerIndex);
      if lost {
        FinishGameAndSaveStats(false, store, now);
        return TurnEndedLoss;
      }
      return TurnEnded;
    }

    /** One request, with the effect on the session and on the store. */
    method Handle(q: Request, store: DatabaseManager) returns (r: Response)
      requires Valid()
      modifies this, table, table.gamers, store
      ensures Valid() && fresh(Footprint() - old(Footprint()))
      ensures (Model(), r) == Step(old(Model()), q)
      ensures store.Model() == Settled(old(status), Model(), old(store.Model()), q.now)
    {
      match q {
        case Join(name, deck, now) => r := JoinGame(name, deck, now);
        case Start(deck, now) => r := StartGame(deck, store, now);
        case ForceWin(now) => r := ForceWin(store, now);
        case Poll(userId, now) => r := GetGameState(userId, store, now);
        case Play(playerIndex, card, stack, now) => r := PlayCard(playerIndex, card, stack, store, now);
        case EndTurn(playerIndex, now) => r := EndTurn(playerIndex, store, now);
      }
    }
  }

  /** All sessions by id. No two sessions share a table or a player. */
  class GameSessionManager {
    var sessions: map<int, GameSession>
    var nextGameId: int
    const store: DatabaseManager
    ghost var Repr: set<object>

    /** The session's objects are among the manager's, apart from the manager itself and the store. */
    ghost predicate Owns(s: GameSession)
      reads this, Repr
    {
      && s in Repr && s.table in Repr
      && s.Footprint() <= Repr && this !in s.Footprint() && store !in s.Footprint()
      && s.Valid()
    }

    ghost predicate Valid()
      reads this, Repr
    {
      && this in Repr && store in Repr
      && (forall id :: id in sessions ==> id < nextGameId && Owns(sessions[id]))
      && (forall a, b :: a in sessions && b in sessions && a != b ==>
            sessions[a].Footprint() !! sessions[b].Footprint())
    }

    ghost function Models(): (m: map<int, Session>)
      requires Valid()
      reads this, Repr
      ensures m.Keys == sessions.Keys
      ensures forall id :: id in sessions ==> m[id] == sessions[id].Model() && Seated(m[id])
    {
      map id | id in sessions :: sessions[id].Model()
    }

    ghost function Model(): (srv: Server)
      requires Valid()
      reads this, Repr
      ensures AllSeated(srv)
    {
      Server(Models(), nextGameId, store.Model())
    }

    constructor (store: DatabaseManager)
      ensures Valid() && this.store == store && fresh(Repr - {store})
      ensures Model() == Server(map[], 1, store.Model())
    {
      sessions, nextGameId := map[], 1;
      this.store := store;
      Repr := {this, store};
    }

    /** A session whose objects did not change is as valid as before. */
    twostate lemma Undisturbed(s: GameSession)
      requires old(Owns(s)) && old(Repr) <= Repr
      requires forall o :: o in old(s.Footprint()) ==> unchanged(o)
      ensures Owns(s) && s.Model() == old(s.Model()) && s.Footprint() == old(s.Footprint())
    {
      assert unchanged(s) && unchanged(s.table);
      forall i | 0 <= i < |s.table.gamers| ensures s.table.gamers[i].cards == old(s.table.gamers[i].cards) {
        assert s.table.gamers[i] in old(s.Footprint());
      }
      assert s.table.Hands() == old(s.table.Hands());
    }

    /** The other sessions are undisturbed when only the objects of one session and new objects differ. */
    twostate lemma OthersUndisturbed(ids: set<int>)
      requires old(Valid()) && old(Repr) <= Repr && ids <= old(sessions).Keys
      requires forall id :: id in ids ==> id in sessions && sessions[id] == old(sessions[id])
      requires forall id :: id in ids ==> forall o :: o in old(sessions[id].Footprint()) ==> unchanged(o)
      ensures forall id :: id in ids ==>
                && Owns(sessions[id]) && sessions[id].Model() == old(sessions[id].Model())
                && sessions[id].Footprint() == old(sessions[id].Footprint())
    {
      forall id | id in ids
        ensures Owns(sessions[id]) && sessions[id].Model() == old(sessions[id].Model())
        ensures sessions[id].Footprint() == old(sessions[id].Footprint())
      {
        Undisturbed(old(sessions[id]));
      }
    }

    /** The objects of the session under an id, if there is one. */
    ghost function Part(id: int): set<object>
      requires Valid()
      reads this, Repr
    {
      if id in sessions then sessions[id].Footprint() else {}
    }

    /** Outside one session's part, only the manager itself and the store may have changed. */
    twostate predicate OnlyChanged(id: int)
      requires old(Valid())
      reads *
    {
      forall o :: o in old(Repr) && o !in old(Part(id)) && o != this && o != store ==> unchanged(o)
    }

    /** The manager stays valid when one session moved on within its own and new objects. */
    twostate lemma OneMoved(gameId: int, new session: GameSession)
      requires old(Valid()) && old(Repr) <= Repr && old(nextGameId) <= nextGameId
      requires gameId < nextGameId && sessions == old(sessions)[gameId := session] && Owns(session)
      requires forall o :: o in session.Footprint() ==> o !in old(Repr) || o in old(Part(gameId))
      requires OnlyChanged(gameId)
      ensures Valid() && Models() == old(Models())[gameId := session.Model()]
    {
      hide GameSession.Model, Owns;
      MovedValid(gameId, session);
      var goal := old(Models())[gameId := session.Model()];
      forall id | id in sessions ensures id in goal && Models()[id] == goal[id] {
        assert id != gameId ==> id in old(sessions);
      }
      assert Models().Keys == goal.Keys;
    }

    twostate lemma MovedValid(gameId: int, new session: GameSession)
      requires old(Valid()) && old(Repr) <= Repr && old(nextGameId) <= nextGameId
      requires gameId < nextGameId && sessions == old(sessions)[gameId := session] && Owns(session)
      requires forall o :: o in session.Footprint() ==> o !in old(Repr) || o in old(Part(gameId))
      requires OnlyChanged(gameId)
      ensures Valid()
      ensures forall id :: id in old(sessions) && id != gameId ==>
                id in sessions && sessions[id].Model() == old(sessions[id].Model())
    {
      hide Owns, GameSession.Model;
      OthersUnchanged(gameId);
      OthersUndisturbed(old(sessions).Keys - {gameId});
      MovedDisjoint(gameId, session);
    }

    /** The other sessions' objects lie outside the part of one session. */
    twostate lemma OthersUnchanged(gameId: int)
      requires old(Valid()) && OnlyChanged(gameId)
      ensures forall id :: id in old(sessions) && id != gameId ==>
                forall o :: o in old(sessions[id].Footprint()) ==> unchanged(o)
    {
    }

    twostate lemma MovedDisjoint(gameId: int, new session: GameSession)
      requires old(Valid()) && sessions == old(sessions)[gameId := session]
      requires forall o :: o in session.Footprint() ==> o !in old(Repr) || o in old(Part(gameId))
      requires forall id :: id in old(sessions) && id != gameId ==>
                 sessions[id].Footprint() == old(sessions[id].Footprint())
      ensures forall a, b :: a in sessions && b in sessions && a != b ==>
                sessions[a].Footprint() !! sessions[b].Footprint()
    {
      forall a, b | a in sessions && b in sessions && a != b
        ensures sessions[a].Footprint() !! sessions[b].Footprint()
      {
      }
    }

    /** A change of the store alone leaves the sessions as they are. */
    twostate lemma StoreMoved()
      requires old(Valid()) && unchanged(this)
      requires forall o :: o in old(Repr) && o != store ==> unchanged(o)
      ensures Valid() && Models() == old(Models())
    {
      OthersUndisturbed(old(sessions).Keys);
      assert Valid();
      forall id | id in sessions ensures Models()[id] == old(Models())[id] {
      }
    }

    method CreateRow(now: int) returns (row: int)
      requires Valid()
      modifies store
      ensures Valid() && Models() == old(Models())
      ensures store.Model() == CreateWaitingSession(old(store.Model()), now)
    {
      row := store.CreateWaiting(now);
      StoreMoved();
    }

    /** Files a session with its own new objects under the next id. */
    method Adopt(session: GameSession)
      requires Valid() && session.Valid() && session.Footprint() !! Repr
      modifies this
      ensures Valid() && Repr == old(Repr) + session.Footprint()
      ensures Models() == old(Models())[old(nextGameId) := session.Model()]
      ensures nextGameId == old(nextGameId) + 1 && store.Model() == old(store.Model())
    {
      hide GameSession.Model;
      ghost var model := session.Model();
      sessions := sessions[nextGameId := session];
      nextGameId := nextGameId + 1;
      Repr := Repr + session.Footprint();
      assert session.Model() == model && session.Valid();
      OneMoved(nextGameId - 1, session);
    }

    method CreateGame(maxPlayers: Option<int>, now: int) returns (r: Response)
      requires Valid()
      modifies this, store
      ensures Valid() && fresh(Repr - old(Repr))
      ensures (Model(), r) == Servers.CreateGame(old(Model()), maxPlayers, now)
    {
      hide GameSession.Model, NewSession, CreateWaitingSession;
      var seats := 4;
      if maxPlayers.Some? {
        seats := maxPlayers.value;
        if seats < 2 || seats > 5 {
          return InvalidMaxPlayers;
        }
      }
      var id := nextGameId;
      var session := new GameSession(id, seats);
      var row := CreateRow(now);
      Adopt(session);
      return Created(id);
    }

    /** Passes a request on to the session under an id; no other session moves. */
    method Forward(gameId: int, q: Request) returns (r: Response)
      requires Valid() && gameId in sessions
      modifies Repr
      ensures Valid() && fresh(Repr - old(Repr))
      ensures sessions == old(sessions) && nextGameId == old(nextGameId)
      ensures Models() == old(Models())[gameId := sessions[gameId].Model()]
      ensures (sessions[gameId].Model(), r) == Step(old(sessions[gameId].Model()), q)
      ensures store.Model() ==
              Settled(old(sessions[gameId].status), sessions[gameId].Model(), old(store.Model()), q.now)
    {
      hide Step, Settled, GameSession.Model;
      var session := sessions[gameId];
      r := session.Handle(q, store);
      ghost var next := session.Model();
      Repr := Repr + session.Footprint();
      assert session.Model() == next && session.Valid();
      assert sessions[gameId := session] == sessions;
      OneMoved(gameId, session);
    }

    method Handle(gameId: int, q: Request) returns (r: Response)
      requires Valid()
      modifies Repr
      ensures Valid() && fresh(Repr - old(Repr))
      ensures (Model(), r) == Dispatch(old(Model()), gameId, q)
    {
      hide Step, Settled;
      if gameId !in sessions {
        return NotFound;
      }
      r := Forward(gameId, q);
    }
  }

  /** Removing the last card of a hand, with all its copies, makes the hand shorter. */
  lemma WithoutLast(hand: seq<Card>)
    requires hand != []
    ensures |Without(hand, hand[|hand| - 1])| < |hand|
  {
    var c := hand[|hand| - 1];
    assert c in multiset(hand);
    assert |multiset(hand)[c := 0]| == |multiset(hand)| - multiset(hand)[c];
    assert |multiset(Without(hand, c))| == |Without(hand, c)|;
  }
}
