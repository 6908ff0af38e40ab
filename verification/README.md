# Verified model of The Game server

The Game is a cooperative card game: 98 cards numbered 2 to 99 go onto two increasing and two decreasing piles. This
project models the parts of the repository that decide what happens in a game and what is remembered of it, and proves
facts about every input, every run and every reachable state.

- **The server game** (`Cards`, `Players`, `Tables`, `TableLaws`, `Sessions`, `SessionLaws`, `GameRules`,
  `SessionTheorems`, `StuckTurn`, `PolledLoss`). `Tables` and `Players` hold the mutable objects and the value functions they meet. A session is a state
  machine whose step is one request; the laws are about all reachable states and all runs, and `GameRules` says in plain
  numbers what is accepted and what is answered.
- **The store** (`Database`, `StoreLaws`, `StoreRules`): users, session rows, per-player statistics, the score, matchmaking.
- **The server** (`Servers`, `ServerLaws`, `Manager`): all sessions plus the store. `Manager` holds the objects that the
  handlers update in place; each handler is proved to compute the step function, so the laws apply to it.
- **The stream buffer** (`StreamBuffers`, `StreamTraces`): one sliding, growing array that refines, over every trace of
  prepare, write, commit, consume, underflow and overflow, a bounded byte queue with a writable area behind it.
- **The rate limiter** (`RateLimiting`, `RateGrants`; `Arithmetic` serves its bounds and the deal) and **the library variant of the
  game** (`LibraryGame`, `LibraryLaws`, `FalseWins`). `Sorting` serves the library variant and matchmaking.

## How things are represented

- A card is its number; the foundation flag of a card follows from the number.
- Every handler holds one lock for its whole body, so a request is one atomic step and a run is a list of requests.
- A restart is a request to the server: it keeps the store, forgets every session and hands out ids from 1 again.
- The outcome of a shuffle is an argument of type `Shuffle`: any order of the 98 cards. The clock reading is an argument;
  the rate limiter counts in ticks (a nanosecond clock, as `TICKS` says) and truncates to seconds as the cast does.
- A table of the store is a sequence and a row's primary key is its position plus one: keys are assigned in order and no
  operation deletes rows. Queries return rows in key order. Timestamps are numbers.
- The win rate and the average of cards on losses are exact fractions. `BucketIsByRate` relates the comparison of counters
  to the fraction. `std::sort` appears as a function that returns the sorted permutation.
- `std::vector::resize` of the stream buffer becomes a larger array with the old bytes copied; offsets into it
  are the stream positions.
- `hide` appears in some proofs: it only keeps function bodies away from the solver where the proof does not need them.

## Where the code and its documentation differ

The code was followed in each case.

- The documentation says a player draws back up at the end of the turn. The code draws only when a hand becomes empty
  (`PlayDraws`), up to a size that depends on the seats the session was created for, not on the seats taken.
- The documentation says a game is lost when a player cannot place the minimum number of cards. Polling also ends a game
  in which the player has met the minimum and merely holds blocked cards (`PollChangesOnlyBlockedQuota`);
  `PolledLossIsReachable` gives a run that gets there. All other losses have the documented reason (`LossMeansBlocked`).
- Somebody should always be able to move until the game is over. `StuckIsReachable` gives a run of two players, without
  any forced win, after which no request but a forced win has any effect; `Progress` says exactly when this happens: the
  seat whose turn it is has an empty hand, the deck is empty and nothing was played this turn.
- The documentation calls a game won when all 98 cards are placed. In the library variant a card that its pile refuses has
  already left the hand and is gone, so a win means 98 minus the refused cards (`WinMeans`): all 98 are placed if and only
  if no play was refused. A reported win with cards missing is possible if and only if there is a player (`FalseWinIff`),
  and from 14 players on after every shuffle (`FalseWinMany`).
- `prepare` documents a length error, not what it does to the bytes. When it throws, the bytes were already moved but the
  offsets were not; the queue is guaranteed intact if and only if the get offset is 0 or at least the size
  (`ThrowIsSafeIff`). `FailedPrepareDamages` is a use that loses a byte this way.
- A session is created together with a row of the store and later finishes the row under its own id. These are the same
  row if and only if the store held no session rows when the server was started (`StoreAccounted`, `OwnRow`); after a
  restart on an older store a won game leaves its own row waiting (`RestartMisfiles`).
- The limiter takes a refill rate that the code never uses. In any window of one interval a client can get up to
  2 * maxTokens - 1 requests, and that many are attainable (`WindowBound`, `WindowBoundIsTight`); exactly the first
  maxTokens requests of each bucket pass (`GrantedIff`).

## Model

| member | source | states |
|---|---|---|
| Players.Player.AddCard | Server/Server/Player.cpp:35-40 | the first card drawn replaces the sentinel, later ones are appended |
| Players.Player.RemoveCard | Server/Server/Player.cpp:52-60 | all copies of a number leave the hand, the rest keeps its order |
| Players.Player.HasCard | Server/Server/Player.cpp:62-70 | true exactly when the number is in the hand |
| Cards.WithoutRemovesOne | Server/Server/Player.cpp:52-60 | remove-all removes exactly one card when the card is held once |
| Cards.WithoutSplit | Server/Server/Player.cpp:52-60 | removal works piece by piece, so the kept cards keep their order |
| Tables.GameTable.AddGamer | Server/Server/GameTable.cpp:53-60 | a new seat under the given name with the sentinel hand, at most five seats |
| Tables.GameTable.MixingDeckCards | Server/Server/GameTable.cpp:85-97 | the deck becomes some order of the cards 2 to 99 |
| Tables.GameTable.IssuerCard | Server/Server/GameTable.cpp:99-117 | the nested dealing loops compute the deal function on the whole table |
| Tables.GameTable.IsValidMove | Server/Server/GameTable.cpp:202-226 | both directions of the ordering rule with the jump of ten, false for other stacks and empty piles |
| Tables.GameTable.IsGameWon | Server/Server/GameTable.cpp:228-235 | true exactly when the deck and every hand are empty |
| Tables.GameTable.IsGameLost | Server/Server/GameTable.cpp:237-251 | true exactly for an unknown seat or a non-empty hand without a valid move on any stack |
| TableLaws.Deal | Server/Server/GameTable.cpp:70-117 | for every shuffle and 2 to 5 seats: foundations 1 and 100, each seat gets exactly its reversed slice of 8 cards with two seats, 7 with three and 6 with more, the deck keeps the prefix, no sentinel or card is lost |
| TableLaws.DealtCard | Server/Server/GameTable.cpp:99-117 | card j of seat k is the card at 97 - n * k - j of the shuffled deck |
| TableLaws.HeldOnce | Server/Server/GameSessionManager.cpp:363-371 | on a complete table a held card is a playing card and is held once, so removal takes exactly one |
| TableLaws.PlayKeepsCards | Server/Server/GameSessionManager.cpp:371-378 | a valid play moves one card from a hand to a pile: every card still once, piles legal, one more placed |
| TableLaws.RefillKeepsCards | Server/Server/GameSessionManager.cpp:387-397 | the refill loses nothing, keeps hands at eight or less, and restocks the hand unless the deck is empty |
| TableLaws.WonIffAllPlaced | Server/Server/GameTable.cpp:228-235 | the win check holds exactly when 98 cards are on the piles, and then the piles hold all of 2..99 |
| SessionLaws.StartNeverLoses | Server/Server/GameSessionManager.cpp:208-234 | starting never ends in a loss: the first seat can always play |
| SessionLaws.StepKeepsInv | Server/Server/GameSessionManager.cpp:93-440 | every request keeps the session invariant: conservation, legal piles, hands of at most eight, empty hands only with an empty deck, and a move, the quota or the stuck shape |
| SessionLaws.PlayOutcome | Server/Server/GameSessionManager.cpp:363-408 | an accepted play places one more card and answers won exactly when it was the 98th |
| SessionLaws.PlayMovesCard | Server/Server/GameSessionManager.cpp:371-378 | an accepted play adds the card to the named pile only and touches no other hand |
| SessionLaws.PlayDraws | Server/Server/GameSessionManager.cpp:387-397 | only an emptied hand draws: exactly the last 8, 7 or 6 cards of the deck (or what is left) in drawing order |
| GameRules.MoveRule | Server/Server/GameTable.cpp:202-226 | stacks 1 and 2 take a higher card or one ten lower, 3 and 4 a lower card or one ten higher, nothing else is a move |
| GameRules.PlayAcceptedIff | Server/Server/GameSessionManager.cpp:341-371 | in a running game exactly the seat in turn, with a held card that fits its stack by that rule, is accepted |
| GameRules.PlayAnswers | Server/Server/GameSessionManager.cpp:341-371 | the refusals in their order, each with its exact condition; a refused play changes nothing |
| GameRules.NoMoveIff | Server/Server/GameTable.cpp:237-251 | the loss check fires on a seat exactly when it holds cards and each is refused on every stack |
| GameRules.LostIffAllRefused | Server/Server/GameTable.cpp:237-251 | a non-empty hand is lost exactly when every play its seat could request would be refused |
| GameRules.EndTurnAnswers | Server/Server/GameSessionManager.cpp:411-441 | a turn ends exactly after two cards with a deck and one without, the refusal names that number, the next seat follows with a count of zero, and it loses exactly when blocked |
| GameRules.PlayLosesIff | Server/Server/GameSessionManager.cpp:399-406 | an accepted play loses exactly when fewer than two cards (one without a deck) were played and the hand is blocked |
| GameRules.JoinAnswers | Server/Server/GameSessionManager.cpp:104-154 | joining succeeds exactly while waiting with a free seat and yields the next seat index; the last seat opens the game |
| GameRules.StartAnswers | Server/Server/GameSessionManager.cpp:208-234 | a waiting session starts exactly with two or more seats |
| GameRules.StartTimeRule | Server/Server/GameSessionManager.cpp:132-140 | the start time is the clock of the request that opens the game and never changes otherwise |
| GameRules.ForceWinAnswers | Server/Server/GameSessionManager.cpp:245-265 | any session that is not over can be won by force; hands are emptied, deck and piles stay |
| GameRules.ViewDecidesPlays | Server/Server/GameSessionManager.cpp:293-326 | what a poll shows a seat decides, by the move rule on the shown tops, exactly which of its plays are accepted |
| GameRules.ViewShows | Server/Server/GameSessionManager.cpp:293-338 | the other fields of the response: turn, name, deck size, names and hand sizes, and the foundations before the start |
| SessionTheorems.RunFaithful | Server/Server/GameSessionManager.cpp:93-440 | over every unforced run every card is kept and the session is won exactly when all 98 are placed |
| SessionTheorems.WonMeansAllPlaced | Server/Server/GameSessionManager.cpp:382-385 | in a won unforced game the piles hold exactly 2..99 besides the foundations and obey the rule in numbers |
| SessionTheorems.PilesObeyRules | Server/Server/GameTable.cpp:202-226 | over every unforced run the piles grow from 1 upwards and from 100 downwards except for steps of exactly ten back |
| SessionTheorems.Progress | Server/Server/GameSessionManager.cpp:399-440 | in every reachable playing state some play or turn end is accepted if and only if the state is not stuck |
| SessionTheorems.StuckForever | Server/Server/GameSessionManager.cpp:341-440 | a stuck session is a fixpoint of every run without a forced win, and another seat still holds cards |
| StuckTurn.StuckIsReachable | Server/Server/GameSessionManager.cpp:341-440 | a concrete legal run of two players that ends stuck |
| SessionTheorems.PollChangesOnlyBlockedQuota | Server/Server/GameSessionManager.cpp:284-291 | polling changes a state exactly when two cards (one without a deck) were played and the non-empty hand is refused on every stack; it then ends the game as lost although the turn could have been ended |
| PolledLoss.PolledLossIsReachable | Server/Server/GameSessionManager.cpp:284-291 | an unforced run of two players after which the minimum is met and the turn could be ended, but polling ends the game as lost |
| SessionTheorems.PollTellsOnlyBlocked | Server/Server/GameSessionManager.cpp:284-338 | two sessions that differ only in cards a seat does not see give that seat the same poll response exactly when they agree on whether the seat in turn is blocked; the seat in turn itself always gets the same |
| SessionTheorems.LossMeansBlocked | Server/Server/GameSessionManager.cpp:284-291 | every loss leaves the seat in turn with cards that are refused on every stack, with two cards played (one without a deck) exactly when polling found the loss |
| SessionTheorems.LostIff | Server/Server/GameSessionManager.cpp:284-440 | a running game is lost by exactly a poll, an accepted turn end or an accepted play below the minimum, each leaving the seat in turn blocked |
| SessionTheorems.RunBound | Server/Server/GameSessionManager.cpp:371-433 | over every run: at most 98 accepted plays, at most 196 accepted acts, and each turn end paid for by two plays (one once the deck is empty) |
| SessionTheorems.TurnOrder | Server/Server/GameSessionManager.cpp:423-433 | over every run the turn goes round the seats in order, one seat per accepted turn end |
| Manager.GameSession.JoinGame | Server/Server/GameSessionManager.cpp:104-154 | the handler computes the join step, opening the table when the last seat is taken |
| Manager.GameSession.StartGame | Server/Server/GameSessionManager.cpp:214-234 | the handler computes the start step and settles the store |
| Manager.GameSession.ForceWin | Server/Server/GameSessionManager.cpp:245-265 | the clearing loops end with every hand empty and the session won |
| Manager.GameSession.GetGameState | Server/Server/GameSessionManager.cpp:273-339 | the handler computes the poll step and the whole response after it: status, turn and name, pile tops with their defaults, deck count, own hand, names and hand sizes |
| Manager.GameSession.PlayCard | Server/Server/GameSessionManager.cpp:341-409 | the handler computes the play step, with its refusals in order |
| Manager.GameSession.EndTurn | Server/Server/GameSessionManager.cpp:411-441 | the handler computes the turn-end step |
| Manager.GameSession.FinishGameAndSaveStats | Server/Server/GameSessionManager.cpp:12-49 | finishing happens once and writes the session and one record per seat whose name is a user |
| Manager.GameSessionManager.CreateGame | Server/Server/GameSessionManager.cpp:51-91 | a fresh id, a session with its own table, and a waiting row in the store |
| Manager.GameSessionManager.Handle | Server/Server/GameSessionManager.cpp:93-104 | a request changes only the session it names; sessions never share a table or player object |
| ServerLaws.Isolation | Server/Server/GameSessionManager.cpp:93-441 | between restarts a session in a busy server is exactly the session run on its own requests |
| ServerLaws.SessionHistory | Server/Server/GameSessionManager.cpp:51-91 | over all requests and restarts, every session of a server that started empty is a session run from its creation |
| ServerLaws.EverySessionFaithful | Server/Server/GameSessionManager.cpp:51-441 | conservation and win correctness for every session of a server, whatever the others do |
| ServerLaws.RunKeepsKeyed | Server/Server/GameSessionManager.cpp:74-83 | ids are handed out in order, keys match ids, and every session satisfies its invariant |
| ServerLaws.CreateAnswers | Server/Server/GameSessionManager.cpp:51-91 | 2 to 5 seats are accepted, 4 without a request; the next id, a waiting empty session, all others untouched |
| ServerLaws.SaveGameEffect | Server/Server/GameSessionManager.cpp:12-49 | every user gains one game per seat under the user's name, with the session's own outcome and the time since the start (zero without one) |
| ServerLaws.SavedSeats | Server/Server/GameSessionManager.cpp:24-38 | every seat of a user has a row afterwards, and of the added rows exactly that of the first seat's user is the host's |
| ServerLaws.StatsMirrorGames | Server/Server/GameSessionManager.cpp:12-49 | from any server on any store, over any requests and restarts, wins and losses of a user grow by exactly the seats in games won and lost meanwhile, dropped sessions included |
| ServerLaws.StoreFromNothing | Server/Database/Database/DatabaseManager.cpp:338-401 | in every store that servers build from nothing, across restarts: played is won plus lost, every score is the win-rate bucket, saved hands have at most 8 cards; on a store started without statistics every statistics row names a finished session and has its won flag |
| ServerLaws.StoreAccounted | Server/Server/GameSessionManager.cpp:12-91 | over all requests and restarts: one row per session; every row since the start is finished, won and counted like the session under its key, or waiting; every statistics row since the start carries the outcome, a seat's user and that seat's cards of a finished session |
| ServerLaws.OwnRow | Server/Server/GameSessionManager.cpp:20-22 | the row created with a session is finished exactly when the session under the row's key is, which is that session itself on a store that had no rows at the start |
| ServerLaws.RestartMisfiles | Server/Server/GameSessionManager.cpp:20-22 | a run with one restart after which a won game's own row still waits |
| ServerLaws.ScoreCollapses | Server/Database/Database/DatabaseManager.cpp:370-393 | with hands of at most eight neither penalty of the score formula applies |
| ServerLaws.ScoreMonotone | Server/Database/Database/DatabaseManager.cpp:338-395 | recording a win never lowers the score and recording a loss never raises it |
| Database.BucketIsByRate | Server/Database/Database/DatabaseManager.cpp:374-388 | comparing counters gives the bucket of the exact win rate |
| Database.DatabaseManager.Register | Server/Database/Database/DatabaseManager.cpp:100-124 | only valid, unused names are registered, with empty counters and score 1 |
| Database.DatabaseManager.AddPlayerToSession | Server/Database/Database/DatabaseManager.cpp:153-191 | one more seat and one row, only while waiting, below five and for a new member |
| Database.DatabaseManager.Finish | Server/Database/Database/DatabaseManager.cpp:214-240 | a row is finished once; a negative duration is stored as zero |
| Database.DatabaseManager.UpdateUserStatsIncrement | Server/Database/Database/DatabaseManager.cpp:338-401 | the history loop and the counters compute the credited user |
| Database.DatabaseManager.FindBestWaitingSessionForUser | Server/Database/Database/DatabaseManager.cpp:242-281 | the least session by score distance and then id among the open ones, whatever the tolerance |
| Database.BestIsUnique | Server/Database/Database/DatabaseManager.cpp:272-280 | the best session is unique, so the tolerance cannot matter |
| StoreLaws.StoreLifecycle | Server/Database/Database/DatabaseManager.cpp:139-302 | over any interleaving: statuses only move forward, finished rows are frozen, running rows have 2 to 5 players, one statistics row per user and session |
| StoreLaws.StepKeepsSeatsCounted | Server/Database/Database/DatabaseManager.cpp:153-191 | the seat count of a row is the number of its members while statistics are saved for members only |
| StoreLaws.SaveThenFind | Server/Database/Database/DatabaseManager.cpp:284-302 | after saving, the row found for the pair carries the new result |
| StoreLaws.SaveKeepsOthers | Server/Database/Database/DatabaseManager.cpp:284-302 | saving leaves every other user and session alone |
| StoreRules.RegisterRule | Server/Database/Database/DatabaseManager.cpp:100-124 | registration succeeds exactly for 3 to 16 letters, digits or underscores that nobody uses; the new user's values |
| StoreRules.AddPlayerRule | Server/Database/Database/DatabaseManager.cpp:153-191 | joining a row succeeds exactly while it waits with fewer than five players and no row of the player; its whole effect |
| StoreRules.SetRunningRule | Server/Database/Database/DatabaseManager.cpp:193-212 | running needs a waiting row with two players; its whole effect |
| StoreRules.FinishRule | Server/Database/Database/DatabaseManager.cpp:214-240 | finishing needs an unfinished row; every field of the finished row |
| StoreRules.LossesSplit | Server/Database/Database/DatabaseManager.cpp:355-367 | the loss history is additive over any cut of the rows |
| StoreRules.LossesOne | Server/Database/Database/DatabaseManager.cpp:355-367 | one row counts exactly when it is the user's and not won |
| StoreRules.ScoreRule | Server/Database/Database/DatabaseManager.cpp:368-393 | the score on exact fractions: buckets of a fifth, one point off from an average of 10 and another from 15, at least 1 |
| StoreRules.UpdateRule | Server/Database/Database/DatabaseManager.cpp:338-401 | one more game of a known user: every field, and nobody else changes |
| StoreRules.DifferenceRule | Server/Database/Database/DatabaseManager.cpp:242-271 | the distance to the score of the first host row's user, 0 without a known host |
| StoreRules.BestRule | Server/Database/Database/DatabaseManager.cpp:242-281 | best means waiting, below five players, and nearer than every other such session or as near with a lower id |
| StreamBuffers.StreamBuf.Reserve | Server/Server/include/asio/basic_streambuf.hpp:308-346 | fails exactly when size plus n exceeds the maximum; otherwise the queue is unchanged and n bytes fit behind it; on failure the exact bytes that stay readable |
| StreamBuffers.StreamBuf.Prepare | Server/Server/include/asio/basic_streambuf.hpp:214-219 | the documented length error exactly; on success the queue unchanged, nothing moved when the area suffices and otherwise an area of the exact new size; on failure offsets and area unchanged and the exact bytes left |
| StreamBuffers.StreamBuf.Commit | Server/Server/include/asio/basic_streambuf.hpp:233-238 | moves min(n, room) bytes from the put area to the end of the queue |
| StreamBuffers.StreamBuf.Consume | Server/Server/include/asio/basic_streambuf.hpp:247-254 | drops min(n, size) bytes from the front |
| StreamBuffers.StreamBuf.Underflow | Server/Server/include/asio/basic_streambuf.hpp:263-274 | the front byte without taking it, end of file exactly when the queue is empty |
| StreamBuffers.StreamBuf.Overflow | Server/Server/include/asio/basic_streambuf.hpp:283-306 | appends the byte; fails exactly when the size is at its maximum |
| StreamTraces.Replay | Server/Server/include/asio/basic_streambuf.hpp:110-360 | over every trace of prepare, write, commit, consume, underflow and overflow, across length errors, each use fails exactly when the bounded queue says so and the buffer holds the queue's bytes and the staged bytes behind it |
| StreamTraces.FirstInFirstOut | Server/Server/include/asio/basic_streambuf.hpp:110-360 | over every trace whose length errors all hit a harmless offset, what was there and what was committed or put comes out in order, the rest is the queue, within the maximum |
| StreamTraces.WrittenBytesArrive | Server/Server/include/asio/basic_streambuf.hpp:190-238 | prepare n, write at most n bytes, commit k of them: exactly those k arrive, the rest stays staged, and only the prepare can fail |
| StreamTraces.CommitInPieces | Server/Server/include/asio/basic_streambuf.hpp:233-238 | committing in pieces is committing once, also beyond the area |
| StreamTraces.ConsumeBeforeCommit | Server/Server/include/asio/basic_streambuf.hpp:233-254 | consuming readable bytes and committing staged ones commute |
| StreamTraces.PutDropsStagedByte | Server/Server/include/asio/basic_streambuf.hpp:283-306 | a put between prepare and commit overtakes the staged bytes and costs the first of them |
| StreamBuffers.AfterThrowKeeps | Server/Server/include/asio/basic_streambuf.hpp:321-341 | after a length error a given queue survives exactly when nothing moved or it repeats with the moved distance |
| StreamBuffers.ThrowIsSafeIff | Server/Server/include/asio/basic_streambuf.hpp:321-341 | a length error is harmless for all contents exactly when the get offset is 0 or at least the size |
| StreamBuffers.FailedPrepareDamages | Server/Server/include/asio/basic_streambuf.hpp:321-341 | a use of the buffer in which a failing prepare turns the readable bytes 2, 3 into 3, 3 |
| RateLimiting.RateLimiter.AllowRequest | Server/Server/RateLimiter.h:32-60 | only the caller's entry changes, as the request function says |
| RateLimiting.RateLimiter.GetRemainingTokens | Server/Server/RateLimiter.h:62-71 | a full bucket for an unknown client |
| RateLimiting.LongRunBound | Server/Server/RateLimiter.h:32-60 | at most maxTokens * (1 + floor(T / interval)) requests in the time T after a client's first |
| RateLimiting.WindowBound | Server/Server/RateLimiter.h:32-60 | at most 2 * maxTokens - 1 requests in any half-open window of one interval, whatever came before |
| RateLimiting.WindowBoundIsTight | Server/Server/RateLimiter.h:32-60 | a run that attains the window bound |
| RateGrants.GrantedIff | Server/Server/RateLimiter.h:32-60 | a request is allowed exactly when fewer than maxTokens requests came since its bucket was filled |
| RateGrants.BucketStarts | Server/Server/RateLimiter.h:45-51 | a bucket is filled by the first request or by one that comes a whole window after the last filling, and serves less than a window |
| RateGrants.BucketGrants | Server/Server/RateLimiter.h:32-60 | each bucket grants min(maxTokens, its requests), refused requests included |
| RateGrants.QuietClientIsAllowed | Server/Server/RateLimiter.h:32-60 | a client that was allowed nothing during the last window is allowed now, however often it was refused |
| RateGrants.EveryCallGrantedIff | Server/Server/RateLimiter.h:32-60 | the exact condition for every client in any interleaving |
| RateLimiting.DegenerateLimits | Server/Server/RateLimiter.h:32-60 | without tokens exactly one request ever passes; without an interval every request passes |
| RateLimiting.ClientsAreIndependent | Server/Server/RateLimiter.h:32-60 | what a client is granted depends on its own requests only |
| RateLimiting.EveryClientBounded | Server/Server/RateLimiter.h:32-60 | the long-run bound for every client in any interleaving |
| RateLimiting.EveryClientWindowBounded | Server/Server/RateLimiter.h:32-60 | the window bound for every client in any interleaving, whatever all clients sent before |
| RateLimiting.RateLimiter.AllowAll | Server/Server/RateLimiter.h:32-60 | a sequence of calls of all clients leaves the entries and grants the requests that the many-client laws are about |
| LibraryGame.Player.AddCard | TheGameDLL/TheGameDLL/Player.cpp:20-29 | the hand stays sorted; a full hand drops the card |
| LibraryGame.Player.PlayCard | TheGameDLL/TheGameDLL/Player.cpp:31-39 | the card at the index leaves the hand |
| LibraryGame.Pile.PlaceCard | TheGameDLL/TheGameDLL/Pile.cpp:24-39 | placed exactly when the pile accepts it |
| LibraryGame.Deck.DrawCard | TheGameDLL/TheGameDLL/Deck.cpp:17-25 | the last card of the deck, if any |
| LibraryGame.Game.StartGame | TheGameDLL/TheGameDLL/Game.cpp:21-36 | seven draws for each player in order |
| LibraryGame.Game.PlayCard | TheGameDLL/TheGameDLL/Game.cpp:38-75 | the board and the answer of the play function, refused cards gone |
| LibraryGame.Game.CheckWinCondition | TheGameDLL/TheGameDLL/Game.cpp:77-84 | true exactly when the deck and all hands are empty |
| LibraryLaws.StartKeepsDeck | TheGameDLL/TheGameDLL/Game.cpp:21-29 | the first start drops no card for any number of players |
| LibraryLaws.TakenRule | TheGameDLL/TheGameDLL/Player.cpp:20-29 | below seven cards a card is taken in order, from seven on it is dropped |
| LibraryLaws.PlayRule | TheGameDLL/TheGameDLL/Game.cpp:38-75 | the answer to a play in numbers for both kinds of piles, and where every card of the player, the pile and the deck goes |
| LibraryLaws.PilesObeyRules | TheGameDLL/TheGameDLL/Pile.cpp:24-39 | over every run the piles obey the two rules in numbers |
| LibraryLaws.Ledger | TheGameDLL/TheGameDLL/Game.cpp:38-75 | over every run each of 2..99 is in deck, hands, piles or among the refused cards exactly once; hands sorted, at most seven |
| LibraryLaws.WinMeans | TheGameDLL/TheGameDLL/Game.cpp:77-84 | a reported win means 98 minus the refused cards are placed, all of them exactly when none was refused |
| FalseWins.FalseWinMany | TheGameDLL/TheGameDLL/Game.cpp:38-84 | with 14 or more players every shuffle allows a reported win with cards missing |
| FalseWins.FalseWinFew | TheGameDLL/TheGameDLL/Game.cpp:38-84 | for 1 to 13 players a shuffle and moves that end in a reported win with cards missing |
| FalseWins.FalseWinIff | TheGameDLL/TheGameDLL/Game.cpp:38-84 | some shuffle and moves give a reported win with cards missing if and only if there is a player |

## Left out

- HTTP, JSON parsing, routing, logging, timers and the locks: arguments are plain values and a handler is one step.
- A poll of a session that nobody joined: the name lookup is out of range there, so the model shows no name.
- `EndGame`: no route reaches it and it bypasses the statistics.
- SQLite failures: storage calls always succeed, so the catch blocks and the rollback are not modelled, and neither are
  foreign-key errors for an unknown user or session.
- Login, chat messages and user profiles: they only read or append rows that nothing here depends on.
- 32-bit overflow of ids, counters and scores: integers are unbounded.
- StreamBuffers.StreamBuf.Commit: does not model the narrowing of a byte count to `int`, so the maximum size is taken to
  be within the range of `int`; the allocator, the capacity, `read_size_helper` and the `std::streambuf` base class are
  left out.
- The Qt client, the console game and the repository's test project.
