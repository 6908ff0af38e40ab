/** The ledger of the library game: where every card is, and what a reported win means. */
module LibraryLaws {
  import opened Cards
  import opened Sorting
  import opened LibraryGame

  datatype Move = Move(player: nat, index: nat, pile: nat)

  ghost function Copies(b: Board, c: Card): nat {
    multiset(b.deck)[c] + HandsCopies(b.hands, c) + HandsCopies(b.piles, c)
  }

  function PlacedTotal(b: Board): nat {
    HandsTotal(b.piles)
  }

  function Total(b: Board): nat {
    |b.deck| + HandsTotal(b.hands) + PlacedTotal(b)
  }

  ghost predicate LegalPile(kind: PileType, pile: seq<Card>) {
    forall i :: 0 < i < |pile| ==> CanPlace(kind, [pile[i - 1]], pile[i])
  }

  /** Hands are sorted and hold at most seven cards, and every pile obeys its rule. */
  ghost predicate Tidy(b: Board) {
    && |b.piles| == 4
    && SmallHands(b.hands)
    && (forall k :: 0 <= k < 4 ==> LegalPile(KindOf(k), b.piles[k]))
  }

  /** The card a play discards: the pile refused it after it had left the hand. */
  function LostBy(b: Board, m: Move): (lost: seq<Card>)
    requires |b.piles| == 4
  {
    if m.player < |b.hands| && m.pile < 4 && m.index < |b.hands[m.player]| &&
       !CanPlace(KindOf(m.pile), b.piles[m.pile], b.hands[m.player][m.index])
    then [b.hands[m.player][m.index]]
    else []
  }

  function Run(b: Board, moves: seq<Move>): (r: Board)
    requires |b.piles| == 4
    ensures |r.piles| == 4
  {
    if moves == [] then b
    else
      var m := moves[|moves| - 1];
      AfterPlay(Run(b, moves[..|moves| - 1]), m.player, m.index, m.pile).0
  }

  /** Every card the moves discard, in order. */
  function Lost(b: Board, moves: seq<Move>): seq<Card>
    requires |b.piles| == 4
  {
    if moves == [] then []
    else
      var front := moves[..|moves| - 1];
      Lost(b, front) + LostBy(Run(b, front), moves[|moves| - 1])
  }

  // ---------- drawing ----------

  /** A draw into a hand with room moves the last card of the deck to the hand. */
  lemma DrawMoves(hand: seq<Card>, deck: seq<Card>, c: Card)
    requires Sorted(hand) && |hand| < MAX_HAND_SIZE
    ensures var h := DrawInto(hand, deck);
            && Sorted(h) && |h| <= |hand| + 1 && |h| + |Rest(deck)| == |hand| + |deck|
            && |Rest(deck)| == (if deck == [] then 0 else |deck| - 1)
            && multiset(h)[c] + multiset(Rest(deck))[c] == multiset(hand)[c] + multiset(deck)[c]
  {
    if deck != [] {
      var n := |deck| - 1;
      assert deck == deck[..n] + [deck[n]];
      assert |multiset(Sort(hand + [deck[n]], AtMost))| == |multiset(hand + [deck[n]])|;
    }
  }

  lemma {:induction false} DrawTimesMoves(hand: seq<Card>, deck: seq<Card>, n: nat, c: Card)
    requires Sorted(hand) && |hand| + n <= MAX_HAND_SIZE
    ensures var r := DrawTimes(hand, deck, n);
            && Sorted(r.0) && |r.0| <= |hand| + n
            && |r.1| == (if n <= |deck| then |deck| - n else 0)
            && |r.0| + |r.1| == |hand| + |deck|
            && multiset(r.0)[c] + multiset(r.1)[c] == multiset(hand)[c] + multiset(deck)[c]
    decreases n
  {
    hide DrawInto, Rest, Sorted;
    if n == 0 {
    } else {
      DrawTimesMoves(hand, deck, n - 1, c);
      var r := DrawTimes(hand, deck, n - 1);
      DrawMoves(r.0, r.1, c);
    }
  }

  // ---------- the start ----------

  function NewBoard(deck: Shuffle, players: nat): Board {
    Board(deck, seq(players, i => []), [[], [], [], []])
  }

  function Started(deck: Shuffle, players: nat): (r: Board)
    ensures |r.piles| == 4
  {
    StartedUpTo(NewBoard(deck, players), players, 7)
  }

  ghost predicate SmallHands(hands: seq<seq<Card>>) {
    forall i :: 0 <= i < |hands| ==> Sorted(hands[i]) && |hands[i]| <= MAX_HAND_SIZE
  }

  ghost predicate AllEmpty(hands: seq<seq<Card>>, from: nat) {
    forall i :: from <= i < |hands| ==> hands[i] == []
  }

  lemma ServesNone(b: Board, n: nat)
    ensures StartedUpTo(b, 0, n) == b
    ensures AllEmpty(b.hands, 0) ==> SmallHands(b.hands)
  {
  }

  /** Serving one more player out of a fresh hand. */
  lemma ServesNext(b: Board, k: nat, n: nat, c: Card)
    requires 0 < k <= |b.hands| && n <= MAX_HAND_SIZE && AllEmpty(StartedUpTo(b, k - 1, n).hands, k - 1)
    ensures var before := StartedUpTo(b, k - 1, n);
            var r := DrawTimes([], before.deck, n);
            && StartedUpTo(b, k, n) == before.(hands := before.hands[k - 1 := r.0], deck := r.1)
            && before.hands[k - 1] == []
            && Sorted(r.0) && |r.0| <= n && |r.0| + |r.1| == |before.deck|
            && |r.1| == (if n <= |before.deck| then |before.deck| - n else 0)
            && multiset(r.0)[c] + multiset(r.1)[c] == multiset(before.deck)[c]
  {
    assert StartedUpTo(b, k - 1, n).hands[k - 1] == [];
    DrawTimesMoves([], StartedUpTo(b, k - 1, n).deck, n, c);
  }

  /** Dealing n cards a player: the hands served so far are small, the others still empty. */
  lemma {:induction false} StartedUpToShape(b: Board, k: nat, n: nat)
    requires k <= |b.hands| && n <= MAX_HAND_SIZE && AllEmpty(b.hands, 0)
    ensures SmallHands(StartedUpTo(b, k, n).hands) && AllEmpty(StartedUpTo(b, k, n).hands, k)
    decreases k
  {
    hide StartedUpTo, DrawTimes, Sorted;
    if k == 0 {
      ServesNone(b, n);
    } else {
      StartedUpToShape(b, k - 1, n);
      ServesNext(b, k, n, 0);
    }
  }

  /** The deck shrinks by n cards a player until it is empty. */
  lemma {:induction false} StartedUpToDeck(b: Board, k: nat, n: nat)
    requires k <= |b.hands| && n == 7 && AllEmpty(b.hands, 0)
    ensures |StartedUpTo(b, k, n).deck| == if 7 * k <= |b.deck| then |b.deck| - 7 * k else 0
    decreases k
  {
    hide StartedUpTo, DrawTimes, Sorted;
    if k == 0 {
      ServesNone(b, n);
    } else {
      StartedUpToDeck(b, k - 1, n);
      StartedUpToShape(b, k - 1, n);
      ServesNext(b, k, n, 0);
    }
  }

  lemma {:induction false} StartedUpToKeeps(b: Board, k: nat, n: nat, c: Card)
    requires k <= |b.hands| && n <= MAX_HAND_SIZE && AllEmpty(b.hands, 0)
    ensures Copies(StartedUpTo(b, k, n), c) == Copies(b, c)
    ensures Total(StartedUpTo(b, k, n)) == Total(b)
    decreases k
  {
    hide StartedUpTo, DrawTimes, Sorted;
    if k == 0 {
      ServesNone(b, n);
    } else {
      StartedUpToKeeps(b, k - 1, n, c);
      StartedUpToShape(b, k - 1, n);
      ServesNext(b, k, n, c);
      var before := StartedUpTo(b, k - 1, n);
      var hand := DrawTimes([], before.deck, n).0;
      HandsCopiesUpdate(before.hands, k - 1, hand, c);
      HandsTotalUpdate(before.hands, k - 1, hand);
    }
  }

  lemma {:induction false} NothingHeld(hands: seq<seq<Card>>, c: Card)
    requires forall i :: 0 <= i < |hands| ==> hands[i] == []
    ensures HandsCopies(hands, c) == 0 && HandsTotal(hands) == 0
  {
    if hands == [] {
    } else {
      NothingHeld(hands[..|hands| - 1], c);
    }
  }

  /** The first start deals for any number of players without dropping a card. */
  lemma StartKeepsDeck(deck: Shuffle, players: nat)
    ensures var b := Started(deck, players);
            && Tidy(b) && Total(b) == 98 && |b.deck| == (if players <= 14 then 98 - 7 * players else 0)
            && (forall c :: Copies(b, c) == if 2 <= c <= 99 then 1 else 0)
            && b.piles == [[], [], [], []]
  {
    hide StartedUpTo, DrawTimes, Sorted;
    ShuffleIsPlain(deck);
    var start := NewBoard(deck, players);
    StartedUpToShape(start, players, 7);
    StartedUpToDeck(start, players, 7);
    forall c
      ensures Copies(Started(deck, players), c) == (if 2 <= c <= 99 then 1 else 0) && Total(Started(deck, players)) == 98
    {
      StartedUpToKeeps(start, players, 7, c);
      NothingHeld(start.hands, c);
      NothingHeld(start.piles, c);
      NumberedCount(2, 100, c);
    }
    assert Total(Started(deck, players)) == 98 by {
      assert Copies(Started(deck, players), 0) == 0;
    }
  }

  // ---------- one play ----------

  lemma WithoutAtKeeps(hand: seq<Card>, i: nat, c: Card)
    requires i < |hand| && Sorted(hand)
    ensures Sorted(WithoutAt(hand, i)) && |WithoutAt(hand, i)| == |hand| - 1
    ensures multiset(WithoutAt(hand, i))[c] + multiset([hand[i]])[c] == multiset(hand)[c]
  {
    assert hand == hand[..i] + [hand[i]] + hand[i + 1..];
  }

  /** A play loses at most the refused card; hands stay sorted and small and piles legal. */
  lemma PlayKeeps(b: Board, m: Move, c: Card)
    requires Tidy(b)
    ensures var after := AfterPlay(b, m.player, m.index, m.pile).0;
            var lost := LostBy(b, m);
            && Tidy(after)
            && Copies(after, c) + multiset(lost)[c] == Copies(b, c)
            && Total(after) + |lost| == Total(b)
  {
    if m.player < |b.hands| && m.pile < 4 && m.index < |b.hands[m.player]| {
      var card := b.hands[m.player][m.index];
      var hand := WithoutAt(b.hands[m.player], m.index);
      WithoutAtKeeps(b.hands[m.player], m.index, c);
      if CanPlace(KindOf(m.pile), b.piles[m.pile], card) {
        AcceptedKeeps(b, m, c);
        AcceptedKeepsTidy(b, m);
      } else {
        HandsCopiesUpdate(b.hands, m.player, hand, c);
        HandsTotalUpdate(b.hands, m.player, hand);
      }
    }
  }

  /** The board after an accepted play, part by part. */
  lemma AcceptedBoard(b: Board, m: Move)
    requires |b.piles| == 4 && m.player < |b.hands| && m.pile < 4 && m.index < |b.hands[m.player]|
    requires CanPlace(KindOf(m.pile), b.piles[m.pile], b.hands[m.player][m.index])
    ensures AfterPlay(b, m.player, m.index, m.pile).0 ==
            Board(Rest(b.deck),
                  b.hands[m.player := DrawInto(WithoutAt(b.hands[m.player], m.index), b.deck)],
                  b.piles[m.pile := b.piles[m.pile] + [b.hands[m.player][m.index]]])
  {
  }

  lemma AcceptedKeepsTidy(b: Board, m: Move)
    requires Tidy(b) && m.player < |b.hands| && m.pile < 4 && m.index < |b.hands[m.player]|
    requires CanPlace(KindOf(m.pile), b.piles[m.pile], b.hands[m.player][m.index])
    ensures Tidy(AfterPlay(b, m.player, m.index, m.pile).0)
  {
    hide AfterPlay, DrawInto, Rest, Sorted, CanPlace, WithoutAt, LegalPile;
    AcceptedBoard(b, m);
    WithoutAtKeeps(b.hands[m.player], m.index, 0);
    DrawMoves(WithoutAt(b.hands[m.player], m.index), b.deck, 0);
    LegalNext(KindOf(m.pile), b.piles[m.pile], b.hands[m.player][m.index]);
  }

  lemma AcceptedKeeps(b: Board, m: Move, c: Card)
    requires Tidy(b) && m.player < |b.hands| && m.pile < 4 && m.index < |b.hands[m.player]|
    requires CanPlace(KindOf(m.pile), b.piles[m.pile], b.hands[m.player][m.index])
    ensures var after := AfterPlay(b, m.player, m.index, m.pile).0;
            Copies(after, c) == Copies(b, c) && Total(after) == Total(b)
  {
    hide AfterPlay, DrawInto, Rest, Sorted, CanPlace, WithoutAt, LegalPile;
    AcceptedBoard(b, m);
    var card := b.hands[m.player][m.index];
    var hand := WithoutAt(b.hands[m.player], m.index);
    var pile := b.piles[m.pile] + [card];
    WithoutAtKeeps(b.hands[m.player], m.index, c);
    DrawMoves(hand, b.deck, c);
    HandsCopiesUpdate(b.hands, m.player, DrawInto(hand, b.deck), c);
    HandsTotalUpdate(b.hands, m.player, DrawInto(hand, b.deck));
    HandsCopiesUpdate(b.piles, m.pile, pile, c);
    HandsTotalUpdate(b.piles, m.pile, pile);
  }

  lemma LegalNext(kind: PileType, pile: seq<Card>, card: Card)
    requires LegalPile(kind, pile) && CanPlace(kind, pile, card)
    ensures LegalPile(kind, pile + [card])
  {
  }

  /** The answer to a play in plain numbers. Piles 0 and 1 take a higher card or one exactly ten lower, piles 2 and 3
      a lower card or one exactly ten higher, and an empty pile takes any. An accepted card goes onto its pile and the
      last card of the deck replaces it in the sorted hand; a refused one just leaves the hand. */
  lemma PlayRule(b: Board, player: nat, index: nat, pile: nat)
    requires |b.piles| == 4 && SmallHands(b.hands)
    ensures var (after, ok) := AfterPlay(b, player, index, pile);
            && |after.hands| == |b.hands|
            && (forall k :: 0 <= k < |b.hands| && k != player ==> after.hands[k] == b.hands[k])
            && if player < |b.hands| && pile < 4 && index < |b.hands[player]| then
                 var hand, p := b.hands[player], b.piles[pile];
                 var card := hand[index];
                 && (ok <==>
                       || p == []
                       || (pile < 2 && (card > p[|p| - 1] || card == p[|p| - 1] - 10))
                       || (pile >= 2 && (card < p[|p| - 1] || card == p[|p| - 1] + 10)))
                 && after.piles == (if ok then b.piles[pile := p + [card]] else b.piles)
                 && after.deck == (if ok && b.deck != [] then b.deck[..|b.deck| - 1] else b.deck)
                 && multiset(after.hands[player]) + multiset{card} ==
                    multiset(hand) + (if ok && b.deck != [] then multiset{b.deck[|b.deck| - 1]} else multiset{})
                 && forall i, j :: 0 <= i < j < |after.hands[player]| ==>
                      after.hands[player][i] <= after.hands[player][j]
               else !ok && after == b
  {
    hide Taken, Sorted, DrawInto, Rest, WithoutAt, CanPlace;
    if player < |b.hands| && pile < 4 && index < |b.hands[player]| {
      var hand := b.hands[player];
      PlaceRule(pile, b.piles[pile], hand[index]);
      RestOfHand(hand, index);
      DrawRule(WithoutAt(hand, index), b.deck);
      SortedMeans(WithoutAt(hand, index));
    }
  }

  lemma PlaceRule(k: nat, p: seq<Card>, card: Card)
    requires k < 4
    ensures CanPlace(KindOf(k), p, card) <==>
            || p == []
            || (k < 2 && (card > p[|p| - 1] || card == p[|p| - 1] - 10))
            || (k >= 2 && (card < p[|p| - 1] || card == p[|p| - 1] + 10))
  {
  }

  lemma RestOfHand(hand: seq<Card>, i: nat)
    requires i < |hand| <= 7 && Sorted(hand)
    ensures var rest := WithoutAt(hand, i);
            |rest| < 7 && Sorted(rest) && multiset(rest) + multiset{hand[i]} == multiset(hand)
  {
    assert hand == hand[..i] + [hand[i]] + hand[i + 1..];
  }

  /** A draw into a hand with room: the deck's last card, in order. */
  lemma DrawRule(hand: seq<Card>, deck: seq<Card>)
    requires |hand| < 7 && Sorted(hand)
    ensures var after := DrawInto(hand, deck);
            && multiset(after) == multiset(hand) + (if deck != [] then multiset{deck[|deck| - 1]} else multiset{})
            && forall i, j :: 0 <= i < j < |after| ==> after[i] <= after[j]
    ensures Rest(deck) == if deck != [] then deck[..|deck| - 1] else deck
  {
    hide Taken;
    if deck == [] {
      SortedMeans(hand);
    } else {
      TakenRule(hand, deck[|deck| - 1]);
    }
  }

  lemma SortedMeans(hand: seq<Card>)
    requires Sorted(hand)
    ensures forall i, j :: 0 <= i < j < |hand| ==> hand[i] <= hand[j]
  {
  }

  /** A hand of fewer than seven cards takes a card in order, a hand of seven or more drops it. */
  lemma TakenRule(hand: seq<Card>, card: Card)
    ensures var after := Taken(hand, card);
            if |hand| < 7 then
              && multiset(after) == multiset(hand) + multiset{card} && |after| == |hand| + 1
              && forall i, j :: 0 <= i < j < |after| ==> after[i] <= after[j]
            else after == hand
  {
    if |hand| < 7 {
      assert |multiset(Sort(hand + [card], AtMost))| == |multiset(hand + [card])|;
      SortedMeans(Sort(hand + [card], AtMost));
    }
  }

  // ---------- the ledger ----------

  /** After one start, over every run: each of 2..99 is in the deck, in a hand, on a pile or was discarded by a
      refused play, exactly once; hands stay sorted with at most seven cards. */
  lemma {:induction false} Ledger(deck: Shuffle, players: nat, moves: seq<Move>)
    ensures var b := Run(Started(deck, players), moves);
            var lost := Lost(Started(deck, players), moves);
            && Tidy(b) && Total(b) + |lost| == 98
            && forall c :: Copies(b, c) + multiset(lost)[c] == if 2 <= c <= 99 then 1 else 0
  {
    var start := Started(deck, players);
    if moves == [] {
      StartKeepsDeck(deck, players);
    } else {
      var front := moves[..|moves| - 1];
      Ledger(deck, players, front);
      var b := Run(start, front);
      var m := moves[|moves| - 1];
      forall c
        ensures Copies(Run(start, moves), c) + multiset(Lost(start, moves))[c] == if 2 <= c <= 99 then 1 else 0
      {
        PlayKeeps(b, m, c);
      }
      PlayKeeps(b, m, 0);
    }
  }

  /** Over every run the piles obey their rules from their first card on. */
  lemma PilesObeyRules(deck: Shuffle, players: nat, moves: seq<Move>, k: nat, i: nat)
    requires k < 4 && 0 < i < |Run(Started(deck, players), moves).piles[k]|
    ensures var p := Run(Started(deck, players), moves).piles[k];
            if k < 2 then p[i] > p[i - 1] || p[i] == p[i - 1] - 10 else p[i] < p[i - 1] || p[i] == p[i - 1] + 10
  {
    Ledger(deck, players, moves);
    assert LegalPile(KindOf(k), Run(Started(deck, players), moves).piles[k]);
  }

  /** A reported win means the piles hold the 98 cards minus the discarded ones, so all of them exactly when no
      play was ever refused. */
  lemma WinMeans(deck: Shuffle, players: nat, moves: seq<Move>)
    requires IsWon(Run(Started(deck, players), moves))
    ensures var b := Run(Started(deck, players), moves);
            var lost := Lost(Started(deck, players), moves);
            && PlacedTotal(b) == 98 - |lost|
            && (PlacedTotal(b) == 98 <==> lost == [])
  {
    Ledger(deck, players, moves);
    var b := Run(Started(deck, players), moves);
    assert forall i :: 0 <= i < |b.hands| ==> b.hands[i] in b.hands;
    HandsTotalZero(b.hands);
  }
}
