/** The library game reports wins with cards missing from the piles, for any number of players. */
module FalseWins {
  import opened Arithmetic
  import opened Cards
  import opened Sorting
  import opened LibraryGame
  import opened LibraryLaws

  // ---------- fourteen players or more ----------

  lemma {:induction false} HeldSomewhere(hands: seq<seq<Card>>, c: Card) returns (i: nat, j: nat)
    requires HandsCopies(hands, c) > 0
    ensures i < |hands| && j < |hands[i]| && hands[i][j] == c
    decreases |hands|
  {
    var n := |hands| - 1;
    if c in hands[n] {
      i := n;
      j :| 0 <= j < |hands[n]| && hands[n][j] == c;
    } else {
      i, j := HeldSomewhere(hands[..n], c);
    }
  }

  lemma RunNone(b: Board)
    requires |b.piles| == 4
    ensures Run(b, []) == b && Lost(b, []) == []
  {
  }

  lemma RunOneMore(b: Board, moves: seq<Move>, m: Move)
    requires |b.piles| == 4
    ensures Run(b, moves + [m]) == AfterPlay(Run(b, moves), m.player, m.index, m.pile).0
    ensures Lost(b, moves + [m]) == Lost(b, moves) + LostBy(Run(b, moves), m)
  {
    assert (moves + [m])[..|moves|] == moves;
  }

  /** With an empty deck, playing away the hands one card at a time always ends in a reported win. */
  lemma {:induction false} EmptyOut(b: Board, moves: seq<Move>) returns (more: seq<Move>)
    requires |b.piles| == 4 && Run(b, moves).deck == []
    ensures IsWon(Run(b, more)) && |Lost(b, more)| >= |Lost(b, moves)|
    decreases HandsTotal(Run(b, moves).hands)
  {
    var now := Run(b, moves);
    if IsWon(now) {
      return moves;
    }
    var hand :| hand in now.hands && hand != [];
    var i :| 0 <= i < |now.hands| && now.hands[i] == hand;
    var m := Move(i, 0, 0);
    RunOneMore(b, moves, m);
    HandsTotalUpdate(now.hands, i, WithoutAt(hand, 0));
    more := EmptyOut(b, moves + [m]);
  }

  /** With fourteen or more players every card is dealt, so somebody holds the 99. */
  lemma HoldsTop(deck: Shuffle, players: nat) returns (first: Move)
    requires players >= 14
    ensures var b := Started(deck, players);
            && b.deck == [] && b.piles == [[], [], [], []] && first.pile == 0
            && first.player < |b.hands| && first.index < |b.hands[first.player]|
            && b.hands[first.player][first.index] == 99
  {
    hide StartedUpTo;
    var start := Started(deck, players);
    StartKeepsDeck(deck, players);
    NothingHeld(start.piles, 99);
    assert Copies(start, 99) == 1;
    var i, j := HeldSomewhere(start.hands, 99);
    first := Move(i, j, 0);
  }

  /** The 99 opens the first pile; the 2 is still in a hand. */
  lemma OpenWithTop(deck: Shuffle, players: nat) returns (first: Move)
    requires players >= 14
    ensures var b := Run(Started(deck, players), [first]);
            && b.deck == [] && b.piles == [[99], [], [], []] && HandsCopies(b.hands, 2) == 1
            && Lost(Started(deck, players), [first]) == []
  {
    hide Started, AfterPlay, Run, Lost, Tidy;
    first := HoldsTop(deck, players);
    var start := Started(deck, players);
    RunNone(start);
    RunOneMore(start, [], first);
    assert [] + [first] == [first];
    AcceptedBoard(start, first);
    var b := Run(start, [first]);
    assert start.piles[0] + [99] == [99];
    assert b.piles == start.piles[0 := [99]];
    Ledger(deck, players, [first]);
    assert Copies(b, 2) == 1 by {
      assert multiset(Lost(start, [first]))[2] == 0;
    }
    NothingHeld(start.piles, 2);
    HandsCopiesUpdate(start.piles, 0, [99], 2);
  }

  /** The 2 does not fit on the 99 and is discarded. */
  lemma LoseTwo(b: Board) returns (second: Move)
    requires b.deck == [] && b.piles == [[99], [], [], []] && HandsCopies(b.hands, 2) == 1
    ensures LostBy(b, second) == [2]
    ensures AfterPlay(b, second.player, second.index, second.pile).0.deck == []
  {
    var p, q := HeldSomewhere(b.hands, 2);
    second := Move(p, q, 0);
  }

  /** With fourteen or more players every shuffle leads to a reported win with cards missing from the piles. */
  lemma FalseWinMany(deck: Shuffle, players: nat) returns (moves: seq<Move>)
    requires players >= 14
    ensures IsWon(Run(Started(deck, players), moves))
    ensures PlacedTotal(Run(Started(deck, players), moves)) < 98
  {
    var start := Started(deck, players);
    var first := OpenWithTop(deck, players);
    var second := LoseTwo(Run(start, [first]));
    RunOneMore(start, [first], second);
    moves := EmptyOut(start, [first] + [second]);
    WinMeans(deck, players, moves);
  }

  // ---------- thirteen players or fewer ----------

  /** With this shuffle the cards are drawn in order. */
  function Ordered(): Shuffle {
    ReversedSameCards(Numbered(2, 100));
    Reversed(Numbered(2, 100))
  }

  /** A card that is no lower than the whole hand is drawn to its end. */
  lemma DrawsHighest(hand: seq<Card>, s: seq<Card>)
    requires s != [] && |hand| < MAX_HAND_SIZE && Sorted(hand + [s[0]])
    ensures DrawInto(hand, Reversed(s)) == hand + [s[0]] && Rest(Reversed(s)) == Reversed(s[1..])
  {
    SortOfSorted(hand + [s[0]], AtMost);
    assert Rest(Reversed(s)) == Reversed(s[1..]);
  }

  /** Draws in order fill a hand in order. */
  lemma {:induction false} DrawsInOrder(lo: int, n: nat)
    requires 2 <= lo && lo + n <= 100 && n <= MAX_HAND_SIZE
    ensures DrawTimes([], Reversed(Numbered(lo, 100)), n) == (Numbered(lo, lo + n), Reversed(Numbered(lo + n, 100)))
    decreases n
  {
    hide Reversed, DrawInto, Rest, Sort;
    if n == 0 {
      assert Numbered(lo, lo) == [];
    } else {
      DrawsInOrder(lo, n - 1);
      var hand, deck := Numbered(lo, lo + n - 1), Numbered(lo + n - 1, 100);
      assert hand + [deck[0]] == Numbered(lo, lo + n);
      assert deck[1..] == Numbered(lo + n, 100);
      DrawsHighest(hand, deck);
    }
  }

  /** After k players drew n cards each, the first holds the n lowest and the deck goes on in order. */
  lemma {:induction false} StartsInOrder(players: nat, k: nat, n: nat, drawn: nat)
    requires k <= players && n <= MAX_HAND_SIZE && drawn == Times(n, k) && 2 + drawn <= 100
    ensures var b := StartedUpTo(NewBoard(Ordered(), players), k, n);
            && b.deck == Reversed(Numbered(2 + drawn, 100))
            && AllEmpty(b.hands, k)
            && (k > 0 ==> n <= drawn && b.hands[0] == Numbered(2, 2 + n))
    decreases k
  {
    hide DrawTimes;
    if k == 0 {
    } else {
      StartsInOrder(players, k - 1, n, drawn - n);
      DrawsInOrder(2 + drawn - n, n);
    }
  }

  /** The cards of seat 0 in the order it gets them when it alone plays. */
  function Climb(players: nat): (q: seq<Card>)
    requires 1 <= players <= 13
    ensures |q| == 105 - 7 * players
  {
    Numbered(2, 9) + Numbered(2 + 7 * players, 100)
  }

  lemma ClimbRises(players: nat, i: nat, j: nat)
    requires 1 <= players <= 13 && i < j < |Climb(players)|
    ensures Climb(players)[i] < Climb(players)[j]
  {
  }

  /** Seat 0 has played t cards upward on the first pile and drawn as many. */
  ghost predicate Climbed(b: Board, players: nat, t: nat)
    requires 1 <= players <= 13
  {
    var q := Climb(players);
    && t + 7 <= |q| && |b.piles| == 4 && b.hands != []
    && b.hands[0] == q[t..t + 7] && b.piles[0] == q[..t] && b.deck == Reversed(q[t + 7..])
  }

  lemma ClimbParts(players: nat)
    requires 1 <= players <= 13
    ensures Climb(players)[..0] == [] && Climb(players)[0..7] == Numbered(2, 9)
    ensures Climb(players)[7..] == Numbered(2 + 7 * players, 100)
  {
  }

  lemma ClimbStarts(players: nat)
    requires 1 <= players <= 13
    ensures Climbed(Started(Ordered(), players), players, 0)
  {
    hide StartedUpTo, Reversed, Climb, Numbered, Ordered, AllEmpty;
    ClimbParts(players);
    StartsInOrder(players, players, 7, Times(7, players));
    StartedPiles(players);
  }

  lemma StartedPiles(players: nat)
    ensures Started(Ordered(), players).piles == [[], [], [], []]
    ensures |Started(Ordered(), players).hands| == players
  {
  }

  /** Hand, pile and draws of the climb move on by one card. */
  lemma WindowMoves(players: nat, t: nat)
    requires 1 <= players <= 13 && t + 7 < |Climb(players)|
    ensures var q := Climb(players);
            && WithoutAt(q[t..t + 7], 0) == q[t + 1..t + 7]
            && q[t + 1..t + 7] + [q[t + 7..][0]] == q[t + 1..t + 8] && Sorted(q[t + 1..t + 8])
            && q[t + 7..][1..] == q[t + 8..] && q[..t] + [q[t..t + 7][0]] == q[..t + 1]
            && CanPlace(Ascending, q[..t], q[t..t + 7][0])
  {
    var q := Climb(players);
    forall i, j | 0 <= i < j < |q| ensures q[i] < q[j] { ClimbRises(players, i, j); }
    hide Climb;
  }

  lemma ClimbNext(b: Board, players: nat, t: nat)
    requires 1 <= players <= 13 && Climbed(b, players, t) && t + 7 < |Climb(players)|
    ensures Climbed(AfterPlay(b, 0, 0, 0).0, players, t + 1)
  {
    var q := Climb(players);
    hide Reversed, DrawInto, Rest, WithoutAt, Sort, Sorted, Climb, AfterPlay, CanPlace;
    WindowMoves(players, t);
    DrawsHighest(q[t + 1..t + 7], q[t + 7..]);
    AcceptedBoard(b, Move(0, 0, 0));
  }

  /** Seat 0 plays its lowest card t times. */
  lemma {:induction false} ClimbRun(players: nat, t: nat) returns (moves: seq<Move>)
    requires 1 <= players <= 13 && t + 7 <= |Climb(players)|
    ensures Climbed(Run(Started(Ordered(), players), moves), players, t)
    decreases t
  {
    hide Climbed, Started, AfterPlay;
    var start := Started(Ordered(), players);
    if t == 0 {
      moves := [];
      RunNone(start);
      ClimbStarts(players);
    } else {
      moves := ClimbRun(players, t - 1);
      RunOneMore(start, moves, Move(0, 0, 0));
      ClimbNext(Run(start, moves), players, t - 1);
      moves := moves + [Move(0, 0, 0)];
    }
  }

  /** At the top the deck is empty: the 99 is accepted out of turn and the 93 is lost. */
  lemma ClimbEnds(b: Board, players: nat)
    requires 1 <= players <= 13 && Climbed(b, players, |Climb(players)| - 7)
    ensures var (after, ok) := AfterPlay(b, 0, 6, 0);
            && |after.piles| == 4 && LostBy(after, Move(0, 0, 0)) == [93]
            && AfterPlay(after, 0, 0, 0).0.deck == []
  {
    var q := Climb(players);
    var n := |q|;
    ClimbRises(players, n - 8, n - 1);
    assert q[n - 1] == 99 && q[n - 7] == 93;
    assert b.deck == [];
  }

  /** With thirteen or fewer players some shuffle leads to a reported win with cards missing from the piles. */
  lemma FalseWinFew(players: nat) returns (deck: Shuffle, moves: seq<Move>)
    requires 1 <= players <= 13
    ensures IsWon(Run(Started(deck, players), moves))
    ensures PlacedTotal(Run(Started(deck, players), moves)) < 98
  {
    hide Climbed, AfterPlay, Started;
    deck := Ordered();
    var start := Started(deck, players);
    moves := ClimbRun(players, |Climb(players)| - 7);
    ClimbEnds(Run(start, moves), players);
    RunOneMore(start, moves, Move(0, 6, 0));
    RunOneMore(start, moves + [Move(0, 6, 0)], Move(0, 0, 0));
    moves := EmptyOut(start, moves + [Move(0, 6, 0)] + [Move(0, 0, 0)]);
    WinMeans(deck, players, moves);
  }

  /** Without players no card ever leaves the deck. */
  lemma {:induction false} NobodyPlays(deck: Shuffle, moves: seq<Move>)
    ensures Run(Started(deck, 0), moves) == Started(deck, 0) && !IsWon(Started(deck, 0))
  {
    if moves == [] {
      StartKeepsDeck(deck, 0);
    } else {
      NobodyPlays(deck, moves[..|moves| - 1]);
    }
  }

  ghost predicate WonWithCardsMissing(deck: Shuffle, players: nat, moves: seq<Move>) {
    var b := Run(Started(deck, players), moves);
    IsWon(b) && PlacedTotal(b) < 98
  }

  /** Any number of players, at least one, can be told that they won with cards missing. */
  lemma FalseWinIff(players: nat)
    ensures (exists deck: Shuffle, moves :: WonWithCardsMissing(deck, players, moves)) <==> players >= 1
  {
    if players == 0 {
      forall deck: Shuffle, moves ensures !WonWithCardsMissing(deck, players, moves) {
        NobodyPlays(deck, moves);
      }
    } else {
      var deck, moves := FalseWin(players);
      assert WonWithCardsMissing(deck, players, moves);
    }
  }

  lemma FalseWin(players: nat) returns (deck: Shuffle, moves: seq<Move>)
    requires players >= 1
    ensures IsWon(Run(Started(deck, players), moves))
    ensures PlacedTotal(Run(Started(deck, players), moves)) < 98
  {
    if players <= 13 {
      deck, moves := FalseWinFew(players);
    } else {
      deck := Ordered();
      moves := FalseWinMany(deck, players);
    }
  }
}
