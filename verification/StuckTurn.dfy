/** A legal two-player run that ends in the shape from which no request but a forced win leads on. */
module StuckTurn {
  import opened Arithmetic
  import opened Cards
  import opened Tables
  import opened TableLaws
  import opened Sessions
  import opened SessionLaws
  import opened SessionTheorems

  /** Seat 0 is dealt 2..9 and seat 1 is dealt 92..99; the deck then yields 10..91 in order. */
  function DrawOrder(): seq<Card> {
    Numbered(2, 10) + Numbered(92, 100) + Numbered(10, 92)
  }

  lemma RaceDeckIsShuffle()
    ensures multiset(Reversed(DrawOrder())) == FullDeck()
  {
    ReversedSameCards(DrawOrder());
    assert Numbered(2, 100) == Numbered(2, 10) + Numbered(10, 92) + Numbered(92, 100);
  }

  function RaceDeck(): Shuffle {
    RaceDeckIsShuffle();
    Reversed(DrawOrder())
  }

  /** Removing the first card of a hand without repetitions drops that card. */
  lemma {:induction false} WithoutFirst(s: seq<Card>)
    requires s != [] && s[0] !in s[1..]
    ensures Without(s, s[0]) == s[1..]
    decreases |s|
  {
    var n := |s| - 1;
    if n > 0 {
      assert s[..n][1..] == s[1..][..n - 1];
      WithoutFirst(s[..n]);
      assert s[n] == s[1..][n - 1];
      assert s[1..] == s[..n][1..] + [s[n]];
    } else {
      assert Without(s[..0], s[0]) == [];
    }
  }

  /** The table when seat 0 has placed 2..k, holds k+1..u, and the deck yields u+1..91 next. */
  ghost predicate RaceTable(t: Table, k: int, u: int) {
    && 1 <= k <= u <= 91 && (k == u ==> k == 91)
    && t.hands == [Numbered(k + 1, u + 1), Numbered(92, 100)]
    && t.deck == Reversed(Numbered(u + 1, 92))
    && t.inc1 == Numbered(1, k + 1)
  }

  /** Seat 0 has played all of this in its first turn. */
  ghost predicate Race(s: Session, k: int, u: int) {
    && RaceTable(s.table, k, u)
    && s.status == Playing && s.maxPlayers == s.currentPlayers == 2
    && s.currentPlayerIndex == 0 && s.cardsPlayedThisTurn == k - 1
  }

  lemma RaceSlices()
    ensures |RaceDeck()| == 98 && Times(8, 0) == 0 && Times(8, 1) == 8 && Times(8, 2) == 16
    ensures DealSlice(RaceDeck(), 8, 0) == Numbered(2, 10)
    ensures DealSlice(RaceDeck(), 8, 1) == Numbered(92, 100)
    ensures RaceDeck()[..82] == Reversed(Numbered(10, 92))
  {
    var deck := RaceDeck();
    assert |deck| == 98;
    assert Times(8, 0) == 0 && Times(8, 1) == 8 && Times(8, 2) == 16;
    assert Reversed(deck[90..98]) == Numbered(2, 10);
    assert Reversed(deck[82..90]) == Numbered(92, 100);
    assert deck[..82] == Reversed(Numbered(10, 92));
  }

  /** The dealt hands of the race deck. */
  lemma RaceDeals(t: Table)
    requires t.hands == [[SENTINEL], [SENTINEL]] && t.nrGamer == 2
    ensures var r := Opened(t, RaceDeck());
            && r.hands == [Numbered(2, 10), Numbered(92, 100)]
            && r.deck == Reversed(Numbered(10, 92)) && r.inc1 == Numbered(1, 2)
            && r.inc2 == [1] && r.dec1 == r.dec2 == [100]
  {
    hide RaceDeck, Numbered, Reversed;
    RaceSlices();
    Deal(t, RaceDeck());
    var hands := Opened(t, RaceDeck()).hands;
    assert hands == [hands[0], hands[1]];
  }

  lemma RunOneMore(s: Session, qs: seq<Request>, q: Request)
    requires Seated(s)
    ensures Run(s, qs + [q]) == Step(Run(s, qs), q).0
  {
    assert (qs + [q])[..|qs|] == qs;
  }

  function RaceJoins(): seq<Request> {
    [Join("ana", RaceDeck(), 0)] + [Join("bob", RaceDeck(), 0)]
  }

  lemma RaceStarts(gameId: int)
    ensures var s := Run(NewSession(gameId, 2), RaceJoins());
            Race(s, 1, 9) && s.table.inc2 == [1] && s.table.dec1 == s.table.dec2 == [100]
  {
    var join := Join("ana", RaceDeck(), 0);
    var start := NewSession(gameId, 2);
    RunOneMore(start, [], join);
    assert [] + [join] == [join];
    RunOneMore(start, [join], Join("bob", RaceDeck(), 0));
    var one := Step(start, join).0;
    assert one.table.hands + [[SENTINEL]] == [[SENTINEL], [SENTINEL]];
    RaceDeals(one.table.(nrGamer := 2, hands := [[SENTINEL], [SENTINEL]]));
  }

  function RaceTop(u: int): int {
    if u + 8 <= 91 then u + 8 else 91
  }

  /** The refill draws the next cards in order. */
  lemma RaceRefill(u: int)
    requires 1 <= u <= 91
    ensures Fill([], Reversed(Numbered(u + 1, 92)), 8) ==
            (Numbered(u + 1, RaceTop(u) + 1), Reversed(Numbered(RaceTop(u) + 1, 92)))
  {
    var deck := Reversed(Numbered(u + 1, 92));
    var d := RaceTop(u) - u;
    FillDraws([], deck, 8);
    assert [] + Reversed(deck[|deck| - d..]) == Numbered(u + 1, RaceTop(u) + 1);
    assert deck[..|deck| - d] == Reversed(Numbered(RaceTop(u) + 1, 92));
  }

  /** What an accepted play does when the next state is neither won nor lost. */
  lemma PlainPlay(s: Session, card: Card, stack: int)
    requires Seated(s) && s.status == Playing
    requires card in s.table.hands[s.currentPlayerIndex] && ValidMove(s.table, card, stack)
    requires var t := Played(s.table, s.currentPlayerIndex, card, stack);
             var r := Refilled(t, s.currentPlayerIndex, RefillTarget(s.maxPlayers));
             && !IsWon(t)
             && (s.cardsPlayedThisTurn + 1 < MinCards(r) ==> !IsLost(r, s.currentPlayerIndex))
    ensures PlayCard(s, s.currentPlayerIndex, card, stack) ==
            (s.(table := Refilled(Played(s.table, s.currentPlayerIndex, card, stack), s.currentPlayerIndex,
                                  RefillTarget(s.maxPlayers)),
                cardsPlayedThisTurn := s.cardsPlayedThisTurn + 1), MoveAccepted)
  {
  }

  /** The first card of a run of cards leaves the run without it. */
  lemma NumberedPlay(lo: int, hi: int)
    requires lo < hi
    ensures lo in Numbered(lo, hi) && Without(Numbered(lo, hi), lo) == Numbered(lo + 1, hi)
  {
    var s := Numbered(lo, hi);
    assert s[0] == lo;
    WithoutFirst(s);
    assert s[1..] == Numbered(lo + 1, hi);
  }

  lemma RaceNotLost(r: Table, next: int)
    requires r.hands != [] && (r.hands[0] != [] ==> r.hands[0][0] == next)
    requires 1 < next && r.inc1 == Numbered(1, next)
    ensures !IsLost(r, 0)
  {
    if r.hands[0] != [] {
      assert ValidMove(r, next, 1);
      assert Playable(r, next);
      assert next in r.hands[0];
    }
  }

  lemma RaceTablePlay(t: Table, k: int, u: int)
    requires RaceTable(t, k, u) && k < 91
    ensures k + 1 in t.hands[0] && ValidMove(t, k + 1, 1)
    ensures var played := Played(t, 0, k + 1, 1);
            && !IsWon(played)
            && played.hands == [Numbered(k + 2, u + 1), Numbered(92, 100)]
            && played.deck == t.deck && played.inc1 == Numbered(1, k + 2)
  {
    NumberedPlay(k + 1, u + 1);
    var played := Played(t, 0, k + 1, 1);
    assert played.hands == [Numbered(k + 2, u + 1), Numbered(92, 100)];
    assert played.hands[1] in played.hands && played.hands[1] != [];
    assert played.inc1 == Numbered(1, k + 2);
  }

  lemma RaceTableRefill(t: Table, k: int, u: int)
    requires 1 <= k < 91 && k < u <= 91
    requires t.hands == [Numbered(k + 2, u + 1), Numbered(92, 100)]
    requires t.deck == Reversed(Numbered(u + 1, 92)) && t.inc1 == Numbered(1, k + 2)
    ensures var r := Refilled(t, 0, 8);
            RaceTable(r, k + 1, if k + 1 < u then u else RaceTop(u)) && !IsLost(r, 0)
  {
    RaceRefill(u);
    var r := Refilled(t, 0, 8);
    if k + 1 == u {
      assert t.hands[0] == [];
      assert r.hands == [Numbered(u + 1, RaceTop(u) + 1), Numbered(92, 100)];
    }
    RaceNotLost(r, k + 2);
  }

  lemma RacePlays(s: Session, k: int, u: int)
    requires Seated(s) && Race(s, k, u) && k < 91
    ensures Race(Step(s, Play(0, k + 1, 1, 0)).0, k + 1, if k + 1 < u then u else RaceTop(u))
  {
    RaceTablePlay(s.table, k, u);
    RaceTableRefill(Played(s.table, 0, k + 1, 1), k, u);
    PlainPlay(s, k + 1, 1);
  }

  lemma {:induction false} RaceRuns(gameId: int, k: int) returns (qs: seq<Request>, u: int)
    requires 1 <= k <= 91
    ensures Unforced(qs) && Race(Run(NewSession(gameId, 2), qs), k, u)
    decreases k
  {
    if k == 1 {
      RaceStarts(gameId);
      return RaceJoins(), 9;
    }
    var front, top := RaceRuns(gameId, k - 1);
    RacePlays(Run(NewSession(gameId, 2), front), k - 1, top);
    RunOneMore(NewSession(gameId, 2), front, Play(0, k, 1, 0));
    qs := front + [Play(0, k, 1, 0)];
    u := if k < top then top else RaceTop(top);
  }

  /** Seat 1 has the turn and holds 92..99 while seat 0 and the deck are empty. */
  ghost predicate LastSeat(s: Session)
    requires Seated(s)
  {
    && s.status == Playing && s.maxPlayers == s.currentPlayers == 2
    && s.currentPlayerIndex == 1 && s.cardsPlayedThisTurn == 0
    && s.table.hands == [[], Numbered(92, 100)]
    && s.table.deck == [] && s.table.inc1 == Numbered(1, 92)
  }

  lemma RacePassesTurn(s: Session)
    requires Seated(s) && Race(s, 91, 91)
    ensures LastSeat(Step(s, EndTurn(0, 0)).0)
  {
    assert s.table.hands == [[], Numbered(92, 100)] && s.table.deck == [];
    NumberedPlay(92, 100);
    assert Playable(s.table, 92) by { assert ValidMove(s.table, 92, 1); }
  }

  lemma LastSeatPlays(s: Session)
    requires Seated(s) && LastSeat(s)
    ensures Step(s, Play(1, 92, 1, 0)).1 == MoveAccepted
    ensures var after := Step(s, Play(1, 92, 1, 0)).0;
            && after.status == Playing && after.currentPlayerIndex == 1 && after.cardsPlayedThisTurn == 1
            && after.table.hands[0] == [] && after.table.deck == []
  {
    NumberedPlay(92, 100);
    var t := Played(s.table, 1, 92, 1);
    assert t.hands[1] == Numbered(93, 100) && t.hands[1] in t.hands && t.hands[1] != [];
    PlainPlay(s, 92, 1);
  }

  lemma LastSeatPassesTurn(s: Session)
    requires Seated(s) && LastSeat(s)
    ensures Stuck(Step(Step(s, Play(1, 92, 1, 0)).0, EndTurn(1, 0)).0)
  {
    LastSeatPlays(s);
  }

  lemma LastSeatIsReachable(gameId: int) returns (qs: seq<Request>)
    ensures Unforced(qs) && LastSeat(Run(NewSession(gameId, 2), qs))
  {
    var race, u := RaceRuns(gameId, 91);
    RacePassesTurn(Run(NewSession(gameId, 2), race));
    RunOneMore(NewSession(gameId, 2), race, EndTurn(0, 0));
    qs := race + [EndTurn(0, 0)];
  }

  /** Progress does fail: a run of two players without any forced win leaves the session stuck. */
  lemma StuckIsReachable(gameId: int) returns (qs: seq<Request>)
    ensures Unforced(qs) && Stuck(Run(NewSession(gameId, 2), qs))
  {
    var passed := LastSeatIsReachable(gameId);
    var start := NewSession(gameId, 2);
    LastSeatPassesTurn(Run(start, passed));
    RunOneMore(start, passed, Play(1, 92, 1, 0));
    var played := passed + [Play(1, 92, 1, 0)];
    RunOneMore(start, played, EndTurn(1, 0));
    qs := played + [EndTurn(1, 0)];
  }
}
