/** A legal run after which polling loses a game whose player has met the minimum and could end the turn. */
module PolledLoss {
  import opened Cards
  import opened Tables
  import opened TableLaws
  import opened Sessions
  import opened SessionLaws
  import opened SessionTheorems
  import opened StuckTurn

  lemma {:induction false} WithoutAbsent(s: seq<Card>, c: Card)
    requires c !in s
    ensures Without(s, c) == s
  {
    if s == [] {
    } else {
      WithoutAbsent(s[..|s| - 1], c);
    }
  }

  lemma {:induction false} WithoutMiddle(a: seq<Card>, c: Card, b: seq<Card>)
    requires c !in a && c !in b
    ensures Without(a + [c] + b, c) == a + b
    decreases |b|
  {
    var s := a + [c] + b;
    if b == [] {
      assert s[..|s| - 1] == a && a + b == a;
      WithoutAbsent(a, c);
    } else {
      var front := b[..|b| - 1];
      assert s[..|s| - 1] == a + [c] + front;
      WithoutMiddle(a, c, front);
      assert a + front + [b[|b| - 1]] == a + b;
    }
  }

  /** Seat 0 plays a card out of the middle of its hand and keeps some; nothing is drawn, nobody wins or loses. */
  lemma QuietPlay(s: Session, a: seq<Card>, card: Card, b: seq<Card>, stack: int)
    requires Seated(s) && s.status == Playing && s.currentPlayerIndex == 0
    requires s.table.hands[0] == a + [card] + b && card !in a && card !in b && a + b != []
    requires ValidMove(s.table, card, stack)
    requires var t := Placed(s.table.(hands := s.table.hands[0 := a + b]), card, stack);
             s.cardsPlayedThisTurn + 1 >= MinCards(t) || !IsLost(t, 0)
    ensures Step(s, Play(0, card, stack, 0)).0 ==
            s.(table := Placed(s.table.(hands := s.table.hands[0 := a + b]), card, stack),
               cardsPlayedThisTurn := s.cardsPlayedThisTurn + 1)
  {
    WithoutMiddle(a, card, b);
    assert card in s.table.hands[0];
    var t := Played(s.table, 0, card, stack);
    assert t == Placed(s.table.(hands := s.table.hands[0 := a + b]), card, stack);
    assert t.hands[0] == a + b && t.hands[0] in t.hands;
    PlainPlay(s, card, stack);
  }

  /** Seat 0 to play, holding the given cards against the given piles. */
  ghost predicate AtTurn(s: Session, hand: seq<Card>, played: int,
                         inc1: seq<Card>, inc2: seq<Card>, dec1: seq<Card>, dec2: seq<Card>)
  {
    && Seated(s) && s.status == Playing && s.currentPlayerIndex == 0 && s.currentPlayers == 2
    && s.cardsPlayedThisTurn == played && s.table.hands == [hand, Numbered(92, 100)] && |s.table.deck| > 0
    && s.table.inc1 == inc1 && s.table.inc2 == inc2 && s.table.dec1 == dec1 && s.table.dec2 == dec2
  }

  lemma FirstPlay(s: Session)
    requires AtTurn(s, [2, 3, 4, 5, 6, 7, 8, 9], 0, [1], [1], [100], [100])
    ensures AtTurn(Step(s, Play(0, 9, 1, 0)).0, [2, 3, 4, 5, 6, 7, 8], 1, [1, 9], [1], [100], [100])
  {
    var kept := [2, 3, 4, 5, 6, 7, 8];
    assert kept + [] == kept && kept + [9] + [] == s.table.hands[0];
    var t := Placed(s.table.(hands := s.table.hands[0 := kept + []]), 9, 1);
    assert !IsLost(t, 0) by {
      assert kept[6] == 8 && 8 in t.hands[0] && ValidMove(t, 8, 2);
      assert Playable(t, 8);
    }
    hide Step, IsLost;
    QuietPlay(s, kept, 9, [], 1);
  }

  lemma SecondPlay(s: Session)
    requires AtTurn(s, [2, 3, 4, 5, 6, 7, 8], 1, [1, 9], [1], [100], [100])
    ensures AtTurn(Step(s, Play(0, 8, 2, 0)).0, [2, 3, 4, 5, 6, 7], 2, [1, 9], [1, 8], [100], [100])
  {
    var rest := [2, 3, 4, 5, 6, 7];
    assert rest + [] == rest && rest + [8] + [] == s.table.hands[0];
    hide Step, IsLost;
    QuietPlay(s, rest, 8, [], 2);
  }

  lemma ThirdPlay(s: Session)
    requires AtTurn(s, [2, 3, 4, 5, 6, 7], 2, [1, 9], [1, 8], [100], [100])
    ensures AtTurn(Step(s, Play(0, 2, 3, 0)).0, [3, 4, 5, 6, 7], 3, [1, 9], [1, 8], [100, 2], [100])
  {
    var kept := [3, 4, 5, 6, 7];
    assert [] + kept == kept && [] + [2] + kept == s.table.hands[0];
    hide Step, IsLost;
    QuietPlay(s, [], 2, kept, 3);
  }

  lemma FourthPlay(s: Session)
    requires AtTurn(s, [3, 4, 5, 6, 7], 3, [1, 9], [1, 8], [100, 2], [100])
    ensures AtTurn(Step(s, Play(0, 3, 4, 0)).0, [4, 5, 6, 7], 4, [1, 9], [1, 8], [100, 2], [100, 3])
  {
    var rest := [4, 5, 6, 7];
    assert [] + rest == rest && [] + [3] + rest == s.table.hands[0];
    hide Step, IsLost;
    QuietPlay(s, [], 3, rest, 4);
  }

  /** 4..7 fit nowhere on 9, 8, 2 and 3, but the next seat can play. */
  lemma BlockedButDone(s: Session)
    requires AtTurn(s, [4, 5, 6, 7], 4, [1, 9], [1, 8], [100, 2], [100, 3])
    ensures Seated(s) && s.status == Playing && QuotaMet(s)
    ensures Step(s, Poll(1, 0)).0 == s.(status := Finished, won := false)
    ensures Step(s, EndTurn(0, 0)).1 == TurnEnded
  {
    assert forall c :: c in s.table.hands[0] ==> !Playable(s.table, c);
    var hand := s.table.hands[1];
    assert hand[0] == 92 && hand[0] in hand;
    assert ValidMove(s.table, 92, 1);
    assert Playable(s.table, 92);
  }

  function FourPlays(): seq<Request> {
    [Play(0, 9, 1, 0)] + [Play(0, 8, 2, 0)] + [Play(0, 2, 3, 0)] + [Play(0, 3, 4, 0)]
  }

  lemma RunFour(s: Session, qs: seq<Request>, a: Request, b: Request, c: Request, d: Request)
    requires Seated(s)
    ensures Run(s, qs + ([a] + [b] + [c] + [d])) == Step(Step(Step(Step(Run(s, qs), a).0, b).0, c).0, d).0
  {
    hide Step;
    RunOneMore(s, qs, a);
    RunOneMore(s, qs + [a], b);
    RunOneMore(s, qs + [a] + [b], c);
    RunOneMore(s, qs + [a] + [b] + [c], d);
    assert qs + ([a] + [b] + [c] + [d]) == qs + [a] + [b] + [c] + [d];
  }

  lemma JoinsReachStart(gameId: int)
    ensures AtTurn(Run(NewSession(gameId, 2), RaceJoins()), [2, 3, 4, 5, 6, 7, 8, 9], 0, [1], [1], [100], [100])
  {
    hide Run, RaceJoins;
    RaceStarts(gameId);
    assert Numbered(2, 10) == [2, 3, 4, 5, 6, 7, 8, 9];
    assert Numbered(1, 2) == [1];
  }

  /** Polling does lose games that the rules would let go on: an unforced run of two players after which the minimum
      is met, the turn could be ended, and a poll ends the game as lost. */
  lemma PolledLossIsReachable(gameId: int) returns (qs: seq<Request>)
    ensures Unforced(qs)
    ensures var s := Run(NewSession(gameId, 2), qs);
            && s.status == Playing && QuotaMet(s)
            && Step(s, Poll(1, 0)).0 == s.(status := Finished, won := false)
            && Step(s, EndTurn(0, 0)).1 == TurnEnded
  {
    qs := RaceJoins() + FourPlays();
    assert Unforced(qs);
    hide Step, Run, RaceJoins, AtTurn;
    var start := NewSession(gameId, 2);
    JoinsReachStart(gameId);
    var s := Run(start, RaceJoins());
    RunFour(start, RaceJoins(), Play(0, 9, 1, 0), Play(0, 8, 2, 0), Play(0, 2, 3, 0), Play(0, 3, 4, 0));
    FirstPlay(s);
    var one := Step(s, Play(0, 9, 1, 0)).0;
    SecondPlay(one);
    var two := Step(one, Play(0, 8, 2, 0)).0;
    ThirdPlay(two);
    var three := Step(two, Play(0, 2, 3, 0)).0;
    FourthPlay(three);
    BlockedButDone(Step(three, Play(0, 3, 4, 0)).0);
  }
}
