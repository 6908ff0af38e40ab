/** The table of the server game: the deck, the hands and the four piles. */
module Tables {
  import opened Cards
  import opened Options
  import opened Players

  datatype Table = Table(
    nrGamer: int,
    hands: seq<seq<Card>>,
    deck: seq<Card>,
    inc1: seq<Card>,
    inc2: seq<Card>,
    dec1: seq<Card>,
    dec2: seq<Card>)

  /** Draws from the end of the deck until the hand holds n cards or the deck is empty. */
  function Fill(hand: seq<Card>, deck: seq<Card>, n: int): (seq<Card>, seq<Card>)
    decreases |deck|
  {
    if |hand| < n && deck != [] then
      Fill(Added(hand, deck[|deck| - 1]), deck[..|deck| - 1], n)
    else
      (hand, deck)
  }

  /** Cards per player for a number of seats, or None when the code deals nothing. */
  function DealSize(seats: int): Option<int> {
    if seats == 2 then Some(8)
    else if seats == 3 then Some(7)
    else if seats >= 4 then Some(6)
    else None
  }

  /** Hands and deck after the first k seats have drawn up to n cards. */
  function Issued(hands: seq<seq<Card>>, deck: seq<Card>, n: int, k: nat): (r: (seq<seq<Card>>, seq<Card>))
    requires k <= |hands|
    ensures |r.0| == |hands|
  {
    if k == 0 then (hands, deck)
    else
      var before := Issued(hands, deck, n, k - 1);
      var drawn := Fill(before.0[k - 1], before.1, n);
      (before.0[k - 1 := drawn.0], drawn.1)
  }

  function Issue(t: Table): (r: Table)
    requires t.nrGamer <= |t.hands|
    ensures |r.hands| == |t.hands|
  {
    match DealSize(t.nrGamer)
    case None => t
    case Some(n) =>
      var r := Issued(t.hands, t.deck, n, t.nrGamer);
      t.(hands := r.0, deck := r.1)
  }

  /** The move check on one of the stacks 1 to 4; any other stack number is refused. */
  predicate ValidMove(t: Table, card: Card, stack: int) {
    match stack
    case 1 => t.inc1 != [] && FitsIncreasing(card, t.inc1[|t.inc1| - 1])
    case 2 => t.inc2 != [] && FitsIncreasing(card, t.inc2[|t.inc2| - 1])
    case 3 => t.dec1 != [] && FitsDecreasing(card, t.dec1[|t.dec1| - 1])
    case 4 => t.dec2 != [] && FitsDecreasing(card, t.dec2[|t.dec2| - 1])
    case _ => false
  }

  function Placed(t: Table, card: Card, stack: int): Table {
    match stack
    case 1 => t.(inc1 := t.inc1 + [card])
    case 2 => t.(inc2 := t.inc2 + [card])
    case 3 => t.(dec1 := t.dec1 + [card])
    case 4 => t.(dec2 := t.dec2 + [card])
    case _ => t
  }

  /** The last card of a pile, or the foundation of a pile that is not laid out yet. */
  function Top(pile: seq<Card>, foundation: Card): Card {
    if pile == [] then foundation else pile[|pile| - 1]
  }

  predicate Playable(t: Table, card: Card) {
    exists stack | 1 <= stack <= 4 :: ValidMove(t, card, stack)
  }

  predicate HasPlay(t: Table, i: int)
    requires 0 <= i < |t.hands|
  {
    exists card | card in t.hands[i] :: Playable(t, card)
  }

  predicate IsWon(t: Table) {
    t.deck == [] && forall hand | hand in t.hands :: hand == []
  }

  /** An unknown seat counts as lost, an empty hand never does. */
  predicate IsLost(t: Table, i: int) {
    !(0 <= i < |t.hands|) || (t.hands[i] != [] && !HasPlay(t, i))
  }

  class GameTable {
    var nrGamer: int
    var gamers: seq<Player>
    var deckCards: seq<Card>
    var increasingFirst: seq<Card>
    var increasingSecond: seq<Card>
    var decreasingFirst: seq<Card>
    var decreasingSecond: seq<Card>

    /** Every seat owns its player. */
    ghost predicate Valid()
      reads this
    {
      forall i, j :: 0 <= i < j < |gamers| ==> gamers[i] != gamers[j]
    }

    function Hands(): (hands: seq<seq<Card>>)
      reads this, gamers
      ensures |hands| == |gamers|
      ensures forall i :: 0 <= i < |gamers| ==> hands[i] == gamers[i].cards
    {
      seq(|gamers|, i requires 0 <= i < |gamers| reads this, gamers => gamers[i].cards)
    }

    function Model(): Table
      reads this, gamers
    {
      Table(nrGamer, Hands(), deckCards, increasingFirst, increasingSecond, decreasingFirst, decreasingSecond)
    }

    constructor (nrGamer: int)
      ensures Valid() && gamers == []
      ensures Model() == Table(nrGamer, [], [], [], [], [], [])
    {
      this.nrGamer := nrGamer;
      gamers, deckCards := [], [];
      increasingFirst, increasingSecond, decreasingFirst, decreasingSecond := [], [], [], [];
    }

    method SetNrGamer(n: int)
      modifies this`nrGamer
      ensures Model() == old(Model()).(nrGamer := n)
    {
      nrGamer := n;
    }

    /** A sixth player is silently not seated. */
    method AddGamer(name: string)
      requires Valid()
      modifies this
      ensures Valid()
      ensures if |old(gamers)| >= 5 then gamers == old(gamers)
              else |gamers| == |old(gamers)| + 1 && fresh(gamers[|old(gamers)|]) &&
                   gamers == old(gamers) + [gamers[|old(gamers)|]] && gamers[|old(gamers)|].name == name
      ensures Model() ==
              if |old(gamers)| >= 5 then old(Model())
              else old(Model()).(nrGamer := |old(gamers)| + 1, hands := old(Hands()) + [[SENTINEL]])
    {
      if |gamers| >= 5 {
        return;
      }
      var gamer := new Player(name);
      gamers := gamers + [gamer];
      nrGamer := |gamers|;
    }

    method AddInitialCards()
      modifies this
      ensures gamers == old(gamers)
      ensures Model() == old(Model()).(inc1 := [INCREASING_BASE], inc2 := [INCREASING_BASE],
                                       dec1 := [DECREASING_BASE], dec2 := [DECREASING_BASE])
    {
      increasingFirst, increasingSecond, decreasingFirst, decreasingSecond := [], [], [], [];
      increasingFirst := increasingFirst + [INCREASING_BASE];
      increasingSecond := increasingSecond + [INCREASING_BASE];
      decreasingFirst := decreasingFirst + [DECREASING_BASE];
      decreasingSecond := decreasingSecond + [DECREASING_BASE];
    }

    /** The order that the random shuffle leaves is the argument. */
    method MixingDeckCards(shuffled: Shuffle)
      modifies this
      ensures gamers == old(gamers)
      ensures Model() == old(Model()).(deck := shuffled)
    {
      deckCards := [];
      for i := 2 to 100
        invariant gamers == old(gamers)
        invariant deckCards == Numbered(2, i)
        invariant Model() == old(Model()).(deck := deckCards)
      {
        deckCards := deckCards + [i];
      }
      assert multiset(deckCards) == multiset(shuffled);
      deckCards := shuffled;
    }

    method IssuerCard()
      requires Valid()
      requires nrGamer <= |gamers|
      modifies this, gamers
      ensures Valid() && gamers == old(gamers)
      ensures Model() == Issue(old(Model()))
    {
      var nrCardsIssuer := -1;
      if nrGamer == 2 {
        nrCardsIssuer := 8;
      } else if nrGamer == 3 {
        nrCardsIssuer := 7;
      } else if nrGamer >= 4 {
        nrCardsIssuer := 6;
      }
      if nrCardsIssuer == -1 {
        return;
      }
      ghost var start := Model();
      for k := 0 to nrGamer
        invariant Valid() && gamers == old(gamers) && nrGamer == old(nrGamer)
        invariant Model() == var r := Issued(start.hands, start.deck, nrCardsIssuer, k);
                             start.(hands := r.0, deck := r.1)
      {
        FillHand(k, nrCardsIssuer);
      }
    }

    /** The loop that both the deal and the refill run for one seat. */
    method FillHand(k: nat, n: int)
      requires Valid()
      requires k < |gamers|
      modifies this`deckCards, gamers[k]
      ensures Valid() && gamers == old(gamers)
      ensures var r := Fill(old(gamers[k].cards), old(deckCards), n);
              Model() == old(Model()).(hands := old(Hands())[k := r.0], deck := r.1)
    {
      ghost var goal := Fill(gamers[k].cards, deckCards, n);
      while |gamers[k].cards| < n && |deckCards| > 0
        invariant Fill(gamers[k].cards, deckCards, n) == goal
        invariant forall i :: 0 <= i < |gamers| && i != k ==> gamers[i].cards == old(gamers[i].cards)
        decreases |deckCards|
      {
        var c := DeckCardsLast();
        RemoveDeckCardsLast();
        PushCard(c, k);
      }
      assert Hands() == old(Hands())[k := goal.0];
    }

    /** Appends to one of the four piles. */
    method Push(card: Card, stack: int)
      modifies this
      ensures gamers == old(gamers)
      ensures Model() == Placed(old(Model()), card, stack)
    {
      match stack {
        case 1 => increasingFirst := increasingFirst + [card];
        case 2 => increasingSecond := increasingSecond + [card];
        case 3 => decreasingFirst := decreasingFirst + [card];
        case 4 => decreasingSecond := decreasingSecond + [card];
        case _ =>
      }
    }

    method PushCard(card: Card, i: int)
      requires Valid()
      modifies if 0 <= i < |gamers| then {gamers[i]} else {}
      ensures Model() == if 0 <= i < |gamers| then
                           old(Model()).(hands := old(Hands())[i := Added(old(gamers[i].cards), card)])
                         else old(Model())
    {
      if 0 <= i < |gamers| {
        gamers[i].AddCard(card);
        assert Hands() == old(Hands())[i := Added(old(gamers[i].cards), card)];
      }
    }

    method RemoveDeckCardsLast()
      modifies this`deckCards
      ensures Model() == old(Model()).(deck := if old(deckCards) == [] then []
                                               else old(deckCards)[..|old(deckCards)| - 1])
    {
      if deckCards != [] {
        deckCards := deckCards[..|deckCards| - 1];
      }
    }

    method DeckCardsLast() returns (card: Card)
      ensures card == if deckCards == [] then 0 else deckCards[|deckCards| - 1]
    {
      if deckCards == [] {
        return 0;
      }
      card := deckCards[|deckCards| - 1];
    }

    method RemoveCardFromHand(i: int, card: Card)
      requires Valid()
      modifies if 0 <= i < |gamers| then {gamers[i]} else {}
      ensures Model() == if 0 <= i < |gamers| then
                           old(Model()).(hands := old(Hands())[i := Without(old(gamers[i].cards), card)])
                         else old(Model())
    {
      if 0 <= i < |gamers| {
        gamers[i].RemoveCard(card);
        assert Hands() == old(Hands())[i := Without(old(gamers[i].cards), card)];
      }
    }

    method LastCards() returns (inc1: Card, inc2: Card, dec1: Card, dec2: Card)
      ensures inc1 == Top(Model().inc1, INCREASING_BASE) && inc2 == Top(Model().inc2, INCREASING_BASE)
      ensures dec1 == Top(Model().dec1, DECREASING_BASE) && dec2 == Top(Model().dec2, DECREASING_BASE)
    {
      inc1, inc2, dec1, dec2 := 1, 1, 100, 100;
      if increasingFirst != [] { inc1 := increasingFirst[|increasingFirst| - 1]; }
      if increasingSecond != [] { inc2 := increasingSecond[|increasingSecond| - 1]; }
      if decreasingFirst != [] { dec1 := decreasingFirst[|decreasingFirst| - 1]; }
      if decreasingSecond != [] { dec2 := decreasingSecond[|decreasingSecond| - 1]; }
    }

    method IsValidMove(card: Card, stack: int) returns (valid: bool)
      ensures valid <==> ValidMove(Model(), card, stack)
    {
      match stack {
        case 1 =>
          if increasingFirst == [] { return false; }
          var top := increasingFirst[|increasingFirst| - 1];
          return card > top || card == top - 10;
        case 2 =>
          if increasingSecond == [] { return false; }
          var top := increasingSecond[|increasingSecond| - 1];
          return card > top || card == top - 10;
        case 3 =>
          if decreasingFirst == [] { return false; }
          var top := decreasingFirst[|decreasingFirst| - 1];
          return card < top || card == top + 10;
        case 4 =>
          if decreasingSecond == [] { return false; }
          var top := decreasingSecond[|decreasingSecond| - 1];
          return card < top || card == top + 10;
        case _ =>
          return false;
      }
    }

    method IsGameWon() returns (won: bool)
      ensures won <==> IsWon(Model())
    {
      if |deckCards| > 0 {
        return false;
      }
      for i := 0 to |gamers|
        invariant forall k :: 0 <= k < i ==> Hands()[k] == []
      {
        if |gamers[i].cards| > 0 {
          assert Hands()[i] in Model().hands;
          return false;
        }
      }
      return true;
    }

    method IsGameLost(currentPlayerIndex: int) returns (lost: bool)
      ensures lost <==> IsLost(Model(), currentPlayerIndex)
    {
      if currentPlayerIndex < 0 || currentPlayerIndex >= |gamers| {
        return true;
      }
      var hand := gamers[currentPlayerIndex].cards;
      assert hand == Model().hands[currentPlayerIndex];
      if hand == [] {
        return false;
      }
      for i := 0 to |hand|
        invariant forall k :: 0 <= k < i ==> !Playable(Model(), hand[k])
      {
        for stack := 1 to 5
          invariant forall k :: 1 <= k < stack ==> !ValidMove(Model(), hand[i], k)
        {
          var fits := IsValidMove(hand[i], stack);
          if fits {
            assert Playable(Model(), hand[i]);
            return false;
          }
        }
      }
      return true;
    }
  }
}
