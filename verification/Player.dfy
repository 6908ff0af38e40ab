/** A seat at the server's table. */
module Players {
  import opened Cards

  /** A drawn card replaces the lone sentinel of a new hand and is appended otherwise. */
  function Added(hand: seq<Card>, card: Card): seq<Card> {
    if hand == [SENTINEL] then [card] else hand + [card]
  }

  class Player {
    const name: string
    var cards: seq<Card>

    constructor (name: string)
      ensures this.name == name
      ensures cards == [SENTINEL]
    {
      this.name := name;
      cards := [SENTINEL];
    }

    method AddCard(card: Card)
      modifies this
      ensures cards == Added(old(cards), card)
    {
      if |cards| == 1 && cards[0] == SENTINEL {
        cards := cards[0 := card];
      } else {
        cards := cards + [card];
      }
    }

    method RemoveCard(card: Card)
      modifies this
      ensures cards == Without(old(cards), card)
    {
      var kept := [];
      for i := 0 to |cards|
        invariant cards == old(cards)
        invariant kept == Without(cards[..i], card)
      {
        assert cards[..i + 1][..i] == cards[..i];
        if cards[i] != card {
          kept := kept + [cards[i]];
        }
      }
      assert cards[..|cards|] == cards;
      cards := kept;
    }

    method HasCard(card: Card) returns (found: bool)
      ensures found <==> card in cards
    {
      for i := 0 to |cards|
        invariant card !in cards[..i]
      {
        if cards[i] == card {
          return true;
        }
      }
      return false;
    }
  }
}
