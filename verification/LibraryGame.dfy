/** The game of the shared library: hands of at most seven sorted cards, and a card drawn after every accepted play. */
module LibraryGame {
  import opened Cards
  import opened Options
  import opened Sorting

  const MAX_HAND_SIZE := 7

  datatype PileType = Ascending | Descending

  datatype Board = Board(deck: seq<Card>, hands: seq<seq<Card>>, piles: seq<seq<Card>>)

  function KindOf(pile: nat): PileType {
    if pile < 2 then Ascending else Descending
  }

  /** An empty pile takes any card; its foundation value plays no part. */
  predicate CanPlace(kind: PileType, pile: seq<Card>, card: Card) {
    pile == [] ||
    match kind
    case Ascending => FitsIncreasing(card, pile[|pile| - 1])
    case Descending => FitsDecreasing(card, pile[|pile| - 1])
  }

  predicate AtMost(a: Card, b: Card) { a <= b }

  ghost predicate Sorted(s: seq<Card>) {
    SortedBy(s, AtMost)
  }

  /** A full hand silently drops the card. */
  function Taken(hand: seq<Card>, card: Card): seq<Card> {
    if |hand| < MAX_HAND_SIZE then Sort(hand + [card], AtMost) else hand
  }

  function Drawn(deck: seq<Card>): Option<Card> {
    if deck == [] then None else Some(deck[|deck| - 1])
  }

  function Rest(deck: seq<Card>): seq<Card> {
    if deck == [] then [] else deck[..|deck| - 1]
  }

  function DrawInto(hand: seq<Card>, deck: seq<Card>): seq<Card> {
    match Drawn(deck)
    case None => hand
    case Some(c) => Taken(hand, c)
  }

  /** Hand and deck after n draws. */
  function DrawTimes(hand: seq<Card>, deck: seq<Card>, n: nat): (seq<Card>, seq<Card>) {
    if n == 0 then (hand, deck)
    else
      var r := DrawTimes(hand, deck, n - 1);
      (DrawInto(r.0, r.1), Rest(r.1))
  }

  /** The board after the first k players drew n cards each. */
  function StartedUpTo(b: Board, k: nat, n: nat): (r: Board)
    requires k <= |b.hands|
    ensures |r.hands| == |b.hands| && r.piles == b.piles
  {
    if k == 0 then b
    else
      var before := StartedUpTo(b, k - 1, n);
      var r := DrawTimes(before.hands[k - 1], before.deck, n);
      before.(hands := before.hands[k - 1 := r.0], deck := r.1)
  }

  function WithoutAt(hand: seq<Card>, i: nat): seq<Card>
    requires i < |hand|
  {
    hand[..i] + hand[i + 1..]
  }

  /** One play; a card that its pile refuses has already left the hand and is gone. */
  function AfterPlay(b: Board, player: nat, index: nat, pile: nat): (Board, bool)
    requires |b.piles| == 4
  {
    if player >= |b.hands| || pile >= 4 then (b, false)
    else if index >= |b.hands[player]| then (b, false)
    else
      var card := b.hands[player][index];
      var hand := WithoutAt(b.hands[player], index);
      if !CanPlace(KindOf(pile), b.piles[pile], card) then (b.(hands := b.hands[player := hand]), false)
      else
        (Board(Rest(b.deck), b.hands[player := DrawInto(hand, b.deck)],
               b.piles[pile := b.piles[pile] + [card]]), true)
  }

  predicate IsWon(b: Board) {
    b.deck == [] && forall hand | hand in b.hands :: hand == []
  }

  // ---------- the objects ----------

  class Deck {
    var cards: seq<Card>

    /** The deck in order, and then in the order a shuffle leaves. */
    constructor (shuffled: Shuffle)
      ensures cards == shuffled
    {
      cards := [];
      new;
      for i := 2 to 100
        invariant cards == Numbered(2, i)
      {
        cards := cards + [i];
      }
      assert multiset(cards) == multiset(shuffled);
      cards := shuffled;
    }

    method DrawCard() returns (card: Option<Card>)
      modifies this
      ensures card == Drawn(old(cards)) && cards == Rest(old(cards))
    {
      if cards == [] {
        return None;
      }
      card := Some(cards[|cards| - 1]);
      cards := cards[..|cards| - 1];
    }
  }

  class Player {
    const name: string
    var hand: seq<Card>

    constructor (name: string)
      ensures this.name == name && hand == []
    {
      this.name, hand := name, [];
    }

    method AddCard(card: Card)
      modifies this
      ensures hand == Taken(old(hand), card)
    {
      if |hand| < MAX_HAND_SIZE {
        hand := hand + [card];
        hand := Sort(hand, AtMost);
      }
    }

    method PlayCard(index: nat) returns (card: Option<Card>)
      modifies this
      ensures if index >= |old(hand)| then card.None? && hand == old(hand)
              else card == Some(old(hand)[index]) && hand == WithoutAt(old(hand), index)
    {
      if index >= |hand| {
        return None;
      }
      card := Some(hand[index]);
      hand := hand[..index] + hand[index + 1..];
    }
  }

  class Pile {
    const kind: PileType
    var cards: seq<Card>

    constructor (kind: PileType)
      ensures this.kind == kind && cards == []
    {
      this.kind, cards := kind, [];
    }

    predicate CanPlaceCard(card: Card)
      reads this
    {
      CanPlace(kind, cards, card)
    }

    method PlaceCard(card: Card) returns (placed: bool)
      modifies this
      ensures placed == old(CanPlaceCard(card))
      ensures cards == if placed then old(cards) + [card] else old(cards)
    {
      if !CanPlaceCard(card) {
        return false;
      }
      cards := cards + [card];
      return true;
    }
  }

  class Game {
    const deck: Deck
    const piles: seq<Pile>
    var players: seq<Player>

    /** Four piles of the right kinds, and no pile or player twice. */
    ghost predicate Valid()
      reads this
    {
      && |piles| == 4
      && (forall i :: 0 <= i < 4 ==> piles[i].kind == KindOf(i))
      && (forall i, j :: 0 <= i < j < 4 ==> piles[i] != piles[j])
      && (forall i, j :: 0 <= i < j < |players| ==> players[i] != players[j])
    }

    function Hands(): (hands: seq<seq<Card>>)
      reads this, players
      ensures |hands| == |players|
      ensures forall i :: 0 <= i < |players| ==> hands[i] == players[i].hand
    {
      seq(|players|, i requires 0 <= i < |players| reads this, players => players[i].hand)
    }

    function PileCards(): (p: seq<seq<Card>>)
      reads piles
      ensures |p| == |piles|
      ensures forall i :: 0 <= i < |piles| ==> p[i] == piles[i].cards
    {
      seq(|piles|, i requires 0 <= i < |piles| reads piles => piles[i].cards)
    }

    function Model(): Board
      reads this, deck, players, piles
    {
      Board(deck.cards, Hands(), PileCards())
    }

    constructor (shuffled: Shuffle)
      ensures Valid() && fresh(deck) && fresh(piles) && players == []
      ensures Model() == Board(shuffled, [], [[], [], [], []])
    {
      deck := new Deck(shuffled);
      var p0 := new Pile(Ascending);
      var p1 := new Pile(Ascending);
      var p2 := new Pile(Descending);
      var p3 := new Pile(Descending);
      piles := [p0, p1, p2, p3];
      players := [];
      new;
      assert piles[0] == p0 && piles[1] == p1 && piles[2] == p2 && piles[3] == p3;
      assert Valid();
      assert PileCards() == [[], [], [], []];
      assert Hands() == [];
    }

    method AddPlayer(name: string)
      requires Valid()
      modifies this
      ensures Valid() && |players| == |old(players)| + 1
      ensures players == old(players) + [players[|old(players)|]] && fresh(players[|old(players)|])
      ensures Model() == old(Model()).(hands := old(Hands()) + [[]])
    {
      var player := new Player(name);
      players := players + [player];
      assert Hands() == old(Hands()) + [[]];
    }

    method DrawOne(player: Player)
      modifies deck, player
      ensures player.hand == DrawInto(old(player.hand), old(deck.cards)) && deck.cards == Rest(old(deck.cards))
    {
      var card := deck.DrawCard();
      if card.Some? {
        player.AddCard(card.value);
      }
    }

    /** A number of draws; the deck may run out on the way. */
    method DrawHand(player: Player, n: nat)
      modifies deck, player
      ensures (player.hand, deck.cards) == DrawTimes(old(player.hand), old(deck.cards), n)
    {
      ghost var hand, cards := player.hand, deck.cards;
      for i := 0 to n
        invariant (player.hand, deck.cards) == DrawTimes(hand, cards, i)
      {
        DrawOne(player);
      }
    }

    method DrawSeat(k: nat, n: nat)
      requires Valid() && k < |players|
      modifies deck, players[k]
      ensures var r := DrawTimes(old(players[k].hand), old(deck.cards), n);
              Model() == old(Model()).(hands := old(Hands())[k := r.0], deck := r.1)
    {
      DrawHand(players[k], n);
      assert Hands() == old(Hands())[k := players[k].hand];
      assert PileCards() == old(PileCards());
    }

    method DrawAll(n: nat)
      requires Valid()
      modifies deck, players
      ensures Model() == StartedUpTo(old(Model()), |players|, n)
    {
      hide DrawTimes;
      ghost var b := Model();
      for k := 0 to |players|
        invariant Model() == StartedUpTo(b, k, n)
      {
        hide Valid;
        DrawSeat(k, n);
      }
    }

    method StartGame()
      requires Valid()
      modifies deck, players
      ensures Model() == StartedUpTo(old(Model()), |players|, 7)
    {
      DrawAll(7);
    }

    /** Puts a card on a pile and draws for the player, or loses the card. */
    method PlaceAndDraw(player: Player, pile: Pile, card: Card) returns (placed: bool)
      modifies deck, player, pile
      ensures placed == old(pile.CanPlaceCard(card))
      ensures pile.cards == if placed then old(pile.cards) + [card] else old(pile.cards)
      ensures deck.cards == if placed then Rest(old(deck.cards)) else old(deck.cards)
      ensures player.hand == if placed then DrawInto(old(player.hand), old(deck.cards)) else old(player.hand)
    {
      placed := pile.PlaceCard(card);
      if placed {
        DrawOne(player);
      }
    }

    method PlayCard(playerIndex: nat, cardIndex: nat, pileIndex: nat) returns (ok: bool)
      requires Valid()
      modifies deck, players, piles
      ensures Valid()
      ensures (Model(), ok) == AfterPlay(old(Model()), playerIndex, cardIndex, pileIndex)
    {
      if playerIndex >= |players| || pileIndex >= |piles| {
        return false;
      }
      var player := players[playerIndex];
      var pile := piles[pileIndex];
      assert player.hand == Model().hands[playerIndex] && pile.cards == Model().piles[pileIndex];
      var card := player.PlayCard(cardIndex);
      ok := false;
      if card.Some? {
        ok := PlaceAndDraw(player, pile, card.value);
      }
      assert Hands() == old(Hands())[playerIndex := player.hand];
      assert PileCards() == old(PileCards())[pileIndex := pile.cards];
      if !ok {
        assert old(PileCards())[pileIndex := pile.cards] == old(PileCards());
        if card.None? {
          assert old(Hands())[playerIndex := player.hand] == old(Hands());
        }
      }
    }

    method CheckWinCondition() returns (won: bool)
      ensures won <==> IsWon(Model())
    {
      var allPlayersEmpty := true;
      for i := 0 to |players|
        invariant allPlayersEmpty <==> forall k :: 0 <= k < i ==> Hands()[k] == []
      {
        assert players[i].hand == Hands()[i];
        allPlayersEmpty := allPlayersEmpty && players[i].hand == [];
      }
      assert forall k :: 0 <= k < |players| ==> Hands()[k] in Model().hands;
      return deck.cards == [] && allPlayersEmpty;
    }
  }
}
