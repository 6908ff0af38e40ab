/** What the table operations keep: every card once, legal piles, bounded hands. */
module TableLaws {
  import opened Arithmetic
  import opened Cards
  import opened Tables

  const MAX_HAND := 8

  ghost function PileCopies(t: Table, c: Card): nat {
    multiset(t.inc1)[c] + multiset(t.inc2)[c] + multiset(t.dec1)[c] + multiset(t.dec2)[c]
  }

  /** How often a card occurs anywhere on the table. */
  ghost function Copies(t: Table, c: Card): nat {
    multiset(t.deck)[c] + HandsCopies(t.hands, c) + PileCopies(t, c)
  }

  /** The box holds the cards 2 to 99 once each and every foundation twice. */
  function BoxCopies(c: Card): nat {
    if 2 <= c <= 99 then 1 else if c == INCREASING_BASE || c == DECREASING_BASE then 2 else 0
  }

  /** How many cards lie on a pile besides its foundation. */
  function Above(pile: seq<Card>): nat {
    if pile == [] then 0 else |pile| - 1
  }

  function PlacedCount(t: Table): nat {
    Above(t.inc1) + Above(t.inc2) + Above(t.dec1) + Above(t.dec2)
  }

  function LooseCount(t: Table): nat {
    |t.deck| + HandsTotal(t.hands)
  }

  /** No card is lost, duplicated or invented. */
  ghost predicate Conserved(t: Table) {
    && (forall c {:trigger Copies(t, c)} :: Copies(t, c) == BoxCopies(c))
    && LooseCount(t) + PlacedCount(t) == 98
  }

  ghost predicate LegalPiles(t: Table) {
    LegalIncreasing(t.inc1) && LegalIncreasing(t.inc2) && LegalDecreasing(t.dec1) && LegalDecreasing(t.dec2)
  }

  ghost predicate HandsBounded(hands: seq<seq<Card>>) {
    forall i :: 0 <= i < |hands| ==> |hands[i]| <= MAX_HAND
  }

  /** A hand is only ever left empty once the deck has run out. */
  ghost predicate HandsStocked(t: Table) {
    t.deck != [] ==> forall i :: 0 <= i < |t.hands| ==> t.hands[i] != []
  }

  ghost predicate Dealt(t: Table) {
    Conserved(t) && LegalPiles(t) && HandsBounded(t.hands) && HandsStocked(t)
  }

  /** The cards that are still in play are playing cards, each at one place. */
  lemma InPlayOnce(t: Table, c: Card)
    requires Conserved(t) && LegalPiles(t)
    ensures var loose := multiset(t.deck)[c] + HandsCopies(t.hands, c);
            loose <= 1 && (loose == 1 ==> 2 <= c <= 99)
  {
    assert Copies(t, c) == BoxCopies(c);
    assert t.inc1[0] in multiset(t.inc1) && t.inc2[0] in multiset(t.inc2);
    assert t.dec1[0] in multiset(t.dec1) && t.dec2[0] in multiset(t.dec2);
  }

  lemma HeldOnce(t: Table, i: nat, c: Card)
    requires Conserved(t) && LegalPiles(t) && i < |t.hands| && c in t.hands[i]
    ensures 2 <= c <= 99 && multiset(t.hands[i])[c] == 1
  {
    InPlayOnce(t, c);
    HandsCopiesUpdate(t.hands, i, [], c);
    assert c in multiset(t.hands[i]);
  }

  lemma NoSentinel(t: Table, i: nat)
    requires Conserved(t) && LegalPiles(t) && i < |t.hands|
    ensures SENTINEL !in t.deck && SENTINEL !in t.hands[i]
  {
    InPlayOnce(t, SENTINEL);
    HandsCopiesUpdate(t.hands, i, [], SENTINEL);
    assert SENTINEL !in multiset(t.deck) && SENTINEL !in multiset(t.hands[i]);
  }

  /** Nothing is left to play exactly when all 98 cards lie on the piles, and then they are all of 2..99. */
  lemma WonIffAllPlaced(t: Table)
    requires Conserved(t)
    ensures PlacedCount(t) <= 98
    ensures IsWon(t) <==> PlacedCount(t) == 98
    ensures IsWon(t) ==> forall c :: PileCopies(t, c) == BoxCopies(c)
  {
    HandsTotalZero(t.hands);
    if IsWon(t) {
      assert forall i :: 0 <= i < |t.hands| ==> t.hands[i] in t.hands;
      forall c ensures PileCopies(t, c) == BoxCopies(c) {
        assert Copies(t, c) == BoxCopies(c);
        NoCopies(t.hands, c);
      }
    }
  }

  lemma {:induction false} NoCopies(hands: seq<seq<Card>>, c: Card)
    requires forall i :: 0 <= i < |hands| ==> hands[i] == []
    ensures HandsCopies(hands, c) == 0
  {
    if hands == [] {
    } else {
      NoCopies(hands[..|hands| - 1], c);
    }
  }

  /** A valid move adds the card to one pile and leaves every pile legal. */
  lemma PlacedKeepsPiles(t: Table, card: Card, stack: int)
    requires LegalPiles(t) && ValidMove(t, card, stack)
    ensures var after := Placed(t, card, stack);
            && after.hands == t.hands && after.deck == t.deck
            && LegalPiles(after) && PlacedCount(after) == PlacedCount(t) + 1
            && forall c :: PileCopies(after, c) == PileCopies(t, c) + if c == card then 1 else 0
  {
  }

  /** The table after seat i played a card: the card leaves the hand and lands on the stack. */
  function Played(t: Table, i: nat, card: Card, stack: int): (r: Table)
    requires i < |t.hands|
    ensures |r.hands| == |t.hands|
  {
    Placed(t.(hands := t.hands[i := Without(t.hands[i], card)]), card, stack)
  }

  /** Removing a held card takes exactly that one card off the table. */
  lemma TakeRemovesOne(t: Table, i: nat, card: Card)
    requires Conserved(t) && LegalPiles(t) && i < |t.hands| && card in t.hands[i]
    ensures var taken := t.(hands := t.hands[i := Without(t.hands[i], card)]);
            && |taken.hands[i]| == |t.hands[i]| - 1
            && LooseCount(taken) == LooseCount(t) - 1
            && forall c {:trigger Copies(taken, c)} :: Copies(taken, c) == BoxCopies(c) - if c == card then 1 else 0
  {
    var rest := Without(t.hands[i], card);
    HeldOnce(t, i, card);
    WithoutRemovesOne(t.hands[i], card);
    HandsTotalUpdate(t.hands, i, rest);
    var taken := t.(hands := t.hands[i := rest]);
    forall c ensures Copies(taken, c) == BoxCopies(c) - if c == card then 1 else 0 {
      HandsCopiesUpdate(t.hands, i, rest, c);
      assert Copies(t, c) == BoxCopies(c);
      assert PileCopies(taken, c) == PileCopies(t, c);
    }
  }

  /** Placing the one card that is missing from the table completes the table again. */
  lemma PlacedCompletes(t: Table, card: Card, stack: int)
    requires LegalPiles(t) && ValidMove(t, card, stack)
    requires LooseCount(t) + PlacedCount(t) == 97
    requires forall c {:trigger Copies(t, c)} :: Copies(t, c) == BoxCopies(c) - if c == card then 1 else 0
    ensures Conserved(Placed(t, card, stack))
  {
    PlacedKeepsPiles(t, card, stack);
    var after := Placed(t, card, stack);
    forall c ensures Copies(after, c) == BoxCopies(c) {
      assert Copies(t, c) == BoxCopies(c) - if c == card then 1 else 0;
    }
  }

  lemma PlayConserves(t: Table, i: nat, card: Card, stack: int)
    requires Conserved(t) && LegalPiles(t) && i < |t.hands| && card in t.hands[i] && ValidMove(t, card, stack)
    ensures Conserved(Played(t, i, card, stack))
  {
    TakeRemovesOne(t, i, card);
    PlacedCompletes(t.(hands := t.hands[i := Without(t.hands[i], card)]), card, stack);
  }

  /** Taking a held card to a pile that accepts it moves one card and loses none. */
  lemma PlayKeepsCards(t: Table, i: nat, card: Card, stack: int)
    requires Dealt(t) && i < |t.hands| && card in t.hands[i] && ValidMove(t, card, stack)
    ensures var after := Played(t, i, card, stack);
            && Conserved(after) && LegalPiles(after) && HandsBounded(after.hands)
            && |after.hands[i]| == |t.hands[i]| - 1
            && PlacedCount(after) == PlacedCount(t) + 1
  {
    PlayConserves(t, i, card, stack);
    TakeRemovesOne(t, i, card);
    PlacedKeepsPiles(t.(hands := t.hands[i := Without(t.hands[i], card)]), card, stack);
  }

  lemma LastSlice(deck: seq<Card>, n: nat)
    requires 1 <= n <= |deck|
    ensures var last := |deck| - 1;
            && deck[..last][last - (n - 1)..] + [deck[last]] == deck[|deck| - n..]
            && deck[..last][..last - (n - 1)] == deck[..|deck| - n]
  {
  }

  /** Drawing moves cards from the end of the deck to the hand in the order drawn. */
  lemma {:induction false} FillDraws(hand: seq<Card>, deck: seq<Card>, n: int)
    requires SENTINEL !in hand && SENTINEL !in deck
    ensures var r := Fill(hand, deck, n);
            var d := if |hand| >= n then 0 else if n - |hand| <= |deck| then n - |hand| else |deck|;
            r.0 == hand + Reversed(deck[|deck| - d..]) && r.1 == deck[..|deck| - d]
    decreases |deck|
  {
    if |hand| < n && deck != [] {
      var last := |deck| - 1;
      var rest := deck[..last];
      assert hand != [SENTINEL];
      FillDraws(hand + [deck[last]], rest, n);
      var d := if n - |hand| - 1 <= last then n - |hand| - 1 else last;
      var tail := rest[last - d..];
      assert Fill(hand, deck, n) == (hand + [deck[last]] + Reversed(tail), rest[..last - d]);
      LastSlice(deck, d + 1);
      ReversedSnoc(tail, deck[last]);
      assert hand + [deck[last]] + Reversed(tail) == hand + ([deck[last]] + Reversed(tail));
    } else {
      assert deck[|deck|..] == [] && hand + Reversed([]) == hand && deck[..|deck|] == deck;
    }
  }

  lemma {:induction false} FillKeepsCards(hand: seq<Card>, deck: seq<Card>, n: int, c: Card)
    requires SENTINEL !in hand && SENTINEL !in deck
    ensures var r := Fill(hand, deck, n);
            multiset(r.0)[c] + multiset(r.1)[c] == multiset(hand)[c] + multiset(deck)[c]
    decreases |deck|
  {
    if |hand| < n && deck != [] {
      var last := |deck| - 1;
      assert deck == deck[..last] + [deck[last]];
      assert hand != [SENTINEL];
      FillKeepsCards(hand + [deck[last]], deck[..last], n, c);
    }
  }

  /** The first draw of a new seat replaces the sentinel, so the seat still gets n cards. */
  lemma FillFreshHand(deck: seq<Card>, n: int)
    requires SENTINEL !in deck && 2 <= n <= |deck|
    ensures Fill([SENTINEL], deck, n) == (Reversed(deck[|deck| - n..]), deck[..|deck| - n])
  {
    var last := |deck| - 1;
    var rest := deck[..last];
    var tail := rest[last - (n - 1)..];
    assert Fill([SENTINEL], deck, n) == Fill([deck[last]], rest, n);
    hide Fill, Reversed;
    FillDraws([deck[last]], rest, n);
    ReversedSnoc(tail, deck[last]);
    LastSlice(deck, n);
  }

  lemma FillFreshKeepsCards(deck: seq<Card>, n: int, c: Card)
    requires SENTINEL !in deck && 2 <= n <= |deck|
    ensures var r := Fill([SENTINEL], deck, n);
            multiset(r.0)[c] + multiset(r.1)[c] == multiset(deck)[c]
  {
    var last := |deck| - 1;
    assert Fill([SENTINEL], deck, n) == Fill([deck[last]], deck[..last], n);
    FillKeepsCards([deck[last]], deck[..last], n, c);
    assert deck == deck[..last] + [deck[last]];
  }

  /** Seat k's cards in a deal of n cards a seat, after Times(n, k) cards went to the seats before it. */
  function DealSlice(deck: seq<Card>, n: nat, k: nat): seq<Card>
    requires Times(n, k + 1) <= |deck|
  {
    Reversed(deck[|deck| - Times(n, k + 1)..|deck| - Times(n, k)])
  }

  ghost predicate AllNew(hands: seq<seq<Card>>) {
    forall i :: 0 <= i < |hands| ==> hands[i] == [SENTINEL]
  }

  /** One more seat served, in terms of the slice it gets. */
  lemma FreshSlice(deck: seq<Card>, n: nat, k: nat)
    requires SENTINEL !in deck && 2 <= n && Times(n, k + 1) <= |deck|
    ensures Fill([SENTINEL], deck[..|deck| - Times(n, k)], n) == (DealSlice(deck, n, k), deck[..|deck| - Times(n, k + 1)])
    ensures |DealSlice(deck, n, k)| == n
  {
    var rest := deck[..|deck| - Times(n, k)];
    FillFreshHand(rest, n);
    assert rest[|rest| - n..] == deck[|deck| - Times(n, k + 1)..|deck| - Times(n, k)];
    assert rest[..|rest| - n] == deck[..|deck| - Times(n, k + 1)];
  }

  /** After k seats the deck is its prefix without their cards, and the other seats are untouched. */
  lemma {:induction false} IssuedRest(hands: seq<seq<Card>>, deck: seq<Card>, n: nat, k: nat)
    requires AllNew(hands) && k <= |hands|
    requires SENTINEL !in deck && 2 <= n && Times(n, k) <= |deck|
    ensures var r := Issued(hands, deck, n, k);
            && r.1 == deck[..|deck| - Times(n, k)]
            && forall j :: k <= j < |hands| ==> r.0[j] == [SENTINEL]
    decreases k
  {
    if k == 0 {
      assert deck[..|deck|] == deck;
    } else {
      IssuedRest(hands, deck, n, k - 1);
      FreshSlice(deck, n, k - 1);
    }
  }

  /** Seat j holds exactly its reversed slice of the deck, also after later seats are served. */
  lemma {:induction false} IssuedSlice(hands: seq<seq<Card>>, deck: seq<Card>, n: nat, k: nat, j: nat)
    requires AllNew(hands) && j < k <= |hands|
    requires SENTINEL !in deck && 2 <= n && Times(n, k) <= |deck|
    ensures Times(n, j + 1) <= |deck| && Issued(hands, deck, n, k).0[j] == DealSlice(deck, n, j)
    decreases k
  {
    if j == k - 1 {
      IssuedRest(hands, deck, n, j);
      FreshSlice(deck, n, j);
    } else {
      IssuedSlice(hands, deck, n, k - 1, j);
    }
  }

  lemma {:induction false} HandsTotalUniform(hands: seq<seq<Card>>, n: nat)
    requires forall i :: 0 <= i < |hands| ==> |hands[i]| == n
    ensures HandsTotal(hands) == |hands| * n
  {
    if hands == [] {
    } else {
      HandsTotalUniform(hands[..|hands| - 1], n);
    }
  }

  lemma ServingKeepsCards(served: seq<seq<Card>>, rest: seq<Card>, n: nat, k: nat, c: Card)
    requires k < |served| && served[k] == [SENTINEL]
    requires SENTINEL !in rest && 2 <= n <= |rest|
    ensures var drawn := Fill(served[k], rest, n);
            HandsCopies(served[k := drawn.0][..k + 1], c) + multiset(drawn.1)[c]
            == HandsCopies(served[..k], c) + multiset(rest)[c]
  {
    FillFreshKeepsCards(rest, n, c);
    var drawn := Fill([SENTINEL], rest, n);
    HandsCopiesSnoc(served[..k], drawn.0, c);
    assert served[k := drawn.0][..k + 1] == served[..k] + [drawn.0];
  }

  lemma {:induction false} IssuedKeepsCards(hands: seq<seq<Card>>, deck: seq<Card>, n: nat, k: nat, c: Card)
    requires AllNew(hands) && k <= |hands|
    requires SENTINEL !in deck && 2 <= n && Times(n, k) <= |deck|
    ensures var r := Issued(hands, deck, n, k);
            HandsCopies(r.0[..k], c) + multiset(r.1)[c] == multiset(deck)[c]
    decreases k
  {
    if k == 0 {
    } else {
      IssuedKeepsCards(hands, deck, n, k - 1, c);
      IssuedRest(hands, deck, n, k - 1);
      var before := Issued(hands, deck, n, k - 1);
      ServingKeepsCards(before.0, before.1, n, k - 1, c);
    }
  }

  /** The table as both start routes leave it: foundations, a shuffled deck, hands dealt. */
  function Opened(t: Table, deck: Shuffle): (r: Table)
    requires t.nrGamer <= |t.hands|
    ensures |r.hands| == |t.hands|
  {
    Issue(t.(inc1 := [INCREASING_BASE], inc2 := [INCREASING_BASE],
             dec1 := [DECREASING_BASE], dec2 := [DECREASING_BASE], deck := deck))
  }

  /** The hand is the slice of the seat, card for card. */
  ghost predicate GetsSlice(hand: seq<Card>, deck: seq<Card>, n: nat, k: nat) {
    Times(n, k + 1) <= |deck| && hand == DealSlice(deck, n, k) && |hand| == n
  }

  lemma DealsSlices(hands: seq<seq<Card>>, deck: Shuffle, n: nat)
    requires AllNew(hands) && 2 <= n && Times(n, |hands|) <= 98 && SENTINEL !in deck && |deck| == 98
    ensures var r := Issued(hands, deck, n, |hands|);
            && r.1 == deck[..98 - Times(n, |hands|)]
            && forall k :: 0 <= k < |hands| ==> GetsSlice(r.0[k], deck, n, k)
  {
    hide DealSlice;
    IssuedRest(hands, deck, n, |hands|);
    forall k | 0 <= k < |hands| ensures GetsSlice(Issued(hands, deck, n, |hands|).0[k], deck, n, k) {
      IssuedSlice(hands, deck, n, |hands|, k);
      FreshSlice(deck, n, k);
    }
  }

  lemma DealsOnce(hands: seq<seq<Card>>, deck: Shuffle, n: nat, c: Card)
    requires AllNew(hands) && 2 <= n && Times(n, |hands|) <= 98 && SENTINEL !in deck && |deck| == 98
    ensures var r := Issued(hands, deck, n, |hands|);
            HandsCopies(r.0, c) + multiset(r.1)[c] == if 2 <= c <= 99 then 1 else 0
  {
    hide Issued, Times;
    IssuedKeepsCards(hands, deck, n, |hands|, c);
    var r := Issued(hands, deck, n, |hands|);
    assert r.0[..|hands|] == r.0;
    NumberedCount(2, 100, c);
  }

  lemma OpenedIs(t: Table, deck: Shuffle, n: nat)
    requires t.nrGamer == |t.hands| && 2 <= |t.hands| <= 5
    requires n == if |t.hands| == 2 then 8 else if |t.hands| == 3 then 7 else 6
    ensures var r := Issued(t.hands, deck, n, |t.hands|);
            Opened(t, deck) == t.(inc1 := [1], inc2 := [1], dec1 := [100], dec2 := [100], hands := r.0, deck := r.1)
    ensures Times(n, |t.hands|) <= 98 && Times(n, |t.hands|) == |t.hands| * n
  {
    hide Issued;
  }

  lemma OpenedIsDealt(t: Table, r: Table, deck: Shuffle, n: nat)
    requires AllNew(t.hands) && 2 <= n <= 8 && Times(n, |t.hands|) <= 98 && SENTINEL !in deck && |deck| == 98
    requires var i := Issued(t.hands, deck, n, |t.hands|); r.hands == i.0 && r.deck == i.1
    requires r.inc1 == r.inc2 == [1] && r.dec1 == r.dec2 == [100]
    ensures Dealt(r) && PlacedCount(r) == 0
  {
    hide Issued, DealSlice;
    DealsSlices(t.hands, deck, n);
    HandsTotalUniform(r.hands, n);
    assert Times(n, |t.hands|) == |t.hands| * n;
    forall c ensures Copies(r, c) == BoxCopies(c) {
      DealsOnce(t.hands, deck, n, c);
    }
  }

  /** The deal, for every shuffle and every number of seats a game can start with: eight cards for two seats, seven
      for three and six for more, on foundations of 1 and 100. */
  lemma Deal(t: Table, deck: Shuffle)
    requires AllNew(t.hands) && t.nrGamer == |t.hands| && 2 <= |t.hands| <= 5
    ensures var r := Opened(t, deck);
            var n := if |t.hands| == 2 then 8 else if |t.hands| == 3 then 7 else 6;
            && |t.hands| * n <= 98 && |deck| == 98
            && r.inc1 == r.inc2 == [1] && r.dec1 == r.dec2 == [100]
            && r.deck == deck[..98 - |t.hands| * n]
            && (forall k :: 0 <= k < |t.hands| ==> |r.hands[k]| == n && GetsSlice(r.hands[k], deck, n, k))
            && Dealt(r) && PlacedCount(r) == 0
  {
    hide Opened, Issued, DealSlice, Dealt, PlacedCount;
    ShuffleIsPlain(deck);
    var n := if |t.hands| == 2 then 8 else if |t.hands| == 3 then 7 else 6;
    OpenedIs(t, deck, n);
    DealsSlices(t.hands, deck, n);
    OpenedIsDealt(t, Opened(t, deck), deck, n);
  }

  lemma SliceCard(deck: seq<Card>, n: nat, k: nat, j: nat)
    requires |deck| == 98 && j < n && Times(n, k + 1) <= 98
    ensures |DealSlice(deck, n, k)| == n
    ensures 0 <= 97 - n * k - j && DealSlice(deck, n, k)[j] == deck[97 - n * k - j]
  {
    assert Times(n, k + 1) == Times(n, k) + n;
  }

  /** Card for card: the seats are served one after the other from the end of the deck. */
  lemma DealtCard(t: Table, deck: Shuffle, k: nat, j: nat)
    requires AllNew(t.hands) && t.nrGamer == |t.hands| && 2 <= |t.hands| <= 5
    requires k < |t.hands| && j < |Opened(t, deck).hands[k]|
    ensures |deck| == 98
    ensures var n := if |t.hands| == 2 then 8 else if |t.hands| == 3 then 7 else 6;
            0 <= 97 - n * k - j && Opened(t, deck).hands[k][j] == deck[97 - n * k - j]
  {
    hide Opened, Dealt, DealSlice, Times;
    Deal(t, deck);
    SliceCard(deck, if |t.hands| == 2 then 8 else if |t.hands| == 3 then 7 else 6, k, j);
  }

  /** On the opening table every seat can play. */
  lemma OpeningHasPlay(t: Table, i: nat)
    requires Conserved(t) && LegalPiles(t) && PlacedCount(t) == 0 && i < |t.hands| && t.hands[i] != []
    ensures HasPlay(t, i)
  {
    var c := t.hands[i][0];
    HeldOnce(t, i, c);
    assert ValidMove(t, c, 1);
  }

  /** A seat draws again only when its hand is empty. */
  function Refilled(t: Table, i: nat, n: int): (r: Table)
    requires i < |t.hands|
    ensures |r.hands| == |t.hands|
  {
    if t.hands[i] == [] then
      var drawn := Fill([], t.deck, n);
      t.(hands := t.hands[i := drawn.0], deck := drawn.1)
    else t
  }

  lemma RefillConserves(t: Table, i: nat, n: int)
    requires Conserved(t) && LegalPiles(t) && i < |t.hands| && t.hands[i] == []
    ensures var r := Fill([], t.deck, n);
            Conserved(t.(hands := t.hands[i := r.0], deck := r.1))
  {
    NoSentinel(t, i);
    FillDraws([], t.deck, n);
    var r := Fill([], t.deck, n);
    var after := t.(hands := t.hands[i := r.0], deck := r.1);
    HandsTotalUpdate(t.hands, i, r.0);
    forall c ensures Copies(after, c) == BoxCopies(c) {
      HandsCopiesUpdate(t.hands, i, r.0, c);
      FillKeepsCards([], t.deck, n, c);
      assert Copies(t, c) == BoxCopies(c);
    }
  }

  /** A seat that emptied its hand draws again: nothing is lost, and a non-empty deck restocks it. */
  lemma RefillKeepsCards(t: Table, i: nat, n: int)
    requires Conserved(t) && LegalPiles(t) && HandsBounded(t.hands)
    requires i < |t.hands| && 1 <= n <= MAX_HAND
    requires t.deck != [] ==> forall j :: 0 <= j < |t.hands| && j != i ==> t.hands[j] != []
    ensures var after := Refilled(t, i, n);
            Dealt(after) && (after.hands[i] == [] ==> after.deck == []) && PlacedCount(after) == PlacedCount(t)
  {
    if t.hands[i] == [] {
      RefillConserves(t, i, n);
      NoSentinel(t, i);
      FillDraws([], t.deck, n);
    }
  }
}
