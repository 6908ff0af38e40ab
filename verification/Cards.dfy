/** Cards, hands and piles as plain values, shared by the server game and the library game. */
module Cards {

  /** A card is its number; whether it is a foundation card follows from the number. */
  type Card = int

  const SENTINEL: Card := -1
  const INCREASING_BASE: Card := 1
  const DECREASING_BASE: Card := 100

  /** The ordering rule of an increasing pile, with the backwards jump of exactly ten. */
  predicate FitsIncreasing(card: Card, top: Card) {
    card > top || card == top - 10
  }

  predicate FitsDecreasing(card: Card, top: Card) {
    card < top || card == top + 10
  }

  /** The cards lo, lo + 1, ..., hi - 1 in this order. */
  function Numbered(lo: int, hi: int): (s: seq<Card>)
    requires lo <= hi
    ensures |s| == hi - lo
    ensures forall i :: 0 <= i < |s| ==> s[i] == lo + i
  {
    seq(hi - lo, i => lo + i)
  }

  function FullDeck(): multiset<Card> {
    multiset(Numbered(2, 100))
  }

  /** Any order of the 98 playing cards: the outcome of a random shuffle. */
  type Shuffle = deck: seq<Card> | multiset(deck) == FullDeck() witness Numbered(2, 100)

  lemma {:induction false} NumberedCount(lo: int, hi: int, c: Card)
    requires lo <= hi
    ensures multiset(Numbered(lo, hi))[c] == if lo <= c < hi then 1 else 0
    decreases hi - lo
  {
    if lo >= hi {
    } else {
      NumberedCount(lo, hi - 1, c);
      assert Numbered(lo, hi) == Numbered(lo, hi - 1) + [hi - 1];
    }
  }

  /** The cards of a hand or deck that a shuffle can contain, and how many of them. */
  lemma ShuffleIsPlain(deck: Shuffle)
    ensures |deck| == 98
    ensures forall c :: c in deck <==> 2 <= c <= 99
  {
    assert |multiset(deck)| == 98;
    forall c ensures c in deck <==> 2 <= c <= 99 {
      NumberedCount(2, 100, c);
      assert c in deck <==> c in multiset(deck);
    }
  }

  /** Every card except the ones numbered c, in their old order. */
  function Without(s: seq<Card>, c: Card): (r: seq<Card>)
    ensures multiset(r) == multiset(s)[c := 0]
  {
    if s == [] then []
    else
      assert s == s[..|s| - 1] + [s[|s| - 1]];
      var rest := Without(s[..|s| - 1], c);
      if s[|s| - 1] == c then rest else rest + [s[|s| - 1]]
  }

  /** Removing all copies of a card that occurs once removes exactly one card. */
  lemma WithoutRemovesOne(s: seq<Card>, c: Card)
    requires multiset(s)[c] == 1
    ensures multiset(Without(s, c)) == multiset(s) - multiset{c}
    ensures |Without(s, c)| == |s| - 1
    ensures c !in Without(s, c)
  {
    var r := Without(s, c);
    assert multiset(r) == multiset(s) - multiset{c};
    assert |multiset(r)| == |multiset(s)| - 1;
    assert c in r ==> c in multiset(r);
  }

  /** Removing works piece by piece, so the rest keeps its order. */
  lemma {:induction false} WithoutSplit(a: seq<Card>, b: seq<Card>, c: Card)
    ensures Without(a + b, c) == Without(a, c) + Without(b, c)
    ensures Without([c], c) == [] && forall x: Card :: x != c ==> Without([x], c) == [x]
    decreases |b|
  {
    assert forall x: Card :: [x][..0] == [] && Without([], c) == [];
    if b == [] {
      assert a + b == a;
    } else {
      var n := |b| - 1;
      assert (a + b)[..|a| + n] == a + b[..n];
      WithoutSplit(a, b[..n], c);
    }
  }

  function Reversed(s: seq<Card>): (r: seq<Card>)
    ensures |r| == |s|
    ensures forall i :: 0 <= i < |s| ==> r[i] == s[|s| - 1 - i]
  {
    seq(|s|, i requires 0 <= i < |s| => s[|s| - 1 - i])
  }

  lemma ReversedSnoc(s: seq<Card>, c: Card)
    ensures Reversed(s + [c]) == [c] + Reversed(s)
  {
  }

  lemma {:induction false} ReversedSameCards(s: seq<Card>)
    ensures multiset(Reversed(s)) == multiset(s)
  {
    if s == [] {
      assert Reversed(s) == s;
    } else {
      ReversedSameCards(s[1..]);
      assert Reversed(s) == Reversed(s[1..]) + [s[0]];
      assert s == [s[0]] + s[1..];
    }
  }

  /** How often a card occurs in a list of hands. */
  ghost function HandsCopies(hands: seq<seq<Card>>, c: Card): nat {
    if hands == [] then 0
    else HandsCopies(hands[..|hands| - 1], c) + multiset(hands[|hands| - 1])[c]
  }

  function HandsTotal(hands: seq<seq<Card>>): nat {
    if hands == [] then 0
    else HandsTotal(hands[..|hands| - 1]) + |hands[|hands| - 1]|
  }

  lemma {:induction false} HandsCopiesUpdate(hands: seq<seq<Card>>, i: nat, hand: seq<Card>, c: Card)
    requires i < |hands|
    ensures multiset(hands[i])[c] <= HandsCopies(hands, c)
    ensures HandsCopies(hands[i := hand], c) == HandsCopies(hands, c) - multiset(hands[i])[c] + multiset(hand)[c]
    decreases |hands|
  {
    var n := |hands| - 1;
    if i == n {
      assert hands[i := hand][..n] == hands[..n];
    } else {
      HandsCopiesUpdate(hands[..n], i, hand, c);
      assert hands[i := hand][..n] == hands[..n][i := hand];
    }
  }

  lemma HandsCopiesSnoc(hands: seq<seq<Card>>, hand: seq<Card>, c: Card)
    ensures HandsCopies(hands + [hand], c) == HandsCopies(hands, c) + multiset(hand)[c]
  {
    assert (hands + [hand])[..|hands|] == hands;
  }

  lemma {:induction false} HandsTotalUpdate(hands: seq<seq<Card>>, i: nat, hand: seq<Card>)
    requires i < |hands|
    ensures |hands[i]| <= HandsTotal(hands)
    ensures HandsTotal(hands[i := hand]) == HandsTotal(hands) - |hands[i]| + |hand|
    decreases |hands|
  {
    var n := |hands| - 1;
    if i == n {
      assert hands[i := hand][..n] == hands[..n];
    } else {
      HandsTotalUpdate(hands[..n], i, hand);
      assert hands[i := hand][..n] == hands[..n][i := hand];
    }
  }

  lemma {:induction false} HandsTotalZero(hands: seq<seq<Card>>)
    ensures HandsTotal(hands) == 0 <==> forall i :: 0 <= i < |hands| ==> hands[i] == []
    decreases |hands|
  {
    if hands == [] {
    } else {
      var n := |hands| - 1;
      HandsTotalZero(hands[..n]);
      assert forall i :: 0 <= i < n ==> hands[..n][i] == hands[i];
    }
  }

  ghost predicate LegalIncreasing(pile: seq<Card>) {
    && pile != []
    && pile[0] == INCREASING_BASE
    && forall i :: 0 < i < |pile| ==> FitsIncreasing(pile[i], pile[i - 1])
  }

  ghost predicate LegalDecreasing(pile: seq<Card>) {
    && pile != []
    && pile[0] == DECREASING_BASE
    && forall i :: 0 < i < |pile| ==> FitsDecreasing(pile[i], pile[i - 1])
  }
}
