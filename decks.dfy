/** The single 52-card deck: construction by suit then rank, shuffling
    (any permutation) and dealing from the end of the list. */
module Decks {
  import opened Cards
  import opened Counting
  import opened Hands

  /** The deck as the constructor builds it: for each suit in turn, the
      thirteen ranks from the ace to the king. */
  function FreshDeck(): (d: seq<Card>)
    ensures |d| == 52
  {
    seq(52, k requires 0 <= k < 52 => Card(Suits[k / 13], Ranks[k % 13]))
  }

  /** Card `j` of suit `i` sits at index 13 * i + j of a fresh deck. */
  lemma FreshDeckAt(i: nat, j: nat)
    requires i < 4 && j < 13
    ensures 13 * i + j < 52 && FreshDeck()[13 * i + j] == Card(Suits[i], Ranks[j])
  {
    assert (13 * i + j) / 13 == i && (13 * i + j) % 13 == j;
  }

  /** The prefix of a fresh deck grows by the card of suit `i` and rank `j`. */
  lemma FreshDeckPrefixStep(i: nat, j: nat)
    requires i < 4 && j < 13
    ensures 13 * i + j < 52
    ensures FreshDeck()[..13 * i + j + 1] == FreshDeck()[..13 * i + j] + [Card(Suits[i], Ranks[j])]
  {
    FreshDeckAt(i, j);
    TakeSnoc(FreshDeck(), 13 * i + j);
  }

  /** A prefix one longer is the prefix and the next element. */
  lemma TakeSnoc(s: seq<Card>, n: nat)
    requires n < |s|
    ensures s[..n + 1] == s[..n] + [s[n]]
  {
  }

  /** Every one of the 4 x 13 cards is in a fresh deck ... */
  lemma FreshDeckComplete(c: Card)
    ensures c in FreshDeck()
  {
    FreshDeckAt(SuitIndex(c.suit), RankIndex(c.rank));
  }

  /** ... and no card is in it twice. */
  lemma FreshDeckDistinct(k: nat, l: nat)
    requires k < l < 52
    ensures FreshDeck()[k] != FreshDeck()[l]
  {
    var a, b := k / 13, k % 13;
    var a', b' := l / 13, l % 13;
    assert k == 13 * a + b && l == 13 * a' + b';
    SuitIndexOf(a);
    SuitIndexOf(a');
    RankIndexOf(b);
    RankIndexOf(b');
  }

  /** So a fresh deck holds each card exactly once. */
  lemma FreshDeckOnce(c: Card)
    ensures multiset(FreshDeck())[c] == 1
  {
    var i, j := SuitIndex(c.suit), RankIndex(c.rank);
    FreshDeckAt(i, j);
    var d, k := FreshDeck(), 13 * i + j;
    forall l | 0 <= l < |d| && l != k
      ensures d[l] != d[k]
    {
      if l < k {
        FreshDeckDistinct(l, k);
      } else {
        FreshDeckDistinct(k, l);
      }
    }
    OnlyOccurrence(d, k);
  }

  /** An element found at no other index occurs once in the sequence. */
  lemma OnlyOccurrence(s: seq<Card>, k: nat)
    requires k < |s|
    requires forall l :: 0 <= l < |s| && l != k ==> s[l] != s[k]
    ensures multiset(s)[s[k]] == 1
  {
    var front, back := s[..k], s[k + 1..];
    assert s == front + [s[k]] + back;
    assert s[k] !in front by {
      forall l | 0 <= l < |front|
        ensures front[l] != s[k]
      {
        assert front[l] == s[l];
      }
    }
    assert s[k] !in back by {
      forall l | 0 <= l < |back|
        ensures back[l] != s[k]
      {
        assert back[l] == s[k + 1 + l];
      }
    }
  }

  /** The thirteen cards of suit `u`, ace to king. */
  function SuitRun(u: Suit): seq<Card>
  {
    seq(13, j requires 0 <= j < 13 => Card(u, Ranks[j]))
  }

  /** Card `j` of a suit run has rank `Ranks[j]`. */
  lemma SuitRunAt(u: Suit, j: nat)
    requires j < 13
    ensures |SuitRun(u)| == 13 && SuitRun(u)[j] == Card(u, Ranks[j])
  {
  }

  /** The thirteen cards of one suit in a fresh deck. */
  lemma FreshDeckSuitRun(i: nat)
    requires i < 4
    ensures FreshDeck()[13 * i .. 13 * i + 13] == SuitRun(Suits[i])
  {
    forall j | 0 <= j < 13
      ensures FreshDeck()[13 * i .. 13 * i + 13][j] == SuitRun(Suits[i])[j]
    {
      FreshDeckAt(i, j);
      SuitRunAt(Suits[i], j);
    }
    SuitRunAt(Suits[i], 0);
  }

  /** The tally of the thirteen cards of one suit, card by card. */
  lemma SuitTally(u: Suit, w: Card -> int)
    ensures Tally(SuitRun(u), w) ==
      w(Card(u, Ace)) + w(Card(u, Two)) + w(Card(u, Three)) + w(Card(u, Four)) +
        w(Card(u, Five)) + w(Card(u, Six)) + w(Card(u, Seven)) + w(Card(u, Eight)) +
        w(Card(u, Nine)) + w(Card(u, Ten)) + w(Card(u, Jack)) + w(Card(u, Queen)) +
        w(Card(u, King))
  {
    var q: seq<Card> := [];
    TallySnoc(q, Card(u, Ace), w);
    q := q + [Card(u, Ace)];
    TallySnoc(q, Card(u, Two), w);
    q := q + [Card(u, Two)];
    TallySnoc(q, Card(u, Three), w);
    q := q + [Card(u, Three)];
    TallySnoc(q, Card(u, Four), w);
    q := q + [Card(u, Four)];
    TallySnoc(q, Card(u, Five), w);
    q := q + [Card(u, Five)];
    TallySnoc(q, Card(u, Six), w);
    q := q + [Card(u, Six)];
    TallySnoc(q, Card(u, Seven), w);
    q := q + [Card(u, Seven)];
    TallySnoc(q, Card(u, Eight), w);
    q := q + [Card(u, Eight)];
    TallySnoc(q, Card(u, Nine), w);
    q := q + [Card(u, Nine)];
    TallySnoc(q, Card(u, Ten), w);
    q := q + [Card(u, Ten)];
    TallySnoc(q, Card(u, Jack), w);
    q := q + [Card(u, Jack)];
    TallySnoc(q, Card(u, Queen), w);
    q := q + [Card(u, Queen)];
    TallySnoc(q, Card(u, King), w);
    q := q + [Card(u, King)];
    assert q == SuitRun(u);
  }

  /** The thirteen cards of a suit hold 85 base points and are Hi-Lo balanced. */
  lemma SuitTotals(u: Suit)
    ensures Points(SuitRun(u)) == 85
    ensures HiLoSum(SuitRun(u)) == 0
  {
    SuitTally(u, CardPoints);
    SuitTally(u, CardHiLo);
  }

  /** One suit of a fresh deck holds 85 base points and is Hi-Lo balanced. */
  lemma SuitRunTotals(i: nat)
    requires i < 4
    ensures Points(FreshDeck()[13 * i .. 13 * i + 13]) == 85
    ensures HiLoSum(FreshDeck()[13 * i .. 13 * i + 13]) == 0
  {
    FreshDeckSuitRun(i);
    SuitTotals(Suits[i]);
  }

  /** A fresh deck holds 340 base points and its Hi-Lo count is zero:
      the count is balanced over a whole deck. */
  lemma FreshDeckTotals()
    ensures Points(FreshDeck()) == 340
    ensures HiLoSum(FreshDeck()) == 0
  {
    var d := FreshDeck();
    SuitRunTotals(0);
    SuitRunTotals(1);
    SuitRunTotals(2);
    SuitRunTotals(3);
    var r0, r1, r2, r3 := d[0..13], d[13..26], d[26..39], d[39..52];
    assert d == r0 + r1 + r2 + r3;
    TallyAppend(r0 + r1 + r2, r3, CardPoints);
    TallyAppend(r0 + r1, r2, CardPoints);
    TallyAppend(r0, r1, CardPoints);
    TallyAppend(r0 + r1 + r2, r3, CardHiLo);
    TallyAppend(r0 + r1, r2, CardHiLo);
    TallyAppend(r0, r1, CardHiLo);
  }

  /** The first `k` cards that `k` successive draws return from `deck`:
      the last card, then the one before it, and so on. */
  function Popped(deck: seq<Card>, k: nat): (r: seq<Card>)
    requires k <= |deck|
    ensures |r| == k
    ensures forall i :: 0 <= i < k ==> r[i] == deck[|deck| - 1 - i]
  {
    seq(k, i requires 0 <= i < k => deck[|deck| - 1 - i])
  }

  /** Drawing once more pops the card just below those already popped,
      and the popped cards together with what remains are the deck. */
  lemma PoppedStep(deck: seq<Card>, k: nat)
    requires k < |deck|
    ensures Popped(deck, k + 1) == Popped(deck, k) + [deck[|deck| - 1 - k]]
    ensures multiset(deck[..|deck| - k]) + multiset(Popped(deck, k)) == multiset(deck)
  {
    PoppedConserves(deck, k);
  }

  lemma {:induction false} PoppedConserves(deck: seq<Card>, k: nat)
    requires k <= |deck|
    ensures multiset(deck[..|deck| - k]) + multiset(Popped(deck, k)) == multiset(deck)
  {
    if k == 0 {
      assert deck[..|deck|] == deck;
    } else {
      PoppedConserves(deck, k - 1);
      var n := |deck|;
      assert Popped(deck, k) == Popped(deck, k - 1) + [deck[n - k]];
      assert deck[..n - (k - 1)] == deck[..n - k] + [deck[n - k]];
    }
  }

  /** Two successive prefixes are one prefix. */
  lemma TakeTake(s: seq<Card>, n: nat, m: nat)
    requires m <= n <= |s|
    ensures s[..n][..m] == s[..m]
  {
  }

  /** The deck of the round. The list is dealt from its end. */
  class Deck {
    var cards: seq<Card>

    /** Build the 52 cards, suit by suit and rank by rank. */
    constructor ()
      ensures cards == FreshDeck()
    {
      cards := [];
      new;
      var i := 0;
      while i < |Suits|
        invariant 0 <= i <= 4
        invariant cards == FreshDeck()[..13 * i]
      {
        var j := 0;
        while j < |Ranks|
          invariant 0 <= j <= 13
          invariant cards == FreshDeck()[..13 * i + j]
        {
          FreshDeckPrefixStep(i, j);
          cards := cards + [Card(Suits[i], Ranks[j])];
          j := j + 1;
        }
        i := i + 1;
      }
      assert FreshDeck()[..52] == FreshDeck();
    }

    /** Shuffle: the deck becomes `order`, any rearrangement of its cards
        (the random choice of the arrangement is the caller's). */
    method Shuffle(order: seq<Card>)
      requires multiset(order) == multiset(cards)
      modifies this
      ensures cards == order
    {
      cards := order;
    }

    /** Deal one card: remove and return the last card of the list. */
    method Draw() returns (c: Card)
      requires cards != []
      modifies this
      ensures c == old(cards)[|old(cards)| - 1]
      ensures cards == old(cards)[..|old(cards)| - 1]
      ensures multiset(cards) + multiset{c} == multiset(old(cards))
    {
      c := cards[|cards| - 1];
      cards := cards[..|cards| - 1];
      assert old(cards) == cards + [c];
    }
  }
}
