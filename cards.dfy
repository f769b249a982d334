/** Cards of a single 52-card deck, their point values, and sums of a
    per-card weight over a sequence of cards (used for hand totals, the
    Hi-Lo count and the number of aces). */
module Cards {

  /** The four suits: hearts (C), diamonds (D), spades (P), clubs (T). */
  datatype Suit = Hearts | Diamonds | Spades | Clubs

  /** The thirteen ranks, in the order the deck is built. */
  datatype Rank = Ace | Two | Three | Four | Five | Six | Seven | Eight | Nine | Ten | Jack | Queen | King

  /** A card is an immutable (suit, rank) pair. */
  datatype Card = Card(suit: Suit, rank: Rank)

  /** The suits in the order the deck constructor walks them. */
  const Suits: seq<Suit> := [Hearts, Diamonds, Spades, Clubs]

  /** The ranks in the order the deck constructor walks them. */
  const Ranks: seq<Rank> := [Ace, Two, Three, Four, Five, Six, Seven, Eight, Nine, Ten, Jack, Queen, King]

  /** The table of base point values: an ace is 1, a face card is 10. */
  function PointValue(r: Rank): (v: int)
    ensures 1 <= v <= 10
    ensures v == 1 <==> r == Ace
    ensures v == 10 <==> r in {Ten, Jack, Queen, King}
  {
    match r
    case Ace => 1
    case Two => 2
    case Three => 3
    case Four => 4
    case Five => 5
    case Six => 6
    case Seven => 7
    case Eight => 8
    case Nine => 9
    case Ten => 10
    case Jack => 10
    case Queen => 10
    case King => 10
  }

  /** Position of a rank in `Ranks`. */
  function RankIndex(r: Rank): (i: nat)
    ensures i < |Ranks| && Ranks[i] == r
  {
    match r
    case Ace => 0
    case Two => 1
    case Three => 2
    case Four => 3
    case Five => 4
    case Six => 5
    case Seven => 6
    case Eight => 7
    case Nine => 8
    case Ten => 9
    case Jack => 10
    case Queen => 11
    case King => 12
  }

  /** Position of a suit in `Suits`. */
  function SuitIndex(s: Suit): (i: nat)
    ensures i < |Suits| && Suits[i] == s
  {
    match s
    case Hearts => 0
    case Diamonds => 1
    case Spades => 2
    case Clubs => 3
  }

  /** `RankIndex` undoes indexing into `Ranks` ... */
  lemma RankIndexOf(j: nat)
    requires j < |Ranks|
    ensures RankIndex(Ranks[j]) == j
  {
  }

  /** ... and `SuitIndex` indexing into `Suits`. */
  lemma SuitIndexOf(i: nat)
    requires i < |Suits|
    ensures SuitIndex(Suits[i]) == i
  {
  }

  /** Sum of the weight `w` over the cards of `s`. */
  function Tally(s: seq<Card>, w: Card -> int): int
  {
    if s == [] then 0 else w(s[0]) + Tally(s[1..], w)
  }

  /** Tallies add up over concatenation. */
  lemma {:induction false} TallyAppend(a: seq<Card>, b: seq<Card>, w: Card -> int)
    ensures Tally(a + b, w) == Tally(a, w) + Tally(b, w)
  {
    if a == [] {
      assert a + b == b;
    } else {
      assert (a + b)[1..] == a[1..] + b;
      TallyAppend(a[1..], b, w);
    }
  }

  /** Appending one card adds exactly that card's weight. */
  lemma TallySnoc(s: seq<Card>, c: Card, w: Card -> int)
    ensures Tally(s + [c], w) == Tally(s, w) + w(c)
  {
    TallyAppend(s, [c], w);
    assert [c][1..] == [];
  }

  /** Taking one card out of a sequence takes out exactly its weight. */
  lemma TallyRemoveAt(b: seq<Card>, i: nat, w: Card -> int)
    requires i < |b|
    ensures Tally(b, w) == w(b[i]) + Tally(b[..i] + b[i + 1..], w)
  {
    assert b == (b[..i] + [b[i]]) + b[i + 1..];
    TallyAppend(b[..i] + [b[i]], b[i + 1..], w);
    TallySnoc(b[..i], b[i], w);
    TallyAppend(b[..i], b[i + 1..], w);
  }

  /** A tally depends only on which cards there are, not on their order. */
  lemma {:induction false} TallyPermutation(a: seq<Card>, b: seq<Card>, w: Card -> int)
    requires multiset(a) == multiset(b)
    ensures Tally(a, w) == Tally(b, w)
    decreases |a|
  {
    if a == [] {
      assert |b| == |multiset(b)| == 0;
    } else {
      assert a[0] in multiset(b);
      var i :| 0 <= i < |b| && b[i] == a[0];
      RemoveMatching(a, b, i);
      TallyPermutation(a[1..], b[..i] + b[i + 1..], w);
      TallyRemoveAt(b, i, w);
    }
  }

  /** Taking the first card of `a` and a matching card of `b` out of two
      sequences with the same cards leaves two sequences with the same cards. */
  lemma RemoveMatching(a: seq<Card>, b: seq<Card>, i: nat)
    requires multiset(a) == multiset(b)
    requires a != [] && i < |b| && b[i] == a[0]
    ensures multiset(a[1..]) == multiset(b[..i] + b[i + 1..])
  {
    var x, rest := a[0], b[..i] + b[i + 1..];
    assert multiset(b) == multiset(rest) + multiset{x} by {
      assert b == b[..i] + [x] + b[i + 1..];
    }
    assert multiset(a) == multiset(a[1..]) + multiset{x} by {
      assert a == [x] + a[1..];
    }
    assert multiset(a[1..]) == multiset(a) - multiset{x};
    assert multiset(rest) == multiset(b) - multiset{x};
  }
}
