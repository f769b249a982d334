/** Hands: the cards held, their base total (every ace counted as 1), the
    ace flag, and the soft-total rule that counts one ace as 11 when that
    does not take the hand past 21. */
module Hands {
  import opened Cards
  import opened Counting

  /** Base points of one card. */
  function CardPoints(c: Card): int
  {
    PointValue(c.rank)
  }

  /** One for an ace, zero otherwise. */
  function AceWeight(c: Card): int
  {
    if c.rank == Ace then 1 else 0
  }

  /** The base total of a sequence of cards: aces count 1, faces count 10. */
  function Points(s: seq<Card>): int
  {
    Tally(s, CardPoints)
  }

  /** How many aces the sequence holds. */
  function AceCount(s: seq<Card>): int
  {
    Tally(s, AceWeight)
  }

  /** Whether the sequence holds an ace. */
  predicate HasAce(s: seq<Card>)
  {
    AceCount(s) > 0
  }

  /** The valuation rule: add 10 (one ace counted as 11) when an ace is
      held and the base total is at most 11; otherwise the base total. */
  function SoftValue(total: int, hasAce: bool): int
  {
    if hasAce && total <= 11 then total + 10 else total
  }

  /** The value of a hand holding exactly the cards of `s`. */
  function HandValue(s: seq<Card>): int
  {
    SoftValue(Points(s), HasAce(s))
  }

  /** Every card is worth between 1 and 10 base points. */
  lemma {:induction false} PointsBounds(s: seq<Card>)
    ensures |s| <= Points(s) <= 10 * |s|
  {
    if s != [] {
      PointsBounds(s[1..]);
    }
  }

  /** The ace flag is true exactly when some card of the hand is an ace. */
  lemma {:induction false} HasAceIffSomeAce(s: seq<Card>)
    ensures HasAce(s) <==> exists i :: 0 <= i < |s| && s[i].rank == Ace
  {
    if s != [] {
      HasAceIffSomeAce(s[1..]);
      if s[0].rank != Ace && HasAce(s) {
        AceCountNonNegative(s[1..]);
        var i :| 0 <= i < |s[1..]| && s[1..][i].rank == Ace;
        assert s[i + 1].rank == Ace;
      }
      if s[0].rank != Ace && (exists i :: 0 <= i < |s| && s[i].rank == Ace) {
        var i :| 0 <= i < |s| && s[i].rank == Ace;
        assert s[1..][i - 1].rank == Ace;
      }
      if s[0].rank == Ace {
        AceCountNonNegative(s[1..]);
      }
    }
  }

  /** The number of aces is never negative. */
  lemma {:induction false} AceCountNonNegative(s: seq<Card>)
    ensures AceCount(s) >= 0
  {
    if s != [] {
      AceCountNonNegative(s[1..]);
    }
  }

  /** There are never more aces than base points. */
  lemma {:induction false} AceCountAtMostPoints(s: seq<Card>)
    ensures 0 <= AceCount(s) <= Points(s)
  {
    if s != [] {
      AceCountAtMostPoints(s[1..]);
    }
  }

  /** The total obtained by counting `j` of the aces as 11 instead of 1. */
  function WithAcesHigh(s: seq<Card>, j: int): int
  {
    Points(s) + 10 * j
  }

  /** The value is the base total or the base total plus 10, and it is
      raised only when that does not go past 21. */
  lemma ValueRange(s: seq<Card>)
    ensures HandValue(s) == Points(s) || HandValue(s) == Points(s) + 10
    ensures HandValue(s) > Points(s) ==> HasAce(s) && HandValue(s) <= 21
  {
  }

  /** The one-ace rule is the best possible valuation: whatever number `j`
      of aces is counted as 11, the value of the rule is itself such a
      choice, it is at least every choice that stays at or below 21, and
      when it is over 21 every choice is. So counting only one ace as 11
      loses nothing. */
  lemma ValueIsBestAceChoice(s: seq<Card>)
    ensures exists j :: 0 <= j <= AceCount(s) && HandValue(s) == WithAcesHigh(s, j)
    ensures forall j :: 0 <= j <= AceCount(s) && WithAcesHigh(s, j) <= 21 ==> WithAcesHigh(s, j) <= HandValue(s)
    ensures HandValue(s) > 21 ==> forall j :: 0 <= j <= AceCount(s) ==> WithAcesHigh(s, j) > 21
  {
    AceCountAtMostPoints(s);
    if HasAce(s) && Points(s) <= 11 {
      assert HandValue(s) == WithAcesHigh(s, 1);
    } else {
      assert HandValue(s) == WithAcesHigh(s, 0);
    }
  }

  /** Soft hands: ace and six make 17, two aces and a nine make 21;
      10, 9 and 5 make 24 and the hand is bust. */
  lemma ValueExamples()
    ensures HandValue([Card(Hearts, Ace), Card(Spades, Six)]) == 17
    ensures HandValue([Card(Hearts, Ace), Card(Clubs, Ace), Card(Diamonds, Nine)]) == 21
    ensures HandValue([Card(Hearts, Ten), Card(Spades, Nine), Card(Clubs, Five)]) == 24
  {
  }

  /** A hand of the player or of the dealer. `total` and `hasAce` are kept
      in step with `cards` by every card added. */
  class Hand {
    var cards: seq<Card>
    var total: int
    var hasAce: bool

    ghost predicate Valid()
      reads this
    {
      total == Points(cards) && hasAce == HasAce(cards)
    }

    constructor ()
      ensures Valid() && cards == []
    {
      cards := [];
      total := 0;
      hasAce := false;
    }

    /** Add a card: append it, raise the total by its points, note an ace,
        and let the counter observe its rank. */
    method AddCard(c: Card, counter: Counter)
      requires Valid()
      modifies this, counter
      ensures Valid()
      ensures cards == old(cards) + [c]
      ensures total == old(total) + PointValue(c.rank)
      ensures hasAce == (old(hasAce) || c.rank == Ace)
      ensures counter.count == old(counter.count) + HiLo(c.rank)
    {
      TallySnoc(cards, c, CardPoints);
      TallySnoc(cards, c, AceWeight);
      AceCountNonNegative(cards);
      cards := cards + [c];
      if c.rank == Ace {
        hasAce := true;
      }
      total := total + PointValue(c.rank);
      counter.Observe(c.rank);
    }

    /** The value of the hand, computed from the cached total and flag. */
    function Value(): (v: int)
      reads this
      requires Valid()
      ensures v == HandValue(cards)
      ensures total <= v <= total + 10
    {
      SoftValue(total, hasAce)
    }
  }
}
