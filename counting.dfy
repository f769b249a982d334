/** The Hi-Lo card counter: the per-rank delta, the running count kept by
    the table, and the three-way advice derived from that count. */
module Counting {
  import opened Cards

  /** Hi-Lo delta of one rank: low cards (2 to 6) add one, high cards
      (10, the face cards and the ace) take one away, 7 to 9 are neutral.
      Stated against the point table: a low card is one worth 2 to 6 points,
      a high card one worth 10 or an ace. */
  function HiLo(r: Rank): (d: int)
    ensures -1 <= d <= 1
    ensures d == 1 <==> 2 <= PointValue(r) <= 6
    ensures d == -1 <==> PointValue(r) == 10 || PointValue(r) == 1
    ensures d == 0 <==> 7 <= PointValue(r) <= 9
  {
    if r in {Two, Three, Four, Five, Six} then 1
    else if r in {Ten, Jack, Queen, King, Ace} then -1
    else 0
  }

  /** Hi-Lo delta of one card. */
  function CardHiLo(c: Card): int
  {
    HiLo(c.rank)
  }

  /** The running count after observing the cards of `s`, from zero. */
  function HiLoSum(s: seq<Card>): int
  {
    Tally(s, CardHiLo)
  }

  /** Each observed card moves the count by at most one. */
  lemma {:induction false} HiLoSumBounded(s: seq<Card>)
    ensures -|s| <= HiLoSum(s) <= |s|
  {
    if s != [] {
      HiLoSumBounded(s[1..]);
    }
  }

  /** The advice bands of the counter. */
  datatype Band = Positive | Neutral | Negative

  /** The advice for a running count: positive above 2, negative below -2,
      neutral in between; exactly one band applies to every count. */
  function Advise(count: int): (b: Band)
    ensures b == Positive <==> count > 2
    ensures b == Negative <==> count < -2
    ensures b == Neutral <==> -2 <= count <= 2
  {
    if count > 2 then Positive
    else if count < -2 then Negative
    else Neutral
  }

  /** Bands ordered from least to most favourable for the player. */
  function BandLevel(b: Band): int
  {
    match b
    case Negative => -1
    case Neutral => 0
    case Positive => 1
  }

  /** A higher count never gives less favourable advice. */
  lemma AdviseMonotone(c1: int, c2: int)
    requires c1 <= c2
    ensures BandLevel(Advise(c1)) <= BandLevel(Advise(c2))
  {
  }

  /** The bands are symmetric around zero. */
  lemma AdviseSymmetric(c: int)
    ensures BandLevel(Advise(-c)) == -BandLevel(Advise(c))
  {
  }

  /** Observing 2, 7, K, 5, A in turn brings the count back to zero. */
  lemma CountExample()
    ensures HiLoSum([Card(Hearts, Two), Card(Spades, Seven), Card(Clubs, King),
                     Card(Diamonds, Five), Card(Hearts, Ace)]) == 0
  {
  }

  /** The running count. The table owns one counter and every card added
      to any hand, the dealer's hidden card included, is observed by it. */
  class Counter {
    var count: int

    constructor ()
      ensures count == 0
    {
      count := 0;
    }

    /** Update the count with the Hi-Lo delta of one rank. The body keeps
        the program's own increment and decrement branches; the contract
        ties them to `HiLo`. */
    method Observe(r: Rank)
      modifies this
      ensures count == old(count) + HiLo(r)
    {
      if r in {Two, Three, Four, Five, Six} {
        count := count + 1;
      } else if r in {Ten, Jack, Queen, King, Ace} {
        count := count - 1;
      }
    }

    /** Put the count back to zero (done once per dealt round). */
    method Reset()
      modifies this
      ensures count == 0
    {
      count := 0;
    }
  }
}
