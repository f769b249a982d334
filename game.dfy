/** One table of single-deck blackjack: dealing a round, the player's hit,
    standing with the dealer's fixed play, and settlement of the bet. */
module Round {
  import opened Cards
  import opened Counting
  import opened Hands
  import opened Decks

  /** Chips the player starts with. */
  const StartingBalance: int := 100

  /** The bet before any has been placed. */
  const DefaultBet: int := 1

  /** The dealer draws while below this value. */
  const DealerStand: int := 17

  /** A hand above this value is bust. */
  const Limit: int := 21

  /** How a stand ends for the player. */
  datatype Outcome = Win | Push | Loss

  /** Settlement after the dealer has played, from the two hand values: the
      player wins when the dealer is bust or below, ties on equal values,
      and loses otherwise; exactly one of the three applies. */
  function Settle(player: int, dealer: int): (o: Outcome)
    ensures o == Win <==> dealer > Limit || dealer < player
    ensures o == Push <==> dealer <= Limit && dealer == player
    ensures o == Loss <==> dealer <= Limit && player < dealer
  {
    if dealer > Limit then Win
    else if dealer < player then Win
    else if dealer == player then Push
    else Loss
  }

  /** The change of the balance an outcome brings. */
  function Payout(o: Outcome, bet: int): int
  {
    match o
    case Win => bet
    case Push => 0
    case Loss => -bet
  }

  /** Outcomes ordered from worst to best for the player. */
  function OutcomeLevel(o: Outcome): int
  {
    match o
    case Loss => -1
    case Push => 0
    case Win => 1
  }

  /** A better player value never gives a worse outcome, and neither does
      a worse dealer value that the dealer has not busted with. */
  lemma SettleMonotone(p1: int, p2: int, d1: int, d2: int)
    requires p1 <= p2
    requires d1 <= Limit ==> d2 <= d1
    requires d1 > Limit ==> d2 > Limit
    ensures OutcomeLevel(Settle(p1, d1)) <= OutcomeLevel(Settle(p2, d2))
  {
  }

  /** A round moves the balance by the bet, by nothing, or by minus the
      bet; for a positive bet the move tells the outcome. */
  lemma PayoutIsOneBet(o: Outcome, bet: int)
    requires bet > 0
    ensures Payout(o, bet) in {bet, 0, -bet}
    ensures Payout(o, bet) == bet <==> o == Win
    ensures Payout(o, bet) == 0 <==> o == Push
    ensures Payout(o, bet) == -bet <==> o == Loss
  {
  }

  /** Settle the bet once the dealer has played: a dealer over 21 or below
      the player pays the bet to the player, equal values return it, and
      otherwise the player loses it. The body keeps the program's own chain
      of balance updates; the contract ties it to `Settle` and `Payout`. */
  method SettleBet(playerValue: int, dealerValue: int, balance: int, bet: int) returns (newBalance: int)
    ensures newBalance == balance + Payout(Settle(playerValue, dealerValue), bet)
  {
    if dealerValue > Limit {
      newBalance := balance + bet;
    } else if dealerValue < playerValue {
      newBalance := balance + bet;
    } else if dealerValue == playerValue {
      newBalance := balance;
    } else {
      newBalance := balance - bet;
    }
  }

  /** The bet check: a whole number of chips from 1 up to the balance. */
  predicate BetAccepted(amount: int, balance: int)
  {
    1 <= amount <= balance
  }

  /** With no chips left no amount passes the bet check, so no further
      round can be dealt. */
  lemma NoBetWhenBroke(balance: int)
    requires balance < 1
    ensures forall amount :: !BetAccepted(amount, balance)
  {
  }

  /** With an accepted bet, no outcome takes the balance below zero. */
  lemma AcceptedBetKeepsBalance(amount: int, balance: int, o: Outcome)
    requires BetAccepted(amount, balance)
    ensures balance + Payout(o, amount) >= 0
  {
  }

  /** The dealer's play took hand `before` to hand `after`: it appended
      cards, drew each of them while the value was below 17, and stopped at
      17 or more. */
  predicate DealerPolicy(before: seq<Card>, after: seq<Card>)
  {
    && |before| <= |after|
    && after[..|before|] == before
    && DrewBelow(before, after)
    && HandValue(after) >= DealerStand
  }

  /** Each card the dealer added to `before` to reach `after` was drawn
      while the hand was below 17. */
  predicate DrewBelow(before: seq<Card>, after: seq<Card>)
  {
    forall j :: |before| <= j < |after| ==> HandValue(after[..j]) < DealerStand
  }

  /** One more draw from a hand below 17 keeps `DrewBelow`. */
  lemma DrewBelowStep(before: seq<Card>, cur: seq<Card>, c: Card)
    requires |before| <= |cur| && DrewBelow(before, cur)
    requires HandValue(cur) < DealerStand
    ensures DrewBelow(before, cur + [c])
  {
    forall j | |before| <= j < |cur| + 1
      ensures HandValue((cur + [c])[..j]) < DealerStand
    {
      assert (cur + [c])[..j] == cur[..j];
    }
  }

  /** A dealer already at 17 or more draws nothing. */
  lemma DealerPolicyIdle(before: seq<Card>, after: seq<Card>)
    requires DealerPolicy(before, after)
    requires HandValue(before) >= DealerStand
    ensures after == before
  {
    var j := |before|;
    assert after[..j] == before;
    assert HandValue(after[..j]) >= DealerStand;
    assert !(j < |after|);
  }

  /** Card conservation: every card is in exactly one place, the deck or
      one of the two hands, once. */
  ghost predicate Conserved(deck: seq<Card>, p: seq<Card>, d: seq<Card>)
  {
    forall c :: multiset(deck)[c] + multiset(d)[c] + multiset(p)[c] == 1
  }

  /** Conservation says that the deck and the hands are, between them, a
      rearrangement of a fresh deck. */
  lemma ConservedIsFreshDeck(deck: seq<Card>, p: seq<Card>, d: seq<Card>)
    ensures Conserved(deck, p, d) <==> multiset(deck) + multiset(d) + multiset(p) == multiset(FreshDeck())
  {
    var m := multiset(deck) + multiset(d) + multiset(p);
    forall c
      ensures multiset(FreshDeck())[c] == 1 && m[c] == multiset(deck)[c] + multiset(d)[c] + multiset(p)[c]
    {
      FreshDeckOnce(c);
    }
    if !Conserved(deck, p, d) {
      var c :| multiset(deck)[c] + multiset(d)[c] + multiset(p)[c] != 1;
      assert m[c] != multiset(FreshDeck())[c];
    }
  }

  /** Moving the last card of the deck into either hand conserves the cards. */
  lemma DrawConserves(deck: seq<Card>, p: seq<Card>, d: seq<Card>)
    requires deck != [] && Conserved(deck, p, d)
    ensures Conserved(deck[..|deck| - 1], p + [deck[|deck| - 1]], d)
    ensures Conserved(deck[..|deck| - 1], p, d + [deck[|deck| - 1]])
  {
    var n := |deck|;
    var rest, x := deck[..n - 1], deck[n - 1];
    assert deck == rest + [x];
    forall c
      ensures multiset(deck)[c] == multiset(rest)[c] + multiset([x])[c]
      ensures multiset(p + [x])[c] == multiset(p)[c] + multiset([x])[c]
      ensures multiset(d + [x])[c] == multiset(d)[c] + multiset([x])[c]
    {
    }
  }

  /** The last four cards of a sequence, taken as two pairs from the end,
      together with what precedes them, are the whole sequence. */
  lemma SplitLastFour(s: seq<Card>)
    requires |s| >= 4
    ensures var n := |s|;
      multiset(s) == multiset(s[..n - 4]) + multiset([s[n - 3], s[n - 4]]) + multiset([s[n - 1], s[n - 2]])
  {
    var n := |s|;
    var f, a, b, c, d := s[..n - 4], s[n - 4], s[n - 3], s[n - 2], s[n - 1];
    assert s == f + [a, b] + [c, d];
    PairSwap(a, b);
    PairSwap(c, d);
  }

  /** Two cards in either order are the same cards. */
  lemma PairSwap(x: Card, y: Card)
    ensures multiset([x, y]) == multiset([y, x])
  {
  }

  /** Dealing the last four cards of a shuffled deck, two to each hand,
      conserves the cards. */
  lemma DealConserves(order: seq<Card>)
    requires multiset(order) == multiset(FreshDeck())
    ensures |order| == 52
    ensures Conserved(order[..48], [order[51], order[50]], [order[49], order[48]])
  {
    assert |order| == |multiset(order)| == |multiset(FreshDeck())| == 52;
    SplitLastFour(order);
    ConservedIsFreshDeck(order[..48], [order[51], order[50]], [order[49], order[48]]);
  }

  /** Cards are conserved: whatever the split between the deck and the two
      hands, together they hold the 340 points of a deck and its Hi-Lo sum
      of zero. */
  lemma ConservedTotals(deck: seq<Card>, p: seq<Card>, d: seq<Card>)
    requires Conserved(deck, p, d)
    ensures Points(deck) + Points(p) + Points(d) == 340
    ensures HiLoSum(deck) + HiLoSum(p) + HiLoSum(d) == 0
  {
    ConservedIsFreshDeck(deck, p, d);
    assert multiset(deck + p + d) == multiset(FreshDeck());
    FreshDeckTotals();
    TallyPermutation(deck + p + d, FreshDeck(), CardPoints);
    TallyPermutation(deck + p + d, FreshDeck(), CardHiLo);
    TallyAppend(deck + p, d, CardPoints);
    TallyAppend(deck, p, CardPoints);
    TallyAppend(deck + p, d, CardHiLo);
    TallyAppend(deck, p, CardHiLo);
  }

  /** The deck cannot run out while the hands hold fewer than 340 points. */
  lemma DeckNotExhausted(deck: seq<Card>, p: seq<Card>, d: seq<Card>)
    requires Conserved(deck, p, d)
    requires Points(p) + Points(d) < 340
    ensures deck != []
  {
    ConservedTotals(deck, p, d);
  }

  /** Deal the last card of `deck` into `hand`; the counter observes it. */
  method DealCard(deck: Deck, hand: Hand, counter: Counter) returns (c: Card)
    requires hand.Valid() && deck.cards != []
    modifies deck, hand, counter
    ensures hand.Valid()
    ensures c == old(deck.cards)[|old(deck.cards)| - 1]
    ensures deck.cards == old(deck.cards)[..|old(deck.cards)| - 1]
    ensures hand.cards == old(hand.cards) + [c]
    ensures counter.count == old(counter.count) + HiLo(c.rank)
    ensures hand.total == old(hand.total) + PointValue(c.rank)
    ensures HiLoSum(hand.cards) == HiLoSum(old(hand.cards)) + HiLo(c.rank)
  {
    c := deck.Draw();
    TallySnoc(hand.cards, c, CardHiLo);
    hand.AddCard(c, counter);
  }

  /** Deal the last two cards of `deck` into `hand`, the last one first. */
  method DealTwo(deck: Deck, hand: Hand, counter: Counter)
    requires hand.Valid() && |deck.cards| >= 2
    modifies deck, hand, counter
    ensures hand.Valid()
    ensures var n := |old(deck.cards)|;
      && deck.cards == old(deck.cards)[..n - 2]
      && hand.cards == old(hand.cards) + [old(deck.cards)[n - 1], old(deck.cards)[n - 2]]
    ensures counter.count - HiLoSum(hand.cards) == old(counter.count) - HiLoSum(old(hand.cards))
  {
    ghost var n := |deck.cards|;
    ghost var d0 := deck.cards;
    var c := DealCard(deck, hand, counter);
    c := DealCard(deck, hand, counter);
    TakeTake(d0, n - 1, n - 2);
  }

  /** Open a round on a full deck: give two fresh hands two cards each,
      the first hand first, each card taken from the end of the deck and
      observed by the counter. Two cards never make more than 21. */
  method DealHands(deck: Deck, counter: Counter) returns (player: Hand, dealer: Hand)
    requires |deck.cards| == 52
    modifies deck, counter
    ensures fresh(player) && fresh(dealer) && player != dealer
    ensures player.Valid() && dealer.Valid()
    ensures var o := old(deck.cards);
      && player.cards == [o[51], o[50]]
      && dealer.cards == [o[49], o[48]]
      && deck.cards == o[..48]
    ensures counter.count == old(counter.count) + HiLoSum(player.cards) + HiLoSum(dealer.cards)
    ensures HandValue(player.cards) <= Limit && HandValue(dealer.cards) <= Limit
  {
    ghost var o := deck.cards;
    player := new Hand();
    dealer := new Hand();
    DealTwo(deck, player, counter);
    ghost var rest := deck.cards;
    assert rest == o[..50] && rest[49] == o[49] && rest[48] == o[48];
    DealTwo(deck, dealer, counter);
    TakeTake(o, 50, 48);
    assert player.cards == [o[51], o[50]];
    assert dealer.cards == [o[49], o[48]];
    PointsBounds(player.cards);
    PointsBounds(dealer.cards);
  }

  /** Open a round on the shuffle `order`: reset the count, build a fresh
      deck and arrange it as `order`, then deal two cards to each hand. The
      player's two cards never make more than 21. */
  method OpenRound(order: seq<Card>, counter: Counter) returns (deck: Deck, player: Hand, dealer: Hand)
    requires multiset(order) == multiset(FreshDeck())
    modifies counter
    ensures fresh(deck) && fresh(player) && fresh(dealer) && player != dealer
    ensures player.Valid() && dealer.Valid()
    ensures |order| == 52
    ensures player.cards == [order[51], order[50]]
    ensures dealer.cards == [order[49], order[48]]
    ensures deck.cards == order[..48]
    ensures counter.count == HiLoSum(player.cards) + HiLoSum(dealer.cards)
    ensures HandValue(player.cards) <= Limit && HandValue(dealer.cards) <= Limit
  {
    assert |order| == |multiset(order)| == |multiset(FreshDeck())| == 52;
    counter.Reset();
    deck := new Deck();
    deck.Shuffle(order);
    player, dealer := DealHands(deck, counter);
  }

  /** The player's draw: one card from the end of the deck into the
      player's hand, keeping the cards conserved against the dealer's
      hand `d` and the count in step with both hands. */
  method PlayerDraws(deck: Deck, player: Hand, counter: Counter, ghost d: seq<Card>)
    requires player.Valid() && HandValue(player.cards) <= Limit && Points(d) <= 20
    requires Conserved(deck.cards, player.cards, d)
    requires counter.count == HiLoSum(player.cards) + HiLoSum(d)
    modifies deck, player, counter
    ensures player.Valid()
    ensures Conserved(deck.cards, player.cards, d)
    ensures counter.count == HiLoSum(player.cards) + HiLoSum(d)
    ensures |old(deck.cards)| > 0
    ensures var n := |old(deck.cards)|; var c := old(deck.cards)[n - 1];
      && player.cards == old(player.cards) + [c]
      && deck.cards == old(deck.cards)[..n - 1]
      && counter.count == old(counter.count) + HiLo(c.rank)
  {
    DeckNotExhausted(deck.cards, player.cards, d);
    DrawConserves(deck.cards, player.cards, d);
    var c := DealCard(deck, player, counter);
  }

  /** The player's hit during a round: a hand not over 21 draws one card;
      if the hand is then over 21 the bet is lost and the round is over. */
  method PlayerHits(deck: Deck, player: Hand, counter: Counter, ghost d: seq<Card>, balance: int, bet: int)
    returns (newBalance: int, stillIn: bool)
    requires player.Valid() && HandValue(player.cards) <= Limit && Points(d) <= 20
    requires Conserved(deck.cards, player.cards, d)
    requires counter.count == HiLoSum(player.cards) + HiLoSum(d)
    modifies deck, player, counter
    ensures player.Valid()
    ensures Conserved(deck.cards, player.cards, d)
    ensures counter.count == HiLoSum(player.cards) + HiLoSum(d)
    ensures |old(deck.cards)| > 0
    ensures var n := |old(deck.cards)|; var c := old(deck.cards)[n - 1];
      && player.cards == old(player.cards) + [c]
      && deck.cards == old(deck.cards)[..n - 1]
      && counter.count == old(counter.count) + HiLo(c.rank)
    ensures stillIn == (HandValue(player.cards) <= Limit)
    ensures newBalance == if stillIn then balance else balance - bet
  {
    newBalance, stillIn := balance, true;
    if player.Value() <= Limit {
      PlayerDraws(deck, player, counter, d);
    }
    if player.Value() > Limit {
      newBalance, stillIn := balance - bet, false;
    }
  }

  /** The dealer's hand mid-play: it is `before` followed by the first
      cards popped from `rest`, `deck` is what remains of `rest`, and every
      card was drawn from a hand below 17. */
  ghost predicate DealerDrawing(before: seq<Card>, rest: seq<Card>, deck: seq<Card>, hand: seq<Card>)
  {
    && |before| <= |hand| <= |before| + |rest|
    && hand == before + Popped(rest, |hand| - |before|)
    && deck == rest[..|rest| - (|hand| - |before|)]
    && DrewBelow(before, hand)
  }

  lemma DealerDrawingStart(before: seq<Card>, rest: seq<Card>)
    ensures DealerDrawing(before, rest, rest, before)
  {
    assert before + Popped(rest, 0) == before;
    assert rest[..|rest|] == rest;
  }

  /** A draw from a hand below 17 moves the last card of the deck to the
      hand and keeps `DealerDrawing`. */
  lemma DealerDrawingStep(before: seq<Card>, rest: seq<Card>, deck: seq<Card>, hand: seq<Card>)
    requires DealerDrawing(before, rest, deck, hand)
    requires deck != [] && HandValue(hand) < DealerStand
    ensures DealerDrawing(before, rest, deck[..|deck| - 1], hand + [deck[|deck| - 1]])
  {
    var k := |hand| - |before|;
    PoppedStep(rest, k);
    DrewBelowStep(before, hand, deck[|deck| - 1]);
    TakeTake(rest, |rest| - k, |rest| - k - 1);
  }

  /** Once the hand reaches 17 the play was the dealer's policy. */
  lemma DealerDrawingDone(before: seq<Card>, rest: seq<Card>, deck: seq<Card>, hand: seq<Card>)
    requires DealerDrawing(before, rest, deck, hand)
    requires HandValue(hand) >= DealerStand
    ensures DealerPolicy(before, hand)
  {
    assert hand[..|before|] == before;
  }

  /** The dealer's play: draw from the end of the deck while the dealer's
      value is below 17. The cards drawn are the ones successive pops
      return, each was drawn from a hand below 17, and the hand ends at 17
      or more. The deck cannot run out first: the player's hand `p` holds
      at most 21 points and the dealer draws only below 17. */
  method DealerDraws(deck: Deck, dealer: Hand, counter: Counter, ghost p: seq<Card>)
    requires dealer.Valid() && Points(p) <= Limit
    requires Conserved(deck.cards, p, dealer.cards)
    requires counter.count == HiLoSum(p) + HiLoSum(dealer.cards)
    modifies deck, dealer, counter
    ensures dealer.Valid()
    ensures Conserved(deck.cards, p, dealer.cards)
    ensures counter.count == HiLoSum(p) + HiLoSum(dealer.cards)
    ensures DealerPolicy(old(dealer.cards), dealer.cards)
    ensures var k := |dealer.cards| - |old(dealer.cards)|;
      && k <= |old(deck.cards)|
      && dealer.cards == old(dealer.cards) + Popped(old(deck.cards), k)
      && deck.cards == old(deck.cards)[..|old(deck.cards)| - k]
  {
    ghost var before, rest := dealer.cards, deck.cards;
    DealerDrawingStart(before, rest);
    while dealer.Value() < DealerStand
      invariant dealer.Valid()
      invariant DealerDrawing(before, rest, deck.cards, dealer.cards)
      invariant Conserved(deck.cards, p, dealer.cards)
      invariant counter.count == HiLoSum(p) + HiLoSum(dealer.cards)
      decreases DealerStand - dealer.total
    {
      DeckNotExhausted(deck.cards, p, dealer.cards);
      DrawConserves(deck.cards, p, dealer.cards);
      DealerDrawingStep(before, rest, deck.cards, dealer.cards);
      var c := DealCard(deck, dealer, counter);
    }
    DealerDrawingDone(before, rest, deck.cards, dealer.cards);
  }

  /** The table: the round flag, the chips, the bet, the running count,
      the deck and the player's and dealer's hands. */
  class Game {
    var inPlay: bool
    var balance: int
    var bet: int
    var counter: Counter
    var deck: Deck
    var player: Hand
    var dealer: Hand
    /** The balance when the current (or last) round was dealt. */
    ghost var roundStart: int

    ghost predicate Valid()
      reads this, counter, deck, player, dealer
    {
      && player != dealer
      && player.Valid() && dealer.Valid()
      // card conservation: deck and hands are one deck between them
      && Conserved(deck.cards, player.cards, dealer.cards)
      // the count is the Hi-Lo sum of every card in the hands
      && counter.count == HiLoSum(player.cards) + HiLoSum(dealer.cards)
      && 0 <= balance
      // during a round: the bet was accepted, no chips moved yet, the
      // player is not bust and the dealer holds the two dealt cards
      && (inPlay ==> BetAccepted(bet, balance) && balance == roundStart
                     && HandValue(player.cards) <= Limit && |dealer.cards| == 2)
      // the balance moved at most once this round, by at most the bet
      && (balance == roundStart || balance == roundStart + bet || balance == roundStart - bet)
    }

    /** The table before the first round: 100 chips, a bet of 1, no round
        in play, an unshuffled deck and empty hands. */
    constructor ()
      ensures Valid()
      ensures !inPlay && balance == StartingBalance && bet == DefaultBet && counter.count == 0
      ensures deck.cards == FreshDeck() && player.cards == [] && dealer.cards == []
      ensures fresh(counter) && fresh(deck) && fresh(player) && fresh(dealer)
    {
      inPlay := false;
      balance := StartingBalance;
      bet := DefaultBet;
      counter := new Counter();
      deck := new Deck();
      player := new Hand();
      dealer := new Hand();
      roundStart := StartingBalance;
      ConservedIsFreshDeck(FreshDeck(), [], []);
    }

    /** The count mirrors the rest of the deck: it is minus the Hi-Lo sum
        of the cards not yet dealt, so the advice is positive exactly when
        the remaining cards run high. */
    lemma CountMirrorsDeck()
      requires Valid()
      ensures counter.count == -HiLoSum(deck.cards)
      ensures Advise(counter.count) == Positive <==> HiLoSum(deck.cards) < -2
    {
      ConservedTotals(deck.cards, player.cards, dealer.cards);
    }

    /** Deal a round: reset the count, build a fresh deck and shuffle it
        into `order`, take the bet, then deal two cards to the player and
        two to the dealer from the end of the deck. */
    method Deal(order: seq<Card>, amount: int)
      requires multiset(order) == multiset(FreshDeck())
      requires BetAccepted(amount, balance)
      modifies this, counter
      ensures Valid()
      ensures fresh(deck) && fresh(player) && fresh(dealer) && counter == old(counter)
      ensures inPlay && bet == amount && balance == old(balance)
      ensures |order| == 52
      ensures player.cards == [order[51], order[50]]
      ensures dealer.cards == [order[49], order[48]]
      ensures deck.cards == order[..48]
      ensures counter.count == HiLoSum(player.cards) + HiLoSum(dealer.cards)
    {
      DealConserves(order);
      var d, p, q := OpenRound(order, counter);
      deck, player, dealer, bet, inPlay := d, p, q, amount, true;
      roundStart := balance;
    }

    /** The player hits: while a round is in play and the player is not
        bust, draw one card into the player's hand; if that takes the value
        past 21 the bet is lost and the round is over. Outside a round
        nothing changes. */
    method Hit()
      requires Valid()
      modifies this, player, deck, counter
      ensures Valid()
      ensures player == old(player) && dealer == old(dealer) && deck == old(deck) && counter == old(counter)
      ensures bet == old(bet) && dealer.cards == old(dealer.cards)
      ensures !old(inPlay) ==>
        && !inPlay && balance == old(balance) && player.cards == old(player.cards)
        && deck.cards == old(deck.cards) && counter.count == old(counter.count)
      ensures old(inPlay) ==>
        && |old(deck.cards)| > 0
        && (var c := old(deck.cards)[|old(deck.cards)| - 1];
            && player.cards == old(player.cards) + [c]
            && deck.cards == old(deck.cards)[..|old(deck.cards)| - 1]
            && counter.count == old(counter.count) + HiLo(c.rank))
        && inPlay == (HandValue(player.cards) <= Limit)
        && balance == (if inPlay then old(balance) else old(balance) - bet)
    {
      if inPlay {
        PointsBounds(dealer.cards);
        balance, inPlay := PlayerHits(deck, player, counter, dealer.cards, balance, bet);
      }
    }

    /** The player stands: outside a round nothing changes; otherwise the
        dealer draws while below 17, the bet is settled against the two
        values, and the round is over. */
    method Stand()
      requires Valid()
      modifies this, dealer, deck, counter
      ensures Valid()
      ensures player == old(player) && dealer == old(dealer) && deck == old(deck) && counter == old(counter)
      ensures bet == old(bet) && player.cards == old(player.cards) && !inPlay
      ensures !old(inPlay) ==>
        && balance == old(balance) && dealer.cards == old(dealer.cards)
        && deck.cards == old(deck.cards) && counter.count == old(counter.count)
      ensures old(inPlay) ==>
        && DealerPolicy(old(dealer.cards), dealer.cards)
        && (var k := |dealer.cards| - |old(dealer.cards)|;
            && k <= |old(deck.cards)|
            && dealer.cards == old(dealer.cards) + Popped(old(deck.cards), k)
            && deck.cards == old(deck.cards)[..|old(deck.cards)| - k])
        && balance == old(balance) + Payout(Settle(HandValue(player.cards), HandValue(dealer.cards)), bet)
    {
      if !inPlay {
        return;
      }
      DealerDraws(deck, dealer, counter, player.cards);
      balance := SettleBet(player.Value(), dealer.Value(), balance, bet);
      inPlay := false;
    }
  }
}
