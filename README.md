# Single-deck blackjack with Hi-Lo counting, in Dafny

This project models the rules engine of `black-jack.py`, a console blackjack game for one player against the dealer. The model covers:

- the point table, with an ace counted 1 and a face card 10;
- the hand, which caches its total and an ace flag;
- the one-ace soft-total rule;
- the Hi-Lo running count and the three bands of advice derived from it;
- the 52-card deck, built suit by suit, shuffled, and dealt from the end of its list;
- the round: deal, hit, stand, and settlement of the bet.

The modules follow the program's structure:

- `Cards` holds the suits, ranks, card record and point table. It also defines `Tally`, a sum of a per-card weight over a sequence of cards.
- `Counting` holds the Hi-Lo delta, the advice bands and the `Counter` class, which owns the running count.
- `Hands` holds the `Hand` class, whose `AddCard` mutates the cards, total and ace flag in place, and the soft-total rule.
- `Decks` holds the `Deck` class. Its constructor has the two nested append loops. `Shuffle` takes the arrangement from the caller. `Draw` pops the last card.
- `Round` holds the `Game` class, which plays the part of the program's global state:
  - `inPlay`, matching `en_jeu`;
  - `balance`, matching `solde_jetons`;
  - `bet`, matching `mise`;
  - the counter;
  - the deck;
  - the two hands.

`Game.Valid()` is the invariant that every method keeps:

- Cards are conserved: every one of the 52 cards is in exactly one place, the deck or one of the hands.
- The count is the Hi-Lo sum of the cards in both hands. So it is minus the Hi-Lo sum of the cards left in the deck.
- The balance is never negative.
- During a round, the bet was accepted and the player is not bust.
- Within a round, the balance moves at most once, by exactly plus the bet, zero or minus the bet.

The source pops from the deck without checking it is empty. The model proves the deck never runs out:

- A deck holds 340 points.
- The player has at most 21 before a hit.
- The dealer draws only below 17.

A balance of zero leaves no amount that passes the bet check (`Round.NoBetWhenBroke`). The console loop in the source then keeps asking for a bet for ever. That loop is input handling and is not modelled.

## Model

| member | source | states |
|---|---|---|
| Cards.PointValue | black-jack.py:28-42 | every rank is worth 1 to 10 points; 1 exactly for the ace and 10 exactly for 10, J, Q and K |
| Counting.HiLo | black-jack.py:56-60 | ranks worth 2 to 6 add one, 10-point ranks and the ace take one away, 7 to 9 leave the count; the delta is always -1, 0 or +1 |
| Counting.HiLoSumBounded | black-jack.py:56-60 | after observing `n` cards the count lies between -n and n |
| Counting.CountExample | black-jack.py:56-60 | 2, 7, K, 5, A bring the count back to zero |
| Counting.Counter.constructor | black-jack.py:47 | the running count starts at zero |
| Counting.Counter.Observe | black-jack.py:49-60 | observing a rank moves the count by exactly its Hi-Lo delta |
| Counting.Counter.Reset | black-jack.py:195 | the count goes back to zero |
| Counting.Advise | black-jack.py:69-74 | the positive band exactly above 2, the negative band exactly below -2, the neutral band exactly in between, so one band per count |
| Counting.AdviseMonotone | black-jack.py:69-74 | a higher count never gives less favourable advice |
| Counting.AdviseSymmetric | black-jack.py:69-74 | negating the count mirrors the band |
| Hands.Hand.constructor | black-jack.py:101-104 | a new hand is empty, with total 0 and no ace, and satisfies the hand invariant |
| Hands.Hand.AddCard | black-jack.py:110-121 | keeps the invariant that the total is the sum of the point values and the ace flag says whether an ace is held; the card is appended; the count moves by the card's delta |
| Hands.Hand.Value | black-jack.py:123-130 | the value from the cached total and flag equals the soft-total rule applied to the cards (`Hands.SoftValue` of their points and ace flag, the formula of lines 127-130), and lies between the total and the total plus 10 |
| Hands.ValueRange | black-jack.py:127-130 | the value (`Hands.SoftValue` applied to the cards) is the total or the total plus 10, and it is raised only for a hand with an ace and never above 21 |
| Hands.ValueIsBestAceChoice | black-jack.py:123-130 | the one-ace rule picks a valid count of aces as 11, beats every other choice that stays within 21, and is bust only when every choice is |
| Hands.ValueExamples | black-jack.py:123-130 | {A,6} is 17, {A,A,9} is 21, {10,9,5} is 24 |
| Hands.HasAceIffSomeAce | black-jack.py:117-118 | the ace flag of the cards holds exactly when some card is an ace |
| Hands.PointsBounds | black-jack.py:28-42 | `n` cards hold between n and 10n points |
| Hands.AceCountAtMostPoints | black-jack.py:28-42 | a hand never holds more aces than points |
| Decks.Deck.constructor | black-jack.py:146-150 | the nested loops build exactly the fresh deck, suit by suit, each suit from the ace to the king |
| Decks.FreshDeckComplete | black-jack.py:146-150 | every card of the four suits and thirteen ranks is in the fresh deck |
| Decks.FreshDeckDistinct | black-jack.py:146-150 | no two positions of the fresh deck hold the same card |
| Decks.FreshDeckOnce | black-jack.py:146-150 | each card occurs in the fresh deck exactly once |
| Decks.FreshDeckTotals | black-jack.py:146-150 | a fresh deck holds 340 points and its Hi-Lo sum is zero |
| Decks.Deck.Shuffle | black-jack.py:152-153 | the deck becomes the given arrangement, which must be a rearrangement of its cards |
| Decks.Deck.Draw | black-jack.py:155-156 | returns the last card, the deck loses exactly that card, and the cards are conserved |
| Decks.PoppedConserves | black-jack.py:155-156 | the cards popped by `k` draws together with what is left are the deck |
| Round.DeckNotExhausted | black-jack.py:156 | while the hands hold fewer than 340 points the deck is not empty, so a pop never fails |
| Round.DealCard | black-jack.py:206 | one card moves from the end of the deck to the hand and the counter observes it |
| Round.DealTwo | black-jack.py:206-207 | two cards move from the end of the deck to the hand, the last one first |
| Round.DealHands | black-jack.py:202-211 | two new hands get cards 51 and 50, then 49 and 48, and 48 cards remain; two cards never make more than 21 |
| Round.OpenRound | black-jack.py:195-211 | the count is reset, the shuffled fresh deck is dealt two cards each way, and the count is the Hi-Lo sum of the four cards, the dealer's hidden card included |
| Round.DealConserves | black-jack.py:197-211 | after the deal the 48 cards of the deck and the four of the hands are the 52 cards, each once |
| Round.ConservedIsFreshDeck | black-jack.py:146-150 | each card in exactly one place is the same as deck and hands together being a rearrangement of the fresh deck |
| Round.ConservedTotals | black-jack.py:197-211 | with the cards conserved, deck and hands together hold 340 points and a Hi-Lo sum of zero |
| Round.DrawConserves | black-jack.py:223 | moving the last card of the deck into a hand conserves the cards |
| Round.PlayerDraws | black-jack.py:222-223 | the player's draw takes the last card and keeps conservation and the count |
| Round.PlayerHits | black-jack.py:221-231 | a hand within 21 draws one card; the player stays in exactly when the new value is within 21; a bust loses the bet once |
| Round.DealerPolicyIdle | black-jack.py:246-247 | a dealer already at 17 or more draws nothing |
| Round.DealerDraws | black-jack.py:246-247 | the dealer's cards are the successive pops from the deck, each drawn while the hand was below 17, and the dealer ends at 17 or more |
| Round.Settle | black-jack.py:252-262 | a win exactly when the dealer is over 21 or below the player, a push exactly on equal values within 21, a loss otherwise |
| Round.SettleBet | black-jack.py:252-262 | the new balance is the old one plus the payout of the settled outcome (`Round.Payout`: plus the bet for a win at lines 254 and 257, zero for a push, minus the bet for a loss at line 262) |
| Round.PayoutIsOneBet | black-jack.py:252-262 | `Round.Payout` pays plus the bet, zero or minus the bet, and for a positive bet the payout tells the outcome |
| Round.SettleMonotone | black-jack.py:252-262 | a better player value or a lower dealer value that is not bust never gives a worse outcome |
| Round.NoBetWhenBroke | black-jack.py:175 | with no chips no amount passes the bet check |
| Round.AcceptedBetKeepsBalance | black-jack.py:175 | with a bet accepted by `Round.BetAccepted` (a whole number from 1 up to the balance, the check of line 175) no outcome takes the balance below zero |
| Round.Game.constructor | black-jack.py:9-16 | 100 chips, a bet of 1, no round in play, an unshuffled deck and empty hands, with the table invariant holding |
| Round.Game.CountMirrorsDeck | black-jack.py:49-60 | the running count is minus the Hi-Lo sum of the undealt cards, so the advice is positive exactly when the remaining deck runs high |
| Round.Game.Deal | black-jack.py:183-214 | the round is dealt from the supplied shuffle: the player gets cards 51 and 50, the dealer 49 and 48, and 48 cards remain; the bet is the accepted amount; the round is in play; the invariant holds |
| Round.Game.Hit | black-jack.py:218-233 | outside a round nothing changes; in a round one card moves from the deck to the player, the round stays in play exactly when the value is within 21, and a bust takes the bet off the balance; the invariant holds |
| Round.Game.Stand | black-jack.py:237-264 | outside a round nothing changes; otherwise the dealer plays its policy from the end of the deck, the balance moves by the payout of the settled outcome, and the round is over; the invariant holds |

## Left out

- Console output is not modelled: `__str__`, `afficher_carte`, `afficher_main`, `etat_partie`, `intro`, the start-up print, and the text of the advice and result messages. Advice is modelled by its band only.
- The input handling in `demander_mise` is not modelled. It covers reading, integer parsing and the retry loop, including `mise = 0` before the loop. The bet the loop ends with becomes the parameter of `Game.Deal`, with the bet check as its precondition.
- In the source the bet is asked for after the shuffle and before the hands are created. In the model it is passed to `Game.Deal`. No state is observed in between, so the order does not matter.
- `commande_joueur` is not modelled. Its dispatch between the actions is the choice of which method of `Game` to call. In the source, `etat_partie` and `commande_joueur` call each other after every action and never return. The real program therefore stops at Python's recursion limit after some hundreds of actions. The model allows any number of calls.
- `quitter_jeu` and `sys.exit`, the process lifecycle, are not modelled.
- `random.shuffle` is a library call. It is modelled by its effect only: `Deck.Shuffle` takes any arrangement of the deck's cards from the caller.
- In the source the deck and hands do not exist until the first deal. The script deals at start-up, so nothing can run before then. The model's constructor creates a fresh deck and empty hands so that the table invariant holds from the start.
- The hands are not displayed, so there is no hidden dealer card in the model. The count still observes the dealer's hidden card.
- Dealing again during a round (the 'd' command while a round is in play) settles nothing in the source: the open bet is neither won nor lost. `Game.Deal` has the same behaviour. It has no precondition that the round is over, and it keeps the balance as it was.
