/**
  The cards of twentyone_2.rb: the `Deck` constants and card values, the
  52-card deck, dealing from the top (the end of the list), and the `Hand`
  arithmetic with its ace adjustment.
 */
module TwentyOneCards {

  /** `Deck::TYPES` */
  const Types: seq<string> := ["2", "3", "4", "5", "6", "7", "8", "9", "10", "Jack", "Queen", "King", "Ace"]

  /** `Deck::SUITS` */
  const Suits: seq<string> := ["Diamonds", "Clubs", "Hearts", "Spades"]

  /** `Deck::VALUES`: the types whose value is not their numeral. */
  const Values: map<string, int> := map["Jack" := 10, "Queen" := 10, "King" := 10, "Ace" := 11]

  const Ace: string := "Ace"

  /** A `Card` with its `type`, `suit` and `value` attributes. */
  datatype Card = Card(kind: string, suit: string, value: int)

  // ---------------------------------------------------------------------------
  // Card values

  predicate IsDigit(c: char) {
    '0' <= c <= '9'
  }

  /** Reads the leading decimal digits of `s` onto `acc` (the part of `String#to_i` the types exercise). */
  function DigitsFrom(s: string, acc: nat): nat {
    if s == [] || !IsDigit(s[0]) then acc
    else DigitsFrom(s[1..], acc * 10 + (s[0] as int - '0' as int))
  }

  /** `String#to_i` on a string of leading digits; 0 when there are none. */
  function ToI(s: string): nat {
    DigitsFrom(s, 0)
  }

  /** `card_value`: the `VALUES` entry if there is one, otherwise the numeral. */
  function CardValue(kind: string): int {
    if kind in Values then Values[kind] else ToI(kind)
  }

  /**
    Jack, Queen and King are worth 10, the Ace 11, and each numeral type its
    number, so every type of the deck is worth between 2 and 11.
   */
  lemma CardValueTable(i: int)
    requires 0 <= i < |Types|
    ensures i < 9 ==> CardValue(Types[i]) == i + 2
    ensures 9 <= i < 12 ==> CardValue(Types[i]) == 10
    ensures i == 12 ==> CardValue(Types[i]) == 11 && Types[i] == Ace
    ensures 2 <= CardValue(Types[i]) <= 11
  {
    if i == 8 {
      assert Types[8] == "10";
      assert "10"[1..] == "0";
      assert "0"[1..] == [];
    } else if i < 8 {
      assert |Types[i]| == 1;
      assert Types[i][1..] == [];
    }
  }

  // ---------------------------------------------------------------------------
  // The deck

  /**
    `Deck#reset`: for each suit in `SUITS` order, one card of each type in
    `TYPES` order.
   */
  function FullDeck(): (d: seq<Card>)
    ensures |d| == |Suits| * |Types| == 52
  {
    seq(52, k requires 0 <= k < 52 => Card(Types[k % 13], Suits[k / 13], CardValue(Types[k % 13])))
  }

  /** `shuffle!` may produce any reordering. */
  predicate IsShuffleOf(s: seq<Card>, t: seq<Card>) {
    multiset(s) == multiset(t)
  }

  /**
    `deal_card`: an empty deck is first refilled with a shuffled full deck;
    then the last card is popped. `shuffled` is that refill's outcome.
   */
  function DealCard(cards: seq<Card>, shuffled: seq<Card>): (r: (Card, seq<Card>))
    requires IsShuffleOf(shuffled, FullDeck())
    ensures var source := if cards == [] then shuffled else cards;
      |r.1| + 1 == |source| && r.1 + [r.0] == source
    ensures cards != [] ==> multiset(r.1) + multiset{r.0} == multiset(cards)
    ensures cards == [] ==> multiset(r.1) + multiset{r.0} == multiset(FullDeck()) && |r.1| == 51
  {
    var source := if cards == [] then shuffled else cards;
    assert |shuffled| == |FullDeck()| by {
      assert |multiset(shuffled)| == |multiset(FullDeck())|;
    }
    assert source == source[..|source| - 1] + [source[|source| - 1]];
    (source[|source| - 1], source[..|source| - 1])
  }

  // ---------------------------------------------------------------------------
  // Hand arithmetic

  /** The running total of card values `hand_value` builds before adjusting. */
  function Sum(hand: seq<Card>): int {
    if hand == [] then 0 else Sum(hand[..|hand| - 1]) + hand[|hand| - 1].value
  }

  /** The number of cards whose type is `"Ace"`. */
  function AceCount(hand: seq<Card>): nat {
    if hand == [] then 0
    else AceCount(hand[..|hand| - 1]) + (if hand[|hand| - 1].kind == Ace then 1 else 0)
  }

  /**
    The `num_aces.times` loop: take 10 off, and stop as soon as the total is
    no longer above 21. The result is 10 taken off `k` times for some `k`
    between 1 and `aces`, where `k` is the first count that reaches 21 or
    less, or `aces` itself if none does.
   */
  function TakeTens(total: int, aces: nat): (r: int)
    ensures aces == 0 ==> r == total
    ensures aces > 0 ==> (total - r) % 10 == 0 && 1 <= (total - r) / 10 <= aces
    ensures aces > 0 ==> r + 10 > 21 || r + 10 == total
    ensures r <= 21 || r == total - 10 * aces
  {
    if aces == 0 then total
    else
      var t := total - 10;
      if t > 21 then TakeTens(t, aces - 1) else t
  }

  /**
    `adjust_for_aces`: unchanged when the total is at most 21 or the hand has
    no ace; otherwise 10 comes off per ace until the total is at most 21 or
    the aces run out.
   */
  function AdjustForAces(hand: seq<Card>, total: int): (r: int)
    ensures total <= 21 || AceCount(hand) == 0 ==> r == total
    ensures total > 21 && AceCount(hand) > 0 ==>
      (total - r) % 10 == 0 && 1 <= (total - r) / 10 <= AceCount(hand) && r + 10 > 21
    ensures r <= 21 || r == total - 10 * AceCount(hand)
  {
    if total > 21 && AceCount(hand) > 0 then TakeTens(total, AceCount(hand)) else total
  }

  /** `hand_value` */
  function HandValue(hand: seq<Card>): int {
    AdjustForAces(hand, Sum(hand))
  }

  /** `busted?` */
  predicate Busted(hand: seq<Card>) {
    HandValue(hand) > 21
  }

  /** `reset_hand` */
  function ResetHand(): seq<Card> {
    []
  }

  /** `Dealer#hit?`: the dealer draws below 17 and stands from 17 on. */
  predicate DealerHits(hand: seq<Card>) {
    HandValue(hand) < 17
  }
}
