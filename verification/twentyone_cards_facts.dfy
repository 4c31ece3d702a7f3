/** Properties of the Twenty-One deck, dealing and hand arithmetic. */
module TwentyOneCardsFacts {
  import opened TwentyOneCards

  lemma TypesDistinct()
    ensures forall i, j :: 0 <= i < j < |Types| ==> Types[i] != Types[j]
  {
  }

  lemma SuitsDistinct()
    ensures forall i, j :: 0 <= i < j < |Suits| ==> Suits[i] != Suits[j]
  {
  }

  lemma FullDeckCard(k: int)
    requires 0 <= k < 52
    ensures FullDeck()[k] == Card(Types[k % 13], Suits[k / 13], CardValue(Types[k % 13]))
    ensures 2 <= FullDeck()[k].value <= 11
  {
    CardValueTable(k % 13);
  }

  lemma FullDeckCovers()
    ensures forall s, t :: 0 <= s < |Suits| && 0 <= t < |Types| ==>
      Card(Types[t], Suits[s], CardValue(Types[t])) in FullDeck()
  {
    forall s, t | 0 <= s < |Suits| && 0 <= t < |Types|
      ensures Card(Types[t], Suits[s], CardValue(Types[t])) in FullDeck()
    {
      var k := 13 * s + t;
      assert k % 13 == t && k / 13 == s;
      FullDeckCard(k);
    }
  }

  lemma FullDeckNoDuplicates()
    ensures forall i, j :: 0 <= i < j < |FullDeck()| ==> FullDeck()[i] != FullDeck()[j]
  {
    TypesDistinct();
    SuitsDistinct();
    forall i, j | 0 <= i < j < 52
      ensures FullDeck()[i] != FullDeck()[j]
    {
      FullDeckCard(i);
      FullDeckCard(j);
      if i % 13 == j % 13 {
        assert i / 13 != j / 13;
      }
    }
  }

  lemma FullDeckValues()
    ensures forall c :: c in FullDeck() ==>
      c.suit in Suits && c.kind in Types && c.value == CardValue(c.kind) && 2 <= c.value <= 11
  {
    forall c | c in FullDeck()
      ensures c.suit in Suits && c.kind in Types && c.value == CardValue(c.kind) && 2 <= c.value <= 11
    {
      var k :| 0 <= k < 52 && FullDeck()[k] == c;
      FullDeckCard(k);
    }
  }

  /**
    The full deck holds one card for every (suit, type) pair, no card twice,
    and every card carries the value of its type, between 2 and 11.
   */
  lemma FullDeckSpec()
    ensures forall s, t :: 0 <= s < |Suits| && 0 <= t < |Types| ==>
      Card(Types[t], Suits[s], CardValue(Types[t])) in FullDeck()
    ensures forall i, j :: 0 <= i < j < |FullDeck()| ==> FullDeck()[i] != FullDeck()[j]
    ensures forall c :: c in FullDeck() ==>
      c.suit in Suits && c.kind in Types && c.value == CardValue(c.kind) && 2 <= c.value <= 11
  {
    FullDeckCovers();
    FullDeckNoDuplicates();
    FullDeckValues();
  }

  /**
    Dealing keeps a deck within the full deck: the card dealt comes from the
    full deck (so it is worth 2 to 11), and so does what remains.
   */
  lemma DealStaysWithinFullDeck(cards: seq<Card>, shuffled: seq<Card>)
    requires IsShuffleOf(shuffled, FullDeck())
    requires multiset(cards) <= multiset(FullDeck())
    ensures DealCard(cards, shuffled).0 in FullDeck()
    ensures 2 <= DealCard(cards, shuffled).0.value <= 11
    ensures multiset(DealCard(cards, shuffled).1) <= multiset(FullDeck())
  {
    var (card, rest) := DealCard(cards, shuffled);
    assert card in multiset(FullDeck());
    FullDeckSpec();
  }

  // ---------------------------------------------------------------------------
  // Hands

  /**
    `hand_value` is the sum of the card values less 10 for some of the aces:
    never more than the sum, never less than the sum with every ace counted
    as 1, and, when it is above 21, every ace has already been counted as 1.
   */
  lemma HandValueBounds(hand: seq<Card>)
    ensures Sum(hand) - 10 * AceCount(hand) <= HandValue(hand) <= Sum(hand)
    ensures Sum(hand) <= 21 ==> HandValue(hand) == Sum(hand)
    ensures Busted(hand) ==> HandValue(hand) == Sum(hand) - 10 * AceCount(hand)
    ensures AceCount(hand) == 0 ==> HandValue(hand) == Sum(hand)
  {
  }

  /** An empty hand, as after `reset_hand`, is worth 0: not busted, and the dealer hits. */
  lemma ResetHandValue()
    ensures HandValue(ResetHand()) == 0
    ensures !Busted(ResetHand()) && DealerHits(ResetHand())
  {
  }

  /** A dealer who stands and has not busted holds 17 to 21; a dealer who hits has not busted. */
  lemma DealerStandsOnSeventeen(hand: seq<Card>)
    ensures DealerHits(hand) ==> !Busted(hand)
    ensures !DealerHits(hand) && !Busted(hand) ==> 17 <= HandValue(hand) <= 21
  {
  }

  /** A two-ace hand: the first ace drops to 1 and the second stays at 11. */
  lemma TwoAces(s1: string, s2: string)
    ensures HandValue([Card(Ace, s1, 11), Card(Ace, s2, 11)]) == 12
  {
    var c1 := Card(Ace, s1, 11);
    var h := [c1, Card(Ace, s2, 11)];
    assert h[..1] == [c1];
    assert [c1][..0] == [];
    assert Sum([c1]) == 11 && AceCount([c1]) == 1;
    assert Sum(h) == 22;
    assert AceCount(h) == 2;
  }
}
