/** The move relation of Rock-Paper-Scissors-Lizard-Spock is a tournament. */
module RpsMovesFacts {
  import opened Options
  import opened RpsMoves

  /** `create_move` and `to_s` are inverse on the five names. */
  lemma NameRoundTrip(m: Move)
    ensures Name(m) in Values
    ensures CreateMove(Name(m)) == Some(m)
  {
  }

  /** No move beats itself or loses to itself. */
  lemma Irreflexive(m: Move)
    ensures !WinsAgainst(m, m) && !LosesAgainst(m, m)
  {
  }

  /**
    The two tables describe one relation: `a` beats `b` exactly when `b`
    loses to `a`, and of two different moves exactly one beats the other.
   */
  lemma TablesAgree(a: Move, b: Move)
    ensures WinsAgainst(a, b) <==> LosesAgainst(b, a)
    ensures LosesAgainst(a, b) <==> WinsAgainst(b, a)
    ensures a != b ==> WinsAgainst(a, b) != WinsAgainst(b, a)
    ensures WinsAgainst(a, b) ==> !LosesAgainst(a, b)
  {
  }

  /** Every move beats exactly two moves and loses to exactly two. */
  lemma TwoEachWay(m: Move)
    ensures |Beaten(m)| == 2 && |Beaters(m)| == 2
  {
    match m
    case Rock =>
      assert Beaten(m) == {Scissors, Lizard};
      assert Beaters(m) == {Paper, Spock};
    case Paper =>
      assert Beaten(m) == {Rock, Spock};
      assert Beaters(m) == {Scissors, Lizard};
    case Scissors =>
      assert Beaten(m) == {Paper, Lizard};
      assert Beaters(m) == {Rock, Spock};
    case Lizard =>
      assert Beaten(m) == {Paper, Spock};
      assert Beaters(m) == {Rock, Scissors};
    case Spock =>
      assert Beaten(m) == {Rock, Scissors};
      assert Beaters(m) == {Lizard, Paper};
  }

  /** Every move is beaten by some move, which is what lets the computer's sampling loop stop. */
  lemma EveryMoveBeatable(m: Move)
    ensures exists b :: b in AllMoves && WinsAgainst(b, m)
  {
    TwoEachWay(m);
    var b :| b in Beaters(m);
    TablesAgree(m, b);
  }
}
