/** Properties of the computer's bias heuristic and of scoring. */
module RpsGameFacts {
  import opened Options
  import opened RpsMoves
  import opened RpsMovesFacts
  import opened RpsGame

  /**
    The window holds the last `min(n, size)` rounds for a positive `n`; for
    `n` = 0 it is the whole history rather than nothing.
   */
  lemma WindowSize(history: seq<Round>, n: nat)
    ensures n > 0 ==> |Window(history, n)| == (if n <= |history| then n else |history|)
    ensures n > 0 ==> forall i :: 0 <= i < |Window(history, n)| ==>
      Window(history, n)[i] == history[|history| - |Window(history, n)| + i]
    ensures n == 0 ==> Window(history, n) == history
  {
  }

  /** A human who has played only `x` in the window is predicted to play `x`. */
  lemma {:induction false} SingleMoveIsTheBias(history: seq<Round>, n: nat, x: Move)
    requires |history| > 0
    requires forall i :: 0 <= i < |Window(history, n)| ==> Window(history, n)[i].human == x
    ensures FindHumanBias(history, n) == x
  {
    var w := HumanMoves(Window(history, n));
    var r := FindHumanBias(history, n);
    var j := FirstIndex(w, r);
    assert w[j] == x;
  }

  /** So an intelligent computer facing such a human plays a move that beats `x`. */
  method PredictableHumanIsBeaten(history: seq<Round>, n: nat, x: Move) returns (m: Move)
    requires |history| > 0
    requires forall i :: 0 <= i < |Window(history, n)| ==> Window(history, n)[i].human == x
    ensures WinsAgainst(m, x)
  {
    m := IntelligentChoose(history, n);
    SingleMoveIsTheBias(history, n, x);
  }

  /**
    Scores grow one point at a time, so a game that was not yet won ends
    exactly when the round's winner reaches `WINNING_SCORE`.
   */
  lemma GameEndsAtWinningScore(s: Scores, human: Move, computer: Move)
    requires !GameWinner(s)
    ensures GameWinner(UpdateScore(s, human, computer)) ==>
      UpdateScore(s, human, computer).human == WinningScore ||
      UpdateScore(s, human, computer).computer == WinningScore
    ensures GameWinner(UpdateScore(s, human, computer)) ==> human != computer
  {
  }
}
