/**
  The Tic-Tac-Toe game of ttt.rb around the board: the computer's marker, the
  computer's move policy (win, block, centre, any free square), turn
  alternation, and match scoring.
 */
module TttGame {
  import opened Options
  import opened TttBoard
  import opened TttBoardFacts

  /** `TTTGame::WINNING_SCORE` */
  const WinningScore: nat := 5

  const Center: Key := 5

  /**
    The state `TTTGame` keeps between turns. `current` is the marker of the
    player to move; the human's turn is the one where it equals the human's
    marker.
   */
  datatype Game = Game(board: Board, human: char, computer: char, current: char,
                       humanScore: nat, computerScore: nat)
  {
    /**
      The human picks any one-character marker except the blank, the
      computer's marker is derived from it, and the current marker is one of
      the two.
     */
    predicate Valid() {
      human != Blank && computer == ComputerMarker(human) &&
        (current == human || current == computer)
    }

    /** `human_turn?` */
    predicate HumanTurn() {
      current == human
    }
  }

  /** `Computer#set_marker`: always a player marker, never the human's. */
  function ComputerMarker(human: char): (c: char)
    ensures c != human
    ensures c != Blank
    ensures c == 'X' || c == 'O'
  {
    if human == 'O' then 'X' else 'O'
  }

  /** `winning_play?` */
  predicate WinningPlay(b: Board, computer: char) {
    OffensivePlay(b, computer).Some?
  }

  /** `immediate_threat?` */
  predicate ImmediateThreat(b: Board, human: char) {
    DefensivePlay(b, human).Some?
  }

  /**
    `computer_moves`: win if possible, otherwise block the human, otherwise
    take the centre, otherwise take some unmarked square (`sample` is an
    arbitrary choice). Exactly one square changes, from blank to the
    computer's marker.
   */
  method ComputerMoves(b: Board, human: char, computer: char) returns (square: Key, b': Board)
    requires human != Blank && computer == ComputerMarker(human)
    requires !Full(b)
    ensures At(b, square).Unmarked()
    ensures WinningPlay(b, computer) ==> OffensivePlay(b, computer) == Some(square)
    ensures !WinningPlay(b, computer) && ImmediateThreat(b, human) ==>
      DefensivePlay(b, human) == Some(square)
    ensures !WinningPlay(b, computer) && !ImmediateThreat(b, human) && At(b, Center).Unmarked() ==>
      square == Center
    ensures b' == Mark(b, square, computer)
    ensures At(b', square).marker == computer
    ensures forall k: Key :: k != square ==> At(b', k) == At(b, k)
    ensures |UnmarkedKeys(b')| + 1 == |UnmarkedKeys(b)|
    ensures WinningPlay(b, computer) ==> MatchWinner(b')
    ensures WinningPlay(b, computer) && !MatchWinner(b) ==> WinningMarker(b') == Some(computer)
  {
    if WinningPlay(b, computer) {
      square := OffensivePlay(b, computer).value;
      DefensivePlaySpec(b, computer, square);
    } else if ImmediateThreat(b, human) {
      square := DefensivePlay(b, human).value;
      DefensivePlaySpec(b, human, square);
    } else if At(b, Center).Unmarked() {
      square := Center;
    } else {
      assert UnmarkedKeys(b)[0] in UnmarkedKeys(b);
      square :| square in UnmarkedKeys(b);
      UnmarkedKeysSpec(b);
    }
    b' := Mark(b, square, computer);
    MarkTakesOneSquare(b, square, computer);
    if WinningPlay(b, computer) {
      OffensivePlayCompletesLine(b, computer, square);
    }
  }

  /**
    `current_player_moves`: the player whose marker is current marks one
    unmarked square and the turn passes to the other player. The human's
    square is whatever the input loop of `human_moves` accepted, which is an
    unmarked key.
   */
  method CurrentPlayerMoves(g: Game, humanSquare: Key) returns (square: Key, g': Game)
    requires g.Valid()
    requires !Full(g.board)
    requires g.HumanTurn() ==> At(g.board, humanSquare).Unmarked()
    ensures g'.Valid()
    ensures At(g.board, square).Unmarked()
    ensures g'.board == Mark(g.board, square, g.current)
    ensures g.HumanTurn() ==> square == humanSquare && g'.current == g.computer
    ensures !g.HumanTurn() ==> g'.current == g.human
    ensures |UnmarkedKeys(g'.board)| + 1 == |UnmarkedKeys(g.board)|
    ensures g'.human == g.human && g'.computer == g.computer
    ensures g'.humanScore == g.humanScore && g'.computerScore == g.computerScore
  {
    if g.HumanTurn() {
      square := humanSquare;
      MarkTakesOneSquare(g.board, square, g.human);
      g' := g.(board := Mark(g.board, square, g.human), current := g.computer);
    } else {
      var b';
      square, b' := ComputerMoves(g.board, g.human, g.computer);
      g' := g.(board := b', current := g.human);
    }
  }

  /**
    The scoring step of `display_result`: the player whose marker
    `winning_marker` returns gains a point; a tie changes nothing.
   */
  function ScoreMatch(g: Game): (r: Game)
    requires g.Valid()
    ensures r.board == g.board && r.human == g.human && r.computer == g.computer && r.current == g.current
    ensures r.humanScore == g.humanScore + 1 <==>
      exists i :: FirstCompleted(g.board, i) && Owns(g.board, WinningLines[i], g.human)
    ensures r.computerScore == g.computerScore + 1 <==>
      exists i :: FirstCompleted(g.board, i) && Owns(g.board, WinningLines[i], g.computer)
    ensures r.humanScore + r.computerScore <= g.humanScore + g.computerScore + 1
    ensures r.humanScore >= g.humanScore && r.computerScore >= g.computerScore
    ensures !MatchWinner(g.board) ==> r == g
  {
    WinningMarkerSpec(g.board, g.human);
    WinningMarkerSpec(g.board, g.computer);
    match WinningMarker(g.board)
    case Some(m) =>
      if m == g.human then g.(humanScore := g.humanScore + 1)
      else if m == g.computer then g.(computerScore := g.computerScore + 1)
      else g
    case None => g
  }

  /** `game_winner?` */
  predicate GameWinner(g: Game) {
    g.humanScore >= WinningScore || g.computerScore >= WinningScore
  }

  /**
    Scores only grow by single points, so a game that was not yet won ends
    exactly when the match winner reaches `WINNING_SCORE`.
   */
  lemma GameWonAtWinningScore(g: Game)
    requires g.Valid() && !GameWinner(g)
    ensures GameWinner(ScoreMatch(g)) ==>
      ScoreMatch(g).humanScore == WinningScore || ScoreMatch(g).computerScore == WinningScore
    ensures GameWinner(ScoreMatch(g)) ==> MatchWinner(g.board)
  {
  }

  /**
    Two scenarios: with 1 and 2 marked 'X' the computer playing 'X' wins at
    3; with 1 and 5 marked 'X' the computer playing 'O' blocks at 9.
   */
  lemma Scenarios()
    ensures OffensivePlay(Mark(Mark(Reset(), 1, 'X'), 2, 'X'), 'X') == Some(3)
    ensures OffensivePlay(Mark(Mark(Reset(), 1, 'X'), 5, 'X'), 'O') == None
    ensures DefensivePlay(Mark(Mark(Reset(), 1, 'X'), 5, 'X'), 'X') == Some(9)
  {
    var row := Mark(Mark(Reset(), 1, 'X'), 2, 'X');
    assert Threat(row, 'X', WinningLines[0]) by {
      CountOfThree('X', 'X', Blank, Blank);
    }
    var diag := Mark(Mark(Reset(), 1, 'X'), 5, 'X');
    forall i | 0 <= i < |WinningLines|
      ensures !Threat(diag, 'O', WinningLines[i])
    {
      ThreatIffOneShort(diag, 'O', WinningLines[i]);
      var l := WinningLines[i];
      CountOfThree(At(diag, l.a).marker, At(diag, l.b).marker, At(diag, l.c).marker, 'O');
    }
    forall i | 0 <= i < 6
      ensures !Threat(diag, 'X', WinningLines[i])
    {
      ThreatIffOneShort(diag, 'X', WinningLines[i]);
      var l := WinningLines[i];
      CountOfThree(At(diag, l.a).marker, At(diag, l.b).marker, At(diag, l.c).marker, 'X');
    }
    assert Threat(diag, 'X', WinningLines[6]) by {
      CountOfThree('X', 'X', Blank, Blank);
    }
  }
}
