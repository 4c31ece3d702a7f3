/**
  The computer players and the scoring of rps_move_classes.rb: the history
  of rounds, the "most frequent human move" heuristic and the choosers built
  on it, the round winner and the score.
 */
module RpsGame {
  import opened Options
  import opened RpsMoves
  import opened RpsMovesFacts

  /** `RPSGame::WINNING_SCORE` */
  const WinningScore: nat := 5

  /** One entry of the computer's `history`, as `record_moves` writes it. */
  datatype Round = Round(game: int, human: Move, computer: Move, computerWon: bool)

  /** The computer subclasses; the intelligent ones look back 5, 7 and 1 rounds. */
  datatype ComputerKind = R2D2 | Hal | Chappie | Furby | Bot

  datatype Winner = HumanWins | ComputerWins | Tie

  datatype Scores = Scores(human: nat, computer: nat)

  // ---------------------------------------------------------------------------
  // The bias heuristic

  /**
    `history[-size..-1]` with `size` the smaller of `n` and the history's
    length: the last `n` rounds, or all of them when there are fewer. With
    `n` = 0 the slice starts at index -0, which is 0, so the whole history
    is taken.
   */
  function Window(history: seq<Round>, n: nat): seq<Round> {
    if 0 < n <= |history| then history[|history| - n..] else history
  }

  function HumanMoves(rounds: seq<Round>): (w: seq<Move>)
    ensures |w| == |rounds|
    ensures forall i :: 0 <= i < |rounds| ==> w[i] == rounds[i].human
  {
    seq(|rounds|, i requires 0 <= i < |rounds| => rounds[i].human)
  }

  /** How often `m` occurs in `w` (the size of its `group_by` group). */
  function Count(w: seq<Move>, m: Move): nat {
    multiset(w)[m]
  }

  /** Where `m` first occurs in `w`: `group_by` orders its groups by this. */
  function FirstIndex(w: seq<Move>, m: Move): (i: nat)
    requires m in w
    ensures i < |w| && w[i] == m
    ensures forall j :: 0 <= j < i ==> w[j] != m
  {
    if w[0] == m then 0 else 1 + FirstIndex(w[1..], m)
  }

  /** `m` occurs in `w` as often as any move does. */
  predicate MostFrequent(w: seq<Move>, m: Move) {
    forall x :: Count(w, x) <= Count(w, m)
  }

  /**
    The scan behind `group_by(&:class).max_by { size }`: `best` is the move
    of largest count among `w[..i]`, the earliest-first-seen one on a tie,
    because `max_by` keeps the first maximum and `group_by` lists groups in
    order of first appearance.
   */
  function BiasScan(w: seq<Move>, i: nat, best: Move): (r: Move)
    requires 1 <= i <= |w|
    requires best in w[..i]
    requires forall j :: 0 <= j < i ==> Count(w, w[j]) <= Count(w, best)
    requires forall j :: 0 <= j < i && Count(w, w[j]) == Count(w, best) ==> FirstIndex(w, best) <= j
    ensures r in w
    ensures forall j :: 0 <= j < |w| ==> Count(w, w[j]) <= Count(w, r)
    ensures forall j :: 0 <= j < |w| && Count(w, w[j]) == Count(w, r) ==> FirstIndex(w, r) <= j
    decreases |w| - i
  {
    if i == |w| then
      assert w[..i] == w;
      best
    else
      assert w[..i + 1] == w[..i] + [w[i]];
      if Count(w, w[i]) > Count(w, best) then BiasScan(w, i + 1, w[i])
      else BiasScan(w, i + 1, best)
  }

  /**
    `find_human_bias(n)`: among the human's moves in the window, one of
    largest count; on a tie, the one that appears first.
   */
  function FindHumanBias(history: seq<Round>, n: nat): (r: Move)
    requires |history| > 0
    ensures var w := HumanMoves(Window(history, n));
      r in w && MostFrequent(w, r) &&
      forall x :: x in w && Count(w, x) == Count(w, r) ==> FirstIndex(w, r) <= FirstIndex(w, x)
  {
    var w := HumanMoves(Window(history, n));
    assert w[..1] == [w[0]];
    var r := BiasScan(w, 1, w[0]);
    forall x
      ensures Count(w, x) <= Count(w, r)
    {
      if x in w {
        var j := FirstIndex(w, x);
      }
    }
    r
  }

  /**
    `intelligent_choose(n)`: with no history any move; otherwise the loop
    keeps sampling until the move beats the human's bias, and some move
    always does.
   */
  method IntelligentChoose(history: seq<Round>, n: nat) returns (m: Move)
    ensures |history| > 0 ==> WinsAgainst(m, FindHumanBias(history, n))
  {
    if |history| == 0 {
      assert Rock in AllMoves;
      m :| m in AllMoves;
    } else {
      var bias := FindHumanBias(history, n);
      EveryMoveBeatable(bias);
      m :| m in AllMoves && WinsAgainst(m, bias);
    }
  }

  /** `choose` of each computer subclass. */
  method Choose(kind: ComputerKind, history: seq<Round>) returns (m: Move)
    ensures kind == Furby ==> m == Rock
    ensures kind == R2D2 && |history| > 0 ==> WinsAgainst(m, FindHumanBias(history, 5))
    ensures kind == Hal && |history| > 0 ==> WinsAgainst(m, FindHumanBias(history, 7))
    ensures kind == Chappie && |history| > 0 ==> WinsAgainst(m, FindHumanBias(history, 1))
  {
    match kind
    case R2D2 => m := IntelligentChoose(history, 5);
    case Hal => m := IntelligentChoose(history, 7);
    case Chappie => m := IntelligentChoose(history, 1);
    case Furby => m := Rock;
    case Bot =>
      assert Rock in AllMoves;
      m :| m in AllMoves;
  }

  // ---------------------------------------------------------------------------
  // Rounds and scores

  /** `match_winner`: the human if their move `>` the computer's, the computer if `<`, else a tie. */
  function MatchWinner(human: Move, computer: Move): (r: Winner)
    ensures r == HumanWins <==> WinsAgainst(human, computer)
    ensures r == ComputerWins <==> WinsAgainst(computer, human)
    ensures r == Tie <==> human == computer
  {
    TablesAgree(human, computer);
    Irreflexive(human);
    if Gt(human, computer) then HumanWins
    else if Lt(human, computer) then ComputerWins
    else Tie
  }

  /** `update_score`: the round's winner, if any, gains one point. */
  function UpdateScore(s: Scores, human: Move, computer: Move): (r: Scores)
    ensures r.human == s.human + 1 <==> WinsAgainst(human, computer)
    ensures r.computer == s.computer + 1 <==> WinsAgainst(computer, human)
    ensures r.human + r.computer == s.human + s.computer + (if human == computer then 0 else 1)
    ensures r.human >= s.human && r.computer >= s.computer
  {
    match MatchWinner(human, computer)
    case HumanWins => s.(human := s.human + 1)
    case ComputerWins => s.(computer := s.computer + 1)
    case Tie => s
  }

  /** `game_winner?` */
  predicate GameWinner(s: Scores) {
    s.human >= WinningScore || s.computer >= WinningScore
  }

  /** `record_moves`: the round is appended, marked as won when the computer won it. */
  function RecordMoves(history: seq<Round>, game: int, human: Move, computer: Move): (r: seq<Round>)
    ensures |r| == |history| + 1 && r[..|history|] == history
    ensures r[|history|].human == human && r[|history|].computer == computer && r[|history|].game == game
    ensures r[|history|].computerWon <==> WinsAgainst(computer, human)
  {
    history + [Round(game, human, computer, MatchWinner(human, computer) == ComputerWins)]
  }
}
