/**
  The moves of rps_move_classes.rb's Rock-Paper-Scissors-Lizard-Spock: the
  five `Move` subclasses become one enumeration and their
  `wins_against?` / `loses_against?` methods become two relations.
 */
module RpsMoves {
  import opened Options

  datatype Move = Rock | Paper | Scissors | Lizard | Spock

  /** `Move::VALUES` */
  const Values: seq<string> := ["rock", "paper", "scissors", "lizard", "spock"]

  const AllMoves: seq<Move> := [Rock, Paper, Scissors, Lizard, Spock]

  /** `Move#to_s`: the lower-cased class name, which is the move's entry in `VALUES`. */
  function Name(m: Move): string {
    match m
    case Rock => "rock"
    case Paper => "paper"
    case Scissors => "scissors"
    case Lizard => "lizard"
    case Spock => "spock"
  }

  /** `Move.create_move`: the move named by `s`, or nil for any other string. */
  function CreateMove(s: string): (r: Option<Move>)
    ensures r.Some? <==> s in Values
    ensures r.Some? ==> Name(r.value) == s
  {
    if s == "rock" then Some(Rock)
    else if s == "paper" then Some(Paper)
    else if s == "scissors" then Some(Scissors)
    else if s == "lizard" then Some(Lizard)
    else if s == "spock" then Some(Spock)
    else None
  }

  /** The five `wins_against?` tables. */
  predicate WinsAgainst(a: Move, b: Move) {
    match a
    case Rock => b == Scissors || b == Lizard
    case Paper => b == Rock || b == Spock
    case Scissors => b == Paper || b == Lizard
    case Lizard => b == Paper || b == Spock
    case Spock => b == Rock || b == Scissors
  }

  /** The five `loses_against?` tables. */
  predicate LosesAgainst(a: Move, b: Move) {
    match a
    case Rock => b == Paper || b == Spock
    case Paper => b == Scissors || b == Lizard
    case Scissors => b == Rock || b == Spock
    case Lizard => b == Rock || b == Scissors
    case Spock => b == Lizard || b == Paper
  }

  /** `Move#>` */
  predicate Gt(a: Move, b: Move) {
    WinsAgainst(a, b)
  }

  /** `Move#<` */
  predicate Lt(a: Move, b: Move) {
    LosesAgainst(a, b)
  }

  /** The moves `m` beats, `m` loses to. */
  function Beaten(m: Move): set<Move> {
    set b | b in AllMoves && WinsAgainst(m, b)
  }

  function Beaters(m: Move): set<Move> {
    set b | b in AllMoves && LosesAgainst(m, b)
  }
}
