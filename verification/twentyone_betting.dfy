/**
  The player's money in twentyone_2.rb: cash and wager bookkeeping, who wins
  a round, settling the bet, and how the session ends.
 */
module TwentyOneBetting {
  import opened Options
  import opened TwentyOneCards

  /** `Player`'s `cash`, the `@starting_cash` it is compared with at the end, and the `wager`. */
  datatype Player = Player(cash: int, startingCash: int, wager: int)

  /** The four symbols `winnings_vs_starting_cash` answers with. */
  datatype Standing = Profit | BreakEven | PartialLoss | TotalLoss

  /**
    A new player: `set_cash` only lets a positive amount through, and that
    amount is both the cash and the starting cash; the wager starts at 0.
   */
  function NewPlayer(answer: int): (r: Option<Player>)
    ensures r.Some? <==> answer > 0
    ensures r.Some? ==> r.value.cash == r.value.startingCash == answer && r.value.wager == 0
  {
    if answer > 0 then Some(Player(answer, answer, 0)) else None
  }

  /**
    The exit test of the bet prompt: any positive amount is accepted. The
    message about affordability is printed only while the loop continues,
    so an amount above the player's cash is accepted too.
   */
  function AcceptBet(answer: int): (r: Option<int>)
    ensures r.Some? <==> answer > 0
    ensures r.Some? ==> r.value == answer
  {
    if answer > 0 then Some(answer) else None
  }

  /** `place_bet` */
  function PlaceBet(p: Player, amount: int): (r: Player)
    ensures r.wager == amount && r.cash == p.cash && r.startingCash == p.startingCash
  {
    p.(wager := amount)
  }

  /** `resolve_win`: the wager is added to the cash and cleared. */
  function ResolveWin(p: Player): (r: Player)
    ensures r.cash - p.cash == p.wager && r.wager == 0 && r.startingCash == p.startingCash
  {
    Player(p.cash + p.wager, p.startingCash, 0)
  }

  /** `resolve_loss`: the wager is taken from the cash and cleared. */
  function ResolveLoss(p: Player): (r: Player)
    ensures p.cash - r.cash == p.wager && r.wager == 0 && r.startingCash == p.startingCash
  {
    Player(p.cash - p.wager, p.startingCash, 0)
  }

  /** `broke?`: exactly zero cash. */
  predicate Broke(p: Player) {
    p.cash == 0
  }

  /** `winnings_vs_starting_cash` */
  function WinningsVsStartingCash(p: Player): Standing {
    if p.cash > p.startingCash then Profit
    else if p.cash == p.startingCash then BreakEven
    else if p.cash > 0 then PartialLoss
    else TotalLoss
  }

  /** `dealer_won?`: the player busted, or the dealer did not and has at least as much. */
  predicate DealerWon(player: seq<Card>, dealer: seq<Card>) {
    Busted(player) || (HandValue(player) <= HandValue(dealer) && !Busted(dealer))
  }

  /** `player_won?` */
  predicate PlayerWon(player: seq<Card>, dealer: seq<Card>) {
    !DealerWon(player, dealer)
  }

  /** `resolve_bet`: a win pays the wager, anything else costs it. */
  function ResolveBet(p: Player, player: seq<Card>, dealer: seq<Card>): (r: Player)
    ensures r.wager == 0 && r.startingCash == p.startingCash
    ensures r == ResolveWin(p) || r == ResolveLoss(p)
    ensures p.wager > 0 ==>
      (r.cash > p.cash <==> !Busted(player) && (Busted(dealer) || HandValue(player) > HandValue(dealer)))
    ensures p.wager > 0 ==> (r.cash < p.cash <==> DealerWon(player, dealer))
  {
    if PlayerWon(player, dealer) then ResolveWin(p) else ResolveLoss(p)
  }
}
