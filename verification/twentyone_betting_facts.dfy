/** Properties of the Twenty-One round outcome and the money bookkeeping. */
module TwentyOneBettingFacts {
  import opened Options
  import opened TwentyOneCards
  import opened TwentyOneCardsFacts
  import opened TwentyOneBetting

  /**
    Who wins a round, case by case: a busted player always loses (even to a
    busted dealer), a busted dealer loses to a player who stood, and
    otherwise the higher value wins with ties going to the dealer. Exactly
    one side wins.
   */
  lemma RoundOutcome(player: seq<Card>, dealer: seq<Card>)
    ensures DealerWon(player, dealer) != PlayerWon(player, dealer)
    ensures Busted(player) ==> DealerWon(player, dealer)
    ensures !Busted(player) && Busted(dealer) ==> PlayerWon(player, dealer)
    ensures !Busted(player) && !Busted(dealer) ==>
      (PlayerWon(player, dealer) <==> HandValue(player) > HandValue(dealer))
    ensures HandValue(player) == HandValue(dealer) ==> DealerWon(player, dealer)
  {
  }

  /** Winning and then losing the same wager leaves the cash where it started. */
  lemma WinThenLoseRestoresCash(p: Player, amount: int)
    ensures ResolveLoss(PlaceBet(ResolveWin(PlaceBet(p, amount)), amount)).cash == p.cash
    ensures ResolveWin(PlaceBet(ResolveLoss(PlaceBet(p, amount)), amount)).cash == p.cash
  {
  }

  /**
    The four end-of-session standings partition every cash amount for a
    positive starting cash: profit above it, break-even at it, partial loss
    strictly between 0 and it, total loss at 0 or below.
   */
  lemma StandingPartition(p: Player)
    requires p.startingCash > 0
    ensures WinningsVsStartingCash(p) == Profit <==> p.cash > p.startingCash
    ensures WinningsVsStartingCash(p) == BreakEven <==> p.cash == p.startingCash
    ensures WinningsVsStartingCash(p) == PartialLoss <==> 0 < p.cash < p.startingCash
    ensures WinningsVsStartingCash(p) == TotalLoss <==> p.cash <= 0
  {
  }

  /**
    Nothing stops a wager above the player's cash: losing it leaves the cash
    negative, which is a total loss but not `broke?`, so the session would
    continue.
   */
  lemma OverBetDrivesCashNegative(p: Player, amount: int)
    requires p.startingCash > 0 && p.cash < amount
    requires AcceptBet(amount) == Some(amount)
    ensures ResolveLoss(PlaceBet(p, amount)).cash < 0
    ensures !Broke(ResolveLoss(PlaceBet(p, amount)))
    ensures WinningsVsStartingCash(ResolveLoss(PlaceBet(p, amount))) == TotalLoss
  {
  }

  /** A fresh player breaks even, and a round settled with a positive wager never breaks even against the previous cash. */
  lemma SettledRoundMovesCash(answer: int, amount: int, player: seq<Card>, dealer: seq<Card>)
    requires NewPlayer(answer).Some? && AcceptBet(amount).Some?
    ensures WinningsVsStartingCash(NewPlayer(answer).value) == BreakEven
    ensures var p := NewPlayer(answer).value;
      var r := ResolveBet(PlaceBet(p, amount), player, dealer);
      (r.cash == p.cash + amount && WinningsVsStartingCash(r) == Profit) ||
      (r.cash == p.cash - amount && WinningsVsStartingCash(r) != Profit && WinningsVsStartingCash(r) != BreakEven)
  {
  }
}
