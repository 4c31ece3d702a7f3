# Three console games: rules layers in Dafny

This project models the rules layers of three small Ruby console games and
proves properties about them:

- **Tic-Tac-Toe** (`ttt.rb`). A board of nine squares keyed 1..9. Each square holds the blank
  marker `' '` or a one-character player marker. The board is scanned over eight winning
  lines in a fixed order: rows, then columns, then diagonals. The scans find a winner and the
  square that completes a line ("threat"). The computer's move policy takes a win, else a
  block, else the centre, else any free square.
- **Twenty-One** (`twentyone_2.rb`). The 52-card deck and card values. The hand value with its
  ace adjustment. Busting, the dealer's stand-on-17 rule and who wins a round. The player's
  cash and wager bookkeeping, and the end-of-session standing.
- **Rock-Paper-Scissors-Lizard-Spock** (`rps_move_classes.rb`). The five moves and their
  win/lose tables. The "most frequent human move in the last n rounds" heuristic and the
  computer players built on it. The round winner and scoring.

Everything is immutable data and pure functions. The source's random choices (`sample`,
`shuffle!`) become nondeterministic choice. A free square or a move is picked with `:|` from
a finite collection. The shuffled deck is a parameter that must be some permutation of the
full deck.

Files, one module each:

| file | module | models |
|---|---|---|
| options.dfy | `Options` | `nil`-or-value results |
| ttt_board.dfy | `TttBoard` | `Square`, `Board`, `WINNING_LINES` and the board queries |
| ttt_board_facts.dfy | `TttBoardFacts` | reference definitions of a completed line and a threat; the board lemmas |
| ttt_game.dfy | `TttGame` | `Computer#set_marker`, `computer_moves`, `current_player_moves`, scoring, `game_winner?` |
| twentyone_cards.dfy | `TwentyOneCards` | `Deck` constants, `card_value`, `deal_card`, the `Hand` arithmetic, `Dealer#hit?` |
| twentyone_cards_facts.dfy | `TwentyOneCardsFacts` | deck and hand lemmas |
| twentyone_betting.dfy | `TwentyOneBetting` | `Player` cash and wager, `dealer_won?`, `player_won?`, `resolve_bet`, standings |
| twentyone_betting_facts.dfy | `TwentyOneBettingFacts` | round-outcome and bookkeeping lemmas |
| rps_moves.dfy | `RpsMoves` | `Move`, `VALUES`, `create_move`, the tables, `>` and `<` |
| rps_moves_facts.dfy | `RpsMovesFacts` | the tournament lemmas |
| rps_game.dfy | `RpsGame` | history, `find_human_bias`, the choosers, `match_winner`, `update_score`, `record_moves` |
| rps_game_facts.dfy | `RpsGameFacts` | heuristic and scoring lemmas |

Points where the code decides and this model follows it:

- `threat?` compares the line's sorted distinct markers with `[marker, " "].sort`. That list
  always has two elements, so a blank `marker` never makes a threat. The model has the same
  guard.
- `defensive_play` keeps the last blank key it sees on the line. Under a threat there is
  exactly one blank key, so this is the blank square of that line.
- `find_human_bias(n)` slices `history[-size..-1]` with `size = min(n, history.size)`. When
  `n` is 0 the slice starts at `-0`, which is index 0, so the whole history is used, not an
  empty window. The callers pass 1, 5 and 7.
- `group_by` lists groups in order of first appearance, and `max_by` keeps the first maximum.
  So the bias is the most frequent move, and on a tie the one seen first in the window.
- The bet prompt leaves its loop on any positive amount. The "amount you can afford"
  message is printed only while the loop repeats. So a wager may exceed the cash, and losing
  it makes the cash negative. A negative balance is not `broke?` (that is exactly 0), and it
  ranks as `:total_loss`.
- `Board#[]=` does not check that the square is free. `Mark` does not check either. The
  lemmas that need a free square state that as a precondition.
- The human's marker can be any one character, and the code does not stop it from being the
  blank. `ComputerMoves`, `CurrentPlayerMoves` and `TttGame.Game.Valid` require it to be
  non-blank.

## Model

| member | source | states |
|---|---|---|
| TttBoardFacts.UnmarkedKeysSpec | ttt.rb:30-32 | `unmarked_keys` holds exactly the unmarked keys, in strictly ascending order |
| TttBoard.Mark | ttt.rb:85-87 | the marked square takes the marker and every other square is unchanged |
| TttBoardFacts.OccupancyAccounting | ttt.rb:30-40 | unmarked keys plus marked squares number nine; `full?` iff every square is marked; `empty?` iff none is |
| TttBoardFacts.ResetIsEmpty | ttt.rb:81-83 | after `reset` every key is unmarked and listed by `unmarked_keys`; the board is empty and not full, and has no winning marker and no threat |
| TttBoardFacts.ThreeIdenticalIffOwned | ttt.rb:95-98 | `three_identical_markers?` holds iff one non-blank marker fills all three squares of the line |
| TttBoardFacts.ThreatIffOneShort | ttt.rb:75-79 | `threat?` holds iff the marker is non-blank and the line has exactly two of it and one blank |
| TttBoardFacts.WinningMarkerSpec | ttt.rb:46-55 | `winning_marker` returns m iff m owns the first completed line in line order; nil iff no line is completed; never the blank |
| TttBoardFacts.DefensivePlaySpec | ttt.rb:57-69 | `defensive_play(m)` returns k iff k is the blank square of the first line with two m and one blank; nil iff no such line; the key is unmarked |
| TttBoardFacts.OffensivePlayCompletesLine | ttt.rb:71-73 | marking the square `offensive_play(m)` returns with m completes a line for m, so `match_winner?` holds; with no earlier winner the winner is m |
| TttBoardFacts.MarkTakesOneSquare | ttt.rb:85-87 | marking a free square with a player marker removes just that key from the unmarked keys, and the marked count grows by one |
| TttGame.ComputerMarker | ttt.rb:166-172 | the computer's marker is 'X' or 'O', is never blank, and always differs from the human's |
| TttGame.ComputerMoves | ttt.rb:248-268 | the chosen square was unmarked; it completes a win when one exists, else it blocks the human's threat, else it is 5 when 5 is free; only that square changes, to the computer's marker |
| TttGame.CurrentPlayerMoves | ttt.rb:210-222 | the player to move marks one free square (the human's accepted square, or the computer's choice), the turn passes to the other player, and markers and scores are unchanged |
| TttGame.ScoreMatch | ttt.rb:277-286 | the human's or the computer's score rises by one exactly when that player owns the first completed line; a board without a winner changes nothing |
| TttGame.GameWonAtWinningScore | ttt.rb:326-328 | from a game not yet won, `game_winner?` after scoring means some score is exactly 5 and the board had a winner |
| TttGame.Scenarios | ttt.rb:57-73 | with X on 1 and 2, X's offensive play is 3; with X on 1 and 5, O has no win and X's threat is blocked at 9 |
| TwentyOneCards.CardValueTable | twentyone_2.rb:110-112 | numerals are worth their number, Jack/Queen/King 10, Ace 11, so every type is worth 2 to 11 |
| TwentyOneCards.DealCard | twentyone_2.rb:80-83 | an empty deck is refilled with a shuffled full deck first; the dealt card is the last card, the deck shrinks by one, and no card is lost |
| TwentyOneCards.TakeTens | twentyone_2.rb:25-28 | the ace loop removes 10 k times, 1 ≤ k ≤ aces, stopping at the first k that reaches 21 or less, or at k = aces |
| TwentyOneCards.AdjustForAces | twentyone_2.rb:22-32 | the total is unchanged when it is at most 21 or there is no ace; otherwise 10 comes off for the least number of aces that reaches 21, or for every ace |
| TwentyOneCardsFacts.FullDeckSpec | twentyone_2.rb:93-99 | the refilled deck has one card for every (suit, type) pair, no duplicates, 52 cards, each worth its type's value |
| TwentyOneCardsFacts.DealStaysWithinFullDeck | twentyone_2.rb:80-99 | dealing from a deck within the full deck yields a full-deck card worth 2 to 11 and leaves a deck within the full deck |
| TwentyOneCardsFacts.HandValueBounds | twentyone_2.rb:11-36 | `hand_value` lies between the sum with aces as 1 and the plain sum; equals the sum when that is at most 21; a busted hand has counted every ace as 1 |
| TwentyOneCardsFacts.ResetHandValue | twentyone_2.rb:47-49 | an emptied hand is worth 0, is not busted, and a dealer holding it hits |
| TwentyOneCardsFacts.DealerStandsOnSeventeen | twentyone_2.rb:145-147 | a dealer who hits is not busted; a dealer who stands unbusted holds 17 to 21 |
| TwentyOneCardsFacts.TwoAces | twentyone_2.rb:22-32 | two aces are worth 12: one ace drops to 1 and the loop stops |
| TwentyOneBetting.NewPlayer | twentyone_2.rb:159-164 | a player exists only for a positive cash answer; cash and starting cash are that answer; the wager is 0 |
| TwentyOneBetting.AcceptBet | twentyone_2.rb:266-274 | the bet prompt accepts exactly the positive amounts, whatever the cash |
| TwentyOneBetting.PlaceBet | twentyone_2.rb:166-168 | the wager becomes the amount; cash and starting cash are untouched |
| TwentyOneBetting.ResolveWin | twentyone_2.rb:170-173 | cash grows by the wager and the wager resets to 0 |
| TwentyOneBetting.ResolveLoss | twentyone_2.rb:175-178 | cash shrinks by the wager and the wager resets to 0 |
| TwentyOneBetting.ResolveBet | twentyone_2.rb:334-340 | exactly one of win or loss is applied; with a positive wager the cash rises iff the player stood unbusted and the dealer busted or holds less, and it falls iff `dealer_won?` |
| TwentyOneBettingFacts.RoundOutcome | twentyone_2.rb:342-349 | exactly one side wins; a busted player always loses; a busted dealer loses to an unbusted player; otherwise the higher value wins and ties go to the dealer |
| TwentyOneBettingFacts.WinThenLoseRestoresCash | twentyone_2.rb:166-178 | winning and then losing the same wager, or the reverse, restores the cash |
| TwentyOneBettingFacts.StandingPartition | twentyone_2.rb:184-194 | for a positive starting cash: profit iff above it, break-even iff equal, partial loss iff strictly between 0 and it, total loss iff 0 or below |
| TwentyOneBettingFacts.OverBetDrivesCashNegative | twentyone_2.rb:262-275 | an accepted wager above the cash, once lost, leaves negative cash that is not `broke?` and ranks as total loss |
| TwentyOneBettingFacts.SettledRoundMovesCash | twentyone_2.rb:159-194 | a new player breaks even; after one settled positive bet the cash has moved by exactly the wager, into profit or loss |
| RpsMoves.CreateMove | rps_move_classes.rb:103-113 | a move is created exactly for the five `VALUES` strings, and its name is that string; any other string gives nil |
| RpsMovesFacts.NameRoundTrip | rps_move_classes.rb:103-116 | every move's name is in `VALUES`, and `create_move` of it gives the move back |
| RpsMovesFacts.Irreflexive | rps_move_classes.rb:148-196 | no move beats itself or loses to itself |
| RpsMovesFacts.TablesAgree | rps_move_classes.rb:139-196 | a beats b iff b loses to a; of two distinct moves exactly one beats the other; a move never both beats and loses to the same move |
| RpsMovesFacts.TwoEachWay | rps_move_classes.rb:148-196 | every move beats exactly two moves and loses to exactly two |
| RpsMovesFacts.EveryMoveBeatable | rps_move_classes.rb:56-59 | every move is beaten by some move, so the sampling loop has a move to stop on |
| RpsGame.BiasScan | rps_move_classes.rb:72 | the scan returns a move of the window with maximal count, and on ties the one seen first |
| RpsGame.FindHumanBias | rps_move_classes.rb:65-73 | on a non-empty history, the bias is a human move of the window with maximal frequency, seen before any other move of equal frequency |
| RpsGame.IntelligentChoose | rps_move_classes.rb:49-63 | with a non-empty history the chosen move beats the human's bias |
| RpsGame.Choose | rps_move_classes.rb:76-98 | Furby always plays rock; R2D2, Hal and Chappie beat the bias of the last 5, 7 and 1 rounds |
| RpsGame.MatchWinner | rps_move_classes.rb:237-245 | the human wins iff their move beats the computer's, the computer wins iff its move beats the human's, a tie iff the moves are equal |
| RpsGame.UpdateScore | rps_move_classes.rb:247-249 | only the round's winner gains a point, by one; a tie changes nothing |
| RpsGame.RecordMoves | rps_move_classes.rb:251-253 | the history grows by one round at the end, holding both moves, the game number, and a flag that is set iff the computer won |
| RpsGameFacts.WindowSize | rps_move_classes.rb:67-68 | for positive n the window is the last min(n, size) rounds; for n = 0 it is the whole history |
| RpsGameFacts.SingleMoveIsTheBias | rps_move_classes.rb:65-73 | a human who played only x in the window has bias x |
| RpsGameFacts.PredictableHumanIsBeaten | rps_move_classes.rb:49-73 | against such a human the intelligent computer plays a move that beats x |
| RpsGameFacts.GameEndsAtWinningScore | rps_move_classes.rb:268-271 | from scores below 5, `game_winner?` after an update means the winner's score is exactly 5 and the round was not a tie |

## Left out

- Terminal I/O and presentation: `puts`, `gets`, `system 'clear'`, `sleep`, `Board#draw`,
  the `display_*` and `show_hand*` methods, `joinor`, every `to_s`, and the "Shuffling
  cards..." message (the deck's `first_use` flag only controls that message).
- Input loops (`set_name`, `set_marker`, `set_cash`, `prompt_player_for_bet`, `human_moves`,
  `Human#choose`, `play_again?`, `quit_playing?`). Each is replaced by the condition it
  establishes: a positive cash amount (`NewPlayer`), a positive wager (`AcceptBet`), and an
  unmarked square for the human (a precondition of `CurrentPlayerMoves`).
- The top-level loops (`play`, `start`, `deal_cards`, `player_turn`, `dealer_turn`) and the
  score or session resets (`match_reset`, `game_reset`, `score_reset`, `reset_scores`,
  `game_count`). These are control flow driven by input. The rules they apply are modelled
  (`CurrentPlayerMoves`, `DealCard`, `DealerHits`, `ResolveBet`, `UpdateScore`).
- Random names (`NAMES.sample`) and the random pick of the RPS computer player
  (`choose_computer_player`). A computer is one `ComputerKind` value, chosen by the caller.
- TwentyOneCards.ToI: models only the part of `String#to_i` that `card_value` uses, the value
  of the leading decimal digits. Leading blanks, signs and underscores are not modelled,
  because no deck type contains them.
- RpsGame.FindHumanBias: the look-back `n` is a natural number. A negative `n` would index
  from the front of the history, but every caller passes 1, 5 or 7.
- TttGame.ComputerMoves: requires a board that is not full. On a full board `sample` returns
  nil and `board[nil] =` raises. The game loop stops on a full board before that can happen.
- Ruby's `require 'pry'` and the class reflection (`self.class.to_s`, `group_by(&:class)`)
  are replaced by enumerations.
