# Tic-tac-toe for two players at one console, modelled in Dafny

The program keeps a board of nine cells, each blank, `X` or `O`. X moves first. Each turn the
player to move types a position 1..9. A line that is not a decimal number, names a position
outside 1..9, or names a marked cell is refused and the same player is asked again. An
accepted position is marked with the player's letter. After each accepted move the game checks
whether the mover now owns one of the eight lines (three rows, three columns, two diagonals). If
so, the mover wins. Otherwise, if no blank cell is left, the game is a tie. Otherwise the turn
passes to the other player.

The model has three modules:

- `Board` (board.dfy): cells, the eight lines in the order the program lists them, `Wins`
  (check_winner's question on a board value), `IsFull` (check_tie) and mark counting. It also
  proves that the eight listed triples are exactly the rows, columns and diagonals of the grid
  when a cell is addressed as `row * 3 + column`.
- `Moves` (moves.dfy): reading a typed line as a number, and `Judge`, the checks `player_move`
  applies before it marks a cell.
- `TicTacToe` (tic_tac_toe.dfy): class `Game` holds the board as a nine-cell array updated in
  place. `PlayerMove`, `CheckWinner` and `PlayGame` are imperative methods. `PlayGame` is proved
  equal to `Play`, a function that runs the turn loop on board values. The game's invariants are
  lemmas about `Play`: marks alternate starting with X, every accepted move fills one blank cell,
  at most nine moves are accepted, the win check comes before the tie check, and nobody owns a
  line when a turn starts.

Keyboard input is a parameter. `PlayerMove` takes one typed line. `PlayGame` takes the whole
sequence of lines the players would type. A refused line stands for one pass of the re-prompt
loop. If the lines run out before the game ends, `PlayGame` stops with
`AwaitingInput(next player)`, which is where the program would wait at the keyboard.

## Model

| member | source | states |
|---|---|---|
| `TicTacToe.Game.constructor` | tic_tac_toe.py:3 | The game starts with a board of exactly nine blank cells. |
| `Board.EmptyBoard` | tic_tac_toe.py:3 | The starting board has nine cells and every one is blank. |
| `Board.Other` | tic_tac_toe.py:64 | The turn passes from X to O and from O to X, never to the same player. |
| `Moves.Judge` | tic_tac_toe.py:18-28 | An input is refused as not a number exactly when it is empty or has a non-digit. It is refused as out of range exactly when its value is not 1..9. It is refused as taken exactly when cell value-1 is marked. It is accepted exactly when it is 1..9 and names a blank cell, and then the chosen cell is value-1. |
| `TicTacToe.Game.PlayerMove` | tic_tac_toe.py:18-30 | Returns the verdict `Judge` gives on the old board. A refused input leaves every cell unchanged. An accepted one sets cell value-1 to the player and changes no other cell. |
| `Moves.IsDigits` | tic_tac_toe.py:18 | A line fails the digit check exactly when it is empty or some character in it is not a digit 0-9. |
| `Moves.DigitsValue` | tic_tac_toe.py:22 | The number a digit string reads as is below 10 to the power of its length, and it is zero exactly when every digit is '0' (so "0" and "00" are out of range). |
| `Moves.Decimal` | tic_tac_toe.py:18 | The decimal spelling of any number is a non-empty string of digits, so it passes the digit check. |
| `Moves.DecimalRoundTrip` | tic_tac_toe.py:18-22 | Reading back the decimal spelling of any number gives that number. |
| `Moves.LeadingZero` | tic_tac_toe.py:22 | A leading zero does not change the number read ("07" is 7). |
| `Moves.SelectCell` | tic_tac_toe.py:22-28 | Typing k+1 selects cell k. It is accepted exactly when cell k is blank and refused as taken otherwise. |
| `TicTacToe.Game.CheckWinner` | tic_tac_toe.py:32-42 | Returns true exactly when one of the eight listed triples holds the player's mark in all three cells. The board is not changed. |
| `Board.LinesAreDistinctTriples` | tic_tac_toe.py:33-37 | There are eight listed lines. Each is three different cells in ascending order, and no line is listed twice. |
| `Board.Completes` | tic_tac_toe.py:40 | A line counts as completed when all three of its cells hold the player's mark. When those are three different cells, the player has at least three marks on the board. |
| `Board.ThreeInARow` | tic_tac_toe.py:40 | Three different cells holding the same mark make a count of at least three for that mark. |
| `Board.Wins` | tic_tac_toe.py:39-42 | The player owns some listed line. A player who does has at least three marks on the board. |
| `Board.WinsIffRowColumnOrDiagonal` | tic_tac_toe.py:33-37 | Owning a listed triple is the same as filling a whole row, a whole column or one of the two diagonals, with cell = row*3+column. |
| `Board.LineIsRowColumnOrDiagonal` | tic_tac_toe.py:33-37 | Every listed triple is a row, a column or a diagonal. |
| `Board.RowColumnOrDiagonalIsLine` | tic_tac_toe.py:33-37 | Every row, column and diagonal is among the listed triples. |
| `Board.IsFull` | tic_tac_toe.py:44-45 | The tie check holds exactly when no cell is blank. |
| `Board.Count` | tic_tac_toe.py:45 | A mark is counted at most once per cell, and its count is zero exactly when the mark does not occur. |
| `Board.FullIffNoBlanks` | tic_tac_toe.py:44-45 | The board is full exactly when it has zero blank cells. |
| `Board.CountUniform` | tic_tac_toe.py:3 | A board with one value in every cell has that value in all nine cells, so the start has nine blanks. |
| `Board.CountAfterUpdate` | tic_tac_toe.py:29 | Writing a value into a cell changes each value's count by exactly what left that cell and what entered it. |
| `Board.PlaceCounts` | tic_tac_toe.py:29 | Marking a blank cell leaves one blank fewer and one more of the mover's mark. The opponent's count is unchanged. |
| `Board.PlaceKeepsOtherLines` | tic_tac_toe.py:29 | A move by one player never completes a line for anybody else. |
| `TicTacToe.Play` | tic_tac_toe.py:47-64 | The turn loop on board values keeps a nine-cell board, and it accepts at most one move per typed line. |
| `TicTacToe.FillsCons` | tic_tac_toe.py:29 | Playing one move on a blank cell before a run that fills the board legally gives a run that also fills it legally. |
| `TicTacToe.PlayFills` | tic_tac_toe.py:48-64 | Each accepted move marks a cell that was blank. No cell is marked twice. The marks alternate starting with the player to move. Every other cell is unchanged. |
| `TicTacToe.PlayUsesBlanks` | tic_tac_toe.py:29 | The number of accepted moves is exactly the number of blank cells they used up. |
| `TicTacToe.PlayTurnOrder` | tic_tac_toe.py:48-64 | A win goes to the player who made the last accepted move. A tie comes only after a move. A run waiting for input waits on the player given by the parity of the move count. |
| `TicTacToe.TurnStep` | tic_tac_toe.py:54-64 | After one accepted move from a turn start, the opponent has no line and the mark balance passes to the opponent. If the game goes on, the opponent's turn is again a turn start. |
| `TicTacToe.PlayOutcome` | tic_tac_toe.py:50-64 | From a turn start (balanced marks, no line, a blank cell) the loop ends in one of three ways. A win leaves a line only for the winner. A tie leaves a full board with no line. Running out of input stops at another turn start. X is always level with O or one mark ahead. |
| `TicTacToe.EmptyBoardIsTurnStart` | tic_tac_toe.py:48 | X's first turn is a turn start: nine blanks, no marks and no line. |
| `TicTacToe.GameMoves` | tic_tac_toe.py:47-64 | In a game from the empty board, X moves first and at most nine moves are accepted. A tie takes exactly nine. A game waiting for input has had fewer than nine. The winner made the last move. |
| `TicTacToe.GameFromStart` | tic_tac_toe.py:47-64 | Every game from the empty board keeps both the move record above and the outcome guarantees of `PlayOutcome`. |
| `TicTacToe.WinBeatsTie` | tic_tac_toe.py:54-62 | A move that fills the last blank cell and completes a line ends the game as a win, not a tie. |
| `TicTacToe.LastCellWin` | tic_tac_toe.py:54-62 | On the board X O X / O X O / O X _, X typing "9" completes the 1-5-9 diagonal. The game ends as X's win on a full board. |
| `TicTacToe.Game.PlayGame` | tic_tac_toe.py:47-64 | The loop's outcome, final board and accepted moves equal those of `Play` from the empty board with X first. They therefore meet every guarantee of `GameFromStart`. |

## Left out

- `print_board` and every message printed (tic_tac_toe.py:5-12, 19, 25, 27, 56, 61): console output only.
- `input()` and the re-prompt loop of `player_move` (tic_tac_toe.py:15-16): I/O. The typed lines are parameters. A refused line in `PlayGame` plays the role of one re-prompt.
- Waiting for the keyboard: the program blocks until a line is typed. The model ends with `AwaitingInput` when its given lines run out.
- `str.isdigit` also accepts non-ASCII digit characters, and `int()` may reject some of them. The model accepts exactly non-empty strings of the ASCII digits 0-9.
- `int()` length limit (tic_tac_toe.py:22): since CPython 3.11, `int()` raises `ValueError` on a string of more than 4300 digits, and leading zeros count toward that limit. Such a line passes `isdigit()` at tic_tac_toe.py:18, and the uncaught exception ends the program. The model reads digit strings of any length.
- Moves.Judge: does not model the 4300-digit limit of `int()`. A longer digit line is judged `OutOfRange`, or placed when its value is 1..9 (4300 zeros followed by "5" gives `Placed(4)`), where the program would stop with `ValueError`.
- Moves.LeadingZero: holds for digit strings of every length, while the program only reads lines of at most 4300 digits without error.
- The module-level call `play_game()` (tic_tac_toe.py:66) and the global variable: the board is a field of `Game`, and `PlayGame` requires the fresh, all-blank board that the program starts with.
- The program has no computer opponent, no restart and no score keeping, and it does not report which line won, so the model has none of these.
