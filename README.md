# Tic-tac-toe board, modelled in Dafny

This project models the board of a small Rust tic-tac-toe program
(`src/tictactoe.rs`). The board is a 3×3 grid of nine cells. Columns are
`a`..`c` and rows are `0`..`2`, so the cells are `a0` through `c2`.

- A cell holds `Empty`, `O` or `X`. A new cell is `Empty`.
- A cell is drawn as one character: a blank, `O` or `X`.
- A cell is written through `set`. It accepts only the characters `'o'` and
  `'x'`, and only while the cell is still empty.
- The board has one mutator, `process_turn(player, position)`. It checks
  that the player is `'o'` or `'x'`. It then hands the player to `set` on
  the cell that the position label names. It returns whether the turn was
  taken. A failed turn changes nothing.

All of it is in one module, `TicTacToe` (`tictactoe.dfy`):

- `Cell` is a datatype. `Display` is the drawing of a cell. `MarkOf` maps a
  player character to the mark it writes.
- `SetCell` is the cell's `set`. The source mutates the cell through a
  mutable reference, so here the method takes the cell in and hands the new
  cell back.
- `Board` is a class with the nine cell fields of the source. Its
  constructor is the derived `Default`. `ProcessTurn` changes one field in
  place.
- `ProcessTurn` is proved against `Turn`, a function that states a turn's
  effect on the nine cells as a value. Cells are numbered row by row
  (a0, b0, c0, a1, …), the order in which the board declares its fields.
- Properties that relate several turns use `Play`. It takes a series of
  moves one after the other, as a caller of `process_turn` does. Two of
  them are that a marked cell keeps its mark and that no new board accepts
  more than nine moves.

## Model

| member | source | states |
|---|---|---|
| `TicTacToe.Display` | src/tictactoe.rs:43-50 | a cell is drawn as a blank exactly when it is empty |
| `TicTacToe.DisplayInjective` | src/tictactoe.rs:44-48 | the three cell values are drawn as three different characters |
| `TicTacToe.MarkOf` | src/tictactoe.rs:75-79 | a character names a player, and so a mark, exactly when it is lower-case `'o'` or `'x'`; `'o'` gives `O`, `'x'` gives `X` |
| `TicTacToe.StoredMarkShownUpperCase` | src/tictactoe.rs:44-77 | the mark stored for a player's lower-case letter is drawn as the same letter in upper case, never as the letter typed |
| `TicTacToe.SetCell` | src/tictactoe.rs:70-81 | on a marked cell it fails and keeps the cell, whatever the character; on an empty cell, `'o'` gives `O` and `'x'` gives `X` with success, and any other character fails and leaves it empty |
| `TicTacToe.Slot` | src/tictactoe.rs:139-149 | a position label names at most one of the nine cells |
| `TicTacToe.SlotOfLabel` | src/tictactoe.rs:139-149 | each of the nine cells is named by its column-letter, row-digit label |
| `TicTacToe.LabelOfSlot` | src/tictactoe.rs:139-149 | a label that names a cell is exactly that cell's column letter and row digit, so only the nine lower-case labels are accepted |
| `TicTacToe.SlotRejects` | src/tictactoe.rs:149 | every string that is not a column letter `a`..`c` followed by a row digit `0`..`2` (another case, another letter or digit, shorter, longer or empty) names no cell |
| `TicTacToe.TurnRejectsPlayer` | src/tictactoe.rs:134-138 | a turn by a player other than `'o'` or `'x'` fails and leaves the board unchanged |
| `TicTacToe.TurnRejectsPosition` | src/tictactoe.rs:139-149 | a turn at a position that is not one of the nine labels fails and leaves the board unchanged |
| `TicTacToe.TurnEffect` | src/tictactoe.rs:140-148 | a turn succeeds exactly when the player is valid, the label names a cell and that cell is empty; on success that cell gets the player's mark and the other eight are unchanged; on failure nothing changes |
| `TicTacToe.TurnKeepsMarks` | src/tictactoe.rs:71-74 | a turn never changes a cell that already holds a mark |
| `TicTacToe.PlayKeepsMarks` | src/tictactoe.rs:71-74 | after any series of turns a marked cell still holds its mark: cells never return to `Empty` or change hands |
| `TicTacToe.WriteOnce` | src/tictactoe.rs:140-148 | after a successful turn at a position, every later turn at that position, by either player and after any other turns, fails and leaves the board unchanged |
| `TicTacToe.PlayFills` | src/tictactoe.rs:76-80 | every successful turn marks exactly one more cell, so the number of marked cells grows by the number of accepted turns |
| `TicTacToe.AtMostNineAccepted` | src/tictactoe.rs:89-94 | on a new board at most nine turns are ever accepted, however many are tried |
| `TicTacToe.Board.constructor` | src/tictactoe.rs:89-94 | a new board has all nine cells empty, as each cell's default is empty |
| `TicTacToe.Board.ProcessTurn` | src/tictactoe.rs:133-151 | the result and the board's new cells are exactly those of `Turn` on the old cells |

## Left out

- `Board::draw` (src/tictactoe.rs:106-111) writes the grid to standard output. Only the drawing of a single cell (`Display`) is modelled.
- `src/main.rs` is a demo driver that builds a board, draws it and makes three fixed moves. It holds no logic of its own.
- The `Formatter` plumbing of `Display::fmt`: only the value-to-character mapping is modelled, not the write into a formatter or its error result.
- Win and draw detection, the turn counter, the active player, the game state and the retry loop are not in the board's source, so they are not modelled.
- `Play`, `Accepted` and `Filled` are not operations of the source. They describe a caller issuing `process_turn` calls one after the other, so that properties across several turns can be stated.
