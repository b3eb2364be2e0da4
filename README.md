# Tic-tac-toe game engine

This project models the game engine of a browser tic-tac-toe game for two
players. The engine state is a nine-cell board, with each cell empty or holding
`X` or `O`. Beside the board it keeps the player whose turn it is and a flag
that says whether a round is live. The page starts with a start dialog. Its
button takes the two player names, substitutes a default for a blank one and
opens the round. A click on a cell is ignored when the cell is taken or no
round is live. Otherwise the current player's mark goes into the cell and the
result check runs. The check walks the eight winning lines in a fixed order:
rows, then columns, then diagonals. It stops at the first line whose three
cells hold the same mark. That line is a win for the current player and ends
the round. With no such line, a full board is a draw and also ends the round.
Otherwise the turn passes to the other player. Restart gives a blank board, X
to move and a live round.

The model has three parts:

- `board.dfy` (module `Board`) holds the cells and players, the table of
  winning lines, and the judgements made about a board. These are the first
  complete line in table order (`FirstWin`), fullness, and mark counts.
- `names.dfy` (module `Names`) holds JavaScript's `String.prototype.trim`. It
  uses the exact ECMAScript set of white space and line-terminator
  characters. The module also holds the default-name rule of the start
  dialog.
- `game.dfy` (module `TicTacToe`) holds the class `Game`. Its fields are those
  of the page script: `board` is an `array<Cell>` written in place, and
  `currentPlayer`, `gameActive` and the player names sit beside it. One extra
  field, `awaitingStart`, records that the start dialog is still showing. Each
  event handler is a method. The invariant `Valid()` is the predicate
  `Consistent`. It says that X has placed as many marks as O, or one more. In
  a live round no line is complete, and X is ahead exactly when it is O's
  turn. In a finished round some line is complete or the board is full. Every
  complete line then holds the current player's mark, which is the mark the
  game announces. X is ahead exactly when the current player is X, because a
  win or draw does not pass the turn. Every handler keeps this invariant.
  `scenarios.dfy` (module `Scenarios`) plays two whole games through the
  handlers. In one, X wins on the top row. In the other, nine moves end in a
  draw.

## Model

| member | source | states |
|---|---|---|
| `Board.Other` | script.js:116-117 | the turn always passes to the other mark: the result differs from the argument |
| `Board.FirstWin` | script.js:79-93 | a line the scan reports is a table entry at or after the starting position whose three cells are occupied and equal |
| `Board.FirstWinIsFirst` | script.js:79-93 | the scan reports nothing exactly when no remaining table entry is complete, and every entry before the reported one is incomplete (first match in table order, the `break`) |
| `Board.FirstWinFindsAny` | script.js:79-95 | scanning the whole table finds a line exactly when the board has some complete line |
| `Board.NewLineHoldsMover` | script.js:70-98 | a line completed by a move on a board with no complete line holds the mover's mark |
| `Board.CountUpdate` | script.js:70 | writing one cell adds one to the count of the new content and takes one from the count of the old content; every other count is unchanged |
| `Names.Trim` | script.js:45-46 | the trimmed name is no longer than the input, starts and ends with a character that is not white space, and is empty exactly when the input is all white space |
| `Names.TrimIsSlice` | script.js:45-46 | trimming removes only white space: the result is the slice of the input between an all-white-space prefix and an all-white-space suffix |
| `Names.DefaultName` | script.js:45-46 | a blank or whitespace-only input gives the default name; any other input gives its trimmed form, which is non-empty |
| `TicTacToe.RestartIsConsistent` | script.js:132-135 | a blank board, X to move and a live round satisfy the engine invariant |
| `TicTacToe.PlayKeepsConsistent` | script.js:61-117 | from any consistent live state, a move on an empty cell followed by the result check gives a consistent state. A completed line or full board gives a finished round with the same player; otherwise the round stays live and the other player moves. This is the counting invariant across moves |
| `TicTacToe.DrawCounts` | script.js:105-110 | a drawn board holds five X marks and four O marks |
| `TicTacToe.Game.constructor` | script.js:17-21 | the page starts with a blank board, X first, no live round, the default names and the start dialog showing |
| `TicTacToe.Game.Start` | script.js:44-50 | confirming the start dialog sets the names by the default-name rule and opens the round; the board and the player are unchanged; the invariant holds |
| `TicTacToe.Game.CellClicked` | script.js:57-67 | on a taken cell or with no live round nothing changes; otherwise exactly the clicked cell gets the current player's mark. A win gives the first complete line in table order, ends the round, keeps the player and announces the player whose mark fills the line. A draw means no complete line and a full board, ends the round and keeps the player. Otherwise the round stays live and the turn passes. The invariant holds |
| `TicTacToe.Game.CellPlayed` | script.js:69-70 | the board afterwards is the board before with the clicked cell set to the current player's mark |
| `TicTacToe.Game.ResultValidation` | script.js:75-114 | a win is reported exactly when some line is complete, with the first such line and the current player, and ends the round without toggling. A draw is reported exactly when no line is complete and the board is full, and it also ends the round without toggling. Otherwise the player toggles and the active flag is unchanged |
| `TicTacToe.Game.CheckLines` | script.js:79-93 | the loop finds a line exactly when the board has a complete one; the line it finds is complete and no earlier table entry is; the result agrees with `FirstWin` |
| `TicTacToe.Game.PlayerChange` | script.js:116-117 | the current player becomes the other player |
| `TicTacToe.Game.Restart` | script.js:132-135 | afterwards the board is fresh and blank, X is to move and the round is live, whatever the state before; the invariant holds |
| `Scenarios.TopRowWin` | script.js:57-117 | after start, moves 0, 3, 1, 4, 2 end with a win for X on line (0, 1, 2) |
| `Scenarios.FullBoardDraw` | script.js:57-117 | after start, moves 0, 1, 2, 4, 3, 5, 7, 6, 8 end in a draw |

## Left out

- The page's DOM work is not modelled. This covers element lookup, the status
  text and its player-name formatting, the CSS classes on cells, highlighting
  the winning cells and the result dialog (script.js:1-15, 52-55, 71-72, 97,
  99, 107, 121-130, 136-141). These only present the state. The winning line
  and the announced player come back in the `Outcome` value instead.
- The `setTimeout` delays before the result dialog (script.js:101, 109) are
  not modelled. They schedule presentation and do not change the state.
- The confetti system is not modelled: the canvas sizing, the `Particle`
  class, `startConfetti`, `stopConfetti` and `animateConfetti`
  (script.js:24-30, 145-202). It rests on `Math.random`, floating-point
  positions, canvas drawing, `setInterval` and `requestAnimationFrame`.
  Starting confetti on a win and stopping it on restart are left out for the
  same reason.
- The cell index is not parsed. `parseInt` of the cell's `data-index`
  attribute (script.js:59) becomes a `CellIndex` parameter in the range 0..8.
- Event wiring (script.js:204-206) is not modelled. Each handler is a method
  that a client calls in any order its preconditions allow.
- TicTacToe.Game.Start: requires the start dialog to be showing. The dialog
  holds the button and is hidden for good once confirmed (script.js:47).
- TicTacToe.Game.Restart: requires the start dialog to be closed. A restart
  clicked while the start dialog still shows is not modelled. Such a restart
  followed by play could finish a round that confirming the dialog would
  then reopen.
- Scenarios.FullBoardDraw: confirms the start dialog with empty names only.
  Typed names feed only the display text.

The engine invariant states the counting property in full. The statement "X
is ahead exactly when it is O's turn" holds in a live round only. After X wins,
X is ahead and X is still the current player, because a win does not toggle
the player.
