/**
 The game engine: the board, whose turn it is and whether the round is
 live, changed in place by the start, cell-click and restart handlers.
 */
module TicTacToe {
  import opened Board
  import Names

  const DefaultXName := "Player X"
  const DefaultOName := "Player O"

  /** What a click on a cell led to: nothing (occupied cell or no live
      round), a win with the line to highlight and the player announced,
      a draw, or the turn passing to the other player. */
  datatype Outcome = Ignored | Won(line: Line, winner: Player) | Drawn | Continued

  /** X is one mark ahead of O. */
  predicate XAhead(b: seq<Cell>)
  {
    Count(b, Mark(X)) == Count(b, Mark(O)) + 1
  }

  /** Every complete line on b holds p's mark. */
  predicate WinsAreBy(b: seq<Cell>, p: Player)
    requires |b| == Size
  {
    forall k :: 0 <= k < |WinningConditions| && Wins(b, k) ==>
      b[WinningConditions[k].a] == Mark(p)
  }

  /** The states the engine can be in. X and O have placed equally many
      marks, or X one more. Before the start dialog is confirmed the board
      is blank, it is X's turn and no round is live. In a live round there
      is no complete line yet and X is ahead exactly when it is O's turn.
      In a finished round the board has a complete line or is full, every
      complete line is the current player's (the one announced), and X is
      ahead exactly when the current player is X, who moved last. */
  predicate Consistent(b: seq<Cell>, current: Player, active: bool, awaitingStart: bool)
  {
    && |b| == Size
    && (Count(b, Mark(X)) == Count(b, Mark(O)) || XAhead(b))
    && (awaitingStart ==> !active && current == X && Blank(b))
    && (active ==> !HasWin(b) && (XAhead(b) <==> current == O))
    && (!active && !awaitingStart ==>
          (HasWin(b) || Full(b)) && WinsAreBy(b, current) && (XAhead(b) <==> current == X))
  }

  /** A blank board, X to move and a live round (what restart sets up)
      is a consistent state. */
  lemma RestartIsConsistent(b: seq<Cell>)
    requires |b| == Size && Blank(b)
    ensures Consistent(b, X, true, false)
  {
    CountAbsent(b, Mark(X));
    CountAbsent(b, Mark(O));
  }

  /** One move in a live round, followed by the result check, leads from a
      consistent state to a consistent state: a finished round when the
      move completes a line or fills the board, otherwise a live round with
      the other player to move. */
  lemma {:induction false} PlayKeepsConsistent(b: seq<Cell>, i: CellIndex, p: Player)
    requires Consistent(b, p, true, false) && b[i] == Empty
    ensures var b' := b[i := Mark(p)];
      if HasWin(b') || Full(b') then Consistent(b', p, false, false)
      else Consistent(b', Other(p), true, false)
  {
    var b' := b[i := Mark(p)];
    CountUpdate(b, i, Mark(p), Mark(X));
    CountUpdate(b, i, Mark(p), Mark(O));
    forall k | 0 <= k < |WinningConditions| && Wins(b', k)
      ensures b'[WinningConditions[k].a] == Mark(p)
    {
      NewLineHoldsMover(b, i, p, k);
    }
  }

  /** In a finished round with a full board and no complete line (a draw),
      X has placed five marks and O four. */
  lemma DrawCounts(b: seq<Cell>, p: Player)
    requires Consistent(b, p, false, false) && Full(b) && !HasWin(b)
    ensures Count(b, Mark(X)) == 5 && Count(b, Mark(O)) == 4
  {
    CountsPartition(b);
    CountAbsent(b, Empty);
  }

  class Game {
    var board: array<Cell>
    var currentPlayer: Player
    var gameActive: bool
    /** The start dialog is showing; it is hidden for good once confirmed. */
    var awaitingStart: bool
    var playerXName: string
    var playerOName: string

    ghost predicate Valid()
      reads this, board
    {
      board.Length == Size &&
      Consistent(board[..], currentPlayer, gameActive, awaitingStart)
    }

    /** The page as loaded: a blank board, X first, no live round until
        the start dialog is confirmed, default names. */
    constructor ()
      ensures Valid() && fresh(board)
      ensures Blank(board[..]) && currentPlayer == X && !gameActive && awaitingStart
      ensures playerXName == DefaultXName && playerOName == DefaultOName
    {
      board := new Cell[Size](_ => Empty);
      currentPlayer := X;
      gameActive := false;
      awaitingStart := true;
      playerXName := DefaultXName;
      playerOName := DefaultOName;
      new;
      CountAbsent(board[..], Mark(X));
      CountAbsent(board[..], Mark(O));
    }

    /** The start dialog's button: takes the typed names (blank ones fall
        back to the defaults) and opens the round. */
    method Start(xInput: string, oInput: string)
      requires Valid() && awaitingStart
      modifies this`playerXName, this`playerOName, this`gameActive, this`awaitingStart
      ensures Valid() && gameActive && !awaitingStart
      ensures playerXName == Names.DefaultName(xInput, DefaultXName)
      ensures playerOName == Names.DefaultName(oInput, DefaultOName)
      ensures unchanged(board) && currentPlayer == old(currentPlayer)
    {
      playerXName := Names.DefaultName(xInput, DefaultXName);
      playerOName := Names.DefaultName(oInput, DefaultOName);
      awaitingStart := false;
      gameActive := true;
      RestartIsConsistent(board[..]);
    }

    /** A click on cell i: ignored when the cell is taken or no round is
        live; otherwise the current player's mark goes into the cell and
        the result check decides between win, draw and next turn. */
    method CellClicked(i: CellIndex) returns (outcome: Outcome)
      requires Valid()
      modifies this`currentPlayer, this`gameActive, board
      ensures Valid()
      ensures old(board[i]) != Empty || !old(gameActive) ==>
                outcome == Ignored && board[..] == old(board[..]) &&
                currentPlayer == old(currentPlayer) && gameActive == old(gameActive)
      ensures old(board[i]) == Empty && old(gameActive) ==>
                outcome != Ignored && board[..] == old(board[..])[i := Mark(old(currentPlayer))]
      ensures outcome.Won? ==>
                && !gameActive && currentPlayer == old(currentPlayer)
                && outcome.winner == currentPlayer
                && board[outcome.line.a] == Mark(outcome.winner)
                && board[outcome.line.b] == Mark(outcome.winner)
                && board[outcome.line.c] == Mark(outcome.winner)
                && FirstWin(board[..], 0).Some?
                && outcome.line == WinningConditions[FirstWin(board[..], 0).value]
      ensures outcome.Drawn? ==>
                !gameActive && currentPlayer == old(currentPlayer) &&
                !HasWin(board[..]) && Full(board[..])
      ensures outcome.Continued? ==>
                gameActive && currentPlayer == Other(old(currentPlayer)) &&
                !HasWin(board[..]) && !Full(board[..])
    {
      if board[i] != Empty || !gameActive {
        return Ignored;
      }
      ghost var before := board[..];
      CellPlayed(i);
      outcome := ResultValidation();
      PlayKeepsConsistent(before, i, old(currentPlayer));
      if outcome.Won? {
        FirstWinFindsAny(board[..]);
      }
    }

    /** Writes the current player's mark into cell i. */
    method CellPlayed(i: CellIndex)
      requires board.Length == Size
      modifies board
      ensures board[..] == old(board[..])[i := Mark(currentPlayer)]
    {
      board[i] := Mark(currentPlayer);
    }

    /** The result check: the first complete line in table order wins for
        the current player and ends the round; otherwise a full board is a
        draw and ends the round; otherwise the turn passes. */
    method ResultValidation() returns (outcome: Outcome)
      requires board.Length == Size
      modifies this`currentPlayer, this`gameActive
      ensures outcome.Won? <==> HasWin(board[..])
      ensures outcome.Won? ==>
                && FirstWin(board[..], 0).Some?
                && outcome.line == WinningConditions[FirstWin(board[..], 0).value]
                && outcome.winner == old(currentPlayer)
                && !gameActive && currentPlayer == old(currentPlayer)
      ensures outcome.Drawn? <==> !HasWin(board[..]) && Full(board[..])
      ensures outcome.Drawn? ==> !gameActive && currentPlayer == old(currentPlayer)
      ensures outcome.Continued? <==> !HasWin(board[..]) && !Full(board[..])
      ensures outcome.Continued? ==>
                gameActive == old(gameActive) && currentPlayer == Other(old(currentPlayer))
    {
      var winning := CheckLines();
      if winning.Some? {
        gameActive := false;
        return Won(WinningConditions[winning.value], currentPlayer);
      }
      var roundDraw := Empty !in board[..];
      if roundDraw {
        gameActive := false;
        return Drawn;
      }
      PlayerChange();
      outcome := Continued;
    }

    /** Walks the winning table in order, skipping lines with an empty cell
        and stopping at the first line whose three marks agree; answers that
        line's position in the table. */
    method CheckLines() returns (winning: Option<nat>)
      requires board.Length == Size
      ensures winning.Some? <==> HasWin(board[..])
      ensures winning.Some? ==>
                winning.value < |WinningConditions| && Wins(board[..], winning.value) &&
                forall k :: 0 <= k < winning.value ==> !Wins(board[..], k)
      ensures winning == FirstWin(board[..], 0)
    {
      winning := None;
      for i := 0 to |WinningConditions|
        invariant winning == None
        invariant forall k :: 0 <= k < i ==> !Wins(board[..], k)
      {
        var winCondition := WinningConditions[i];
        var a := board[winCondition.a];
        var b := board[winCondition.b];
        var c := board[winCondition.c];
        if a == Empty || b == Empty || c == Empty {
          continue;
        }
        if a == b && b == c {
          winning := Some(i);
          break;
        }
      }
      FirstWinIsFirst(board[..], 0);
    }

    /** Hands the turn to the other player. */
    method PlayerChange()
      modifies this`currentPlayer
      ensures currentPlayer == Other(old(currentPlayer))
    {
      currentPlayer := if currentPlayer == X then O else X;
    }

    /** The restart and new-game buttons: a fresh blank board, X to move,
        and a live round, whatever the state before. */
    method Restart()
      requires Valid() && !awaitingStart
      modifies this`board, this`currentPlayer, this`gameActive
      ensures Valid() && fresh(board)
      ensures Blank(board[..]) && currentPlayer == X && gameActive
    {
      gameActive := true;
      currentPlayer := X;
      board := new Cell[Size](_ => Empty);
      RestartIsConsistent(board[..]);
    }
  }
}
