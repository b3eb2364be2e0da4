/**
 Two complete games played through the engine's handlers, from page load
 and start dialog to the end of the round.
 */
module Scenarios {
  import opened Board
  import opened TicTacToe

  /** The eight lines of b, checked one by one, are all incomplete. */
  lemma NoLineComplete(b: seq<Cell>)
    requires |b| == Size
    requires !Complete(b, Line(0, 1, 2)) && !Complete(b, Line(3, 4, 5)) && !Complete(b, Line(6, 7, 8))
    requires !Complete(b, Line(0, 3, 6)) && !Complete(b, Line(1, 4, 7)) && !Complete(b, Line(2, 5, 8))
    requires !Complete(b, Line(0, 4, 8)) && !Complete(b, Line(2, 4, 6))
    ensures !HasWin(b)
  {
    forall k | 0 <= k < |WinningConditions| ensures !Wins(b, k) {
      if k == 0 {} else if k == 1 {} else if k == 2 {} else if k == 3 {}
      else if k == 4 {} else if k == 5 {} else if k == 6 {} else {}
    }
  }

  /** A click on the empty cell i of a live round that neither completes
      a line nor fills the board: the mark lands and the turn passes. */
  method PlayOn(g: Game, i: CellIndex, after: seq<Cell>)
    requires g.Valid() && g.gameActive && g.board[i] == Empty
    requires after == g.board[..][i := Mark(g.currentPlayer)]
    requires !HasWin(after) && !Full(after)
    modifies g`currentPlayer, g`gameActive, g.board
    ensures g.Valid() && g.gameActive && g.board[..] == after
    ensures g.currentPlayer == Other(old(g.currentPlayer))
  {
    var o := g.CellClicked(i);
  }

  /** The first three moves of the game below: X at 0 and 1, O at 3,
      O to move. */
  method TopRowOpening() returns (g: Game)
    ensures fresh(g) && fresh(g.board) && g.Valid() && g.gameActive && g.currentPlayer == O
    ensures g.board[..] == [Mark(X), Mark(X), Empty, Mark(O), Empty, Empty, Empty, Empty, Empty]
  {
    g := new Game();
    g.Start("", "");
    var b0 := g.board[..];
    var b1 := b0[0 := Mark(X)];
    assert !HasWin(b1) by { NoLineComplete(b1); }
    assert b1[1] == Empty;
    PlayOn(g, 0, b1);
    var b2 := b1[3 := Mark(O)];
    assert !HasWin(b2) by { NoLineComplete(b2); }
    assert b2[1] == Empty;
    PlayOn(g, 3, b2);
    var b3 := b2[1 := Mark(X)];
    assert !HasWin(b3) by { NoLineComplete(b3); }
    assert b3[2] == Empty;
    PlayOn(g, 1, b3);
  }

  /** X plays 0, 1, 2 and O plays 3, 4: X completes the top row with the
      fifth move and is announced the winner. */
  method TopRowWin() returns (outcome: Outcome)
    ensures outcome == Won(Line(0, 1, 2), X)
  {
    var g := TopRowOpening();
    var b3 := g.board[..];
    var b4 := b3[4 := Mark(O)];
    assert !HasWin(b4) by { NoLineComplete(b4); }
    assert b4[2] == Empty;
    PlayOn(g, 4, b4);
    outcome := g.CellClicked(2);
    assert g.board[..] == [Mark(X), Mark(X), Mark(X), Mark(O), Mark(O), Empty, Empty, Empty, Empty];
    assert Wins(g.board[..], 0);
  }

  /** The first three moves of the drawn game below: X at 0 and 2, O at 1,
      O to move. */
  method DrawOpening() returns (g: Game)
    ensures fresh(g) && fresh(g.board) && g.Valid() && g.gameActive && g.currentPlayer == O
    ensures g.board[..] == [Mark(X), Mark(O), Mark(X), Empty, Empty, Empty, Empty, Empty, Empty]
  {
    g := new Game();
    g.Start("", "");
    var b0 := g.board[..];
    var b1 := b0[0 := Mark(X)];
    assert !HasWin(b1) by { NoLineComplete(b1); }
    assert b1[1] == Empty;
    PlayOn(g, 0, b1);
    var b2 := b1[1 := Mark(O)];
    assert !HasWin(b2) by { NoLineComplete(b2); }
    assert b2[2] == Empty;
    PlayOn(g, 1, b2);
    var b3 := b2[2 := Mark(X)];
    assert !HasWin(b3) by { NoLineComplete(b3); }
    assert b3[3] == Empty;
    PlayOn(g, 2, b3);
  }

  /** Moves four to six of the drawn game below: O at 4, X at 3, O at 5,
      X to move. */
  method DrawMiddle(g: Game)
    requires g.Valid() && g.gameActive && g.currentPlayer == O
    requires g.board[..] == [Mark(X), Mark(O), Mark(X), Empty, Empty, Empty, Empty, Empty, Empty]
    modifies g`currentPlayer, g`gameActive, g.board
    ensures g.Valid() && g.gameActive && g.currentPlayer == X
    ensures g.board[..] == [Mark(X), Mark(O), Mark(X), Mark(X), Mark(O), Mark(O), Empty, Empty, Empty]
  {
    var b0 := g.board[..];
    var b1 := b0[4 := Mark(O)];
    assert !HasWin(b1) by { NoLineComplete(b1); }
    assert b1[3] == Empty;
    PlayOn(g, 4, b1);
    var b2 := b1[3 := Mark(X)];
    assert !HasWin(b2) by { NoLineComplete(b2); }
    assert b2[5] == Empty;
    PlayOn(g, 3, b2);
    var b3 := b2[5 := Mark(O)];
    assert !HasWin(b3) by { NoLineComplete(b3); }
    assert b3[6] == Empty;
    PlayOn(g, 5, b3);
  }

  /** Cells 0, 1, 2, 4, 3, 5, 7, 6, 8 filled alternately from X: no line
      is ever completed and the ninth move ends the round in a draw. */
  method FullBoardDraw() returns (outcome: Outcome)
    ensures outcome == Drawn
  {
    var g := DrawOpening();
    DrawMiddle(g);
    var b6 := g.board[..];
    var b7 := b6[7 := Mark(X)];
    assert !HasWin(b7) by { NoLineComplete(b7); }
    assert b7[6] == Empty;
    PlayOn(g, 7, b7);
    var b8 := b7[6 := Mark(O)];
    assert !HasWin(b8) by { NoLineComplete(b8); }
    assert b8[8] == Empty;
    PlayOn(g, 6, b8);
    outcome := g.CellClicked(8);
    assert g.board[..] == [Mark(X), Mark(O), Mark(X), Mark(X), Mark(O), Mark(O), Mark(O), Mark(X), Mark(X)];
    NoLineComplete(g.board[..]);
  }
}
