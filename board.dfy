/**
 The tic-tac-toe board as a value: its cells, the fixed table of winning
 lines, and the judgements the game makes about a board (which line wins
 first in table order, whether the board is full, how many marks each
 player has placed).
 */
module Board {

  datatype Option<T> = None | Some(value: T)

  /** The two players, named after the marks 'X' and 'O' they place. */
  datatype Player = X | O

  /** A cell holds nothing (the empty string) or one player's mark. */
  datatype Cell = Empty | Mark(player: Player)

  /** The board has nine cells, indexed 0..8 row by row. */
  const Size := 9

  type CellIndex = i: nat | i < Size

  /** Three cells that win the round when they hold the same mark. */
  datatype Line = Line(a: CellIndex, b: CellIndex, c: CellIndex)

  /** The eight winning lines, in the order in which they are checked:
      the three rows, the three columns, then the two diagonals. */
  const WinningConditions: seq<Line> := [
    Line(0, 1, 2),
    Line(3, 4, 5),
    Line(6, 7, 8),
    Line(0, 3, 6),
    Line(1, 4, 7),
    Line(2, 5, 8),
    Line(0, 4, 8),
    Line(2, 4, 6)
  ]

  /** The player whose turn comes after p's. */
  function Other(p: Player): (q: Player)
    ensures q != p
  {
    if p == X then O else X
  }

  /** No cell holds a mark. */
  predicate Blank(b: seq<Cell>)
  {
    forall i :: 0 <= i < |b| ==> b[i] == Empty
  }

  /** No cell is empty (the draw test). */
  predicate Full(b: seq<Cell>)
  {
    Empty !in b
  }

  /** All three cells of l are occupied and hold the same mark. */
  predicate Complete(b: seq<Cell>, l: Line)
    requires |b| == Size
  {
    b[l.a] != Empty && b[l.b] != Empty && b[l.c] != Empty &&
    b[l.a] == b[l.b] && b[l.b] == b[l.c]
  }

  /** Entry k of the winning table is complete on b. */
  predicate Wins(b: seq<Cell>, k: nat)
    requires |b| == Size && k < |WinningConditions|
  {
    Complete(b, WinningConditions[k])
  }

  /** Some entry of the winning table is complete on b. */
  predicate HasWin(b: seq<Cell>)
    requires |b| == Size
  {
    exists k :: 0 <= k < |WinningConditions| && Wins(b, k)
  }

  /** The first entry of the winning table, at position `from` or later,
      that is complete on b; None when there is none. */
  function FirstWin(b: seq<Cell>, from: nat): (r: Option<nat>)
    requires |b| == Size
    ensures r.Some? ==> from <= r.value < |WinningConditions| && Wins(b, r.value)
    decreases |WinningConditions| - from
  {
    if from >= |WinningConditions| then None
    else if Wins(b, from) then Some(from)
    else FirstWin(b, from + 1)
  }

  /** FirstWin finds a complete line exactly when there is one, and no
      line before the one it finds is complete. */
  lemma {:induction false} FirstWinIsFirst(b: seq<Cell>, from: nat)
    requires |b| == Size
    ensures FirstWin(b, from).None? <==>
              forall k :: from <= k < |WinningConditions| ==> !Wins(b, k)
    ensures FirstWin(b, from).Some? ==>
              forall k :: from <= k < FirstWin(b, from).value ==> !Wins(b, k)
    decreases |WinningConditions| - from
  {
    if from < |WinningConditions| && !Wins(b, from) {
      FirstWinIsFirst(b, from + 1);
    }
  }

  /** Scanning the whole table finds a line exactly when the board has one. */
  lemma FirstWinFindsAny(b: seq<Cell>)
    requires |b| == Size
    ensures FirstWin(b, 0).Some? <==> HasWin(b)
  {
    FirstWinIsFirst(b, 0);
  }

  /** A board that held no complete line gains complete lines only through
      the cell just marked, so every complete line holds the mover's mark. */
  lemma NewLineHoldsMover(b: seq<Cell>, i: CellIndex, p: Player, k: nat)
    requires |b| == Size && k < |WinningConditions|
    requires !Wins(b, k) && Wins(b[i := Mark(p)], k)
    ensures b[i := Mark(p)][WinningConditions[k].a] == Mark(p)
  {
  }

  /** The number of cells holding c. */
  function Count(b: seq<Cell>, c: Cell): nat
  {
    if b == [] then 0 else (if b[0] == c then 1 else 0) + Count(b[1..], c)
  }

  /** Overwriting one cell moves one unit of count from its old content to
      its new content and leaves every other count alone. */
  lemma {:induction false} CountUpdate(b: seq<Cell>, i: nat, v: Cell, c: Cell)
    requires i < |b|
    ensures Count(b[i := v], c) ==
              Count(b, c) - (if b[i] == c then 1 else 0) + (if v == c then 1 else 0)
  {
    if i == 0 {
      assert b[i := v][1..] == b[1..];
    } else {
      assert b[i := v][1..] == b[1..][i - 1 := v];
      CountUpdate(b[1..], i - 1, v, c);
    }
  }

  /** A value that does not occur is counted zero times. */
  lemma {:induction false} CountAbsent(b: seq<Cell>, c: Cell)
    requires c !in b
    ensures Count(b, c) == 0
  {
    if b != [] {
      assert b[0] != c;
      assert c !in b[1..] by {
        forall j | 0 <= j < |b| - 1 ensures b[1..][j] != c {
          assert b[1..][j] == b[j + 1];
        }
      }
      CountAbsent(b[1..], c);
    }
  }

  /** Every cell is empty, X or O, so the three counts add up to the board size. */
  lemma {:induction false} CountsPartition(b: seq<Cell>)
    ensures Count(b, Empty) + Count(b, Mark(X)) + Count(b, Mark(O)) == |b|
  {
    if b != [] {
      CountsPartition(b[1..]);
      match b[0]
      case Empty =>
      case Mark(p) => assert p == X || p == O;
    }
  }
}
