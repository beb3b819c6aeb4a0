/** A 3x3 tic-tac-toe board: nine write-once cells and the single operation
    that writes one of them. */
module TicTacToe {

  datatype Option<T> = None | Some(value: T)

  // ---------------------------------------------------------------------------
  // Cell
  // ---------------------------------------------------------------------------

  /** What one square of the board holds. */
  datatype Cell = Empty | O | X

  /** A cell starts out empty. */
  const DefaultCell: Cell := Empty

  /** The character a cell is drawn as. */
  function Display(c: Cell): (ch: char)
    ensures ch == ' ' <==> c == Empty
  {
    match c
    case Empty => ' '
    case O => 'O'
    case X => 'X'
  }

  /** Upper-case form of an ASCII letter; any other character is unchanged. */
  function ToUpper(ch: char): char
  {
    if 'a' <= ch <= 'z' then (ch as int - 32) as char else ch
  }

  /** The mark a player character writes into an empty cell: only the
      lower-case characters 'o' and 'x' name a player. */
  function MarkOf(player: char): (m: Option<Cell>)
    ensures m.Some? <==> player == 'o' || player == 'x'
    ensures player == 'o' ==> m == Some(O)
    ensures player == 'x' ==> m == Some(X)
    ensures m.Some? ==> m.value != Empty
  {
    match player
    case 'o' => Some(O)
    case 'x' => Some(X)
    case _ => None
  }

  /** Different cells are drawn differently, so the drawing of a cell
      determines it. */
  lemma DisplayInjective(c: Cell, d: Cell)
    ensures Display(c) == Display(d) ==> c == d
  {
  }

  /** A player types a lower-case letter; the mark stored for it is drawn as
      the same letter in upper case. */
  lemma StoredMarkShownUpperCase(player: char)
    requires MarkOf(player).Some?
    ensures Display(MarkOf(player).value) == ToUpper(player)
    ensures Display(MarkOf(player).value) != player
  {
  }

  /** Writing `value` into `cell`: the cell is passed in and handed back as
      `after`, which is what the mutable reference to the cell amounts to.
      It succeeds only on an empty cell and only for 'o' or 'x'. */
  method SetCell(cell: Cell, value: char) returns (ok: bool, after: Cell)
    ensures cell != Empty ==> !ok && after == cell
    ensures cell == Empty && value == 'o' ==> ok && after == O
    ensures cell == Empty && value == 'x' ==> ok && after == X
    ensures cell == Empty && value != 'o' && value != 'x' ==> !ok && after == Empty
  {
    after := cell;
    match cell {
      case Empty =>
      case _ => return false, after;
    }
    match value {
      case 'o' => after := O;
      case 'x' => after := X;
      case _ => return false, after;
    }
    return true, after;
  }

  // ---------------------------------------------------------------------------
  // Positions
  // ---------------------------------------------------------------------------

  /** The cell a position label names. Labels are a column letter `a`..`c`
      followed by a row digit `0`..`2`; cells are numbered row by row
      (a0, b0, c0, a1, ...), the order in which the board lays out its
      fields. Anything else (another case, another letter, extra
      characters, the empty string) names no cell. */
  function Slot(position: string): (i: Option<nat>)
    ensures i.Some? ==> i.value < 9
  {
    if position == "a0" then Some(0)
    else if position == "a1" then Some(3)
    else if position == "a2" then Some(6)
    else if position == "b0" then Some(1)
    else if position == "b1" then Some(4)
    else if position == "b2" then Some(7)
    else if position == "c0" then Some(2)
    else if position == "c1" then Some(5)
    else if position == "c2" then Some(8)
    else None
  }

  /** The label of cell `i`, built from its column and row. */
  function Label(i: nat): (s: string)
    requires i < 9
    ensures |s| == 2 && s[0] in "abc" && s[1] in "012"
  {
    ["abc"[i % 3], "012"[i / 3]]
  }

  /** Every cell has a label, and reading the label back gives that cell. */
  lemma SlotOfLabel(i: nat)
    requires i < 9
    ensures Slot(Label(i)) == Some(i)
  {
  }

  /** Every label that names a cell is that cell's label: so the accepted
      labels are exactly the nine `Label(i)`. */
  lemma LabelOfSlot(position: string)
    requires Slot(position).Some?
    ensures Label(Slot(position).value) == position
  {
  }

  /** Position labels are matched exactly: a string that is not a column
      letter `a`..`c` followed by a row digit `0`..`2` (another case,
      another letter or digit, shorter, longer, empty) names no cell. */
  lemma SlotRejects(position: string)
    requires !(|position| == 2 && position[0] in "abc" && position[1] in "012")
    ensures Slot(position) == None
  {
    if Slot(position).Some? {
      LabelOfSlot(position);
    }
  }

  // ---------------------------------------------------------------------------
  // Turns, as a value
  // ---------------------------------------------------------------------------

  /** The board's nine cells, numbered as `Slot` numbers them. */
  type Grid = s: seq<Cell> | |s| == 9 witness EmptyCells()

  /** The board as it is constructed: all nine cells empty. */
  function EmptyCells(): (s: seq<Cell>)
    ensures |s| == 9 && forall i :: 0 <= i < |s| ==> s[i] == DefaultCell
  {
    seq(9, _ => DefaultCell)
  }

  datatype TurnResult = TurnResult(ok: bool, cells: Grid)

  /** The outcome of one player's turn on the board: the player must be 'o'
      or 'x', the position must name a cell, and that cell must be empty;
      then it receives the player's mark. Otherwise the turn fails and the
      board is as it was. */
  function Turn(cells: Grid, player: char, position: string): TurnResult
  {
    match (MarkOf(player), Slot(position))
    case (Some(m), Some(i)) =>
      if cells[i] == Empty then TurnResult(true, cells[i := m]) else TurnResult(false, cells)
    case _ => TurnResult(false, cells)
  }

  /** A turn by anyone other than 'o' or 'x' fails and changes nothing. */
  lemma TurnRejectsPlayer(cells: Grid, player: char, position: string)
    requires player != 'o' && player != 'x'
    ensures Turn(cells, player, position) == TurnResult(false, cells)
  {
  }

  /** A turn at a position that is not one of the nine labels fails and
      changes nothing. */
  lemma TurnRejectsPosition(cells: Grid, player: char, position: string)
    requires Slot(position).None?
    ensures Turn(cells, player, position) == TurnResult(false, cells)
  {
  }

  /** A turn succeeds exactly when the player is valid, the position names
      a cell and that cell is empty; it then changes that cell, from empty
      to the player's mark, and no other; a failed turn changes nothing. */
  lemma TurnEffect(cells: Grid, player: char, position: string)
    ensures var r := Turn(cells, player, position);
      && (r.ok <==> MarkOf(player).Some? && Slot(position).Some? && cells[Slot(position).value] == Empty)
      && (!r.ok ==> r.cells == cells)
      && (r.ok ==> r.cells[Slot(position).value] == MarkOf(player).value)
      && (r.ok ==> forall j :: 0 <= j < 9 && j != Slot(position).value ==> r.cells[j] == cells[j])
  {
  }

  /** A turn never changes a cell that is already marked. */
  lemma TurnKeepsMarks(cells: Grid, player: char, position: string, i: nat)
    requires i < 9 && cells[i] != Empty
    ensures Turn(cells, player, position).cells[i] == cells[i]
  {
  }

  // ---------------------------------------------------------------------------
  // Series of turns
  // ---------------------------------------------------------------------------

  datatype Move = Move(player: char, position: string)

  /** The cells after the moves are taken one after the other; a move that
      fails leaves the board as it was. */
  function Play(cells: Grid, moves: seq<Move>): Grid
    decreases |moves|
  {
    if moves == [] then cells
    else Play(Turn(cells, moves[0].player, moves[0].position).cells, moves[1..])
  }

  /** How many of the moves succeed. */
  function Accepted(cells: Grid, moves: seq<Move>): (n: nat)
    ensures n <= |moves|
    decreases |moves|
  {
    if moves == [] then 0
    else
      var r := Turn(cells, moves[0].player, moves[0].position);
      (if r.ok then 1 else 0) + Accepted(r.cells, moves[1..])
  }

  /** A marked cell keeps its mark whatever moves follow: no cell ever goes
      back to empty or changes hands. */
  lemma {:induction false} PlayKeepsMarks(cells: Grid, moves: seq<Move>, i: nat)
    requires i < 9 && cells[i] != Empty
    ensures Play(cells, moves)[i] == cells[i]
    decreases |moves|
  {
    if moves != [] {
      var next := Turn(cells, moves[0].player, moves[0].position).cells;
      TurnKeepsMarks(cells, moves[0].player, moves[0].position, i);
      PlayKeepsMarks(next, moves[1..], i);
    }
  }

  /** Write-once: once a turn at a position has succeeded, every later turn
      at that position, by either player and after any moves in between,
      fails and leaves the board unchanged. */
  lemma WriteOnce(cells: Grid, player: char, position: string, between: seq<Move>, later: char)
    requires Turn(cells, player, position).ok
    ensures var board := Play(Turn(cells, player, position).cells, between);
      Turn(board, later, position) == TurnResult(false, board)
  {
    var i := Slot(position).value;
    PlayKeepsMarks(Turn(cells, player, position).cells, between, i);
  }

  /** Number of marked cells. */
  function Filled(cells: seq<Cell>): (n: nat)
    ensures n <= |cells|
  {
    if cells == [] then 0
    else (if cells[0] != Empty then 1 else 0) + Filled(cells[1..])
  }

  /** Marking an empty cell adds one to the number of marked cells. */
  lemma {:induction false} FilledMark(cells: seq<Cell>, i: nat, m: Cell)
    requires i < |cells| && cells[i] == Empty && m != Empty
    ensures Filled(cells[i := m]) == Filled(cells) + 1
    decreases |cells|
  {
    if i == 0 {
      assert cells[i := m][1..] == cells[1..];
    } else {
      assert cells[i := m][1..] == cells[1..][i - 1 := m];
      FilledMark(cells[1..], i - 1, m);
    }
  }

  /** Each successful move marks exactly one more cell. */
  lemma {:induction false} PlayFills(cells: Grid, moves: seq<Move>)
    ensures Filled(Play(cells, moves)) == Filled(cells) + Accepted(cells, moves)
    decreases |moves|
  {
    if moves != [] {
      var r := Turn(cells, moves[0].player, moves[0].position);
      if r.ok {
        FilledMark(cells, Slot(moves[0].position).value, MarkOf(moves[0].player).value);
      }
      PlayFills(r.cells, moves[1..]);
    }
  }

  /** On a new board at most nine moves ever succeed, however many are tried. */
  lemma AtMostNineAccepted(moves: seq<Move>)
    ensures Accepted(EmptyCells(), moves) <= 9
  {
    PlayFills(EmptyCells(), moves);
    NoneFilled(9);
  }

  /** A row of empty cells has no marked cell. */
  lemma {:induction false} NoneFilled(n: nat)
    ensures Filled(seq(n, _ => DefaultCell)) == 0
  {
    if n > 0 {
      assert seq(n, _ => DefaultCell)[1..] == seq(n - 1, _ => DefaultCell);
      NoneFilled(n - 1);
    }
  }

  // ---------------------------------------------------------------------------
  // The board
  // ---------------------------------------------------------------------------

  /** The board: nine cells, columns a..c and rows 0..2, each updated in
      place by `ProcessTurn`. */
  class Board {
    var a0: Cell
    var b0: Cell
    var c0: Cell
    var a1: Cell
    var b1: Cell
    var c1: Cell
    var a2: Cell
    var b2: Cell
    var c2: Cell

    /** The nine cells, row by row. */
    function Cells(): (s: seq<Cell>)
      reads this
      ensures |s| == 9
    {
      [a0, b0, c0, a1, b1, c1, a2, b2, c2]
    }

    /** A new board has every cell empty. */
    constructor ()
      ensures Cells() == EmptyCells()
    {
      a0, b0, c0 := DefaultCell, DefaultCell, DefaultCell;
      a1, b1, c1 := DefaultCell, DefaultCell, DefaultCell;
      a2, b2, c2 := DefaultCell, DefaultCell, DefaultCell;
    }

    /** Processes one player's turn: checks the player, then writes the cell
        the position names. Reports whether the turn was taken. */
    method ProcessTurn(player: char, position: string) returns (ok: bool)
      modifies this
      ensures ok == Turn(old(Cells()), player, position).ok
      ensures Cells() == Turn(old(Cells()), player, position).cells
    {
      match player {
        case 'o' =>
        case 'x' =>
        case _ => return false;
      }
      if position == "a0" {
        ok, a0 := SetCell(a0, player);
      } else if position == "a1" {
        ok, a1 := SetCell(a1, player);
      } else if position == "a2" {
        ok, a2 := SetCell(a2, player);
      } else if position == "b0" {
        ok, b0 := SetCell(b0, player);
      } else if position == "b1" {
        ok, b1 := SetCell(b1, player);
      } else if position == "b2" {
        ok, b2 := SetCell(b2, player);
      } else if position == "c0" {
        ok, c0 := SetCell(c0, player);
      } else if position == "c1" {
        ok, c1 := SetCell(c1, player);
      } else if position == "c2" {
        ok, c2 := SetCell(c2, player);
      } else {
        ok := false;
      }
    }
  }
}
