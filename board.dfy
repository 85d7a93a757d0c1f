/**
 * The Minesweeper board: the ground truth the player queries. The mine positions, which the
 * Python code draws at random, are a constructor parameter here.
 */
module MinesweeperBoard {
  import opened Grid

  class Minesweeper {
    const height: nat
    const width: nat
    /** The positions of the mines. */
    const mines: set<Cell>
    /** `board[i, j]` holds when there is a mine at row `i`, column `j`. */
    const board: array2<bool>
    /** The mines the player has flagged; updated by the game driver. */
    var minesFound: set<Cell>

    /** The board array and the mine set describe the same mines, all on the board. */
    ghost predicate Valid()
      reads this, board
    {
      && board.Length0 == height && board.Length1 == width
      && (forall m :: m in mines ==> InBounds(height, width, m))
      && (forall i, j :: 0 <= i < height && 0 <= j < width ==> (board[i, j] <==> Cell(i, j) in mines))
    }

    /** Builds an all-clear board, then sets each mine, as `__init__` does for its randomly drawn mines. */
    constructor (height: nat, width: nat, mines: set<Cell>)
      requires forall m :: m in mines ==> InBounds(height, width, m)
      ensures Valid() && fresh(board)
      ensures this.height == height && this.width == width && this.mines == mines
      ensures minesFound == {}
    {
      var b := new bool[height, width];
      for i := 0 to height
        invariant forall i', j :: 0 <= i' < i && 0 <= j < width ==> !b[i', j]
      {
        for j := 0 to width
          invariant forall i', j' :: 0 <= i' < i && 0 <= j' < width ==> !b[i', j']
          invariant forall j' :: 0 <= j' < j ==> !b[i, j']
        {
          b[i, j] := false;
        }
      }
      var rest := mines;
      while rest != {}
        invariant rest <= mines
        invariant forall i, j :: 0 <= i < height && 0 <= j < width ==> (b[i, j] <==> Cell(i, j) in mines - rest)
        decreases rest
      {
        var m :| m in rest;
        b[m.r, m.c] := true;
        rest := rest - {m};
      }
      this.height := height;
      this.width := width;
      this.mines := mines;
      board := b;
      minesFound := {};
    }

    /** `is_mine`: reads the board at an on-board position. */
    function IsMine(cell: Cell): (r: bool)
      requires Valid() && InBounds(height, width, cell)
      reads this, board
      ensures r <==> cell in mines
    {
      board[cell.r, cell.c]
    }

    /** `nearby_mines`: scans the 3 x 3 square around `cell`, skipping `cell` and off-board positions. */
    method NearbyMines(cell: Cell) returns (count: nat)
      requires Valid()
      ensures count == |Neighbours(height, width, cell) * mines|
      ensures count <= 8
    {
      count := 0;
      for i := cell.r - 1 to cell.r + 2
        invariant count == |Scanned(height, width, mines, cell, i, cell.c - 1)|
      {
        for j := cell.c - 1 to cell.c + 2
          invariant count == |Scanned(height, width, mines, cell, i, j)|
        {
          ScanStep(height, width, mines, cell, i, j);
          if Cell(i, j) == cell {
            continue;
          }
          if 0 <= i < height && 0 <= j < width {
            assert board[i, j] <==> Cell(i, j) in mines;
            if board[i, j] {
              count := count + 1;
            }
          }
        }
        ScanRow(height, width, mines, cell, i);
      }
      ScanAll(height, width, mines, cell);
      SubsetCardinality(Neighbours(height, width, cell) * mines, Neighbours(height, width, cell));
    }

    /** `won`: every mine has been flagged and nothing else. */
    function Won(): (r: bool)
      reads this
      ensures r ==> forall m :: m in mines ==> m in minesFound
      ensures r ==> forall f :: f in minesFound ==> f in mines
      ensures !r ==> exists x :: (x in mines) != (x in minesFound)
    {
      minesFound == mines
    }
  }

  /**
   * The mines around `cell` on the board that a row-major scan has passed when it reaches row `i`,
   * column `j`: those in an earlier row, or in row `i` left of column `j`.
   */
  ghost function Scanned(height: int, width: int, mines: set<Cell>, cell: Cell, i: int, j: int): set<Cell> {
    set y | y in mines && InBounds(height, width, y) && Adjacent(cell, y) && (y.r < i || (y.r == i && y.c < j))
  }

  lemma ScanStep(height: int, width: int, mines: set<Cell>, cell: Cell, i: int, j: int)
    ensures |Scanned(height, width, mines, cell, i, j + 1)| == |Scanned(height, width, mines, cell, i, j)| +
      (if Cell(i, j) in mines && InBounds(height, width, Cell(i, j)) && Adjacent(cell, Cell(i, j)) then 1 else 0)
  {
    var x := Cell(i, j);
    assert Scanned(height, width, mines, cell, i, j + 1) == Scanned(height, width, mines, cell, i, j) +
      (if x in mines && InBounds(height, width, x) && Adjacent(cell, x) then {x} else {});
  }

  lemma ScanRow(height: int, width: int, mines: set<Cell>, cell: Cell, i: int)
    ensures Scanned(height, width, mines, cell, i + 1, cell.c - 1) == Scanned(height, width, mines, cell, i, cell.c + 2)
  {
  }

  lemma ScanAll(height: int, width: int, mines: set<Cell>, cell: Cell)
    ensures Scanned(height, width, mines, cell, cell.r + 2, cell.c - 1) == Neighbours(height, width, cell) * mines
  {
  }
}
