/**
 * Positions on a Minesweeper grid and the neighbourhood of a position, shared by the
 * board (`Minesweeper.nearby_mines`) and the player (`MinesweeperAI.find_neighbour_cells`).
 */
module Grid {

  /** A position (row, column), zero-based: Python's `(i, j)` tuple. */
  datatype Cell = Cell(r: int, c: int)

  predicate InBounds(height: int, width: int, x: Cell) {
    0 <= x.r < height && 0 <= x.c < width
  }

  /** `y` lies within one row and one column of `x` and is not `x` itself. */
  predicate Adjacent(x: Cell, y: Cell) {
    -1 <= y.r - x.r <= 1 && -1 <= y.c - x.c <= 1 && y != x
  }

  /** The eight positions around `x`, on the board or not. */
  function Around(x: Cell): set<Cell> {
    {Cell(x.r - 1, x.c - 1), Cell(x.r - 1, x.c), Cell(x.r - 1, x.c + 1),
     Cell(x.r, x.c - 1),                         Cell(x.r, x.c + 1),
     Cell(x.r + 1, x.c - 1), Cell(x.r + 1, x.c), Cell(x.r + 1, x.c + 1)}
  }

  /** The in-bounds neighbours of `x` on a `height` x `width` board. */
  function Neighbours(height: int, width: int, x: Cell): (n: set<Cell>)
    ensures forall y :: y in n <==> InBounds(height, width, y) && Adjacent(x, y)
    ensures x !in n
    ensures |n| <= 8
  {
    var n := set y | y in Around(x) && InBounds(height, width, y);
    SubsetCardinality(n, Around(x));
    n
  }

  lemma SubsetCardinality<T>(a: set<T>, b: set<T>)
    requires a <= b
    ensures |a| <= |b|
  {
    assert b == a + (b - a);
  }
}
