/**
 * A sentence of the Minesweeper knowledge base: exactly `count` of `cells` are mines.
 */
module Sentences {
  import opened Grid
  import opened Wrappers

  datatype Sentence = Sentence(cells: set<Cell>, count: int) {

    /** `__eq__`: two sentences are equal when their cells and counts are. */
    predicate SameAs(other: Sentence): (r: bool)
      ensures r <==> this == other
    {
      cells == other.cells && count == other.count
    }

    /** The sentence is true of a board whose mines are `mines`. */
    ghost predicate HoldsFor(mines: set<Cell>) {
      |cells * mines| == count
    }

    /** `known_mines`: all the cells when the count says every one is a mine; otherwise no answer (Python's None). */
    function KnownMines(): Option<set<Cell>> {
      if count == |cells| then Some(cells) else None
    }

    /** `known_safes`: all the cells when the count is zero; otherwise no answer (Python's None). */
    function KnownSafes(): Option<set<Cell>> {
      if count == 0 then Some(cells) else None
    }

    /**
     * `mark_mine`, as its docstring intends: a mine is taken out of the sentence and the count drops by one.
     * The Python line subtracts the tuple itself from the set and raises instead; see MarkMineAsWritten.
     */
    function MarkMine(cell: Cell): (r: Sentence)
      ensures cell !in cells ==> r == this
      ensures cell in cells ==> r.cells == cells - {cell} && |r.cells| == |cells| - 1 && r.count == count - 1
    {
      if cell in cells then Sentence(cells - {cell}, count - 1) else this
    }

    /**
     * `mark_safe`, as its docstring intends: a safe cell is taken out of the sentence, the count unchanged.
     * The Python code subtracts the set of the coordinate integers and so removes nothing; see MarkSafeAsWritten.
     */
    function MarkSafe(cell: Cell): (r: Sentence)
      ensures cell !in cells ==> r == this
      ensures cell in cells ==> r.cells == cells - {cell} && |r.cells| == |cells| - 1 && r.count == count
    {
      if cell in cells then Sentence(cells - {cell}, count) else this
    }

    /** The effect of marking every cell of `found` as a mine, in any order. */
    function MarkMines(found: set<Cell>): Sentence {
      Sentence(cells - found, count - |cells * found|)
    }
  }

  /** The exceptions the Python code raises. */
  datatype PyError = TypeError

  /** `Sentence.mark_mine` as written: `self.cells - cell` subtracts a tuple from a set, which raises TypeError. */
  function MarkMineAsWritten(s: Sentence, cell: Cell): Result<Sentence, PyError> {
    if cell in s.cells then Failure(TypeError) else Success(s)
  }

  /**
   * `Sentence.mark_safe` as written: `set(cell)` is the set of the two coordinate integers, which holds no
   * position, so the subtraction leaves the cells as they were.
   */
  function MarkSafeAsWritten(s: Sentence, cell: Cell): Sentence {
    s
  }

  /** As written, marking a mine that the sentence mentions always raises, where the intended version removes it. */
  lemma MarkMineAsWrittenRaises(s: Sentence, cell: Cell)
    requires cell in s.cells
    ensures MarkMineAsWritten(s, cell) == Failure(TypeError)
    ensures s.MarkMine(cell).count == s.count - 1 && cell !in s.MarkMine(cell).cells
  {
  }

  /** For a cell the sentence does not mention, both functions as written agree with the intended ones. */
  lemma AsWrittenAgreeElsewhere(s: Sentence, cell: Cell)
    requires cell !in s.cells
    ensures MarkMineAsWritten(s, cell) == Success(s.MarkMine(cell))
    ensures MarkSafeAsWritten(s, cell) == s.MarkSafe(cell)
  {
  }

  /** A concrete case: after marking (0, 0) safe in {(0, 0), (0, 1)} = 1, the as-written sentence still holds (0, 0). */
  lemma MarkSafeAsWrittenKeepsCell()
    ensures var s := Sentence({Cell(0, 0), Cell(0, 1)}, 1);
            && Cell(0, 0) in MarkSafeAsWritten(s, Cell(0, 0)).cells
            && s.MarkSafe(Cell(0, 0)) == Sentence({Cell(0, 1)}, 1)
  {
    var s := Sentence({Cell(0, 0), Cell(0, 1)}, 1);
    assert s.cells - {Cell(0, 0)} == {Cell(0, 1)};
  }

  /** What `known_mines` returns is exactly the cells, and only when every cell is a mine; these are mines on any board the sentence is true of. */
  lemma KnownMinesSound(s: Sentence, mines: set<Cell>)
    requires s.HoldsFor(mines)
    ensures s.KnownMines().Some? <==> s.count == |s.cells|
    ensures s.KnownMines().Some? ==> s.KnownMines().value == s.cells && s.cells <= mines
  {
    if s.count == |s.cells| {
      AllCountedAreIn(s.cells, mines);
    }
  }

  /** What `known_safes` returns is exactly the cells, and only when the count is zero; none is a mine on any board the sentence is true of. */
  lemma KnownSafesSound(s: Sentence, mines: set<Cell>)
    requires s.HoldsFor(mines)
    ensures s.KnownSafes().Some? <==> s.count == 0
    ensures s.KnownSafes().Some? ==> s.KnownSafes().value == s.cells && s.cells !! mines
  {
    if s.count == 0 {
      assert s.cells * mines == {};
      forall x | x in s.cells
        ensures x !in mines
      {
        assert x !in s.cells * mines;
      }
    }
  }

  /** If all of `a` is counted in `a * b`, then `a` lies inside `b`. */
  lemma AllCountedAreIn(a: set<Cell>, b: set<Cell>)
    requires |a * b| == |a|
    ensures a <= b
  {
    if x :| x in a && x !in b {
      SubsetCardinality(a * b, a - {x});
      assert false;
    }
  }

  /** Marking a true mine keeps a true sentence true. */
  lemma {:induction false} MarkMineKeepsTruth(s: Sentence, cell: Cell, mines: set<Cell>)
    requires s.HoldsFor(mines) && cell in mines
    ensures s.MarkMine(cell).HoldsFor(mines)
  {
    if cell in s.cells {
      assert s.cells * mines == (s.cells - {cell}) * mines + {cell};
    }
  }

  /** Marking a cell that is not a mine keeps a true sentence true. */
  lemma MarkSafeKeepsTruth(s: Sentence, cell: Cell, mines: set<Cell>)
    requires s.HoldsFor(mines) && cell !in mines
    ensures s.MarkSafe(cell).HoldsFor(mines)
  {
    if cell in s.cells {
      assert s.cells * mines == (s.cells - {cell}) * mines;
    }
  }

  /** Marking a set of true mines keeps a true sentence true. */
  lemma MarkMinesKeepsTruth(s: Sentence, found: set<Cell>, mines: set<Cell>)
    requires s.HoldsFor(mines) && found <= mines
    ensures s.MarkMines(found).HoldsFor(mines)
  {
    assert s.cells * mines == (s.cells - found) * mines + s.cells * found;
  }

  /** Marking one mine is marking the one-element set. */
  lemma MarkMineIsMarkMines(s: Sentence, cell: Cell)
    ensures s.MarkMine(cell) == s.MarkMines({cell})
  {
    if cell in s.cells {
      assert s.cells * {cell} == {cell};
    } else {
      assert s.cells * {cell} == {};
    }
  }

  /** Marking `d` and then `e` is marking `d + e`: the order in which mines are marked does not matter. */
  lemma MarkMinesCompose(s: Sentence, d: set<Cell>, e: set<Cell>)
    ensures s.MarkMines(d).MarkMines(e) == s.MarkMines(d + e)
  {
    assert s.cells - d - e == s.cells - (d + e);
    assert s.cells * (d + e) == s.cells * d + (s.cells - d) * e;
  }

  /**
   * The inference step of `add_knowledge`: when `from` is contained in `to`, and both are true of a board,
   * the difference sentence is true of it too.
   */
  lemma DifferenceHolds(from: Sentence, to: Sentence, mines: set<Cell>)
    requires from.cells <= to.cells
    requires from.HoldsFor(mines) && to.HoldsFor(mines)
    ensures Sentence(to.cells - from.cells, to.count - from.count).HoldsFor(mines)
  {
    assert to.cells * mines == (to.cells - from.cells) * mines + from.cells * mines;
  }
}
