/**
 * The Minesweeper player (`MinesweeperAI`): the moves it has made, the cells it knows to be mines or
 * safe, and its knowledge base of sentences, which `AddKnowledge` extends and then runs inference on until
 * no pair of sentences derives anything new (`Closed`).
 *
 * Soundness is stated against a ghost `truth`, the mine set of the board the observations come from:
 * `Truthful(truth)` says every sentence is true of that board, every known mine is a mine and every known
 * safe cell is not.
 */
module MinesweeperPlayer {
  import opened Grid
  import opened Wrappers
  import opened Sentences
  import opened Knowledge

  /** The exception `add_knowledge` raises for a count larger than the number of neighbours. */
  datatype PlayerError = ValueError

  class MinesweeperAI {
    const height: nat
    const width: nat
    /** The cells that have been clicked on. */
    var movesMade: set<Cell>
    /** The cells known to be mines. */
    var mines: set<Cell>
    /** The cells known to be safe. */
    var safes: set<Cell>
    /** The sentences known to be true, in the order they were added. */
    var knowledge: seq<Sentence>

    /**
     * The cells known to be safe are exactly the moves made. It holds of a new player and `AddKnowledge`
     * keeps it: `add_knowledge` marks the move safe, and its only other call of `mark_safe` is in a branch
     * that never runs.
     */
    ghost predicate Valid()
      reads this
    {
      movesMade == safes
    }

    /** What the player knows is true of the board whose mines are `truth`. */
    ghost predicate Truthful(truth: set<Cell>)
      reads this
    {
      AllHold(knowledge, truth) && mines <= truth && safes !! truth
    }

    /**
     * The count the board reports for `cell` agrees with the mines `truth`, unless it is one the
     * player rejects outright (more mines than neighbours) or ignores (no neighbours at all).
     */
    ghost predicate Reported(cell: Cell, count: int, truth: set<Cell>) {
      var n := Neighbours(height, width, cell);
      n == {} || count > |n| || count == |n * truth|
    }

    constructor (height: nat, width: nat)
      ensures this.height == height && this.width == width
      ensures movesMade == {} && mines == {} && safes == {} && knowledge == []
      ensures Valid()
    {
      this.height := height;
      this.width := width;
      movesMade := {};
      mines := {};
      safes := {};
      knowledge := [];
    }

    /** `mark_mine`: records `cell` as a mine and marks it in every sentence. */
    method MarkMine(cell: Cell)
      modifies this
      ensures mines == old(mines) + {cell} && knowledge == MarkMineEach(old(knowledge), cell)
      ensures safes == old(safes) && movesMade == old(movesMade)
    {
      mines := mines + {cell};
      var i := 0;
      while i < |knowledge|
        invariant 0 <= i <= |knowledge| == |old(knowledge)|
        invariant forall t :: 0 <= t < i ==> knowledge[t] == old(knowledge)[t].MarkMine(cell)
        invariant forall t :: i <= t < |knowledge| ==> knowledge[t] == old(knowledge)[t]
        invariant safes == old(safes) && movesMade == old(movesMade) && mines == old(mines) + {cell}
      {
        knowledge := knowledge[i := knowledge[i].MarkMine(cell)];
        i := i + 1;
      }
    }

    /** `mark_safe`: records `cell` as safe and marks it in every sentence. */
    method MarkSafe(cell: Cell)
      modifies this
      ensures safes == old(safes) + {cell} && knowledge == MarkSafeEach(old(knowledge), cell)
      ensures mines == old(mines) && movesMade == old(movesMade)
    {
      safes := safes + {cell};
      var i := 0;
      while i < |knowledge|
        invariant 0 <= i <= |knowledge| == |old(knowledge)|
        invariant forall t :: 0 <= t < i ==> knowledge[t] == old(knowledge)[t].MarkSafe(cell)
        invariant forall t :: i <= t < |knowledge| ==> knowledge[t] == old(knowledge)[t]
        invariant mines == old(mines) && movesMade == old(movesMade) && safes == old(safes) + {cell}
      {
        knowledge := knowledge[i := knowledge[i].MarkSafe(cell)];
        i := i + 1;
      }
    }

    /** `for c in cells_new: self.mark_mine(c)`: the result does not depend on the order of the cells. */
    method MarkMines(cells: set<Cell>)
      modifies this
      ensures mines == old(mines) + cells && knowledge == MarkMinesEach(old(knowledge), cells)
      ensures safes == old(safes) && movesMade == old(movesMade)
    {
      forall i | 0 <= i < |knowledge|
        ensures knowledge[i].MarkMines({}) == knowledge[i]
      {
        assert knowledge[i].cells * {} == {};
      }
      var rest := cells;
      ghost var done: set<Cell> := {};
      while rest != {}
        invariant done == cells - rest && rest <= cells
        invariant mines == old(mines) + done && safes == old(safes) && movesMade == old(movesMade)
        invariant |knowledge| == |old(knowledge)|
        invariant forall i :: 0 <= i < |knowledge| ==> knowledge[i] == old(knowledge)[i].MarkMines(done)
        decreases rest
      {
        var c :| c in rest;
        ghost var before := knowledge;
        MarkMine(c);
        forall i | 0 <= i < |knowledge|
          ensures knowledge[i] == old(knowledge)[i].MarkMines(done + {c})
        {
          MarkMineIsMarkMines(before[i], c);
          MarkMinesCompose(old(knowledge)[i], done, {c});
        }
        done := done + {c};
        rest := rest - {c};
      }
      assert done == cells;
      MarkedEach(old(knowledge), done, knowledge);
    }

    /** `find_neighbour_cells`: the on-board cells around `cell`, found by scanning offsets -1 to 1. */
    method FindNeighbourCells(cell: Cell) returns (neighbours: set<Cell>)
      ensures neighbours == Neighbours(height, width, cell)
    {
      neighbours := {};
      for i := -1 to 2
        invariant forall y :: y in neighbours <==> y in Neighbours(height, width, cell) && y.r - cell.r < i
      {
        for j := -1 to 2
          invariant forall y :: y in neighbours <==>
            y in Neighbours(height, width, cell) && (y.r - cell.r < i || (y.r - cell.r == i && y.c - cell.c < j))
        {
          if 0 <= cell.r + i < height && 0 <= cell.c + j < width && Cell(cell.r + i, cell.c + j) != cell {
            neighbours := neighbours + {Cell(cell.r + i, cell.c + j)};
          }
        }
      }
    }

    /**
     * One comparison of the inference loop, of `order[m]` (from) with `order[t]` (to) as the knowledge base
     * stands: when the first lies inside the second with the smaller count, their difference is appended
     * unless an equal sentence is already known, and if its count equals its size its cells are marked as
     * mines. Its count is at least one, so the Python branch that would mark its cells safe never runs.
     * It takes round `m` on `k0` one comparison further: `newKnowledge` becomes true when a sentence is
     * appended, and `found` gains the cells marked as mines (the mines so far being `base + marked`).
     */
    method Derive(order: seq<nat>, m: nat, t: nat, ghost k0: seq<Sentence>, grew: bool, ghost marked: set<Cell>,
                  ghost base: set<Cell>)
      returns (newKnowledge: bool, ghost found: set<Cell>)
      requires m < t < |order| && forall n :: 0 <= n < |order| ==> order[n] < |k0|
      requires Step(knowledge, grew, marked) == Round(k0, order, m, t)
      requires mines == base + marked
      modifies this
      ensures Step(knowledge, newKnowledge, found) == Round(k0, order, m, t + 1)
      ensures movesMade == old(movesMade) && safes == old(safes) && mines == base + found
    {
      var from, to := knowledge[order[m]], knowledge[order[t]];
      newKnowledge, found := grew, marked;
      if from.cells <= to.cells && from.count < to.count {
        var derived := Sentence(to.cells - from.cells, to.count - from.count);
        if derived !in knowledge {
          knowledge := knowledge + [derived];
          newKnowledge := true;
        }
        if derived.count == 0 && |derived.cells| > 0 {
          // Marking the cells safe: unreachable, since from.count < to.count.
          assert false;
        } else if derived.count == |derived.cells| && |derived.cells| > 0 {
          MarkMines(derived.cells);
          found := marked + derived.cells;
        }
      }
    }

    /** Round `m` of a pass (`for sentence_to in knowledge_sorted[m+1:]`): `order[m]` compared with every later one. */
    method CompareWithLater(order: seq<nat>, m: nat) returns (newKnowledge: bool, ghost found: set<Cell>)
      requires m < |order| && forall n :: 0 <= n < |order| ==> order[n] < |knowledge|
      modifies this
      ensures Step(knowledge, newKnowledge, found) == Round(old(knowledge), order, m, |order|)
      ensures movesMade == old(movesMade) && safes == old(safes) && mines == old(mines) + found
    {
      newKnowledge, found := false, {};
      for t := m + 1 to |order|
        invariant Step(knowledge, newKnowledge, found) == Round(old(knowledge), order, m, t)
        invariant movesMade == old(movesMade) && safes == old(safes) && mines == old(mines) + found
      {
        newKnowledge, found := Derive(order, m, t, old(knowledge), newKnowledge, found, old(mines));
      }
    }

    /**
     * One pass of the inference loop over the size-sorted snapshot `order`, the earlier sentence of each
     * pair as `from`. `newKnowledge` tells whether a sentence was appended.
     */
    method InferencePass() returns (order: seq<nat>, newKnowledge: bool, ghost found: set<Cell>)
      modifies this
      ensures SortedBySize(old(knowledge), order)
      ensures Step(knowledge, newKnowledge, found) == PassOver(old(knowledge), order, |order|)
      ensures movesMade == old(movesMade) && safes == old(safes) && mines == old(mines) + found
    {
      order := SortBySize(knowledge);
      newKnowledge, found := false, {};
      for m := 0 to |order|
        invariant Step(knowledge, newKnowledge, found) == PassOver(old(knowledge), order, m)
        invariant movesMade == old(movesMade) && safes == old(safes) && mines == old(mines) + found
      {
        var appended;
        ghost var step;
        appended, step := CompareWithLater(order, m);
        newKnowledge := newKnowledge || appended;
        found := found + step;
      }
    }

    /**
     * The `while newKnowledge` loop of `add_knowledge` with its stop test as written: passes until one
     * appends nothing, even when that pass marked mines. It marks with the corrected `Sentence.MarkMine`;
     * with `mark_mine` as written the first mine marked raises TypeError. Pass `i` walks `trace[i]` in its size order `orders[i]`; every pass but the
     * last appended a sentence and the last appended none. It ends because every pass that appends either
     * removes a cell from the sentences or adds a true sentence not known before, and there are finitely
     * many of those.
     */
    method InferAsWritten(ghost truth: set<Cell>)
      returns (ghost found: set<Cell>, ghost trace: seq<seq<Sentence>>, ghost orders: seq<seq<nat>>)
      requires AllHold(knowledge, truth)
      modifies this
      ensures AllHold(knowledge, truth) && found <= truth
      ensures movesMade == old(movesMade) && safes == old(safes) && mines == old(mines) + found
      ensures Passes(old(knowledge), trace, orders, knowledge) && AppendedUntilLast(trace, orders)
      ensures found == MarkedAlong(trace, orders)
    {
      found, trace, orders := {}, [], [];
      var newKnowledge := true;
      while newKnowledge
        invariant AllHold(knowledge, truth) && found <= truth
        invariant movesMade == old(movesMade) && safes == old(safes) && mines == old(mines) + found
        invariant Growing(old(knowledge), trace, orders, knowledge)
        invariant |trace| == |orders| && found == MarkedAlong(trace, orders)
        decreases Occurring(knowledge), Universe(Occurring(knowledge), truth) - Values(knowledge)
      {
        ghost var before := knowledge;
        var order;
        ghost var step;
        order, newKnowledge, step := InferencePass();
        ghost var pass := PassOver(before, order, |order|);
        PassSound(before, order, |order|, truth, pass);
        assert step == MarkedBy(before, order);
        found := found + step;
        GrowingExtend(old(knowledge), trace, orders, before, order);
        MarkedAlongExtend(trace, orders, before, order);
        trace, orders := trace + [before], orders + [order];
        if !newKnowledge {
          break;
        }
        PassProgress(before, order, |order|, pass);
        ProgressMeasure(before, knowledge, truth);
      }
    }

    /**
     * The inference loop of `add_knowledge` as its comment intends it: passes until one changes nothing,
     * neither appending a sentence nor marking a mine that is still in a sentence. Every pass but the last
     * changed the knowledge base, and the last leaves it as it is, so it is stable in its size order. Being
     * true as well, it is closed (`TrueStableClosed`): no pair of sentences, in either order, derives a new
     * sentence or names mines still in the sentences. It ends for the same reason as the loop
     * as written: every pass that changes something removes a cell from the sentences or adds a true
     * sentence not known before.
     */
    method Infer(ghost truth: set<Cell>)
      returns (ghost found: set<Cell>, ghost trace: seq<seq<Sentence>>, ghost orders: seq<seq<nat>>)
      requires AllHold(knowledge, truth)
      modifies this
      ensures AllHold(knowledge, truth) && found <= truth
      ensures movesMade == old(movesMade) && safes == old(safes) && mines == old(mines) + found
      ensures Passes(old(knowledge), trace, orders, knowledge) && ChangedUntilLast(trace, knowledge)
      ensures Stable(knowledge, orders[|orders| - 1]) && Closed(knowledge)
      ensures found == MarkedAlong(trace, orders)
    {
      found, trace, orders := {}, [], [];
      while true
        invariant AllHold(knowledge, truth) && found <= truth
        invariant movesMade == old(movesMade) && safes == old(safes) && mines == old(mines) + found
        invariant Changing(old(knowledge), trace, orders, knowledge)
        invariant |trace| == |orders| && found == MarkedAlong(trace, orders)
        decreases Occurring(knowledge), Universe(Occurring(knowledge), truth) - Values(knowledge)
      {
        var before := knowledge;
        var order, appended;
        ghost var step;
        order, appended, step := InferencePass();
        ghost var pass := PassOver(before, order, |order|);
        PassSound(before, order, |order|, truth, pass);
        assert step == MarkedBy(before, order);
        found := found + step;
        ChangingExtend(old(knowledge), trace, orders, before, order);
        MarkedAlongExtend(trace, orders, before, order);
        trace, orders := trace + [before], orders + [order];
        if knowledge == before {
          break;
        }
        PassProgress(before, order, |order|, pass);
        ChangeMeasure(before, knowledge, truth);
      }
      TrueStableClosed(knowledge, orders[|orders| - 1], truth);
    }

    /**
     * `add_knowledge`: records the move, marks the cell safe, adds `{cell} = 0`, adds the neighbour sentence
     * (or raises ValueError when the count exceeds the number of neighbours), then runs inference, here the
     * loop that stops only when a pass changes nothing (`Infer`). On success the passes start from the
     * recorded knowledge base and end on a stable, closed one. A player whose safe cells are its moves
     * (`Valid`) stays so.
     */
    method AddKnowledge(cell: Cell, count: int, ghost truth: set<Cell>)
      returns (r: Outcome<PlayerError>, ghost found: set<Cell>, ghost trace: seq<seq<Sentence>>,
               ghost orders: seq<seq<nat>>)
      requires Truthful(truth)
      requires cell !in truth && Reported(cell, count, truth)
      modifies this
      ensures (old(Valid()) ==> Valid()) && Truthful(truth)
      ensures movesMade == old(movesMade) + {cell} && safes == old(safes) + {cell}
      ensures mines == old(mines) + found
      ensures var n := Neighbours(height, width, cell);
              var recorded := MarkSafeEach(old(knowledge), cell) + [Sentence({cell}, 0)];
              && (r.Fail? <==> n != {} && count > |n|)
              && (r.Fail? ==> found == {} && knowledge == recorded)
              && (r.Pass? ==> && Passes(recorded + (if n != {} then [Sentence(n, count)] else []), trace, orders, knowledge)
                              && ChangedUntilLast(trace, knowledge)
                              && Stable(knowledge, orders[|orders| - 1]) && Closed(knowledge)
                              && found == MarkedAlong(trace, orders))
    {
      movesMade := movesMade + {cell};
      MarkSafe(cell);
      AllHoldMarkSafe(old(knowledge), cell, truth);
      assert {cell} * truth == {};
      knowledge := knowledge + [Sentence({cell}, 0)];
      var neighbours := FindNeighbourCells(cell);
      if neighbours != {} && |neighbours| >= count {
        knowledge := knowledge + [Sentence(neighbours, count)];
      } else if neighbours != {} && |neighbours| < count {
        return Fail(ValueError), {}, [], [];
      }
      found, trace, orders := Infer(truth);
      r := Pass;
    }

    /**
     * `make_safe_move`: a cell known to be safe that is neither a move made nor a known mine, or None when
     * there is none. It changes nothing.
     */
    method MakeSafeMove() returns (move: Option<Cell>)
      ensures move.Some? ==> move.value in safes && move.value !in movesMade && move.value !in mines
      ensures move.None? <==> safes - movesMade - mines == {}
      ensures Valid() ==> move.None?
    {
      var possibleMoves: seq<Cell> := [];
      var rest := safes;
      while rest != {}
        invariant rest <= safes
        invariant forall t :: 0 <= t < |possibleMoves| ==> possibleMoves[t] in safes - movesMade - mines
        invariant forall x :: x in safes - movesMade - mines && x !in rest ==> x in possibleMoves
        decreases rest
      {
        var m :| m in rest;
        if m !in movesMade && m !in mines {
          possibleMoves := possibleMoves + [m];
        }
        rest := rest - {m};
      }
      if |possibleMoves| > 0 {
        return Some(possibleMoves[0]);
      }
      return None;
    }

    /**
     * `make_safe_move` as written: `possibleMoves.append[m]` subscripts a method, which raises TypeError
     * as soon as there is a candidate; only when there is none does it return None.
     */
    function MakeSafeMoveAsWritten(): (r: Result<Option<Cell>, PyError>)
      reads this
      ensures r.Failure? <==> safes - movesMade - mines != {}
      ensures r.Success? ==> r.value.None?
      ensures Valid() ==> r == Success(None)
    {
      if safes - movesMade - mines != {} then Failure(TypeError) else Success(None)
    }

    /**
     * The cells `make_random_move` may return: drawn on the board, not a move made and not a known mine.
     * `make_random_move` draws at random until one qualifies. In play (`Valid`) these are exactly the cells
     * of the board the player knows nothing about: neither known safe nor known to be a mine.
     */
    predicate RandomMoveEligible(cell: Cell): (r: bool)
      reads this
      ensures r ==> cell in AllCells()
      ensures Valid() ==> (r <==> cell in AllCells() - safes - mines)
    {
      0 <= cell.r < height && 0 <= cell.c < width && cell !in movesMade && cell !in mines
    }

    /** Every cell of the board. */
    function AllCells(): set<Cell> {
      set i, j | 0 <= i < height && 0 <= j < width :: Cell(i, j)
    }
  }
}
