/**
 * The knowledge base of the Minesweeper player as a sequence of sentences: what marking a cell does to
 * every sentence, the size-sorted snapshot the inference loop walks, and the finite universe of true
 * sentences that bounds the loop.
 */
module Knowledge {
  import opened Grid
  import opened Sentences

  /**
   * `sentence.mark_mine(cell)` applied to every sentence: afterwards no sentence mentions the cell, and a
   * sentence that did has one mine fewer to account for.
   */
  function MarkMineEach(k: seq<Sentence>, cell: Cell): (r: seq<Sentence>)
    ensures |r| == |k|
    ensures forall i | 0 <= i < |k| :: r[i].cells == k[i].cells - {cell}
    ensures forall i | 0 <= i < |k| :: r[i].count + |k[i].cells * {cell}| == k[i].count
  {
    MarkEachCounts(k, cell);
    seq(|k|, i requires 0 <= i < |k| => k[i].MarkMine(cell))
  }

  /** A cell occurs in a set of cells once or not at all. */
  lemma MarkEachCounts(k: seq<Sentence>, cell: Cell)
    ensures forall i | 0 <= i < |k| :: |k[i].cells * {cell}| == if cell in k[i].cells then 1 else 0
  {
    forall i | 0 <= i < |k|
      ensures |k[i].cells * {cell}| == if cell in k[i].cells then 1 else 0
    {
      if cell in k[i].cells {
        assert k[i].cells * {cell} == {cell};
      } else {
        assert k[i].cells * {cell} == {};
      }
    }
  }

  /**
   * `sentence.mark_safe(cell)` applied to every sentence: afterwards no sentence mentions the cell, and
   * every count is as it was.
   */
  function MarkSafeEach(k: seq<Sentence>, cell: Cell): (r: seq<Sentence>)
    ensures |r| == |k|
    ensures forall i | 0 <= i < |k| :: r[i].cells == k[i].cells - {cell} && r[i].count == k[i].count
  {
    seq(|k|, i requires 0 <= i < |k| => k[i].MarkSafe(cell))
  }

  /** Every sentence with each cell of `found` marked as a mine. */
  function MarkMinesEach(k: seq<Sentence>, found: set<Cell>): (r: seq<Sentence>)
    ensures |r| == |k|
  {
    if k == [] then [] else MarkMinesEach(k[..|k| - 1], found) + [k[|k| - 1].MarkMines(found)]
  }

  /** Sentence `i` of the marked knowledge base is sentence `i` of `k`, marked. */
  lemma {:induction false} MarkMinesEachAt(k: seq<Sentence>, found: set<Cell>, i: nat)
    requires i < |k|
    ensures MarkMinesEach(k, found)[i] == k[i].MarkMines(found)
  {
    if i < |k| - 1 {
      MarkMinesEachAt(k[..|k| - 1], found, i);
    }
  }

  /** Every sentence of the knowledge base is true of a board whose mines are `mines`. */
  ghost predicate AllHold(k: seq<Sentence>, mines: set<Cell>) {
    forall s :: s in k ==> s.HoldsFor(mines)
  }

  /** The cells some sentence mentions. */
  ghost function Occurring(k: seq<Sentence>): set<Cell> {
    if k == [] then {} else Occurring(k[..|k| - 1]) + k[|k| - 1].cells
  }

  /** The distinct sentences of the knowledge base. */
  ghost function Values(k: seq<Sentence>): set<Sentence> {
    set s | s in k
  }

  /** Every sentence over cells of `cells` that is true of the board with mines `mines`: a finite set. */
  ghost function Universe(cells: set<Cell>, mines: set<Cell>): set<Sentence> {
    set x: set<Cell> | x <= cells :: Sentence(x, |x * mines|)
  }

  /** The stable order of `sorted(knowledge, key=len(cells))`: by size, ties by position. */
  predicate Precedes(k: seq<Sentence>, a: nat, b: nat)
    requires a < |k| && b < |k|
  {
    |k[a].cells| < |k[b].cells| || (|k[a].cells| == |k[b].cells| && a < b)
  }

  /** `order` lists every position of `k` exactly once, in stable size order. */
  predicate SortedBySize(k: seq<Sentence>, order: seq<nat>) {
    && (forall t :: 0 <= t < |order| ==> order[t] < |k|)
    && (forall i :: 0 <= i < |k| ==> i in order)
    && (forall s, t :: 0 <= s < t < |order| ==> order[s] < |k| && order[t] < |k| && Precedes(k, order[s], order[t]))
  }

  /** Indices of `k` listed in strictly ascending `Precedes` order. */
  predicate Ascending(k: seq<Sentence>, order: seq<nat>) {
    && (forall t :: 0 <= t < |order| ==> order[t] < |k|)
    && (forall s, t :: 0 <= s < t < |order| ==> order[s] < |k| && order[t] < |k| && Precedes(k, order[s], order[t]))
  }

  /** Two ascending listings of the same indices are the same listing. */
  lemma {:induction false} AscendingUnique(k: seq<Sentence>, o1: seq<nat>, o2: seq<nat>)
    requires Ascending(k, o1) && Ascending(k, o2)
    requires forall x :: x in o1 <==> x in o2
    ensures o1 == o2
    decreases |o1|
  {
    assert o1 == [] || o1[0] in o1;
    assert o2 == [] || o2[0] in o2;
    if o1 != [] && o2 != [] {
      var a, b := o1[0], o2[0];
      assert a in o2;
      assert b in o1;
      assert a == b;
      forall x
        ensures x in o1[1..] <==> x in o2[1..]
      {
        if x in o1[1..] {
          assert x in o1 && x != a;
          assert x in o2;
        }
        if x in o2[1..] {
          assert x in o2 && x != b;
          assert x in o1;
        }
      }
      AscendingUnique(k, o1[1..], o2[1..]);
      assert o1 == [a] + o1[1..] && o2 == [b] + o2[1..];
    }
  }

  /** The size order of a knowledge base is unique: it is the order Python's stable `sorted` gives. */
  lemma SortedUnique(k: seq<Sentence>, o1: seq<nat>, o2: seq<nat>)
    requires SortedBySize(k, o1) && SortedBySize(k, o2)
    ensures o1 == o2
  {
    AscendingUnique(k, o1, o2);
  }

  /**
   * The snapshot `sorted(self.knowledge, key=lambda x: len(x.cells))`, as the positions of the sentences it
   * holds (Python's list holds the same sentence objects, so later changes to them show through it).
   * Each position appears, once, in stable size order.
   */
  method SortBySize(k: seq<Sentence>) returns (order: seq<nat>)
    ensures SortedBySize(k, order)
  {
    var largest: nat := 0;
    for i := 0 to |k|
      invariant forall i' :: 0 <= i' < i ==> |k[i'].cells| <= largest
    {
      if |k[i].cells| > largest {
        largest := |k[i].cells|;
      }
    }
    order := [];
    for size := 0 to largest + 1
      invariant forall t :: 0 <= t < |order| ==> order[t] < |k| && |k[order[t]].cells| < size
      invariant forall i :: 0 <= i < |k| && |k[i].cells| < size ==> i in order
      invariant forall s, t :: 0 <= s < t < |order| ==> Precedes(k, order[s], order[t])
    {
      for i := 0 to |k|
        invariant forall t :: 0 <= t < |order| ==>
          order[t] < |k| && (|k[order[t]].cells| < size || (|k[order[t]].cells| == size && order[t] < i))
        invariant forall i' :: 0 <= i' < |k| && (|k[i'].cells| < size || (|k[i'].cells| == size && i' < i)) ==> i' in order
        invariant forall s, t :: 0 <= s < t < |order| ==> Precedes(k, order[s], order[t])
      {
        if |k[i].cells| == size {
          order := order + [i];
        }
      }
    }
  }

  lemma MarkMinesEachEmpty(k: seq<Sentence>)
    ensures MarkMinesEach(k, {}) == k
  {
    forall i | 0 <= i < |k|
      ensures MarkMinesEach(k, {})[i] == k[i]
    {
      MarkMinesEachAt(k, {}, i);
      assert k[i].cells * {} == {};
    }
  }

  /** A knowledge base holding each sentence of `k` with the mines `found` marked is `MarkMinesEach(k, found)`. */
  lemma MarkedEach(k: seq<Sentence>, found: set<Cell>, r: seq<Sentence>)
    requires |r| == |k| && forall i :: 0 <= i < |k| ==> r[i] == k[i].MarkMines(found)
    ensures r == MarkMinesEach(k, found)
  {
    forall i | 0 <= i < |k|
      ensures r[i] == MarkMinesEach(k, found)[i]
    {
      MarkMinesEachAt(k, found, i);
    }
  }

  lemma AllHoldMarkMines(k: seq<Sentence>, found: set<Cell>, mines: set<Cell>)
    requires AllHold(k, mines) && found <= mines
    ensures AllHold(MarkMinesEach(k, found), mines)
  {
    forall s | s in MarkMinesEach(k, found)
      ensures s.HoldsFor(mines)
    {
      var i :| 0 <= i < |k| && MarkMinesEach(k, found)[i] == s;
      MarkMinesEachAt(k, found, i);
      MarkMinesKeepsTruth(k[i], found, mines);
    }
  }

  lemma AllHoldMarkSafe(k: seq<Sentence>, cell: Cell, mines: set<Cell>)
    requires AllHold(k, mines) && cell !in mines
    ensures AllHold(MarkSafeEach(k, cell), mines)
  {
    forall s | s in MarkSafeEach(k, cell)
      ensures s.HoldsFor(mines)
    {
      var i :| 0 <= i < |k| && MarkSafeEach(k, cell)[i] == s;
      MarkSafeKeepsTruth(k[i], cell, mines);
    }
  }

  /** Marking mines removes exactly those cells from the cells the knowledge base mentions. */
  lemma {:induction false} OccurringMarkMines(k: seq<Sentence>, found: set<Cell>)
    ensures Occurring(MarkMinesEach(k, found)) == Occurring(k) - found
  {
    if k != [] {
      var m := MarkMinesEach(k, found);
      var init := k[..|k| - 1];
      assert m[..|m| - 1] == MarkMinesEach(init, found);
      assert m[|m| - 1] == k[|k| - 1].MarkMines(found);
      OccurringMarkMines(init, found);
    }
  }

  lemma {:induction false} OccurringHas(k: seq<Sentence>, s: Sentence)
    requires s in k
    ensures s.cells <= Occurring(k)
  {
    var init := k[..|k| - 1];
    if s != k[|k| - 1] {
      assert k == init + [k[|k| - 1]];
      OccurringHas(init, s);
    }
  }

  lemma OccurringAppend(k: seq<Sentence>, d: Sentence)
    ensures Occurring(k + [d]) == Occurring(k) + d.cells
  {
    assert (k + [d])[..|k|] == k;
  }

  /** A knowledge base of true sentences draws its sentences from the universe over the cells it mentions. */
  lemma ValuesInUniverse(k: seq<Sentence>, mines: set<Cell>)
    requires AllHold(k, mines)
    ensures Values(k) <= Universe(Occurring(k), mines)
  {
    forall s | s in Values(k)
      ensures s in Universe(Occurring(k), mines)
    {
      OccurringHas(k, s);
      assert s == Sentence(s.cells, |s.cells * mines|);
    }
  }

  lemma ValuesOfPrefix(k: seq<Sentence>, n: nat)
    requires n <= |k|
    ensures Values(k[..n]) <= Values(k)
  {
    forall s | s in Values(k[..n])
      ensures s in Values(k)
    {
      var i :| 0 <= i < n && k[..n][i] == s;
      assert k[i] == s;
    }
  }

  /** The sentence the inference rule derives from `from` and `to`: the cells of `to` outside `from`. */
  function Difference(from: Sentence, to: Sentence): Sentence {
    Sentence(to.cells - from.cells, to.count - from.count)
  }

  /** The guard of the inference rule: `from` lies inside `to` and has the strictly smaller count. */
  predicate Fires(from: Sentence, to: Sentence) {
    from.cells <= to.cells && from.count < to.count
  }

  /**
   * When the rule fires, the derived sentence is the part of `to` outside `from`: together with `from` it
   * makes up `to` again, cells and count, and it has at least one mine to account for.
   */
  lemma DifferenceSplits(from: Sentence, to: Sentence)
    requires Fires(from, to)
    ensures Difference(from, to).cells !! from.cells
    ensures Difference(from, to).cells + from.cells == to.cells
    ensures Difference(from, to).count + from.count == to.count && Difference(from, to).count >= 1
    ensures |Difference(from, to).cells| == |to.cells| - |from.cells|
  {
    var d := Difference(from, to);
    assert d.cells + from.cells == to.cells;
  }

  /**
   * The knowledge base went from `k0` to `k` by marking mines and appending: it is no shorter (longer when
   * `grew`), mentions no new cell, and either mentions fewer cells or keeps `k0` as it was and, when `grew`,
   * holds a sentence `k0` did not. This is what makes the inference loop terminate.
   */
  ghost predicate Progress(k0: seq<Sentence>, k: seq<Sentence>, grew: bool) {
    && |k| >= |k0|
    && (grew ==> |k| > |k0|)
    && Occurring(k) <= Occurring(k0)
    && (Occurring(k) == Occurring(k0) ==> k[..|k0|] == k0 && (grew ==> Values(k0) < Values(k)))
  }

  lemma ProgressNone(k: seq<Sentence>)
    ensures Progress(k, k, false)
  {
    assert k[..|k|] == k;
  }

  /** Progress composes: two steps make one, marking the mines of both. */
  lemma {:induction false} ProgressChain(k0: seq<Sentence>, k1: seq<Sentence>, k2: seq<Sentence>, grew1: bool, grew2: bool)
    requires Progress(k0, k1, grew1) && Progress(k1, k2, grew2)
    ensures Progress(k0, k2, grew1 || grew2)
  {
    if Occurring(k2) == Occurring(k0) {
      assert Occurring(k1) == Occurring(k0);
      assert k2[..|k0|] == k2[..|k1|][..|k0|];
      ValuesOfPrefix(k1, |k0|);
      ValuesOfPrefix(k2, |k1|);
    }
  }

  /**
   * One comparison makes progress: the derived sentence mentions only cells already mentioned; appending it
   * when new grows the distinct sentences; marking its (non-empty) cells as mines removes them all.
   */
  lemma DeriveProgress(k: seq<Sentence>, d: Sentence, appended: bool, found: set<Cell>)
    requires d.cells <= Occurring(k)
    requires appended ==> d !in k
    requires found == {} || (found == d.cells && found != {})
    ensures Progress(k, MarkMinesEach(k + (if appended then [d] else []), found), appended)
  {
    var k1 := k + (if appended then [d] else []);
    var k2 := MarkMinesEach(k1, found);
    if appended {
      OccurringAppend(k, d);
    } else {
      assert k1 == k;
    }
    OccurringMarkMines(k1, found);
    if found == {} {
      MarkMinesEachEmpty(k1);
      if appended {
        assert d in Values(k2) && d !in Values(k);
        assert k2[..|k|] == k;
        ValuesOfPrefix(k2, |k|);
      }
    } else {
      var x :| x in found;
      assert x in Occurring(k) && x !in Occurring(k2);
    }
  }

  /** What part of the inference loop leaves: the knowledge base, whether it appended, the mines it marked. */
  datatype Step = Step(k: seq<Sentence>, grew: bool, found: set<Cell>)

  /**
   * Round `m` of a pass over the snapshot `order`, up to position `t`: the sentence at `order[m]` (from)
   * compared in turn with each of those at `order[m+1..t]` (to), as the knowledge base stands by then. When
   * the rule fires, their difference is appended unless an equal sentence is known, and if its count equals
   * its size its cells are marked as mines in every sentence. Only appending makes the knowledge base longer.
   */
  function Round(k: seq<Sentence>, order: seq<nat>, m: nat, t: nat): (r: Step)
    requires m < |order| && t <= |order|
    ensures |r.k| >= |k| && (r.grew <==> |r.k| > |k|)
    decreases t
  {
    if t <= m + 1 then Step(k, false, {})
    else
      var s := Round(k, order, m, t - 1);
      var i, j := order[m], order[t - 1];
      if !(i < |s.k| && j < |s.k| && Fires(s.k[i], s.k[j])) then s
      else
        var d := Difference(s.k[i], s.k[j]);
        var k1 := if d in s.k then s.k else s.k + [d];
        if d.count == |d.cells| && |d.cells| > 0 then Step(MarkMinesEach(k1, d.cells), s.grew || d !in s.k, s.found + d.cells)
        else Step(k1, s.grew || d !in s.k, s.found)
  }

  /**
   * The first `m` rounds of a pass over the snapshot `order`, each on the knowledge base the rounds before it
   * left; `PassOver(k, order, |order|)` is the whole pass.
   */
  function PassOver(k: seq<Sentence>, order: seq<nat>, m: nat): (r: Step)
    requires m <= |order|
    ensures |r.k| >= |k| && (r.grew <==> |r.k| > |k|)
  {
    if m == 0 then Step(k, false, {})
    else
      var s := PassOver(k, order, m - 1);
      var c := Round(s.k, order, m - 1, |order|);
      Step(c.k, s.grew || c.grew, s.found + c.found)
  }

  /**
   * A derived sentence is true because both sentences it comes from are, so appending it keeps the knowledge
   * base true; when its count equals its size its cells are all mines, and marking them keeps it true too.
   */
  lemma DeriveSound(k: seq<Sentence>, i: nat, j: nat, mines: set<Cell>)
    requires i < |k| && j < |k| && Fires(k[i], k[j]) && AllHold(k, mines)
    ensures var d := Difference(k[i], k[j]);
            var k1 := if d in k then k else k + [d];
            AllHold(k1, mines) && (d.count == |d.cells| ==> d.cells <= mines && AllHold(MarkMinesEach(k1, d.cells), mines))
  {
    var d := Difference(k[i], k[j]);
    DifferenceHolds(k[i], k[j], mines);
    var k1 := if d in k then k else k + [d];
    assert AllHold(k1, mines);
    if d.count == |d.cells| {
      AllCountedAreIn(d.cells, mines);
      AllHoldMarkMines(k1, d.cells, mines);
    }
  }

  /** The comparisons of a round keep the knowledge base true and mark only real mines. */
  lemma {:induction false} RoundSound(k: seq<Sentence>, order: seq<nat>, m: nat, t: nat, mines: set<Cell>, r: Step)
    requires m < |order| && t <= |order| && r == Round(k, order, m, t) && AllHold(k, mines)
    ensures AllHold(r.k, mines) && r.found <= mines
    decreases t
  {
    if t > m + 1 {
      RoundSound(k, order, m, t - 1, mines, Round(k, order, m, t - 1));
      RoundStepSound(k, order, m, t, mines);
    }
  }

  /** The last comparison of round `m` up to `t` keeps the knowledge base true and marks only real mines. */
  lemma RoundStepSound(k: seq<Sentence>, order: seq<nat>, m: nat, t: nat, mines: set<Cell>)
    requires m + 1 < t <= |order| && AllHold(Round(k, order, m, t - 1).k, mines)
    ensures AllHold(Round(k, order, m, t).k, mines)
    ensures Round(k, order, m, t).found <= Round(k, order, m, t - 1).found + mines
  {
    var s := Round(k, order, m, t - 1);
    var i, j := order[m], order[t - 1];
    if i < |s.k| && j < |s.k| && Fires(s.k[i], s.k[j]) {
      DeriveSound(s.k, i, j, mines);
    }
  }

  /** The last comparison of round `m` up to `t`, of `order[m]` with `order[t - 1]`, makes progress. */
  lemma RoundStepProgress(k: seq<Sentence>, order: seq<nat>, m: nat, t: nat)
    requires m + 1 < t <= |order|
    ensures Progress(Round(k, order, m, t - 1).k, Round(k, order, m, t).k,
                     |Round(k, order, m, t).k| > |Round(k, order, m, t - 1).k|)
  {
    var s := Round(k, order, m, t - 1);
    var i, j := order[m], order[t - 1];
    if i < |s.k| && j < |s.k| && Fires(s.k[i], s.k[j]) {
      var d := Difference(s.k[i], s.k[j]);
      var appended := d !in s.k;
      assert (if d in s.k then s.k else s.k + [d]) == s.k + (if appended then [d] else []);
      OccurringHas(s.k, s.k[j]);
      if d.count == |d.cells| && |d.cells| > 0 {
        DeriveProgress(s.k, d, appended, d.cells);
      } else {
        MarkMinesEachEmpty(s.k + (if appended then [d] else []));
        DeriveProgress(s.k, d, appended, {});
      }
    } else {
      ProgressNone(s.k);
    }
  }

  /** The comparisons of a round make progress towards the end of the inference loop. */
  lemma {:induction false} RoundProgress(k: seq<Sentence>, order: seq<nat>, m: nat, t: nat, r: Step)
    requires m < |order| && t <= |order| && r == Round(k, order, m, t)
    ensures Progress(k, r.k, r.grew)
    decreases t
  {
    if t <= m + 1 {
      ProgressNone(k);
    } else {
      var s := Round(k, order, m, t - 1);
      RoundProgress(k, order, m, t - 1, s);
      RoundStepProgress(k, order, m, t);
      ProgressChain(k, s.k, r.k, s.grew, |r.k| > |s.k|);
    }
  }

  /** A pass keeps the knowledge base true and marks only real mines. */
  lemma {:induction false} PassSound(k: seq<Sentence>, order: seq<nat>, m: nat, mines: set<Cell>, r: Step)
    requires m <= |order| && r == PassOver(k, order, m) && AllHold(k, mines)
    ensures AllHold(r.k, mines) && r.found <= mines
  {
    if m > 0 {
      var s := PassOver(k, order, m - 1);
      PassSound(k, order, m - 1, mines, s);
      RoundSound(s.k, order, m - 1, |order|, mines, Round(s.k, order, m - 1, |order|));
    }
  }

  /** A pass makes progress. */
  lemma {:induction false} PassProgress(k: seq<Sentence>, order: seq<nat>, m: nat, r: Step)
    requires m <= |order| && r == PassOver(k, order, m)
    ensures Progress(k, r.k, r.grew)
  {
    if m == 0 {
      ProgressNone(k);
    } else {
      var s := PassOver(k, order, m - 1);
      PassProgress(k, order, m - 1, s);
      var c := Round(s.k, order, m - 1, |order|);
      RoundProgress(s.k, order, m - 1, |order|, c);
      ProgressChain(k, s.k, c.k, s.grew, c.grew);
    }
  }

  /** A pass of the inference loop that changes nothing is no progress at all. */
  lemma ProgressMeasure(k0: seq<Sentence>, k: seq<Sentence>, mines: set<Cell>)
    requires Progress(k0, k, true) && AllHold(k, mines)
    ensures Occurring(k) < Occurring(k0) ||
            (Occurring(k) == Occurring(k0) &&
             Universe(Occurring(k), mines) - Values(k) < Universe(Occurring(k0), mines) - Values(k0))
  {
    if Occurring(k) == Occurring(k0) {
      ValuesInUniverse(k, mines);
      RemainderShrinks(Universe(Occurring(k0), mines), Values(k0), Values(k));
    }
  }

  /** Taking more of a finite universe away leaves strictly less: the inference loop's measure decreases. */
  lemma RemainderShrinks<T>(universe: set<T>, before: set<T>, after: set<T>)
    requires before < after <= universe
    ensures universe - after < universe - before
  {
    assert after - before != {} by {
      if after - before == {} {
        forall x | x in after
          ensures x in before
        {
          assert x !in after - before;
        }
        assert false;
      }
    }
    var x :| x in after - before;
    assert x in universe - before && x !in universe - after;
  }

  // The inference loop as a whole

  /** The knowledge base a whole pass over `k` in the order `order` leaves. */
  function After(k: seq<Sentence>, order: seq<nat>): seq<Sentence> {
    PassOver(k, order, |order|).k
  }

  /** The cells a whole pass over `k` in the order `order` marks as mines. */
  function MarkedBy(k: seq<Sentence>, order: seq<nat>): set<Cell> {
    PassOver(k, order, |order|).found
  }

  /** The cells the recorded passes marked as mines: pass `i` walks `trace[i]` in the order `orders[i]`. */
  ghost function MarkedAlong(trace: seq<seq<Sentence>>, orders: seq<seq<nat>>): set<Cell>
    requires |trace| == |orders|
    decreases |trace|
  {
    if trace == [] then {}
    else
      var n := |trace| - 1;
      MarkedAlong(trace[..n], orders[..n]) + MarkedBy(trace[n], orders[n])
  }

  /** One more recorded pass adds the mines that pass marked. */
  lemma MarkedAlongExtend(trace: seq<seq<Sentence>>, orders: seq<seq<nat>>, k: seq<Sentence>, order: seq<nat>)
    requires |trace| == |orders|
    ensures MarkedAlong(trace + [k], orders + [order]) == MarkedAlong(trace, orders) + MarkedBy(k, order)
  {
    assert (trace + [k])[..|trace|] == trace;
    assert (orders + [order])[..|orders|] == orders;
  }

  /**
   * The passes of an inference loop that started from `k0` and ended with `k`: pass `i` walks `trace[i]` in
   * its size order `orders[i]` and leaves `trace[i + 1]`, and the last pass leaves `k`.
   */
  ghost predicate Passes(k0: seq<Sentence>, trace: seq<seq<Sentence>>, orders: seq<seq<nat>>, k: seq<Sentence>) {
    && |trace| == |orders| > 0 && trace[0] == k0
    && (forall i | 0 <= i < |orders| :: SortedBySize(trace[i], orders[i]))
    && (forall i | 0 <= i < |orders| - 1 :: After(trace[i], orders[i]) == trace[i + 1])
    && After(trace[|orders| - 1], orders[|orders| - 1]) == k
  }

  /** The stop test of the loop as written: every pass but the last appended a sentence, and the last none. */
  ghost predicate AppendedUntilLast(trace: seq<seq<Sentence>>, orders: seq<seq<nat>>) {
    forall i | 0 <= i < |orders| && i < |trace| :: |After(trace[i], orders[i])| > |trace[i]| <==> i + 1 < |orders|
  }

  /** The intended stop test: every pass but the last changed the knowledge base, and the last, over `k`, did not. */
  ghost predicate ChangedUntilLast(trace: seq<seq<Sentence>>, k: seq<Sentence>) {
    && |trace| > 0 && trace[|trace| - 1] == k
    && forall i | 0 <= i < |trace| - 1 :: trace[i + 1] != trace[i]
  }

  /** A pass over `k` in its size order `order` leaves it as it is. */
  ghost predicate Stable(k: seq<Sentence>, order: seq<nat>) {
    SortedBySize(k, order) && After(k, order) == k
  }

  /**
   * Comparing `from` with `to` changes the knowledge base `k`: the rule fires and the derived sentence is
   * not known yet, or its cells are all mines and get marked.
   */
  predicate Changes(k: seq<Sentence>, from: Sentence, to: Sentence) {
    Fires(from, to) &&
    var d := Difference(from, to);
    d !in k || (d.count == |d.cells| && |d.cells| > 0)
  }

  /** One more pass extends the passes from `k0`. */
  lemma PassesExtend(k0: seq<Sentence>, trace: seq<seq<Sentence>>, orders: seq<seq<nat>>, k: seq<Sentence>,
                     order: seq<nat>)
    requires (trace == [] && orders == [] && k == k0) || Passes(k0, trace, orders, k)
    requires SortedBySize(k, order)
    ensures Passes(k0, trace + [k], orders + [order], After(k, order))
  {
    var trace', orders' := trace + [k], orders + [order];
    forall i | 0 <= i < |orders'|
      ensures SortedBySize(trace'[i], orders'[i])
    {
      if i < |orders| {
        assert trace'[i] == trace[i] && orders'[i] == orders[i];
      }
    }
    forall i | 0 <= i < |orders'| - 1
      ensures After(trace'[i], orders'[i]) == trace'[i + 1]
    {
      assert trace'[i] == trace[i] && orders'[i] == orders[i];
      if i + 1 < |orders| {
        assert trace'[i + 1] == trace[i + 1];
      }
    }
  }

  /** The passes so far of the loop as written, none of which has stopped it: each appended a sentence. */
  ghost predicate Growing(k0: seq<Sentence>, trace: seq<seq<Sentence>>, orders: seq<seq<nat>>, k: seq<Sentence>) {
    || (trace == [] && orders == [] && k == k0)
    || (&& Passes(k0, trace, orders, k)
        && forall i | 0 <= i < |orders| && i < |trace| :: |After(trace[i], orders[i])| > |trace[i]|)
  }

  /** One more pass of the loop as written: it goes on if the pass appended, and otherwise stops there. */
  lemma GrowingExtend(k0: seq<Sentence>, trace: seq<seq<Sentence>>, orders: seq<seq<nat>>, k: seq<Sentence>,
                      order: seq<nat>)
    requires Growing(k0, trace, orders, k) && SortedBySize(k, order)
    ensures |After(k, order)| > |k| ==> Growing(k0, trace + [k], orders + [order], After(k, order))
    ensures |After(k, order)| <= |k| ==>
              Passes(k0, trace + [k], orders + [order], After(k, order)) && AppendedUntilLast(trace + [k], orders + [order])
  {
    PassesExtend(k0, trace, orders, k, order);
    var trace', orders' := trace + [k], orders + [order];
    forall i | 0 <= i < |orders| && i < |trace|
      ensures |After(trace'[i], orders'[i])| > |trace'[i]|
    {
      assert trace'[i] == trace[i] && orders'[i] == orders[i];
    }
  }

  /** The passes so far of the intended loop, none of which has stopped it: each changed the knowledge base. */
  ghost predicate Changing(k0: seq<Sentence>, trace: seq<seq<Sentence>>, orders: seq<seq<nat>>, k: seq<Sentence>) {
    || (trace == [] && orders == [] && k == k0)
    || (&& Passes(k0, trace, orders, k)
        && (forall i | 0 <= i < |trace| - 1 :: trace[i + 1] != trace[i])
        && k != trace[|trace| - 1])
  }

  /** One more pass of the intended loop: it goes on if the pass changed the knowledge base, and otherwise stops there. */
  lemma ChangingExtend(k0: seq<Sentence>, trace: seq<seq<Sentence>>, orders: seq<seq<nat>>, k: seq<Sentence>,
                       order: seq<nat>)
    requires Changing(k0, trace, orders, k) && SortedBySize(k, order)
    ensures After(k, order) != k ==> Changing(k0, trace + [k], orders + [order], After(k, order))
    ensures After(k, order) == k ==>
              && Passes(k0, trace + [k], orders + [order], k)
              && ChangedUntilLast(trace + [k], k) && Stable(k, order)
  {
    PassesExtend(k0, trace, orders, k, order);
    var trace' := trace + [k];
    forall i | 0 <= i < |trace'| - 1
      ensures trace'[i + 1] != trace'[i]
    {
      assert trace'[i] == trace[i];
    }
  }

  /** Progress both ways is no change at all. */
  lemma ProgressBoth(a: seq<Sentence>, b: seq<Sentence>, g1: bool, g2: bool)
    requires Progress(a, b, g1) && Progress(b, a, g2)
    ensures a == b
  {
    assert |a| == |b|;
    assert b[..|a|] == b;
  }

  /** From comparison `t` to comparison `u`, round `m` makes progress. */
  lemma {:induction false} RoundRestProgress(k: seq<Sentence>, order: seq<nat>, m: nat, t: nat, u: nat, a: Step, b: Step)
    requires m < t <= u <= |order| && a == Round(k, order, m, t) && b == Round(k, order, m, u)
    ensures Progress(a.k, b.k, false)
    decreases u
  {
    if u == t {
      ProgressNone(a.k);
    } else {
      var s := Round(k, order, m, u - 1);
      RoundRestProgress(k, order, m, t, u - 1, a, s);
      RoundStepProgress(k, order, m, u);
      ProgressChain(a.k, s.k, b.k, false, |b.k| > |s.k|);
    }
  }

  /** From round `m` on, the rest of a pass makes progress. */
  lemma {:induction false} PassRestProgress(k: seq<Sentence>, order: seq<nat>, m: nat)
    requires m <= |order|
    ensures Progress(PassOver(k, order, m).k, PassOver(k, order, |order|).k, false)
    decreases |order| - m
  {
    if m == |order| {
      ProgressNone(PassOver(k, order, m).k);
    } else {
      var s, n := PassOver(k, order, m), PassOver(k, order, m + 1);
      var c := Round(s.k, order, m, |order|);
      assert n.k == c.k;
      RoundProgress(s.k, order, m, |order|, c);
      PassRestProgress(k, order, m + 1);
      ProgressChain(s.k, n.k, PassOver(k, order, |order|).k, c.grew, false);
    }
  }

  /** Every stage of a pass over a stable knowledge base leaves it as it is. */
  lemma StablePass(k: seq<Sentence>, order: seq<nat>, m: nat)
    requires Stable(k, order) && m <= |order|
    ensures PassOver(k, order, m).k == k
  {
    PassProgress(k, order, m, PassOver(k, order, m));
    PassRestProgress(k, order, m);
    ProgressBoth(k, PassOver(k, order, m).k, PassOver(k, order, m).grew, false);
  }

  /** Round `m` of a pass over a stable knowledge base leaves it as it is. */
  lemma StableRound(k: seq<Sentence>, order: seq<nat>, m: nat)
    requires Stable(k, order) && m < |order|
    ensures Round(k, order, m, |order|).k == k
  {
    StablePass(k, order, m);
    StablePass(k, order, m + 1);
    var p, q := PassOver(k, order, m), PassOver(k, order, m + 1);
    assert q.k == Round(p.k, order, m, |order|).k;
  }

  /** A round that leaves the knowledge base as it is leaves it so after comparison `t`. */
  lemma FixedRound(k: seq<Sentence>, order: seq<nat>, m: nat, t: nat)
    requires m < t <= |order| && Round(k, order, m, |order|).k == k
    ensures Round(k, order, m, t).k == k
  {
    var s := Round(k, order, m, t);
    RoundProgress(k, order, m, t, s);
    RoundRestProgress(k, order, m, t, |order|, s, Round(k, order, m, |order|));
    ProgressBoth(k, s.k, s.grew, false);
  }

  /** A comparison that leaves the knowledge base as it is changes nothing in the sense of `Changes`. */
  lemma UnchangedComparison(k: seq<Sentence>, order: seq<nat>, m: nat, t: nat)
    requires m < t < |order| && order[m] < |k| && order[t] < |k|
    requires Round(k, order, m, t).k == k && Round(k, order, m, t + 1).k == k
    ensures !Changes(k, k[order[m]], k[order[t]])
  {
    var i, j := order[m], order[t];
    if Fires(k[i], k[j]) {
      var d := Difference(k[i], k[j]);
      var k1 := if d in k then k else k + [d];
      if d.count == |d.cells| && |d.cells| > 0 {
        assert MarkMinesEach(k1, d.cells) == k;
        OccurringMarkMines(k1, d.cells);
        OccurringHas(k, k[j]);
        if d !in k {
          OccurringAppend(k, d);
        }
        assert false;
      }
      assert d in k;
    }
  }

  /** A round that leaves the knowledge base as it is leaves it so after every comparison. */
  lemma FixedRounds(k: seq<Sentence>, order: seq<nat>, m: nat)
    requires m < |order| && Round(k, order, m, |order|).k == k
    ensures forall t | m < t <= |order| :: Round(k, order, m, t).k == k
  {
    forall t | m < t <= |order| {
      FixedRound(k, order, m, t);
    }
  }

  /** No comparison of a pass over a stable knowledge base changes it. */
  lemma StableComparison(k: seq<Sentence>, order: seq<nat>, m: nat, t: nat)
    requires Stable(k, order) && m < t < |order|
    ensures !Changes(k, k[order[m]], k[order[t]])
  {
    StableRound(k, order, m);
    FixedRounds(k, order, m);
    UnchangedComparison(k, order, m, t);
  }

  /**
   * A stable knowledge base is closed under the inference rule: no pair the loop compares would derive a
   * sentence that is not known yet or name mines that are still in the sentences.
   */
  lemma StableClosed(k: seq<Sentence>, order: seq<nat>)
    requires Stable(k, order)
    ensures forall m, t | 0 <= m < t < |order| :: !Changes(k, k[order[m]], k[order[t]])
  {
    forall m, t | 0 <= m < t < |order|
      ensures !Changes(k, k[order[m]], k[order[t]])
    {
      StableComparison(k, order, m, t);
    }
  }

  /**
   * No pair of sentences, in either order, derives a sentence that is not known yet or names mines that are
   * still in the sentences.
   */
  predicate Closed(k: seq<Sentence>) {
    forall i, j | 0 <= i < |k| && 0 <= j < |k| :: !Changes(k, k[i], k[j])
  }

  /**
   * Between two true sentences the rule never fires from one to a sentence of no more cells: a subset of no
   * more cells is the same set, and then the counts agree.
   */
  lemma NoFireBackwards(k: seq<Sentence>, i: nat, j: nat, mines: set<Cell>)
    requires i < |k| && j < |k| && AllHold(k, mines)
    requires |k[j].cells| <= |k[i].cells|
    ensures !Fires(k[i], k[j])
  {
    var a, b := k[i].cells, k[j].cells;
    if a <= b {
      assert b == a + (b - a) && a * (b - a) == {};
      assert b - a == {};
      assert a == b;
      assert k[i] in k && k[j] in k;
    }
  }

  /**
   * A stable knowledge base that is true of some board is closed: the pairs the loop compares change nothing
   * by `StableClosed`, and the rule cannot fire the other way round between true sentences.
   */
  lemma TrueStableClosed(k: seq<Sentence>, order: seq<nat>, mines: set<Cell>)
    requires Stable(k, order) && AllHold(k, mines)
    ensures Closed(k)
  {
    forall i, j | 0 <= i < |k| && 0 <= j < |k|
      ensures !Changes(k, k[i], k[j])
    {
      assert i in order && j in order;
      var p :| 0 <= p < |order| && order[p] == i;
      var q :| 0 <= q < |order| && order[q] == j;
      if p < q {
        StableComparison(k, order, p, q);
      } else {
        assert q == p || Precedes(k, order[q], order[p]);
        NoFireBackwards(k, i, j, mines);
      }
    }
  }

  /** A pass that changes the knowledge base lowers the inference loop's measure. */
  lemma ChangeMeasure(k0: seq<Sentence>, k: seq<Sentence>, mines: set<Cell>)
    requires Progress(k0, k, |k| > |k0|) && k != k0 && AllHold(k, mines)
    ensures Occurring(k) < Occurring(k0) ||
            (Occurring(k) == Occurring(k0) &&
             Universe(Occurring(k), mines) - Values(k) < Universe(Occurring(k0), mines) - Values(k0))
  {
    if |k| > |k0| {
      ProgressMeasure(k0, k, mines);
    } else if Occurring(k) == Occurring(k0) {
      assert false;
    }
  }
}
