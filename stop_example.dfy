/**
 * A knowledge base on which the inference loop of `add_knowledge` stops too early. The first pass over it
 * appends nothing but marks two mines, so the loop's stop test ends it; the knowledge base it leaves is not
 * closed under the subset-difference rule, since a further pass would derive a new sentence.
 *
 * The passes here use the corrected `Sentence.MarkMine`. With `mark_mine` as written, the pass raises
 * TypeError when it marks the first mine, so the early stop shows only once that line is corrected.
 *
 * The cells are A = (0, 0), B = (0, 1), C = (0, 2), D = (1, 0), E = (1, 1), F = (1, 2), and the sentences
 * are true of a board whose mines are A, B and E.
 */
module StopExample {
  import opened Grid
  import opened Sentences
  import opened Knowledge

  const A: Cell := Cell(0, 0)
  const B: Cell := Cell(0, 1)
  const C: Cell := Cell(0, 2)
  const D: Cell := Cell(1, 0)
  const E: Cell := Cell(1, 1)
  const F: Cell := Cell(1, 2)

  /** The knowledge base the loop starts from. */
  function Start(): seq<Sentence> {
    [Sentence({A, B}, 2), Sentence({A, D}, 1), Sentence({C, F}, 0), Sentence({D, E}, 1), Sentence({A, B, C, F}, 2)]
  }

  /** The knowledge base after marking A and B as mines. */
  function Stopped(): seq<Sentence> {
    [Sentence({}, 0), Sentence({D}, 0), Sentence({C, F}, 0), Sentence({D, E}, 1), Sentence({C, F}, 0)]
  }

  /** The size order of `Start()`: four pairs, then the sentence of four cells. */
  const Order: seq<nat> := [0, 1, 2, 3, 4]

  lemma StartTrue()
    ensures AllHold(Start(), {A, B, E})
  {
    var mines := {A, B, E};
    assert {A, B} * mines == {A, B} && |{A, B}| == 2;
    assert {A, D} * mines == {A};
    assert {C, F} * mines == {};
    assert {D, E} * mines == {E};
    assert {A, B, C, F} * mines == {A, B};
  }

  lemma StartSorted()
    ensures SortedBySize(Start(), Order)
  {
    var k := Start();
    assert |k[0].cells| == 2 && |k[1].cells| == 2 && |k[2].cells| == 2 && |k[3].cells| == 2;
    assert |k[4].cells| == 4;
  }

  /** Round 0, from `{A, B} = 2`, finds it inside no later sentence with a larger count. */
  lemma QuietRound0()
    ensures Round(Start(), Order, 0, 5).k == Start()
  {
    var k := Start();
    assert !Fires(k[0], k[1]) by { assert B !in k[1].cells; }
    assert !Fires(k[0], k[2]) by { assert A !in k[2].cells; }
    assert !Fires(k[0], k[3]) by { assert A !in k[3].cells; }
    assert !Fires(k[0], k[4]);
    assert Round(k, Order, 0, 2).k == k;
    assert Round(k, Order, 0, 3).k == k;
    assert Round(k, Order, 0, 4).k == k;
  }

  /** Round 1, from `{A, D} = 1`, finds it inside no later sentence. */
  lemma QuietRound1()
    ensures Round(Start(), Order, 1, 5).k == Start()
  {
    var k := Start();
    assert !Fires(k[1], k[2]) by { assert A !in k[2].cells; }
    assert !Fires(k[1], k[3]) by { assert A !in k[3].cells; }
    assert !Fires(k[1], k[4]) by { assert D !in k[4].cells; }
    assert Round(k, Order, 1, 3).k == k;
    assert Round(k, Order, 1, 4).k == k;
  }

  /** Marking A and B as mines turns sentence `i` of `Start()` into sentence `i` of `Stopped()`. */
  lemma MarkedStartAt(i: nat)
    requires i < 5
    ensures Start()[i].MarkMines({A, B}) == Stopped()[i]
  {
    var found := {A, B};
    if i == 0 {
      assert {A, B} * found == {A, B} && |{A, B}| == 2;
    } else if i == 1 {
      assert {A, D} - found == {D} && {A, D} * found == {A};
    } else if i == 2 {
      assert {C, F} - found == {C, F} && {C, F} * found == {};
    } else if i == 3 {
      assert {D, E} - found == {D, E} && {D, E} * found == {};
    } else {
      assert {A, B, C, F} - found == {C, F} && {A, B, C, F} * found == {A, B} && |{A, B}| == 2;
    }
  }

  /** Marking A and B as mines in `Start()` gives `Stopped()`. */
  lemma MarkedStart()
    ensures MarkMinesEach(Start(), {A, B}) == Stopped()
  {
    var r := MarkMinesEach(Start(), {A, B});
    forall i | 0 <= i < 5
      ensures r[i] == Stopped()[i]
    {
      MarkMinesEachAt(Start(), {A, B}, i);
      MarkedStartAt(i);
    }
  }

  /**
   * Round 2, from `{C, F} = 0`: inside `{A, B, C, F} = 2` it derives `{A, B} = 2`, which is already known,
   * so nothing is appended, and marks A and B as mines.
   */
  lemma MarkingRound()
    ensures Round(Start(), Order, 2, 5).k == Stopped()
  {
    var k := Start();
    assert !Fires(k[2], k[3]) by { assert C !in k[3].cells; }
    assert Round(k, Order, 2, 4).k == k;
    var d := Difference(k[2], k[4]);
    assert Fires(k[2], k[4]);
    assert d == Sentence({A, B}, 2) by { assert {A, B, C, F} - {C, F} == {A, B}; }
    assert d == k[0] && |d.cells| == 2;
    MarkedStart();
  }

  /** Round 3 compares `{D, E} = 1` with `{C, F} = 0`, which does not fire; round 4 compares nothing. */
  lemma QuietAfter(m: nat)
    requires 3 <= m < 5
    ensures Round(Stopped(), Order, m, 5).k == Stopped()
  {
  }

  /**
   * The first pass over `Start()` in its size order leaves `Stopped()`: it marks A and B as mines and
   * appends nothing.
   */
  lemma FirstPass()
    ensures After(Start(), Order) == Stopped()
  {
    QuietRound0();
    QuietRound1();
    MarkingRound();
    QuietAfter(3);
    QuietAfter(4);
    assert PassOver(Start(), Order, 1).k == Start();
    assert PassOver(Start(), Order, 2).k == Start();
    assert PassOver(Start(), Order, 3).k == Stopped();
    assert PassOver(Start(), Order, 4).k == Stopped();
  }

  /** In `Stopped()`, `{D} = 0` lies inside `{D, E} = 1` and derives `{E} = 1`, which is not known yet. */
  lemma StoppedChanges()
    ensures Changes(Stopped(), Stopped()[1], Stopped()[3])
  {
    var k := Stopped();
    assert Difference(k[1], k[3]) == Sentence({E}, 1) by { assert {D, E} - {D} == {E}; }
    assert Sentence({E}, 1) != k[3] by { assert D !in {E}; }
  }

  /** `Stopped()` is stable in no size order: a further pass would append `{E} = 1`. */
  lemma StoppedNotStable(order: seq<nat>)
    requires SortedBySize(Stopped(), order)
    ensures !Stable(Stopped(), order)
  {
    var k := Stopped();
    assert 1 in order && 3 in order;
    var p :| 0 <= p < |order| && order[p] == 1;
    var q :| 0 <= q < |order| && order[q] == 3;
    assert |k[1].cells| == 1 && |k[3].cells| == 2;
    assert !Precedes(k, 3, 1);
    assert p < q;
    StoppedChanges();
    if Stable(k, order) {
      StableComparison(k, order, p, q);
    }
  }

  /**
   * The loop of `add_knowledge` with its stop test as written (and `mark_mine` corrected), started on
   * `Start()` (a knowledge base that is true of the mines A, B and E), stops after one pass, although that
   * pass changed the knowledge base, and ends on a knowledge base that is neither stable nor closed:
   * another pass would still derive a sentence.
   */
  lemma AsWrittenStopsEarly(trace: seq<seq<Sentence>>, orders: seq<seq<nat>>, k: seq<Sentence>)
    requires Passes(Start(), trace, orders, k) && AppendedUntilLast(trace, orders)
    ensures AllHold(Start(), {A, B, E})
    ensures |trace| == 1 && k == Stopped() && k != Start()
    ensures forall order | SortedBySize(k, order) :: !Stable(k, order)
    ensures !Closed(k)
  {
    StartTrue();
    StartSorted();
    SortedUnique(Start(), orders[0], Order);
    FirstPass();
    assert |After(trace[0], orders[0])| == |trace[0]|;
    assert Stopped()[0] != Start()[0];
    forall order | SortedBySize(k, order)
      ensures !Stable(k, order)
    {
      StoppedNotStable(order);
    }
    StoppedChanges();
  }
}
