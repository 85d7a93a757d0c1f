/**
 * Tic-tac-toe: the rules of the game on a 3x3 board (whose turn it is, the legal moves, the board a
 * move leads to, who has won, whether the game is over and what it scores) and the minimax search
 * `MaxValue`/`MinValue` with its early cut-off, together with `Minimax`, which picks a move.
 *
 * The search methods are proved to compute `MaxSearch`/`MinSearch`, which follow the same steps as
 * pure functions; those are proved to agree with `MaxScore`/`MinScore`, the textbook game values
 * (the best over all legal moves, without any cut-off). The winner test is proved against
 * `HasLine`, which looks at the eight lines directly.
 */
module TicTacToe {
  import opened Wrappers

  /** A square holds an X, an O or nothing (the source's `None`). */
  datatype Square = X | O | Empty

  /** The two sides; X moves first. */
  type Side = s: Square | s != Empty witness X

  /** Three rows of three squares. */
  type Board = b: seq<seq<Square>> | |b| == 3 && forall i | 0 <= i < 3 :: |b[i]| == 3
    witness [[Empty, Empty, Empty], [Empty, Empty, Empty], [Empty, Empty, Empty]]

  /** A move (row, column). Any pair of integers can be proposed; only an empty square is legal. */
  type Action = (int, int)

  /** What `result` raises for a move that is not available. */
  datatype InvalidMove = InvalidMoveException

  function Opponent(p: Side): Side {
    if p == X then O else X
  }

  function Max(x: int, y: int): int {
    if x < y then y else x
  }

  function Min(x: int, y: int): int {
    if y < x then y else x
  }

  function InitialState(): Board {
    [[Empty, Empty, Empty], [Empty, Empty, Empty], [Empty, Empty, Empty]]
  }

  /** The squares read row after row, as the board is flattened to count the marks on it. */
  function Squares(b: Board): seq<Square> {
    b[0] + b[1] + b[2]
  }

  /** How many squares of `s` hold `x`. */
  function Occurrences(s: seq<Square>, x: Square): (n: nat)
    ensures n <= |s|
  {
    if s == [] then 0 else (if s[0] == x then 1 else 0) + Occurrences(s[1..], x)
  }

  /** The number of squares still free; every legal move uses one up. */
  function EmptySquares(b: Board): nat {
    Occurrences(Squares(b), Empty)
  }

  /** The side to move: X when both sides have as many marks, O otherwise. */
  function Player(b: Board): Side {
    if Occurrences(Squares(b), X) == Occurrences(Squares(b), O) then X else O
  }

  /** The nine positions (row, column) of the board. */
  const Positions: set<Action> :=
    {(0, 0), (0, 1), (0, 2), (1, 0), (1, 1), (1, 2), (2, 0), (2, 1), (2, 2)}

  /** The legal moves: the positions of the empty squares. */
  function Actions(b: Board): set<Action> {
    set a | a in Positions && b[a.0][a.1] == Empty
  }

  /**
   * The empty squares from square number `n` on (square `3 * i + j` is row `i`, column `j`), row
   * after row: the order in which the search below tries the legal moves.
   */
  function EmptyFrom(b: Board, n: nat): seq<Action>
    requires n <= 9
    decreases 9 - n
  {
    if n == 9 then []
    else (if b[n / 3][n % 3] == Empty then [(n / 3, n % 3)] else []) + EmptyFrom(b, n + 1)
  }

  /** The legal moves, row after row. */
  function ActionList(b: Board): seq<Action> {
    EmptyFrom(b, 0)
  }

  /**
   * The board after the side to move plays `a`, or `InvalidMoveException` when `a` is not a legal move.
   * The new board is a copy: `b` itself is a value and is not changed.
   */
  function Result(b: Board, a: Action): (r: Wrappers.Result<Board, InvalidMove>)
    ensures r.Failure? <==> a !in Actions(b)
    ensures r.Success? ==> EmptySquares(r.value) == EmptySquares(b) - 1
  {
    if a !in Actions(b) then Failure(InvalidMoveException)
    else
      var b' := b[a.0 := b[a.0][a.1 := Player(b)]];
      SquaresAfterMove(b, a, Player(b));
      OccurrencesUpdate(Squares(b), 3 * a.0 + a.1, Player(b), Empty);
      Success(b')
  }

  /** `p` holds a whole row, a whole column, the main diagonal or the anti-diagonal. */
  predicate HasLine(b: Board, p: Side) {
    (b[0][0] == p && b[0][1] == p && b[0][2] == p) ||
    (b[1][0] == p && b[1][1] == p && b[1][2] == p) ||
    (b[2][0] == p && b[2][1] == p && b[2][2] == p) ||
    (b[0][0] == p && b[1][0] == p && b[2][0] == p) ||
    (b[0][1] == p && b[1][1] == p && b[2][1] == p) ||
    (b[0][2] == p && b[1][2] == p && b[2][2] == p) ||
    (b[0][0] == p && b[1][1] == p && b[2][2] == p) ||
    (b[2][0] == p && b[1][1] == p && b[0][2] == p)
  }

  /**
   * The winner as the source decides it: only the side that moved last (the opponent of the side to
   * move) is looked at, and it wins when it holds a line.
   */
  function WinnerOf(b: Board): Option<Side> {
    var last := Opponent(Player(b));
    if HasLine(b, last) then Some(last) else None
  }

  /**
   * The loops of `winner`: each row and each column is checked in turn for the last mover, while the
   * marks on the two diagonals are counted, and the diagonals are checked at the end.
   */
  method Winner(b: Board) returns (w: Option<Side>)
    ensures w == WinnerOf(b)
  {
    var last := Opponent(Player(b));
    var diag1, diag2 := 0, 0;
    for i := 0 to 3
      invariant forall k :: 0 <= k < i ==> !(b[k][0] == last && b[k][1] == last && b[k][2] == last)
      invariant forall k :: 0 <= k < i ==> !(b[0][k] == last && b[1][k] == last && b[2][k] == last)
      invariant diag1 <= i && (diag1 == i <==> forall k :: 0 <= k < i ==> b[k][k] == last)
      invariant diag2 <= i && (diag2 == i <==>
        (i > 0 ==> b[2][0] == last) && (i > 1 ==> b[1][1] == last) && (i > 2 ==> b[0][2] == last))
    {
      var rowCheck := Occurrences(b[i], last);
      OccurrencesAll(b[i], last);
      if rowCheck == 3 {
        return Some(last);
      }
      var colCheck := 0;
      for j := 0 to 3
        invariant colCheck <= j && (colCheck == j <==> forall k :: 0 <= k < j ==> b[k][i] == last)
      {
        if b[j][i] == last {
          colCheck := colCheck + 1;
        }
      }
      if colCheck == 3 {
        return Some(last);
      }
      if b[i][i] == last {
        diag1 := diag1 + 1;
      }
      if b[2 - i][i] == last {
        diag2 := diag2 + 1;
      }
    }
    if diag1 == 3 || diag2 == 3 {
      return Some(last);
    }
    return None;
  }

  /**
   * The game is over when somebody has won or no square is free; `TerminalIff` shows this is the
   * source's test (a winner, or no legal move).
   */
  predicate Terminal(b: Board) {
    WinnerOf(b).Some? || EmptySquares(b) == 0
  }

  /** The score of a finished game, 1 when X won, -1 when O won, 0 for a draw; `None` (the source's `False`) before the end. */
  function Utility(b: Board): (r: Option<int>)
    ensures r.None? <==> !Terminal(b)
    ensures r == Some(1) ==> HasLine(b, X)
    ensures r == Some(-1) ==> HasLine(b, O)
    ensures r.Some? ==> r == Some(1) || r == Some(-1) || (r == Some(0) && EmptySquares(b) == 0)
  {
    if Terminal(b) then
      Some(if WinnerOf(b) == Some(X) then 1 else if WinnerOf(b) == Some(O) then -1 else 0)
    else None
  }

  // The search

  /**
   * What `maxValue` and `minValue` return: the value of the board, the moves they recorded with a
   * depth each, and the depth the last move tried reported (the given depth on a finished game).
   */
  datatype Evaluation = Evaluation(value: int, records: seq<(Action, nat)>, depth: nat)

  /** `maxValue` as a function: the score of a finished game, otherwise a scan of the legal moves. */
  function MaxSearch(b: Board, d: nat): Evaluation
    decreases EmptySquares(b), 1
  {
    if Terminal(b) then Evaluation(Utility(b).value, [], d)
    else
      ActionListMembers(b);
      MaxScan(b, d, ActionList(b), Evaluation(-2, [], d))
  }

  /**
   * The loop of `maxValue` from move `todo[0]` on: the value becomes the larger of itself and the
   * reply's value; at 1 the move goes to the front of the records and the scan stops, at 0 it is
   * appended with depth 0.
   */
  function MaxScan(b: Board, d: nat, todo: seq<Action>, acc: Evaluation): Evaluation
    requires forall a | a in todo :: a in Actions(b)
    decreases EmptySquares(b), 0, |todo|
  {
    if todo == [] then acc
    else
      var reply := MinSearch(Result(b, todo[0]).value, d + 1);
      var value := Max(acc.value, reply.value);
      if value == 1 then Evaluation(value, [(todo[0], reply.depth)] + acc.records, reply.depth)
      else
        var records := if value == 0 then acc.records + [(todo[0], 0)] else acc.records;
        MaxScan(b, d, todo[1..], Evaluation(value, records, reply.depth))
  }

  /** `minValue` as a function. */
  function MinSearch(b: Board, d: nat): Evaluation
    decreases EmptySquares(b), 1
  {
    if Terminal(b) then Evaluation(Utility(b).value, [], d)
    else
      ActionListMembers(b);
      MinScan(b, d, ActionList(b), Evaluation(2, [], d))
  }

  /** The loop of `minValue`: as `MaxScan` with the smaller value, stopping at -1. */
  function MinScan(b: Board, d: nat, todo: seq<Action>, acc: Evaluation): Evaluation
    requires forall a | a in todo :: a in Actions(b)
    decreases EmptySquares(b), 0, |todo|
  {
    if todo == [] then acc
    else
      var reply := MaxSearch(Result(b, todo[0]).value, d + 1);
      var value := Min(acc.value, reply.value);
      if value == -1 then Evaluation(value, [(todo[0], reply.depth)] + acc.records, reply.depth)
      else
        var records := if value == 0 then acc.records + [(todo[0], 0)] else acc.records;
        MinScan(b, d, todo[1..], Evaluation(value, records, reply.depth))
  }

  /**
   * `maxValue`: the moves are tried row after row, each answered by `MinValue` one level deeper,
   * until one is worth 1.
   */
  method MaxValue(b: Board, d: nat) returns (value: int, actionValues: seq<(Action, nat)>, depth: nat)
    ensures Evaluation(value, actionValues, depth) == MaxSearch(b, d)
    decreases EmptySquares(b), 1
  {
    value := -2;
    actionValues := [];
    if Terminal(b) {
      return Utility(b).value, actionValues, d;
    }
    ActionListMembers(b);
    var todo := ActionList(b);
    depth := d;
    for k := 0 to |todo|
      invariant MaxScan(b, d, todo[k..], Evaluation(value, actionValues, depth)) == MaxSearch(b, d)
    {
      var a := todo[k];
      assert todo[k..][0] == a && todo[k..][1..] == todo[k + 1..];
      var next := Result(b, a).value;
      var replyValue, _, replyDepth := MinValue(next, d + 1);
      value := Max(value, replyValue);
      depth := replyDepth;
      if value == 1 {
        actionValues := [(a, replyDepth)] + actionValues;
        break;
      } else if value == 0 {
        actionValues := actionValues + [(a, 0)];
      }
    }
  }

  /** `minValue`: as `MaxValue` for the minimising side, stopping at a move worth -1. */
  method MinValue(b: Board, d: nat) returns (value: int, actionValues: seq<(Action, nat)>, depth: nat)
    ensures Evaluation(value, actionValues, depth) == MinSearch(b, d)
    decreases EmptySquares(b), 1
  {
    value := 2;
    actionValues := [];
    if Terminal(b) {
      return Utility(b).value, actionValues, d;
    }
    ActionListMembers(b);
    var todo := ActionList(b);
    depth := d;
    for k := 0 to |todo|
      invariant MinScan(b, d, todo[k..], Evaluation(value, actionValues, depth)) == MinSearch(b, d)
    {
      var a := todo[k];
      assert todo[k..][0] == a && todo[k..][1..] == todo[k + 1..];
      var next := Result(b, a).value;
      var replyValue, _, replyDepth := MaxValue(next, d + 1);
      value := Min(value, replyValue);
      depth := replyDepth;
      if value == -1 {
        actionValues := [(a, replyDepth)] + actionValues;
        break;
      } else if value == 0 {
        actionValues := actionValues + [(a, 0)];
      }
    }
  }

  // The game values the search is measured against

  /**
   * The value of `b` when X, the maximising side, is to choose: the score of a finished game,
   * otherwise the best over all legal moves of the value O then achieves.
   */
  ghost function MaxScore(b: Board): (v: int)
    ensures -1 <= v <= 1
    decreases EmptySquares(b), 1
  {
    if Terminal(b) then Utility(b).value
    else
      ActionListMembers(b);
      ActionListCount(b);
      MaxOverMoves(b, ActionList(b))
  }

  /** The value of `b` when O, the minimising side, is to choose. */
  ghost function MinScore(b: Board): (v: int)
    ensures -1 <= v <= 1
    decreases EmptySquares(b), 1
  {
    if Terminal(b) then Utility(b).value
    else
      ActionListMembers(b);
      ActionListCount(b);
      MinOverMoves(b, ActionList(b))
  }

  /** The largest `MinScore` among the boards the moves of `todo` lead to. */
  ghost function MaxOverMoves(b: Board, todo: seq<Action>): (v: int)
    requires todo != [] && forall a | a in todo :: a in Actions(b)
    ensures -1 <= v <= 1
    decreases EmptySquares(b), 0, |todo|
  {
    var first := MinScore(Result(b, todo[0]).value);
    if |todo| == 1 then first else Max(first, MaxOverMoves(b, todo[1..]))
  }

  /** The smallest `MaxScore` among the boards the moves of `todo` lead to. */
  ghost function MinOverMoves(b: Board, todo: seq<Action>): (v: int)
    requires todo != [] && forall a | a in todo :: a in Actions(b)
    ensures -1 <= v <= 1
    decreases EmptySquares(b), 0, |todo|
  {
    var first := MaxScore(Result(b, todo[0]).value);
    if |todo| == 1 then first else Min(first, MinOverMoves(b, todo[1..]))
  }

  /** No legal move is worth more to X than `MaxScore`. */
  lemma {:induction false} MaxOverMovesBounds(b: Board, todo: seq<Action>, a: Action)
    requires todo != [] && forall a | a in todo :: a in Actions(b)
    requires a in todo
    ensures MinScore(Result(b, a).value) <= MaxOverMoves(b, todo)
    decreases |todo|
  {
    if todo[0] != a {
      MaxOverMovesBounds(b, todo[1..], a);
    }
  }

  /** Some move of `todo` is worth exactly the maximum. */
  lemma {:induction false} MaxOverMovesReached(b: Board, todo: seq<Action>) returns (a: Action)
    requires todo != [] && forall a | a in todo :: a in Actions(b)
    ensures a in todo && MinScore(Result(b, a).value) == MaxOverMoves(b, todo)
    decreases |todo|
  {
    if |todo| == 1 || MinScore(Result(b, todo[0]).value) >= MaxOverMoves(b, todo[1..]) {
      a := todo[0];
    } else {
      a := MaxOverMovesReached(b, todo[1..]);
    }
  }

  lemma {:induction false} MinOverMovesBounds(b: Board, todo: seq<Action>, a: Action)
    requires todo != [] && forall a | a in todo :: a in Actions(b)
    requires a in todo
    ensures MinOverMoves(b, todo) <= MaxScore(Result(b, a).value)
    decreases |todo|
  {
    if todo[0] != a {
      MinOverMovesBounds(b, todo[1..], a);
    }
  }

  lemma {:induction false} MinOverMovesReached(b: Board, todo: seq<Action>) returns (a: Action)
    requires todo != [] && forall a | a in todo :: a in Actions(b)
    ensures a in todo && MaxScore(Result(b, a).value) == MinOverMoves(b, todo)
    decreases |todo|
  {
    if |todo| == 1 || MaxScore(Result(b, todo[0]).value) <= MinOverMoves(b, todo[1..]) {
      a := todo[0];
    } else {
      a := MinOverMovesReached(b, todo[1..]);
    }
  }

  /** `MaxScore` is the best X can get: no legal move is worth more ... */
  lemma MaxScoreBounds(b: Board, a: Action)
    requires !Terminal(b) && a in Actions(b)
    ensures MinScore(Result(b, a).value) <= MaxScore(b)
  {
    ActionListMembers(b);
    ActionListCount(b);
    MaxOverMovesBounds(b, ActionList(b), a);
  }

  /** ... and some legal move is worth exactly that. */
  lemma MaxScoreReached(b: Board) returns (a: Action)
    requires !Terminal(b)
    ensures a in Actions(b) && MinScore(Result(b, a).value) == MaxScore(b)
  {
    ActionListMembers(b);
    ActionListCount(b);
    a := MaxOverMovesReached(b, ActionList(b));
  }

  /** `MinScore` is the best O can get: no legal move is worth less ... */
  lemma MinScoreBounds(b: Board, a: Action)
    requires !Terminal(b) && a in Actions(b)
    ensures MinScore(b) <= MaxScore(Result(b, a).value)
  {
    ActionListMembers(b);
    ActionListCount(b);
    MinOverMovesBounds(b, ActionList(b), a);
  }

  /** ... and some legal move is worth exactly that. */
  lemma MinScoreReached(b: Board) returns (a: Action)
    requires !Terminal(b)
    ensures a in Actions(b) && MaxScore(Result(b, a).value) == MinScore(b)
  {
    ActionListMembers(b);
    ActionListCount(b);
    a := MinOverMovesReached(b, ActionList(b));
  }

  // What the search computes

  /** The cut-off at 1 does not change the value: `maxValue` returns the game value. */
  lemma {:induction false} MaxSearchValue(b: Board, d: nat)
    ensures MaxSearch(b, d).value == MaxScore(b)
    decreases EmptySquares(b), 1
  {
    if !Terminal(b) {
      ActionListMembers(b);
      ActionListCount(b);
      MaxScanValue(b, d, ActionList(b), Evaluation(-2, [], d));
    }
  }

  /** The cut-off at -1 does not change the value: `minValue` returns the game value. */
  lemma {:induction false} MinSearchValue(b: Board, d: nat)
    ensures MinSearch(b, d).value == MinScore(b)
    decreases EmptySquares(b), 1
  {
    if !Terminal(b) {
      ActionListMembers(b);
      ActionListCount(b);
      MinScanValue(b, d, ActionList(b), Evaluation(2, [], d));
    }
  }

  /** Scanning `todo` yields the larger of the value so far and the best move of `todo`. */
  lemma {:induction false} MaxScanValue(b: Board, d: nat, todo: seq<Action>, acc: Evaluation)
    requires todo != [] && forall a | a in todo :: a in Actions(b)
    requires acc.value <= 0
    ensures MaxScan(b, d, todo, acc).value == Max(acc.value, MaxOverMoves(b, todo))
    decreases EmptySquares(b), 0, |todo|
  {
    var next := Result(b, todo[0]).value;
    MinSearchValue(next, d + 1);
    var reply := MinSearch(next, d + 1);
    var value := Max(acc.value, reply.value);
    if value < 1 && |todo| > 1 {
      var records := if value == 0 then acc.records + [(todo[0], 0)] else acc.records;
      MaxScanValue(b, d, todo[1..], Evaluation(value, records, reply.depth));
    }
  }

  /** Scanning `todo` yields the smaller of the value so far and the best move of `todo` for O. */
  lemma {:induction false} MinScanValue(b: Board, d: nat, todo: seq<Action>, acc: Evaluation)
    requires todo != [] && forall a | a in todo :: a in Actions(b)
    requires acc.value >= 0
    ensures MinScan(b, d, todo, acc).value == Min(acc.value, MinOverMoves(b, todo))
    decreases EmptySquares(b), 0, |todo|
  {
    var next := Result(b, todo[0]).value;
    MaxSearchValue(next, d + 1);
    var reply := MaxSearch(next, d + 1);
    var value := Min(acc.value, reply.value);
    if value > -1 && |todo| > 1 {
      var records := if value == 0 then acc.records + [(todo[0], 0)] else acc.records;
      MinScanValue(b, d, todo[1..], Evaluation(value, records, reply.depth));
    }
  }

  /**
   * The moves a maximising search records: there are some exactly when the value is 0 or 1, all are
   * legal, and the first is worth the value.
   */
  ghost predicate MaxRecords(b: Board, e: Evaluation) {
    (|e.records| > 0 <==> e.value >= 0) &&
    (forall k | 0 <= k < |e.records| :: e.records[k].0 in Actions(b)) &&
    (|e.records| > 0 ==> MinScore(Result(b, e.records[0].0).value) == e.value)
  }

  /** The moves a minimising search records: some exactly when the value is 0 or -1. */
  ghost predicate MinRecords(b: Board, e: Evaluation) {
    (|e.records| > 0 <==> e.value <= 0) &&
    (forall k | 0 <= k < |e.records| :: e.records[k].0 in Actions(b)) &&
    (|e.records| > 0 ==> MaxScore(Result(b, e.records[0].0).value) == e.value)
  }

  lemma {:induction false} MaxScanRecords(b: Board, d: nat, todo: seq<Action>, acc: Evaluation)
    requires forall a | a in todo :: a in Actions(b)
    requires -2 <= acc.value <= 0 && MaxRecords(b, acc)
    ensures MaxRecords(b, MaxScan(b, d, todo, acc))
    decreases |todo|
  {
    if todo != [] {
      var next := Result(b, todo[0]).value;
      MinSearchValue(next, d + 1);
      var reply := MinSearch(next, d + 1);
      var value := Max(acc.value, reply.value);
      if value < 1 {
        var records := if value == 0 then acc.records + [(todo[0], 0)] else acc.records;
        MaxScanRecords(b, d, todo[1..], Evaluation(value, records, reply.depth));
      }
    }
  }

  lemma {:induction false} MinScanRecords(b: Board, d: nat, todo: seq<Action>, acc: Evaluation)
    requires forall a | a in todo :: a in Actions(b)
    requires 0 <= acc.value <= 2 && MinRecords(b, acc)
    ensures MinRecords(b, MinScan(b, d, todo, acc))
    decreases |todo|
  {
    if todo != [] {
      var next := Result(b, todo[0]).value;
      MaxSearchValue(next, d + 1);
      var reply := MaxSearch(next, d + 1);
      var value := Min(acc.value, reply.value);
      if value > -1 {
        var records := if value == 0 then acc.records + [(todo[0], 0)] else acc.records;
        MinScanRecords(b, d, todo[1..], Evaluation(value, records, reply.depth));
      }
    }
  }

  /** What `maxValue` records on an unfinished game (on a finished one it records nothing). */
  lemma MaxSearchRecords(b: Board, d: nat)
    requires !Terminal(b)
    ensures MaxRecords(b, MaxSearch(b, d))
  {
    ActionListMembers(b);
    MaxScanRecords(b, d, ActionList(b), Evaluation(-2, [], d));
  }

  /** What `minValue` records on an unfinished game. */
  lemma MinSearchRecords(b: Board, d: nat)
    requires !Terminal(b)
    ensures MinRecords(b, MinSearch(b, d))
  {
    ActionListMembers(b);
    MinScanRecords(b, d, ActionList(b), Evaluation(2, [], d));
  }

  // Choosing a move

  /** A move that keeps the game value for the side that plays it. */
  ghost predicate Optimal(b: Board, a: Action)
    requires a in Actions(b)
  {
    if Player(b) == X then MinScore(Result(b, a).value) == MaxScore(b)
    else MaxScore(Result(b, a).value) == MinScore(b)
  }

  /**
   * `minimax`: no move on a finished game; any legal move on the empty board; otherwise the search
   * for the side to move runs and the first move it recorded is taken, or any legal move when it
   * recorded none. Off the empty board the move is optimal.
   */
  method Minimax(b: Board) returns (action: Option<Action>)
    ensures action.None? <==> Terminal(b)
    ensures action.Some? ==> action.value in Actions(b)
    ensures action.Some? && b != InitialState() ==> Optimal(b, action.value)
  {
    if Terminal(b) {
      return None;
    }
    ActionListMembers(b);
    ActionListCount(b);
    assert ActionList(b)[0] in Actions(b);
    HasAction(Actions(b));
    if b == InitialState() {
      var a :| a in Actions(b);
      return Some(a);
    }
    var value, actionsOpt, depth;
    if Player(b) == X {
      value, actionsOpt, depth := MaxValue(b, 0);
      MaxSearchValue(b, 0);
      MaxSearchRecords(b, 0);
    } else {
      value, actionsOpt, depth := MinValue(b, 0);
      MinSearchValue(b, 0);
      MinSearchRecords(b, 0);
    }
    if |actionsOpt| > 0 {
      return Some(actionsOpt[0].0);
    }
    var a :| a in Actions(b);
    if Player(b) == X {
      MaxScoreBounds(b, a);
    } else {
      MinScoreBounds(b, a);
    }
    return Some(a);
  }

  /**
   * The selection loop of `minimax` as written: starting from the bound 99 and no choice, each record
   * whose depth is below the bound becomes the choice and its depth the bound.
   */
  function Shallowest(records: seq<(Action, nat)>, minMoves: int, pick: Option<Action>): (r: Option<Action>)
    ensures r == pick || exists k | 0 <= k < |records| :: r == Some(records[k].0) && records[k].1 < minMoves
    decreases |records|
  {
    if records == [] then pick
    else if records[0].1 < minMoves then Shallowest(records[1..], records[0].1, Some(records[0].0))
    else Shallowest(records[1..], minMoves, pick)
  }

  method PickShallowest(records: seq<(Action, nat)>) returns (recommended: Option<Action>)
    ensures recommended == Shallowest(records, 99, None)
  {
    var minMoves := 99;
    recommended := None;
    for k := 0 to |records|
      invariant Shallowest(records[k..], minMoves, recommended) == Shallowest(records, 99, None)
    {
      assert records[k..][0] == records[k] && records[k..][1..] == records[k + 1..];
      if records[k].1 < minMoves {
        minMoves := records[k].1;
        recommended := Some(records[k].0);
      }
    }
    assert records[|records|..] == [];
  }

  // Lemmas about the rules

  lemma HasAction(s: set<Action>)
    requires s != {}
    ensures exists a :: a in s
  {
    if forall a :: a !in s {
      assert false;
    }
  }

  /** All the squares of `s` hold `x` exactly when `x` occurs `|s|` times. */
  lemma {:induction false} OccurrencesAll(s: seq<Square>, x: Square)
    ensures Occurrences(s, x) == |s| <==> forall i :: 0 <= i < |s| ==> s[i] == x
  {
    if s != [] {
      OccurrencesAll(s[1..], x);
      assert forall i :: 1 <= i < |s| ==> s[i] == s[1..][i - 1];
    }
  }

  /** Overwriting one square changes the count of a mark by what was removed and what was put there. */
  lemma {:induction false} OccurrencesUpdate(s: seq<Square>, k: nat, v: Square, x: Square)
    requires k < |s|
    ensures Occurrences(s[k := v], x) ==
      Occurrences(s, x) - (if s[k] == x then 1 else 0) + (if v == x then 1 else 0)
  {
    if k > 0 {
      assert s[k := v][1..] == s[1..][k - 1 := v];
      OccurrencesUpdate(s[1..], k - 1, v, x);
    }
  }

  lemma SquaresAfterMove(b: Board, a: Action, p: Square)
    requires 0 <= a.0 < 3 && 0 <= a.1 < 3
    ensures Squares(b[a.0 := b[a.0][a.1 := p]]) == Squares(b)[3 * a.0 + a.1 := p]
  {
  }

  /** Square number `n` of the flattened board is row `n / 3`, column `n % 3`. */
  lemma SquareAt(b: Board, n: nat)
    requires n < 9
    ensures Squares(b)[n] == b[n / 3][n % 3]
  {
    if n < 3 {
    } else if n < 6 {
    } else {
    }
  }

  /** The list of moves from square `n` on holds exactly the legal moves numbered `n` or more. */
  lemma {:induction false} EmptyFromMembers(b: Board, n: nat)
    requires n <= 9
    ensures forall a :: a in EmptyFrom(b, n) <==> a in Actions(b) && 3 * a.0 + a.1 >= n
    decreases 9 - n
  {
    if n < 9 {
      EmptyFromMembers(b, n + 1);
    }
  }

  /** The row-by-row list of moves holds exactly the legal moves. */
  lemma ActionListMembers(b: Board)
    ensures forall a :: a in ActionList(b) <==> a in Actions(b)
  {
    EmptyFromMembers(b, 0);
    forall a | a in Actions(b)
      ensures 3 * a.0 + a.1 >= 0
    {
      PositionBounds(a);
    }
  }

  lemma PositionBounds(a: Action)
    requires a in Positions
    ensures 0 <= a.0 < 3 && 0 <= a.1 < 3
  {
  }

  /** The list of moves from square `n` on is as long as the number of free squares from there on. */
  lemma {:induction false} EmptyFromCount(b: Board, n: nat)
    requires n <= 9
    ensures |EmptyFrom(b, n)| == Occurrences(Squares(b)[n..], Empty)
    decreases 9 - n
  {
    if n < 9 {
      EmptyFromCount(b, n + 1);
      SquareAt(b, n);
      assert Squares(b)[n..][1..] == Squares(b)[n + 1..];
    }
  }

  /** There are as many legal moves as free squares. */
  lemma ActionListCount(b: Board)
    ensures |ActionList(b)| == EmptySquares(b)
  {
    EmptyFromCount(b, 0);
    assert Squares(b)[0..] == Squares(b);
  }

  /** The source's test for the end of the game: a winner, or no legal move left. */
  lemma TerminalIff(b: Board)
    ensures Terminal(b) <==> !(WinnerOf(b) == None && |Actions(b)| > 0)
  {
    ActionListMembers(b);
    ActionListCount(b);
    if EmptySquares(b) > 0 {
      assert ActionList(b)[0] in Actions(b);
    } else {
      assert Actions(b) == {};
    }
  }

  /** A legal move changes exactly the square played, which now holds the mover's mark. */
  lemma ResultPlacesMark(b: Board, a: Action)
    requires a in Actions(b)
    ensures forall i, j | 0 <= i < 3 && 0 <= j < 3 ::
      Result(b, a).value[i][j] == if (i, j) == a then Player(b) else b[i][j]
  {
  }

  /** The board a legal move leads to, written out. */
  lemma ResultBoard(b: Board, a: Action)
    requires a in Actions(b)
    ensures Result(b, a).value == b[a.0 := b[a.0][a.1 := Player(b)]]
  {
  }

  /** The square played is no longer available and every other move still is. */
  lemma ActionsAfterMove(b: Board, a: Action)
    requires a in Actions(b)
    ensures Actions(Result(b, a).value) == Actions(b) - {a}
  {
    var next := Result(b, a).value;
    ResultBoard(b, a);
    forall c | c in Positions
      ensures c in Actions(next) <==> c in Actions(b) - {a}
    {
      PositionBounds(c);
      assert next[c.0][c.1] == if c == a then Player(b) else b[c.0][c.1];
    }
  }

  /** The mover gains one mark and the other side's marks stay as they were. */
  lemma MoveCounts(b: Board, a: Action)
    requires a in Actions(b)
    ensures Occurrences(Squares(Result(b, a).value), Player(b)) == Occurrences(Squares(b), Player(b)) + 1
    ensures Occurrences(Squares(Result(b, a).value), Opponent(Player(b))) ==
      Occurrences(Squares(b), Opponent(Player(b)))
  {
    var n := 3 * a.0 + a.1;
    SquaresAfterMove(b, a, Player(b));
    SquareAt(b, n);
    assert n / 3 == a.0 && n % 3 == a.1;
    OccurrencesUpdate(Squares(b), n, Player(b), Player(b));
    OccurrencesUpdate(Squares(b), n, Player(b), Opponent(Player(b)));
  }

  /** X has as many marks as O, or one more: true of every board reached by legal play. */
  ghost predicate Balanced(b: Board) {
    var xs := Occurrences(Squares(b), X);
    var os := Occurrences(Squares(b), O);
    xs == os || xs == os + 1
  }

  /** On a balanced board the sides take turns. */
  lemma PlayerAlternates(b: Board, a: Action)
    requires Balanced(b) && a in Actions(b)
    ensures Balanced(Result(b, a).value)
    ensures Player(Result(b, a).value) == Opponent(Player(b))
  {
    MoveCounts(b, a);
  }

  /** A move by one side cannot complete a line of the other. */
  lemma LineOfOtherSide(b: Board, a: Action, q: Side)
    requires a in Actions(b) && q != Player(b)
    ensures HasLine(Result(b, a).value, q) ==> HasLine(b, q)
  {
    ResultPlacesMark(b, a);
  }

  /**
   * The board reached by playing `moves` from the empty board, or `None` when one of them is not
   * legal or comes after the game is over.
   */
  ghost function Replay(moves: seq<Action>): Option<Board>
  {
    if moves == [] then Some(InitialState())
    else
      var before := Replay(moves[..|moves| - 1]);
      var a := moves[|moves| - 1];
      if before.Some? && !Terminal(before.value) && a in Actions(before.value)
      then Some(Result(before.value, a).value)
      else None
  }

  /** What holds of every board reached by play: the counts are balanced and the side to move has no line. */
  ghost predicate Reachable(b: Board) {
    Balanced(b) && !HasLine(b, Player(b))
  }

  lemma {:induction false} ReplayReachable(moves: seq<Action>)
    ensures Replay(moves).Some? ==> Reachable(Replay(moves).value)
  {
    if moves != [] {
      var before := Replay(moves[..|moves| - 1]);
      ReplayReachable(moves[..|moves| - 1]);
      var a := moves[|moves| - 1];
      if before.Some? && !Terminal(before.value) && a in Actions(before.value) {
        var b := before.value;
        PlayerAlternates(b, a);
        LineOfOtherSide(b, a, Opponent(Player(b)));
      }
    } else {
      assert Squares(InitialState()) == [Empty, Empty, Empty, Empty, Empty, Empty, Empty, Empty, Empty];
    }
  }

  /**
   * Looking only at the last mover loses nothing in play: on a board reached from the empty board,
   * `p` is the winner exactly when `p` holds a line.
   */
  lemma WinnerInPlay(moves: seq<Action>, p: Side)
    requires Replay(moves).Some?
    ensures WinnerOf(Replay(moves).value) == Some(p) <==> HasLine(Replay(moves).value, p)
  {
    ReplayReachable(moves);
  }

  /**
   * A game reached by play scores 1 when X holds a line, -1 when O does and 0 otherwise, and the
   * two never both hold one.
   */
  lemma UtilityInPlay(moves: seq<Action>)
    requires Replay(moves).Some? && Terminal(Replay(moves).value)
    ensures var b := Replay(moves).value;
      !(HasLine(b, X) && HasLine(b, O)) &&
      Utility(b) == Some(if HasLine(b, X) then 1 else if HasLine(b, O) then -1 else 0)
  {
    ReplayReachable(moves);
  }

  /** The empty board: X to move, all nine squares free, nobody has won. */
  lemma InitialStateFacts()
    ensures Player(InitialState()) == X
    ensures Actions(InitialState()) == Positions && EmptySquares(InitialState()) == 9
    ensures WinnerOf(InitialState()) == None && !Terminal(InitialState())
  {
    assert Squares(InitialState()) == [Empty, Empty, Empty, Empty, Empty, Empty, Empty, Empty, Empty];
  }

  // Counting marks on a given board

  function Mark(s: Square, x: Square): nat {
    if s == x then 1 else 0
  }

  lemma {:induction false} OccurrencesAppend(s: seq<Square>, t: seq<Square>, x: Square)
    ensures Occurrences(s + t, x) == Occurrences(s, x) + Occurrences(t, x)
  {
    if s == [] {
      assert s + t == t;
    } else {
      assert (s + t)[1..] == s[1..] + t;
      OccurrencesAppend(s[1..], t, x);
    }
  }

  lemma RowCount(r: seq<Square>, x: Square)
    requires |r| == 3
    ensures Occurrences(r, x) == Mark(r[0], x) + Mark(r[1], x) + Mark(r[2], x)
  {
    var t := r[1..];
    assert t[0] == r[1] && t[1..][0] == r[2] && t[1..][1..] == [];
    assert Occurrences(t[1..], x) == Mark(r[2], x) + Occurrences(t[1..][1..], x);
  }

  /** The number of squares holding `x`, square by square. */
  lemma CountSquares(b: Board, x: Square)
    ensures Occurrences(Squares(b), x) ==
      Mark(b[0][0], x) + Mark(b[0][1], x) + Mark(b[0][2], x) +
      Mark(b[1][0], x) + Mark(b[1][1], x) + Mark(b[1][2], x) +
      Mark(b[2][0], x) + Mark(b[2][1], x) + Mark(b[2][2], x)
  {
    OccurrencesAppend(b[0] + b[1], b[2], x);
    OccurrencesAppend(b[0], b[1], x);
    RowCount(b[0], x);
    RowCount(b[1], x);
    RowCount(b[2], x);
  }

  /** The counts on a given board. */
  lemma Counts(b: Board)
    ensures Occurrences(Squares(b), X) ==
      Mark(b[0][0], X) + Mark(b[0][1], X) + Mark(b[0][2], X) +
      Mark(b[1][0], X) + Mark(b[1][1], X) + Mark(b[1][2], X) +
      Mark(b[2][0], X) + Mark(b[2][1], X) + Mark(b[2][2], X)
    ensures Occurrences(Squares(b), O) ==
      Mark(b[0][0], O) + Mark(b[0][1], O) + Mark(b[0][2], O) +
      Mark(b[1][0], O) + Mark(b[1][1], O) + Mark(b[1][2], O) +
      Mark(b[2][0], O) + Mark(b[2][1], O) + Mark(b[2][2], O)
    ensures EmptySquares(b) ==
      Mark(b[0][0], Empty) + Mark(b[0][1], Empty) + Mark(b[0][2], Empty) +
      Mark(b[1][0], Empty) + Mark(b[1][1], Empty) + Mark(b[1][2], Empty) +
      Mark(b[2][0], Empty) + Mark(b[2][1], Empty) + Mark(b[2][2], Empty)
  {
    CountSquares(b, X);
    CountSquares(b, O);
    CountSquares(b, Empty);
  }

  // The boards of the test script, and the boards one move on from them. A lemma about one of them
  // takes any board that shows it square by square.

  const XWinVert: Board := [[X, X, O], [X, O, O], [X, Empty, Empty]]
  const OWinHor: Board := [[X, X, O], [O, O, O], [Empty, X, X]]
  const Draw: Board := [[X, X, O], [O, X, X], [X, O, O]]
  const XWinDiag: Board := [[X, O, O], [X, X, O], [O, X, X]]
  const Mid: Board := [[X, X, O], [X, Empty, O], [Empty, Empty, Empty]]
  const Dumb: Board := [[X, X, Empty], [X, O, Empty], [O, Empty, Empty]]

  /** `b` holds the same mark as `c` on every square. */
  ghost predicate Shows(b: Board, c: Board) {
    forall i, j | 0 <= i < 3 && 0 <= j < 3 :: b[i][j] == c[i][j]
  }

  lemma XWinVertFacts(b: Board)
    requires Shows(b, XWinVert)
    ensures Player(b) == O && WinnerOf(b) == Some(X)
    ensures Terminal(b) && Utility(b) == Some(1)
  {
    assert b[0][0] == X && b[0][1] == X && b[0][2] == O;
    assert b[1][0] == X && b[1][1] == O && b[1][2] == O;
    assert b[2][0] == X && b[2][1] == Empty && b[2][2] == Empty;
    Counts(b);
    assert Occurrences(Squares(b), X) == 4 && Occurrences(Squares(b), O) == 3 && EmptySquares(b) == 2;
    assert HasLine(b, X);
  }

  lemma OWinHorFacts(b: Board)
    requires Shows(b, OWinHor)
    ensures Player(b) == X && WinnerOf(b) == Some(O)
    ensures Terminal(b) && Utility(b) == Some(-1)
  {
    assert b[0][0] == X && b[0][1] == X && b[0][2] == O;
    assert b[1][0] == O && b[1][1] == O && b[1][2] == O;
    assert b[2][0] == Empty && b[2][1] == X && b[2][2] == X;
    Counts(b);
    assert Occurrences(Squares(b), X) == 4 && Occurrences(Squares(b), O) == 4 && EmptySquares(b) == 1;
    assert HasLine(b, O);
  }

  lemma DrawFacts(b: Board)
    requires Shows(b, Draw)
    ensures WinnerOf(b) == None && Terminal(b) && Utility(b) == Some(0)
  {
    assert b[0][0] == X && b[0][1] == X && b[0][2] == O;
    assert b[1][0] == O && b[1][1] == X && b[1][2] == X;
    assert b[2][0] == X && b[2][1] == O && b[2][2] == O;
    Counts(b);
    assert Occurrences(Squares(b), X) == 5 && Occurrences(Squares(b), O) == 4 && EmptySquares(b) == 0;
    assert Player(b) == O && !HasLine(b, X);
  }

  lemma XWinDiagFacts(b: Board)
    requires Shows(b, XWinDiag)
    ensures WinnerOf(b) == Some(X) && Terminal(b) && Utility(b) == Some(1)
  {
    assert b[0][0] == X && b[0][1] == O && b[0][2] == O;
    assert b[1][0] == X && b[1][1] == X && b[1][2] == O;
    assert b[2][0] == O && b[2][1] == X && b[2][2] == X;
    Counts(b);
    assert Occurrences(Squares(b), X) == 5 && Occurrences(Squares(b), O) == 4 && EmptySquares(b) == 0;
    assert Player(b) == O && HasLine(b, X);
  }

  /** The board `Mid` after O completes the right-hand column. */
  const MidWon: Board := [[X, X, O], [X, Empty, O], [Empty, Empty, O]]

  lemma MidState(b: Board)
    requires Shows(b, Mid)
    ensures Player(b) == O && !Terminal(b) && (2, 2) in Actions(b)
  {
    assert b[0][0] == X && b[0][1] == X && b[0][2] == O;
    assert b[1][0] == X && b[1][1] == Empty && b[1][2] == O;
    assert b[2][0] == Empty && b[2][1] == Empty && b[2][2] == Empty;
    Counts(b);
    assert Occurrences(Squares(b), X) == 3 && Occurrences(Squares(b), O) == 2 && EmptySquares(b) == 4;
    assert !HasLine(b, X);
    assert (2, 2) in Positions;
  }

  lemma MidWonState(b: Board)
    requires Shows(b, MidWon)
    ensures Terminal(b) && Utility(b) == Some(-1)
  {
    assert b[0][0] == X && b[0][1] == X && b[0][2] == O;
    assert b[1][0] == X && b[1][1] == Empty && b[1][2] == O;
    assert b[2][0] == Empty && b[2][1] == Empty && b[2][2] == O;
    Counts(b);
    assert Occurrences(Squares(b), X) == 3 && Occurrences(Squares(b), O) == 3 && EmptySquares(b) == 3;
    assert Player(b) == X && HasLine(b, O);
  }

  /**
   * In `Mid` O is to move and wins at once down the right-hand column, so the game value is -1
   * although the game is not over.
   */
  lemma MidFacts(b: Board)
    requires Shows(b, Mid)
    ensures Player(b) == O && !Terminal(b) && MinScore(b) == -1
  {
    MidState(b);
    var next := Result(b, (2, 2)).value;
    ResultPlacesMark(b, (2, 2));
    MidWonState(next);
    MinScoreBounds(b, (2, 2));
  }

  /** The board `Dumb` after O blocks the top row, completing the anti-diagonal. */
  const DumbWon: Board := [[X, X, O], [X, O, Empty], [O, Empty, Empty]]

  lemma DumbState(b: Board)
    requires Shows(b, Dumb)
    ensures Player(b) == O && !Terminal(b) && (0, 2) in Actions(b)
    ensures ActionList(b) == [(0, 2), (1, 2), (2, 1), (2, 2)]
  {
    assert b[0][0] == X && b[0][1] == X && b[0][2] == Empty;
    assert b[1][0] == X && b[1][1] == O && b[1][2] == Empty;
    assert b[2][0] == O && b[2][1] == Empty && b[2][2] == Empty;
    Counts(b);
    assert Occurrences(Squares(b), X) == 3 && Occurrences(Squares(b), O) == 2 && EmptySquares(b) == 4;
    assert !HasLine(b, X);
    assert (0, 2) in Positions;
    assert EmptyFrom(b, 8) == [(2, 2)];
    assert EmptyFrom(b, 7) == [(2, 1), (2, 2)];
    assert EmptyFrom(b, 6) == EmptyFrom(b, 7);
    assert EmptyFrom(b, 5) == [(1, 2), (2, 1), (2, 2)];
    assert EmptyFrom(b, 4) == EmptyFrom(b, 5);
    assert EmptyFrom(b, 3) == EmptyFrom(b, 5);
    assert EmptyFrom(b, 2) == [(0, 2), (1, 2), (2, 1), (2, 2)];
    assert EmptyFrom(b, 1) == EmptyFrom(b, 2);
  }

  lemma DumbWonState(b: Board)
    requires Shows(b, DumbWon)
    ensures Terminal(b) && Utility(b) == Some(-1)
  {
    assert b[0][0] == X && b[0][1] == X && b[0][2] == O;
    assert b[1][0] == X && b[1][1] == O && b[1][2] == Empty;
    assert b[2][0] == O && b[2][1] == Empty && b[2][2] == Empty;
    Counts(b);
    assert Occurrences(Squares(b), X) == 3 && Occurrences(Squares(b), O) == 3 && EmptySquares(b) == 3;
    assert Player(b) == X && HasLine(b, O);
  }

  /**
   * In `Dumb` O must block the top row and wins by doing so: the search tries that move first and
   * stops there.
   */
  lemma DumbFacts(b: Board)
    requires Shows(b, Dumb)
    ensures Player(b) == O && !Terminal(b) && MinScore(b) == -1
    ensures MinSearch(b, 0) == Evaluation(-1, [((0, 2), 1)], 1)
  {
    DumbState(b);
    var next := Result(b, (0, 2)).value;
    ResultPlacesMark(b, (0, 2));
    DumbWonState(next);
    assert MaxSearch(next, 1) == Evaluation(-1, [], 1);
    MinSearchValue(b, 0);
  }

  /** On a board whose top two rows are full the moves are the free squares of the bottom row, left to right. */
  lemma BottomRowActions(b: Board)
    requires forall j | 0 <= j < 3 :: b[0][j] != Empty && b[1][j] != Empty
    ensures ActionList(b) ==
      (if b[2][0] == Empty then [(2, 0)] else []) +
      (if b[2][1] == Empty then [(2, 1)] else []) +
      (if b[2][2] == Empty then [(2, 2)] else [])
  {
    var s0, s1, s2 := (if b[2][0] == Empty then [(2, 0)] else []), (if b[2][1] == Empty then [(2, 1)] else []),
      (if b[2][2] == Empty then [(2, 2)] else []);
    assert EmptyFrom(b, 8) == s2 + [] == s2;
    assert EmptyFrom(b, 7) == s1 + s2;
    assert EmptyFrom(b, 6) == s0 + (s1 + s2) == s0 + s1 + s2;
    assert EmptyFrom(b, 5) == EmptyFrom(b, 6) by { assert b[1][2] != Empty; }
    assert EmptyFrom(b, 4) == EmptyFrom(b, 5) by { assert b[1][1] != Empty; }
    assert EmptyFrom(b, 3) == EmptyFrom(b, 4) by { assert b[1][0] != Empty; }
    assert EmptyFrom(b, 2) == EmptyFrom(b, 3) by { assert b[0][2] != Empty; }
    assert EmptyFrom(b, 1) == EmptyFrom(b, 2) by { assert b[0][1] != Empty; }
    assert EmptyFrom(b, 0) == EmptyFrom(b, 1) by { assert b[0][0] != Empty; }
  }

  // A board on which the selection as written passes over a win

  /**
   * X to move: (2, 2) completes the right-hand column, (2, 0) lets O complete the middle column and
   * (2, 1) leads to a draw.
   */
  const Fork: Board := [[X, O, X], [O, O, X], [Empty, Empty, Empty]]

  /** `b` is `Fork` with the bottom row `l`, `m`, `r`: the boards the search visits from `Fork`. */
  ghost predicate ForkWith(b: Board, l: Square, m: Square, r: Square) {
    b[0][0] == X && b[0][1] == O && b[0][2] == X &&
    b[1][0] == O && b[1][1] == O && b[1][2] == X &&
    b[2][0] == l && b[2][1] == m && b[2][2] == r
  }

  /** Playing a free square of the bottom row puts the mover's mark there. */
  lemma PlayFork(b: Board, l: Square, m: Square, r: Square, j: int, p: Side)
    requires ForkWith(b, l, m, r) && 0 <= j < 3 && b[2][j] == Empty && p == Player(b)
    ensures (2, j) in Actions(b)
    ensures ForkWith(Result(b, (2, j)).value, if j == 0 then p else l, if j == 1 then p else m, if j == 2 then p else r)
  {
    assert (2, j) in Positions;
    ResultBoard(b, (2, j));
  }

  lemma ForkState(b: Board)
    requires ForkWith(b, Empty, Empty, Empty)
    ensures Player(b) == X && !Terminal(b) && ActionList(b) == [(2, 0), (2, 1), (2, 2)]
  {
    Counts(b);
    BottomRowActions(b);
    assert Occurrences(Squares(b), X) == 3 && Occurrences(Squares(b), O) == 3;
    assert !HasLine(b, O) && EmptySquares(b) == 3;
  }

  lemma ForkXeeState(b: Board)
    requires ForkWith(b, X, Empty, Empty)
    ensures Player(b) == O && !Terminal(b) && ActionList(b) == [(2, 1), (2, 2)]
  {
    Counts(b);
    BottomRowActions(b);
    assert Occurrences(Squares(b), X) == 4 && Occurrences(Squares(b), O) == 3;
    assert !HasLine(b, X) && EmptySquares(b) == 2;
  }

  lemma ForkXOeState(b: Board)
    requires ForkWith(b, X, O, Empty)
    ensures Terminal(b) && Utility(b) == Some(-1)
  {
    Counts(b);
    assert Occurrences(Squares(b), X) == 4 && Occurrences(Squares(b), O) == 4;
    assert HasLine(b, O);
  }

  lemma ForkeXeState(b: Board)
    requires ForkWith(b, Empty, X, Empty)
    ensures Player(b) == O && !Terminal(b) && ActionList(b) == [(2, 0), (2, 2)]
  {
    Counts(b);
    BottomRowActions(b);
    assert Occurrences(Squares(b), X) == 4 && Occurrences(Squares(b), O) == 3;
    assert !HasLine(b, X) && EmptySquares(b) == 2;
  }

  lemma ForkOXeState(b: Board)
    requires ForkWith(b, O, X, Empty)
    ensures Player(b) == X && !Terminal(b) && ActionList(b) == [(2, 2)]
  {
    Counts(b);
    BottomRowActions(b);
    assert Occurrences(Squares(b), X) == 4 && Occurrences(Squares(b), O) == 4;
    assert !HasLine(b, O) && EmptySquares(b) == 1;
  }

  lemma ForkOXXState(b: Board)
    requires ForkWith(b, O, X, X)
    ensures Terminal(b) && Utility(b) == Some(1)
  {
    Counts(b);
    assert Occurrences(Squares(b), X) == 5 && Occurrences(Squares(b), O) == 4;
    assert HasLine(b, X);
  }

  lemma ForkeXOState(b: Board)
    requires ForkWith(b, Empty, X, O)
    ensures Player(b) == X && !Terminal(b) && ActionList(b) == [(2, 0)]
  {
    Counts(b);
    BottomRowActions(b);
    assert Occurrences(Squares(b), X) == 4 && Occurrences(Squares(b), O) == 4;
    assert !HasLine(b, O) && EmptySquares(b) == 1;
  }

  lemma ForkXXOState(b: Board)
    requires ForkWith(b, X, X, O)
    ensures Terminal(b) && Utility(b) == Some(0)
  {
    Counts(b);
    assert Occurrences(Squares(b), X) == 5 && Occurrences(Squares(b), O) == 4;
    assert !HasLine(b, X) && EmptySquares(b) == 0;
  }

  lemma ForkeeXState(b: Board)
    requires ForkWith(b, Empty, Empty, X)
    ensures Terminal(b) && Utility(b) == Some(1)
  {
    Counts(b);
    assert Occurrences(Squares(b), X) == 4 && Occurrences(Squares(b), O) == 3;
    assert HasLine(b, X);
  }

  /** After X plays (2, 0), O completes the middle column at once. */
  lemma ForkXeeSearch(b: Board, d: nat)
    requires ForkWith(b, X, Empty, Empty)
    ensures MinSearch(b, d) == Evaluation(-1, [((2, 1), d + 1)], d + 1)
  {
    ForkXeeState(b);
    PlayFork(b, X, Empty, Empty, 1, O);
    var c := Result(b, (2, 1)).value;
    ForkXOeState(c);
    assert MaxSearch(c, d + 1) == Evaluation(-1, [], d + 1);
  }

  lemma ForkOXeSearch(b: Board, d: nat)
    requires ForkWith(b, O, X, Empty)
    ensures MaxSearch(b, d) == Evaluation(1, [((2, 2), d + 1)], d + 1)
  {
    ForkOXeState(b);
    PlayFork(b, O, X, Empty, 2, X);
    var c := Result(b, (2, 2)).value;
    ForkOXXState(c);
    assert MinSearch(c, d + 1) == Evaluation(1, [], d + 1);
  }

  lemma ForkeXOSearch(b: Board, d: nat)
    requires ForkWith(b, Empty, X, O)
    ensures MaxSearch(b, d) == Evaluation(0, [((2, 0), 0)], d + 1)
  {
    ForkeXOState(b);
    PlayFork(b, Empty, X, O, 0, X);
    var c := Result(b, (2, 0)).value;
    ForkXXOState(c);
    assert MinSearch(c, d + 1) == Evaluation(0, [], d + 1);
    var todo := [(2, 0)];
    assert todo[1..] == [] && [] + [((2, 0), 0)] == [((2, 0), 0)];
    assert MaxScan(b, d, todo[1..], Evaluation(0, [((2, 0), 0)], d + 1)) == Evaluation(0, [((2, 0), 0)], d + 1);
  }

  /** After X plays (2, 1), O's best is to block the right-hand column, and the game is drawn. */
  lemma ForkeXeSearch(b: Board, d: nat)
    requires ForkWith(b, Empty, X, Empty)
    ensures MinSearch(b, d) == Evaluation(0, [((2, 2), 0)], d + 2)
  {
    ForkeXeState(b);
    PlayFork(b, Empty, X, Empty, 0, O);
    PlayFork(b, Empty, X, Empty, 2, O);
    ForkOXeSearch(Result(b, (2, 0)).value, d + 1);
    ForkeXOSearch(Result(b, (2, 2)).value, d + 1);
    var todo := [(2, 0), (2, 2)];
    assert todo[1..] == [(2, 2)];
    assert MinScan(b, d, todo[1..], Evaluation(1, [], d + 2)) == Evaluation(0, [((2, 2), 0)], d + 2);
  }

  /**
   * The search from `Fork` finds the value 1 and records the win (2, 2) first, with the depth its
   * search reached, and the draw (2, 1) after it with depth 0.
   */
  lemma ForkSearch(b: Board, d: nat)
    requires ForkWith(b, Empty, Empty, Empty)
    ensures MaxSearch(b, d) == Evaluation(1, [((2, 2), d + 1), ((2, 1), 0)], d + 1)
  {
    ForkState(b);
    PlayFork(b, Empty, Empty, Empty, 0, X);
    PlayFork(b, Empty, Empty, Empty, 1, X);
    PlayFork(b, Empty, Empty, Empty, 2, X);
    ForkXeeSearch(Result(b, (2, 0)).value, d + 1);
    ForkeXeSearch(Result(b, (2, 1)).value, d + 1);
    ForkeeXState(Result(b, (2, 2)).value);
    assert MinSearch(Result(b, (2, 2)).value, d + 1) == Evaluation(1, [], d + 1);
    var todo := [(2, 0), (2, 1), (2, 2)];
    assert todo[1..] == [(2, 1), (2, 2)] && todo[1..][1..] == [(2, 2)];
    assert MaxScan(b, d, todo[1..][1..], Evaluation(0, [((2, 1), 0)], d + 3)) ==
      Evaluation(1, [((2, 2), d + 1), ((2, 1), 0)], d + 1);
    assert MaxScan(b, d, todo[1..], Evaluation(-1, [], d + 2)) ==
      Evaluation(1, [((2, 2), d + 1), ((2, 1), 0)], d + 1);
  }

  /** Among these records the smallest depth is the draw's. */
  lemma ShallowestOfForkRecords()
    ensures Shallowest([((2, 2), 1), ((2, 1), 0)], 99, None) == Some((2, 1))
  {
    var records: seq<(Action, nat)> := [((2, 2), 1), ((2, 1), 0)];
    assert records[1..] == [((2, 1), 0)] && records[1..][1..] == [];
  }

  /** (2, 1) is legal on `Fork` and worth 0 to X, while the board is worth 1 to X. */
  lemma ForkScores(b: Board)
    requires ForkWith(b, Empty, Empty, Empty)
    ensures (2, 1) in Actions(b) && MinScore(Result(b, (2, 1)).value) == 0 && MaxScore(b) == 1
  {
    ForkSearch(b, 0);
    ForkState(b);
    MaxSearchValue(b, 0);
    PlayFork(b, Empty, Empty, Empty, 1, X);
    ForkeXeSearch(Result(b, (2, 1)).value, 1);
    MinSearchValue(Result(b, (2, 1)).value, 1);
  }

  /**
   * The selection as written takes the draw: it prefers the smaller depth, and a draw is recorded
   * with depth 0 while the win has depth 1. The move it takes is worth 0 to X where 1 was to be had,
   * whereas the first recorded move is optimal.
   */
  lemma ShallowestMissesWin()
    ensures Shallowest(MaxSearch(Fork, 0).records, 99, None) == Some((2, 1))
    ensures (2, 1) in Actions(Fork) && !Optimal(Fork, (2, 1))
    ensures MaxSearch(Fork, 0).records != [] && MaxSearch(Fork, 0).records[0].0 in Actions(Fork)
    ensures Optimal(Fork, MaxSearch(Fork, 0).records[0].0)
  {
    assert ForkWith(Fork, Empty, Empty, Empty);
    ForkSearch(Fork, 0);
    ShallowestOfForkRecords();
    ForkScores(Fork);
    ForkState(Fork);
    MaxSearchRecords(Fork, 0);
  }
}
