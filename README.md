# Minesweeper inference and tic-tac-toe minimax, in Dafny

This project models two small game engines and proves what their code promises.

**Minesweeper.** The board (`Minesweeper`) knows where the mines are. It answers whether a cell is a
mine, how many mines surround a cell and whether the player has flagged exactly the mines. The player
(`MinesweeperAI`) keeps:

- the moves it has made;
- the cells it knows to be mines or safe;
- a knowledge base of sentences, each saying "exactly `count` of `cells` are mines".

After every move it adds what the board reported. It then runs passes of the subset-difference rule:
when one sentence lies inside another with a smaller count, the cells left over hold the difference of
the counts. The derived sentence is appended unless it is already known. When its count equals its
size, its cells are marked as mines.

As written, `Sentence.mark_mine` raises TypeError whenever the sentence holds the cell (line 127), so
`add_knowledge` raises as soon as a pass deduces a mine. `Sentence.mark_safe` removes no cell (line 138).
The player methods are built on the corrected sentence operations (see Findings).

Once line 127 is corrected, a second defect shows. The loop stops after the first pass that appends
nothing, even when that pass marked mines; a further pass could then still derive something. The model
keeps that stop test (`InferAsWritten`) together with a concrete knowledge base on which it stops too
early (`stop_example.dfy`). The player uses the corrected loop (`Infer`), which repeats passes until one
changes nothing. The knowledge base it leaves is stable, and, being true, closed: no pair of sentences,
in either order, derives a new sentence or names mines still in the sentences (`TrueStableClosed`).

- `grid.dfy`: cells and neighbourhoods.
- `board.dfy`: the board, as a class over a two-dimensional array.
- `sentence.dfy`: sentences, as a datatype.
- `knowledge.dfy`: the knowledge base as a sequence of sentences, and the inference loop as pure functions.
- `player.dfy`: the player, as a class whose methods update its fields and are proved against those functions.
- `stop_example.dfy`: the knowledge base on which the loop as written stops too early.

Soundness is stated against a ghost mine set `truth`, the board the observations come from. Every
sentence stays true of it, every cell marked as a mine is a mine, and no cell marked safe is one. The
inference loop is proved to terminate, with the measure it needs.

**Tic-tac-toe** (`tictactoe.dfy`). The rules and the search:

- the side to move (X when both sides have as many marks);
- the legal moves (the empty squares);
- the board a move leads to, or `InvalidMoveException`;
- the winner (only the side that moved last is examined);
- the end of the game and its score;
- the search `maxValue`/`minValue`, which stops early once it finds a best possible move;
- `minimax`, which picks the move.

The search methods are proved to compute the pure functions `MaxSearch`/`MinSearch`. Those are proved
to return the textbook game value `MaxScore`/`MinScore`, the best over all moves with no cut-off. The
search tries the legal moves row by row, so where Python iterates over a set the model fixes that
order.

`wrappers.dfy` holds `Option`, `Result` and `Outcome`.

## Model

| member | source | states |
|---|---|---|
| Grid.Neighbours | lecture1/minesweeper/minesweeper.py:305-315 | a cell is a neighbour exactly when it is on the board, within one row and one column, and not the cell itself; never the cell; at most 8 |
| MinesweeperBoard.Minesweeper.constructor | lecture1/minesweeper/minesweeper.py:10-34 | the board array marks exactly the given mines; height, width and mines are as given; no mine found yet |
| MinesweeperBoard.Minesweeper.IsMine | lecture1/minesweeper/minesweeper.py:51-53 | true exactly when the cell is one of the mines |
| MinesweeperBoard.Minesweeper.NearbyMines | lecture1/minesweeper/minesweeper.py:55-78 | the count is the number of mines among the on-board neighbours (the cell itself excluded), hence at most 8 |
| MinesweeperBoard.Minesweeper.Won | lecture1/minesweeper/minesweeper.py:80-84 | true exactly when the flagged cells are the mines, no more and no fewer |
| Sentences.Sentence.SameAs | lecture1/minesweeper/minesweeper.py:99-100 | equal cells and equal count is value equality of sentences |
| Sentences.KnownMinesSound | lecture1/minesweeper/minesweeper.py:105-109 | `known_mines` answers exactly when count equals the number of cells, and answers the cells, which are then all mines |
| Sentences.KnownSafesSound | lecture1/minesweeper/minesweeper.py:111-116 | `known_safes` answers exactly when the count is 0, and answers the cells, none of which is a mine |
| Sentences.Sentence.MarkMine | lecture1/minesweeper/minesweeper.py:120-128 | no change when the cell is absent; otherwise the cell is removed and the count drops by exactly one |
| Sentences.Sentence.MarkSafe | lecture1/minesweeper/minesweeper.py:131-138 | no change when the cell is absent; otherwise the cell is removed and the count kept |
| Sentences.MarkMineAsWrittenRaises | lecture1/minesweeper/minesweeper.py:126-128 | as written, marking a mine the sentence holds raises TypeError, where the intended version removes it |
| Sentences.MarkSafeAsWrittenKeepsCell | lecture1/minesweeper/minesweeper.py:137-138 | as written, marking (0, 0) safe in {(0, 0), (0, 1)} = 1 leaves (0, 0) in the sentence |
| Sentences.AsWrittenAgreeElsewhere | lecture1/minesweeper/minesweeper.py:120-138 | for a cell the sentence does not mention, `mark_mine` and `mark_safe` as written agree with the intended versions |
| Sentences.MarkMineKeepsTruth | lecture1/minesweeper/minesweeper.py:120-128 | removing a real mine from a true sentence keeps it true |
| Sentences.MarkSafeKeepsTruth | lecture1/minesweeper/minesweeper.py:131-138 | removing a cell that is no mine from a true sentence keeps it true |
| Sentences.MarkMinesKeepsTruth | lecture1/minesweeper/minesweeper.py:236-238 | marking a set of real mines keeps a true sentence true |
| Sentences.MarkMineIsMarkMines | lecture1/minesweeper/minesweeper.py:237-238 | marking one mine is marking the one-element set |
| Sentences.MarkMinesCompose | lecture1/minesweeper/minesweeper.py:237-238 | marking mines in two batches is marking their union, so the order of the loop over the cells does not matter |
| Sentences.AllCountedAreIn | lecture1/minesweeper/minesweeper.py:236 | when every cell of a set is counted, the set lies among the mines |
| Sentences.DifferenceHolds | lecture1/minesweeper/minesweeper.py:221-225 | the difference of two true sentences, one inside the other, is true |
| Knowledge.DifferenceSplits | lecture1/minesweeper/minesweeper.py:221-225 | when the guard holds, the derived sentence and `sentence_from` are disjoint and add up to `sentence_to`, cells and count; the derived count is at least 1 |
| Knowledge.MarkMineEach | lecture1/minesweeper/minesweeper.py:165-169 | after `mark_mine(cell)` on every sentence, none mentions the cell, and each count drops by one exactly where the cell was mentioned |
| Knowledge.MarkSafeEach | lecture1/minesweeper/minesweeper.py:174-178 | after `mark_safe(cell)` on every sentence, none mentions the cell and every count is kept |
| Knowledge.MarkMinesEachAt | lecture1/minesweeper/minesweeper.py:168-169 | sentence i of the marked knowledge base is sentence i marked |
| Knowledge.SortBySize | lecture1/minesweeper/minesweeper.py:216 | the snapshot lists every position of the knowledge base once, by number of cells, ties in their order (a stable sort) |
| Knowledge.AscendingUnique | lecture1/minesweeper/minesweeper.py:216 | two listings of the same positions, both strictly in stable size order, are equal |
| Knowledge.SortedUnique | lecture1/minesweeper/minesweeper.py:216 | there is exactly one such snapshot order for a knowledge base |
| Knowledge.AllHoldMarkMines | lecture1/minesweeper/minesweeper.py:162-169 | marking real mines in every sentence keeps the knowledge base true |
| Knowledge.AllHoldMarkSafe | lecture1/minesweeper/minesweeper.py:171-178 | marking a cell that is no mine in every sentence keeps the knowledge base true |
| Knowledge.OccurringMarkMines | lecture1/minesweeper/minesweeper.py:237-238 | marking mines removes exactly those cells from the cells the sentences mention |
| Knowledge.ValuesInUniverse | lecture1/minesweeper/minesweeper.py:213-240 | a true knowledge base draws its sentences from the finite set of true sentences over the cells it mentions |
| Knowledge.Round | lecture1/minesweeper/minesweeper.py:219-238 | one round of comparisons never shortens the knowledge base (it appends and rewrites sentences in place), and it grows it exactly when it reports new knowledge |
| Knowledge.PassOver | lecture1/minesweeper/minesweeper.py:218-238 | the same for a whole pass over the snapshot |
| Knowledge.DeriveSound | lecture1/minesweeper/minesweeper.py:221-238 | appending the derived sentence keeps the knowledge base true; when its count equals its size its cells are mines, and marking them keeps it true |
| Knowledge.DeriveProgress | lecture1/minesweeper/minesweeper.py:227-238 | one comparison either appends a sentence not known before or removes at least one cell from the sentences, and mentions no new cell |
| Knowledge.ProgressNone | lecture1/minesweeper/minesweeper.py:213-240 | no comparison is no progress |
| Knowledge.ProgressChain | lecture1/minesweeper/minesweeper.py:213-240 | progress of two steps composes into progress of both |
| Knowledge.RoundSound | lecture1/minesweeper/minesweeper.py:219-238 | a round keeps the knowledge base true and marks only real mines |
| Knowledge.RoundStepSound | lecture1/minesweeper/minesweeper.py:219-238 | one more comparison of a round keeps the knowledge base true and marks only real mines |
| Knowledge.RoundStepProgress | lecture1/minesweeper/minesweeper.py:219-238 | one more comparison of a round makes progress, and grows the knowledge base when it appends |
| Knowledge.RoundProgress | lecture1/minesweeper/minesweeper.py:219-238 | a round makes progress |
| Knowledge.PassSound | lecture1/minesweeper/minesweeper.py:218-238 | a pass keeps the knowledge base true and marks only real mines |
| Knowledge.PassProgress | lecture1/minesweeper/minesweeper.py:218-238 | a pass makes progress |
| Knowledge.ProgressMeasure | lecture1/minesweeper/minesweeper.py:213-240 | a pass that appends shrinks the set of mentioned cells, or keeps it and shrinks the true sentences not yet known: the loop's measure decreases |
| Knowledge.RemainderShrinks | lecture1/minesweeper/minesweeper.py:227-230 | taking more from a finite universe leaves strictly less |
| Knowledge.ChangeMeasure | lecture1/minesweeper/minesweeper.py:211-240 | a pass that changes the knowledge base in any way, by appending or by marking, makes the corrected loop's measure decrease |
| Knowledge.ProgressBoth | lecture1/minesweeper/minesweeper.py:211-240 | progress in both directions means nothing changed |
| Knowledge.RoundRestProgress | lecture1/minesweeper/minesweeper.py:219-238 | the rest of a round, from any comparison on, makes progress |
| Knowledge.PassRestProgress | lecture1/minesweeper/minesweeper.py:218-238 | the rest of a pass, from any round on, makes progress |
| Knowledge.MarkedAlongExtend | lecture1/minesweeper/minesweeper.py:213-240 | the mines marked along the recorded passes grow, pass by pass, by the mines each pass marks |
| Knowledge.PassesExtend | lecture1/minesweeper/minesweeper.py:213-218 | one more pass over a sorted snapshot extends the record of passes from the start of the loop |
| Knowledge.GrowingExtend | lecture1/minesweeper/minesweeper.py:213-240 | the loop as written: after a pass that appends, every recorded pass appended; after one that does not, it was the last |
| Knowledge.ChangingExtend | lecture1/minesweeper/minesweeper.py:210-240 | the corrected loop: after a pass that changes the knowledge base every recorded pass changed it; after one that does not, the knowledge base is stable |
| Knowledge.StablePass | lecture1/minesweeper/minesweeper.py:218-238 | on a stable knowledge base every part of the pass leaves it unchanged |
| Knowledge.StableRound | lecture1/minesweeper/minesweeper.py:219-238 | on a stable knowledge base every whole round leaves it unchanged |
| Knowledge.FixedRound | lecture1/minesweeper/minesweeper.py:219-238 | a round that leaves the knowledge base unchanged leaves it unchanged at every comparison |
| Knowledge.FixedRounds | lecture1/minesweeper/minesweeper.py:219-238 | the same, for all comparisons at once |
| Knowledge.UnchangedComparison | lecture1/minesweeper/minesweeper.py:221-238 | a comparison that leaves the knowledge base unchanged derives nothing new and marks no mine |
| Knowledge.StableComparison | lecture1/minesweeper/minesweeper.py:221-238 | on a stable knowledge base no pair of sentences in snapshot order derives anything new or marks a mine |
| Knowledge.StableClosed | lecture1/minesweeper/minesweeper.py:210-240 | on a stable knowledge base no pair in snapshot order derives a new sentence or new mines |
| Knowledge.NoFireBackwards | lecture1/minesweeper/minesweeper.py:221 | between true sentences the rule never fires towards a sentence of no more cells: a subset that large is the same set, with the same count |
| Knowledge.TrueStableClosed | lecture1/minesweeper/minesweeper.py:210-240 | a stable knowledge base that is true of some board is closed: no pair, in either order, derives a new sentence or new mines |
| MinesweeperPlayer.MinesweeperAI.constructor | lecture1/minesweeper/minesweeper.py:146-160 | no moves, no known mines or safe cells, no sentences |
| MinesweeperPlayer.MinesweeperAI.MarkMine | lecture1/minesweeper/minesweeper.py:162-169 | the cell joins the known mines, every sentence has it marked as a mine, nothing else changes |
| MinesweeperPlayer.MinesweeperAI.MarkSafe | lecture1/minesweeper/minesweeper.py:171-178 | the cell joins the safe cells, every sentence has it marked safe, nothing else changes |
| MinesweeperPlayer.MinesweeperAI.MarkMines | lecture1/minesweeper/minesweeper.py:236-238 | marking each derived cell as a mine, in any order, adds them all to the mines and marks them in every sentence |
| MinesweeperPlayer.MinesweeperAI.FindNeighbourCells | lecture1/minesweeper/minesweeper.py:301-315 | the scan returns exactly the in-bounds neighbours |
| MinesweeperPlayer.MinesweeperAI.Derive | lecture1/minesweeper/minesweeper.py:221-238 | one comparison: under the guard, the difference is appended unless an equal sentence is known; when its count equals its size its cells are marked as mines; the safe branch is unreachable |
| MinesweeperPlayer.MinesweeperAI.CompareWithLater | lecture1/minesweeper/minesweeper.py:218-238 | comparing one sentence with every later one in the snapshot computes `Round` |
| MinesweeperPlayer.MinesweeperAI.InferencePass | lecture1/minesweeper/minesweeper.py:214-238 | a pass sorts a snapshot and computes `PassOver` on it |
| MinesweeperPlayer.MinesweeperAI.InferAsWritten | lecture1/minesweeper/minesweeper.py:211-240 | the loop with its stop test as written (over the corrected `mark_mine`) terminates, keeps the knowledge base true and marks only real mines, exactly the mines its recorded passes marked; the knowledge base is the result of a chain of passes over sorted snapshots, each appending, until the last, which appends nothing |
| MinesweeperPlayer.MinesweeperAI.Infer | lecture1/minesweeper/minesweeper.py:210-240 | the corrected loop terminates, keeps the knowledge base true and marks only real mines, exactly the mines its recorded passes marked; the knowledge base is the result of a chain of passes, each changing it, until the last, which changes nothing, so the result is stable and closed |
| MinesweeperPlayer.MinesweeperAI.AddKnowledge | lecture1/minesweeper/minesweeper.py:180-240 | for any player state: the cell is recorded as a move and as safe, marked safe in every sentence, and `{cell} = 0` is appended; ValueError exactly when the count exceeds a non-empty neighbourhood, and then nothing more changes; otherwise the neighbour sentence is appended when there are neighbours, and inference runs from exactly that knowledge base to a stable, closed one that is still true, and the mines added are exactly those its passes marked; a player whose safe cells are its moves stays so |
| MinesweeperPlayer.MinesweeperAI.MakeSafeMove | lecture1/minesweeper/minesweeper.py:257-274 | a safe cell neither played nor a known mine, or None exactly when there is none; nothing changes; in play (safe cells are the moves made) always None |
| MinesweeperPlayer.MinesweeperAI.MakeSafeMoveAsWritten | lecture1/minesweeper/minesweeper.py:267-274 | as written, TypeError exactly when there is a candidate, None otherwise; in play always None |
| MinesweeperPlayer.MinesweeperAI.RandomMoveEligible | lecture1/minesweeper/minesweeper.py:287-296 | a returned random move is on the board; in play (safe cells are the moves made) the eligible cells are exactly those neither known safe nor known to be a mine |
| StopExample.StartTrue | lecture1/minesweeper/minesweeper.py:210-240 | the example knowledge base is true of the mines (0, 0), (0, 1), (1, 1) |
| StopExample.StartSorted | lecture1/minesweeper/minesweeper.py:216 | its snapshot order is the order of its sentences |
| StopExample.QuietRound0 | lecture1/minesweeper/minesweeper.py:218-238 | the round from its first sentence changes nothing |
| StopExample.QuietRound1 | lecture1/minesweeper/minesweeper.py:218-238 | the round from its second sentence changes nothing |
| StopExample.MarkedStartAt | lecture1/minesweeper/minesweeper.py:236-238 | marking (0, 0) and (0, 1) as mines turns each sentence into the one the loop stops on |
| StopExample.MarkedStart | lecture1/minesweeper/minesweeper.py:236-238 | the same for the whole knowledge base |
| StopExample.MarkingRound | lecture1/minesweeper/minesweeper.py:221-238 | the third round derives a sentence that is already known, appends nothing and marks two mines |
| StopExample.QuietAfter | lecture1/minesweeper/minesweeper.py:218-238 | the last two rounds change nothing |
| StopExample.FirstPass | lecture1/minesweeper/minesweeper.py:218-238 | the first pass marks two mines and appends nothing |
| StopExample.StoppedChanges | lecture1/minesweeper/minesweeper.py:221-230 | on the knowledge base the loop stops on, {(1, 0)} = 0 and {(1, 0), (1, 1)} = 1 still derive the unknown {(1, 1)} = 1 |
| StopExample.StoppedNotStable | lecture1/minesweeper/minesweeper.py:218-240 | so that knowledge base is stable in no snapshot order |
| StopExample.AsWrittenStopsEarly | lecture1/minesweeper/minesweeper.py:213-240 | on this true knowledge base the stop test as written (with `mark_mine` corrected) ends the loop after one pass, which changed it, and leaves a knowledge base that is neither stable nor closed |
| TicTacToe.InitialStateFacts | lecture0/tictactoe/tictactoe.py:23-29 | the empty board: X to move, all nine squares legal, no winner, not over |
| TicTacToe.Result | lecture0/tictactoe/tictactoe.py:59-70 | InvalidMoveException exactly when the move is not legal; a legal move uses up one free square |
| TicTacToe.ResultPlacesMark | lecture0/tictactoe/tictactoe.py:63-67 | a legal move changes only the square played, which receives the mark of the side to move |
| TicTacToe.ActionsAfterMove | lecture0/tictactoe/tictactoe.py:59-70 | after a move the legal moves are the old ones less the square played |
| TicTacToe.ActionListMembers | lecture0/tictactoe/tictactoe.py:46-54 | the row-by-row list of moves holds exactly the empty squares |
| TicTacToe.ActionListCount | lecture0/tictactoe/tictactoe.py:52 | there are as many legal moves as free squares |
| TicTacToe.MoveCounts | lecture0/tictactoe/tictactoe.py:37-41 | a move adds one mark of the mover and none of the other side |
| TicTacToe.PlayerAlternates | lecture0/tictactoe/tictactoe.py:32-41 | on a board with as many X as O, or one X more, the turn passes to the other side and the balance is kept |
| TicTacToe.Winner | lecture0/tictactoe/tictactoe.py:73-108 | the row, column and diagonal loops return the last mover exactly when it holds a line, and None otherwise |
| TicTacToe.LineOfOtherSide | lecture0/tictactoe/tictactoe.py:78-81 | a move cannot complete a line of the side that did not play it |
| TicTacToe.ReplayReachable | lecture0/tictactoe/tictactoe.py:59-116 | every board reached by legal play from the empty board is balanced and the side to move holds no line |
| TicTacToe.WinnerInPlay | lecture0/tictactoe/tictactoe.py:78-108 | in play, looking only at the last mover loses nothing: a side is the winner exactly when it holds a line |
| TicTacToe.TerminalIff | lecture0/tictactoe/tictactoe.py:112-116 | the game is over exactly when there is a winner or no legal move |
| TicTacToe.Utility | lecture0/tictactoe/tictactoe.py:120-135 | no score exactly before the end; 1 only when X holds a line, -1 only when O does, 0 only on a full board |
| TicTacToe.UtilityInPlay | lecture0/tictactoe/tictactoe.py:120-135 | a finished game reached by play scores 1 when X holds a line, -1 when O does, 0 otherwise; never both |
| TicTacToe.MaxValue | lecture0/tictactoe/tictactoe.py:175-197 | the loop, with its break at 1 and its records inserted at the front or appended, returns `MaxSearch` |
| TicTacToe.MinValue | lecture0/tictactoe/tictactoe.py:200-220 | the same for the minimising side, returning `MinSearch` |
| TicTacToe.MaxScore | lecture0/tictactoe/tictactoe.py:175-197 | the game value for X to choose lies in {-1, 0, 1} |
| TicTacToe.MinScore | lecture0/tictactoe/tictactoe.py:200-220 | the game value for O to choose lies in {-1, 0, 1} |
| TicTacToe.MaxScoreBounds | lecture0/tictactoe/tictactoe.py:186-189 | no legal move is worth more to X than the game value |
| TicTacToe.MaxScoreReached | lecture0/tictactoe/tictactoe.py:186-189 | some legal move is worth exactly the game value |
| TicTacToe.MinScoreBounds | lecture0/tictactoe/tictactoe.py:210-212 | no legal move is worth less to O than the game value |
| TicTacToe.MinScoreReached | lecture0/tictactoe/tictactoe.py:210-212 | some legal move is worth exactly the game value |
| TicTacToe.MaxSearchValue | lecture0/tictactoe/tictactoe.py:175-197 | the value `maxValue` returns is the game value: stopping at 1 changes nothing |
| TicTacToe.MinSearchValue | lecture0/tictactoe/tictactoe.py:200-220 | the value `minValue` returns is the game value: stopping at -1 changes nothing |
| TicTacToe.MaxScanValue | lecture0/tictactoe/tictactoe.py:186-197 | the rest of the loop yields the larger of the value so far and the best remaining move |
| TicTacToe.MinScanValue | lecture0/tictactoe/tictactoe.py:210-220 | the rest of the loop yields the smaller of the value so far and the best remaining move for O |
| TicTacToe.MaxScanRecords | lecture0/tictactoe/tictactoe.py:186-197 | the recorded moves are legal, present exactly when the value is 0 or 1, and the first is worth the value |
| TicTacToe.MinScanRecords | lecture0/tictactoe/tictactoe.py:210-220 | the same for the minimising side |
| TicTacToe.MaxSearchRecords | lecture0/tictactoe/tictactoe.py:175-197 | what `maxValue` records on an unfinished game |
| TicTacToe.MinSearchRecords | lecture0/tictactoe/tictactoe.py:200-220 | what `minValue` records on an unfinished game |
| TicTacToe.Minimax | lecture0/tictactoe/tictactoe.py:139-172 | None exactly on a finished game, otherwise a legal move; off the empty board that move keeps the game value for the side to move |
| TicTacToe.Shallowest | lecture0/tictactoe/tictactoe.py:157-164 | the selection as written returns the starting choice or a record whose depth is below the bound |
| TicTacToe.PickShallowest | lecture0/tictactoe/tictactoe.py:157-164 | the selection loop computes `Shallowest` from the bound 99 |
| TicTacToe.ShallowestMissesWin | lecture0/tictactoe/tictactoe.py:157-164 | on `Fork` the selection as written picks (2, 1), which is not optimal, while the first record is |
| TicTacToe.ShallowestOfForkRecords | lecture0/tictactoe/tictactoe.py:157-164 | among a depth-1 win and a depth-0 draw the selection takes the draw |
| TicTacToe.ForkSearch | lecture0/tictactoe/tictactoe.py:175-197 | on `Fork` the search records the win (2, 2) first and the draw (2, 1) after it, with depth 0 |
| TicTacToe.ForkXeeSearch | lecture0/tictactoe/tictactoe.py:200-220 | after X plays (2, 0), O wins at once |
| TicTacToe.ForkeXeSearch | lecture0/tictactoe/tictactoe.py:200-220 | after X plays (2, 1), O blocks and the game is drawn |
| TicTacToe.ForkOXeSearch | lecture0/tictactoe/tictactoe.py:175-197 | X completes a column with its last move |
| TicTacToe.ForkeXOSearch | lecture0/tictactoe/tictactoe.py:175-197 | X's only move leads to a draw |
| TicTacToe.ForkScores | lecture0/tictactoe/tictactoe.py:175-220 | (2, 1) is worth 0 to X while `Fork` is worth 1 |
| TicTacToe.ForkState | lecture0/tictactoe/tictactoe.py:32-116 | X to move, not over, moves (2, 0), (2, 1), (2, 2) |
| TicTacToe.ForkXeeState | lecture0/tictactoe/tictactoe.py:32-116 | O to move, not over, moves (2, 1), (2, 2) |
| TicTacToe.ForkXOeState | lecture0/tictactoe/tictactoe.py:73-135 | O has won: over, score -1 |
| TicTacToe.ForkeXeState | lecture0/tictactoe/tictactoe.py:32-116 | O to move, not over, moves (2, 0), (2, 2) |
| TicTacToe.ForkOXeState | lecture0/tictactoe/tictactoe.py:32-116 | X to move, not over, move (2, 2) |
| TicTacToe.ForkOXXState | lecture0/tictactoe/tictactoe.py:73-135 | X has won: over, score 1 |
| TicTacToe.ForkeXOState | lecture0/tictactoe/tictactoe.py:32-116 | X to move, not over, move (2, 0) |
| TicTacToe.ForkXXOState | lecture0/tictactoe/tictactoe.py:73-135 | a full board without a line: over, score 0 |
| TicTacToe.ForkeeXState | lecture0/tictactoe/tictactoe.py:73-135 | X has won: over, score 1 |
| TicTacToe.PlayFork | lecture0/tictactoe/tictactoe.py:63-67 | a move on the bottom row is legal and puts the mover's mark there |
| TicTacToe.BottomRowActions | lecture0/tictactoe/tictactoe.py:52 | with the top rows full the moves are the free bottom squares, left to right |
| TicTacToe.XWinVertFacts | lecture0/tictactoe/ttt_test.py:11-13 | "xwin-vert": O to move, X has won, over, score 1 |
| TicTacToe.OWinHorFacts | lecture0/tictactoe/ttt_test.py:14-16 | "owin-hor": X to move, O has won, over, score -1 |
| TicTacToe.DrawFacts | lecture0/tictactoe/ttt_test.py:17-19 | "draw": no winner, over, score 0 |
| TicTacToe.XWinDiagFacts | lecture0/tictactoe/ttt_test.py:20-22 | "xwin-diag": X has won, over, score 1 |
| TicTacToe.MidState | lecture0/tictactoe/ttt_test.py:8-10 | "mid": O to move, not over, (2, 2) legal |
| TicTacToe.MidWonState | lecture0/tictactoe/ttt_test.py:8-10 | "mid" after O plays (2, 2): O has won, score -1 |
| TicTacToe.MidFacts | lecture0/tictactoe/ttt_test.py:8-10 | "mid" is worth -1 although the game is not over |
| TicTacToe.DumbState | lecture0/tictactoe/ttt_test.py:23-25 | "dumb": O to move, not over, moves (0, 2), (1, 2), (2, 1), (2, 2) in that order |
| TicTacToe.DumbWonState | lecture0/tictactoe/ttt_test.py:23-25 | "dumb" after O plays (0, 2): O has won, score -1 |
| TicTacToe.DumbFacts | lecture0/tictactoe/ttt_test.py:23-25 | on "dumb" the search tries (0, 2) first, wins and stops there with value -1 |

## Left out

- Random mine placement in `Minesweeper.__init__` (lecture1/minesweeper/minesweeper.py:26-31): the mine set is a constructor parameter instead.
- `Minesweeper.print` and `MinesweeperAI.show_knowledge`: console output only.
- MinesweeperPlayer.MinesweeperAI.RandomMoveEligible: only the condition a returned move meets is modelled.
  - The random sampling of `make_random_move` is not modelled.
  - Its "no moves found" guard is not modelled either: `possibleMovesChecked` is reset on every iteration, so the guard never fires and the loop can run forever.
- `Sentence.__str__`: formatting only.
- Sentences are values: Python mutates a sentence in place, and the model replaces the element of the knowledge sequence instead.
  - The size-sorted snapshot is kept as a list of positions into that sequence, so changes made during a pass show through the snapshot, as they do in Python.
- MinesweeperPlayer.MinesweeperAI.AddKnowledge: requires the reported count to be true of the ghost mine set `truth`.
  - The exception is a count above the number of neighbours, which the code rejects and the model keeps as its ValueError path.
  - The reason: with inconsistent counts the inference loop can append ever larger counts over the same cells and never stop, so termination cannot be proved without that requirement.
  - An input that shows it, with A = (0, 0), B = (0, 1) and `mark_mine` corrected: the knowledge base [{A} = 0, {B} = 1, {A, B} = 2].
    - The first pass appends {B} = 2 and {A} = 1, and marks A as a mine. This turns {A} = 0 into {} = -1.
    - From then on, {} = -1 and the largest {} = c derive the new {} = c + 1 in every pass, so every pass appends and the loop never ends.
- Equal counts are never used for deduction. The rule requires `from.count < to.count` (lecture1/minesweeper/minesweeper.py:221), so {A, B, C} = 1 and {A, B} = 1 never yield {C} = 0. The model follows the code.
- The branch that marks derived cells safe (lecture1/minesweeper/minesweeper.py:232-234) cannot run, because a derived count is at least 1. It is modelled as an unreachable branch.
- TicTacToe.Minimax: on the empty board it returns some legal move, where the code picks one at random (lecture0/tictactoe/tictactoe.py:146). No optimality is claimed there.
- TicTacToe.Minimax: when the search records no move it returns some legal move, where the code pops one from a set. That move is proved optimal all the same.
- The `print` at lecture0/tictactoe/tictactoe.py:167 is not modelled.
- The order in which moves are tried: Python iterates over a set, whose order is not specified, and the model tries the moves row by row. The values proved do not depend on the order; the records and depths do.
- `cst_exceptions` is not part of this model: `InvalidMoveException` is the failure value of `Result`.
- The unused `Node` class is not modelled.
- `utility` returns `False` before the end of the game; the model returns `None`.
- MinesweeperBoard.Minesweeper.IsMine: requires a cell on the board. Python would also accept negative indices, which count from the other end of a row or column. The player only asks about cells on the board.
- MinesweeperPlayer.MinesweeperAI.AddKnowledge: runs the corrected inference loop (`Infer`), not the loop as written (`InferAsWritten`); see the last row under Findings.
- `make_safe_move` can never find a move in play: the only cells marked safe are the moves made (the safe branch of the loop never runs), so `safes` equals `moves_made`. The model proves that a new player satisfies this (`Valid`) and that `AddKnowledge` keeps it, rather than changing the code. A direct call of `mark_safe` on an unplayed cell breaks it, and `AddKnowledge` accepts that state as well.
- MinesweeperPlayer.MinesweeperAI.MarkMine, MinesweeperPlayer.MinesweeperAI.MarkSafe, MinesweeperPlayer.MinesweeperAI.MarkMines, MinesweeperPlayer.MinesweeperAI.InferAsWritten, MinesweeperPlayer.MinesweeperAI.Infer, MinesweeperPlayer.MinesweeperAI.AddKnowledge: built on the corrected `Sentence.MarkMine` and `Sentence.MarkSafe` (Findings rows for lines 127 and 138). As written, `add_knowledge` never removes a cell from a sentence and raises TypeError on the first mine it deduces; the model does not follow that path.
- `lecture2/pagerank` and `lecture1/lectureCode/harry.py` are not part of this model.

## Findings

| source | as written | input that shows it | evidently intended | confidence | as-written member | corrected member |
|---|---|---|---|---|---|---|
| lecture1/minesweeper/minesweeper.py:127 | `self.cells - cell` subtracts a tuple from a set and raises TypeError | any sentence holding the cell, e.g. {(0, 0), (0, 1)} = 1 with (0, 0) marked a mine | remove the cell and lower the count by one | high, not executed | Sentences.MarkMineAsWrittenRaises | Sentences.Sentence.MarkMine |
| lecture1/minesweeper/minesweeper.py:138 | `self.cells - set(cell)` subtracts the set of the two coordinates, which removes no cell | {(0, 0), (0, 1)} = 1 with (0, 0) marked safe keeps (0, 0) | remove the cell | high, not executed | Sentences.MarkSafeAsWrittenKeepsCell | Sentences.Sentence.MarkSafe |
| lecture1/minesweeper/minesweeper.py:271 | `possibleMoves.append[m]` subscripts a method and raises TypeError | any safe cell that is neither played nor a known mine | append the cell and return the first candidate | high, not executed | MinesweeperPlayer.MinesweeperAI.MakeSafeMoveAsWritten | MinesweeperPlayer.MinesweeperAI.MakeSafeMove |
| lecture0/tictactoe/tictactoe.py:157-163 | the record with the smallest depth is chosen; draws are recorded with depth 0 and a win with the depth of its search (at least 1), so a draw beats a win | `Fork`: [[X, O, X], [O, O, X], [_, _, _]], X to move; the search records ((2, 2), 1) and ((2, 1), 0), and (2, 1) is chosen, a draw, while (2, 2) wins | take the first record, which the search puts in front when it is a win | medium, not executed | TicTacToe.ShallowestMissesWin | TicTacToe.Minimax |
| lecture1/minesweeper/minesweeper.py:230-240 | once line 127 is corrected (as written the marking pass raises TypeError first), the loop stops after a pass that appends nothing, although that pass may have marked mines and so changed the sentences | the true knowledge base [{A, B} = 2, {A, D} = 1, {C, F} = 0, {D, E} = 1, {A, B, C, F} = 2] with A = (0, 0), B = (0, 1), C = (0, 2), D = (1, 0), E = (1, 1), F = (1, 2): with `mark_mine` corrected, the first pass marks A and B and stops, and {D} = 0 with {D, E} = 1 would still derive {E} = 1 | as the comment at line 210 says, run again after any change, until a pass changes nothing | medium, not executed | StopExample.AsWrittenStopsEarly | MinesweeperPlayer.MinesweeperAI.Infer |
