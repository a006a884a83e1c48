# Tetris engine, adversary and heuristic player in Dafny

This project models the core of a turn-based Tetris engine: blocks, the board they land on,
the adversary that deals shapes, the loop that alternates between adversary and player, and
an automated player that searches every rotation and column for the best placement.

The model is built in layers:

- `shapes.dfy` (module `Shapes`) holds the shape tables: initial cells, colours and rotation
  centres, on a board fixed at 10 x 24.
- `pieces.dfy` (module `Pieces`) is the geometry of a block as a value. Its cells are a
  sequence. Its centre is an integer pair plus a flag for half-integer centres. It covers the
  extremes `left`/`right`/`top`/`bottom`, the sideways, down and drop moves, the rotation
  and the three corrections a rotation goes through (left wall, right wall, ceiling).
- `rules.dfy` (module `Rules`) is the board as a value `State`: landed cells, colours, falling
  block, next block, score, bombs and discards. It defines every action as a function
  returning the new state and the reply (landed or not, or the exception raised). It proves
  that every action preserves the engine invariant `Consistent`: `cells` is the key set of
  `cellcolor`, the falling block is well formed and on the board, and `next` is a fresh
  block.
- `laws.dfy` (module `Laws`) states what the actions do. It covers the move rollback and
  drop rules, rotation inverses, row clearing, the bomb's per-column gravity, the score never
  falling, and bombs and discards.
- `adversary.dfy` (module `Adversaries`) holds the block budget of `RandomAdversary`. It is a
  class whose `blocks` counter `ChooseBlock` updates.
- `engine.dfy` (module `Engine`) holds the classes `Block` and `Board`. Their fields are
  updated in place, as in the program, and each method is proved to leave the object in the
  state the matching `Rules` function describes. `CellSet` stands for Python's mutable `set`
  object. `remove_line` and `explode` bind a new set, while a landing grows the existing one,
  and the player depends on that difference.
- `heuristic.dfy` (module `Heuristic`) holds the player's board measures: column heights,
  holes, bumpiness, the fill of the bottom rows and the score of a placement.
- `search.dfy` (module `Search`) covers the player's sandbox `testBoard` as a class, with
  `move_to_target`, the measuring loops and `scoreBoard`, and `myPlayer.choose_action` with
  its two loop nests.
- `game.dfy` (module `Game`) is the loop of `run` and `run_player`, given a finite sequence
  of adversary draws and a finite sequence of player replies. It produces the trace of
  events (shapes dealt and actions played) and the reason the game ended.

Quirks of the code that the model keeps:

- `supported` holds when *some* cell of the block rests on a landed cell or on the floor
  (board.py:203-206), not every cell.
- `get_heights` keeps the row found for the previous column when a column is empty, so an
  empty column repeats the height to its left (0 only for column 0).
- `fill_FourRows` counts the filled cells of the bottom three rows (0 to 30). It is not a 0/1
  indicator of a full four-row block.
- `choose_action` runs its second loop nest, over all 40 placements, inside every iteration of
  the first. The choice is the same as one pass over the 40 placements.
- `clean` never tests row 0. A full row 0 survives unless the row below it is removed; then it
  comes down into row 1 and is removed in turn (`Laws.RowZeroKept` covers a board whose cells
  all lie in row 0, `Laws.RowZeroFollows` full rows 0 and 1).
- `clean` looks the bonus up in `scores[removed]`. More than four rows cleared by one landing
  would raise `IndexError`, modelled as the fault `ScoreTableFault`.

## Model

| member | source | states |
|---|---|---|
| Shapes.ShapeCells | tetris-master/board.py:46-80 | each tetromino starts with four cells and the bomb with one |
| Pieces.NewPiece | tetris-master/board.py:148-152 | a new block has the requested shape and one cell per table entry |
| Pieces.MinX | tetris-master/board.py:155-160 | `left` is at most every cell's column and is the column of some cell |
| Pieces.MaxX | tetris-master/board.py:163-168 | `right` is at least every cell's column and is the column of some cell |
| Pieces.MinY | tetris-master/board.py:171-176 | `top` is at most every cell's row and is the row of some cell |
| Pieces.MaxY | tetris-master/board.py:179-184 | `bottom` is at least every cell's row and is the row of some cell |
| Pieces.Shift | tetris-master/board.py:217-240 | a shift moves every cell, in order, by the same offset |
| Pieces.Translate | tetris-master/board.py:216-244 | moving a block keeps its shape and its number of cells |
| Pieces.StepRight | tetris-master/board.py:216-223 | a step right keeps the block's shape and cell count |
| Pieces.StepLeft | tetris-master/board.py:225-232 | a step left keeps the block's shape and cell count |
| Pieces.StepDown | tetris-master/board.py:234-244 | a step down keeps the block's shape and cell count |
| Pieces.TurnCell | tetris-master/board.py:262-266 | the turned cell is the quarter turn of the cell about the (possibly half-integer) centre, clockwise or anticlockwise |
| Pieces.RotateCells | tetris-master/board.py:262-266 | rotation turns every cell, in order, about the same centre |
| Pieces.FixLeft | tetris-master/board.py:269-275 | the left-wall correction keeps shape and cell count |
| Pieces.FixRight | tetris-master/board.py:277-283 | the right-wall correction keeps shape and cell count and does not undo a corrected left edge |
| Pieces.FixTop | tetris-master/board.py:285-291 | the ceiling correction keeps shape and cell count |
| Pieces.FixTopColumns | tetris-master/board.py:285-291 | the ceiling correction never moves the block sideways |
| Pieces.RotatePiece | tetris-master/board.py:251-304 | a kept rotation leaves the block on the board and clear of landed cells; a failed one restores the original block |
| Pieces.Correct | tetris-master/board.py:268-304 | from each correction stage on, the same: kept means on the board and clear, failed means the original block |
| Pieces.ExtremesInBounds | tetris-master/board.py:270-295 | the four edge tests of the rotation are exactly "every cell is on the board" |
| Pieces.TranslateExtremes | tetris-master/board.py:216-244 | moving a block moves its four edges by the same offset |
| Pieces.StepRightOnBoard | tetris-master/board.py:216-223 | a step right from a position on the board stays on the board |
| Pieces.StepLeftOnBoard | tetris-master/board.py:225-232 | a step left from a position on the board stays on the board |
| Pieces.StepDownOnBoard | tetris-master/board.py:234-244 | a step down that is taken stays on the board |
| Rules.RemoveLineShrinks | tetris-master/board.py:361-374 | removing a full row strictly shrinks the cell set, so the inner loop of `clean` ends |
| Rules.MoveStaysInBounds | tetris-master/board.py:208-249 | a move that does not land leaves the block on the board |
| Rules.CenteredOnBoard | tetris-master/board.py:186-194 | every shape, centred by `initialize`, lies on the board |
| Rules.FirstBelowIsFirst | tetris-master/board.py:408-412 | the scan of `explode` finds the first landed cell at or below the row, or the floor |
| Rules.RemoveLineKeys | tetris-master/board.py:361-374 | `remove_line` keeps `cells` equal to the keys of `cellcolor` |
| Rules.CleanKeys | tetris-master/board.py:376-392 | `clean` keeps `cells` equal to the keys of `cellcolor` |
| Rules.LandConsistent | tetris-master/board.py:535-549 | a landing preserves the engine invariant |
| Rules.ImplicitDownConsistent | tetris-master/board.py:566-571 | the implicit step down preserves the engine invariant |
| Rules.MoveConsistent | tetris-master/board.py:551-571 | `move` preserves the engine invariant |
| Rules.RotateConsistent | tetris-master/board.py:573-591 | `rotate` preserves the engine invariant |
| Rules.BombConsistent | tetris-master/board.py:593-604 | `bomb` preserves the engine invariant |
| Rules.DiscardConsistent | tetris-master/board.py:606-623 | `discard` preserves the engine invariant |
| Rules.ActConsistent | tetris-master/board.py:492-503 | every action the player can send preserves the engine invariant |
| Rules.MoveThrough | tetris-master/board.py:561-571 | `move` is the block move followed by a landing or by the implicit step down |
| Rules.RotateThrough | tetris-master/board.py:583-591 | `rotate` is the block rotation followed by the implicit step down |
| Adversaries.Choose | tetris-master/adversary.py:19-25 | the budget raises exactly when it is 0; otherwise the drawn tetromino (never the bomb) is dealt and a set budget drops by one; no budget never changes |
| Adversaries.UnlimitedNeverRaises | tetris-master/adversary.py:20-25 | without a budget every draw is dealt, in order, and nothing is raised |
| Adversaries.BudgetAllowsExactly | tetris-master/adversary.py:20-24 | a budget of n deals exactly min(n, draws) shapes, raises when draws exceed n, and never deals the bomb |
| Adversaries.RandomAdversary.constructor | tetris-master/adversary.py:15-17 | the adversary starts with the given budget |
| Adversaries.RandomAdversary.ChooseBlock | tetris-master/adversary.py:19-25 | the method deals or raises as `Choose` says and updates the budget to match |
| Engine.ShiftCells | tetris-master/board.py:192-193 | the loop computes the shifted cells |
| Engine.TurnCells | tetris-master/board.py:262-266 | the loop computes the turned cells |
| Engine.Block.constructor | tetris-master/board.py:148-152 | a new block is the shape's table block with the shape's colour |
| Engine.Block.Leftmost | tetris-master/board.py:155-160 | the loop finds the smallest column of the cells |
| Engine.Block.Rightmost | tetris-master/board.py:163-168 | the loop finds the largest column of the cells |
| Engine.Block.Topmost | tetris-master/board.py:171-176 | the loop finds the smallest row of the cells |
| Engine.Block.Bottommost | tetris-master/board.py:179-184 | the loop finds the largest row of the cells |
| Engine.Block.Initialize | tetris-master/board.py:186-194 | the block is shifted sideways to the centre of the board |
| Engine.Block.Move | tetris-master/board.py:208-249 | the block, the landed flag and the points added to the board's score follow the pure move |
| Engine.Block.Rotate | tetris-master/board.py:251-304 | the block and the score follow the pure rotation with its corrections |
| Engine.Block.RotateFromLeft | tetris-master/board.py:268-304 | from the left-wall stage on, block and score follow the pure corrections |
| Engine.Block.RotateFromRight | tetris-master/board.py:277-304 | from the right-wall stage on, block and score follow the pure corrections |
| Engine.Block.RotateFromTop | tetris-master/board.py:285-304 | from the ceiling stage on, block and score follow the pure corrections |
| Engine.Block.Clone | tetris-master/board.py:306-310 | the clone is a new object with the same shape, cells, centre and colour |
| Engine.Board.constructor | tetris-master/board.py:332-341 | a new board is empty, with no blocks and the given score, bombs and discards |
| Engine.Board.LineFull | tetris-master/board.py:354-359 | the loop answers whether every column of the row is occupied |
| Engine.Board.RemoveLine | tetris-master/board.py:361-374 | a new cell set and colour map without the row, with the rows above moved down |
| Engine.Board.Clean | tetris-master/board.py:376-392 | cells and colours after clearing, and the bonus, or no bonus when more than four rows were removed; the set object is replaced only if some row was removed |
| Engine.Board.Explode | tetris-master/board.py:394-421 | the colour map after the blast and the settling of the three columns, with the cells as its keys |
| Engine.Board.SettleColumn | tetris-master/board.py:407-421 | one column's cells from the bomb row up are stacked onto the first landed cell below |
| Engine.Board.Merge | tetris-master/board.py:540-543 | the falling block's cells join the set in place and take its colour |
| Engine.Board.PlaceNextBlock | tetris-master/board.py:441-449 | `next` becomes the falling block, centred, and `next` is emptied |
| Engine.Board.Absorb | tetris-master/board.py:536-543 | a landed bomb explodes into a new set; any other block merges into the existing set |
| Engine.Board.LandBlock | tetris-master/board.py:535-549 | the board ends in the landing state of the rules, reply included, and keeps its invariant |
| Engine.Board.Fall | tetris-master/board.py:566-571 | the board ends in the state of the implicit step down |
| Engine.Board.MoveFalling | tetris-master/board.py:562-564 | the requested move of the falling block; on no landing the invariant holds again |
| Engine.Board.Move | tetris-master/board.py:551-571 | the board ends in the state and reply of the rules' `move`, keeping its invariant |
| Engine.Board.MoveBlock | tetris-master/board.py:561-571 | the same, once a falling block is known to exist |
| Engine.Board.TurnFalling | tetris-master/board.py:584 | the falling block turns as the pure rotation says and the invariant holds |
| Engine.Board.Rotate | tetris-master/board.py:573-591 | the board ends in the state and reply of the rules' `rotate` |
| Engine.Board.RotateBlock | tetris-master/board.py:583-591 | the same, once a falling block is known to exist |
| Engine.Board.Skip | tetris-master/board.py:625-637 | the board ends in the state and reply of `skip` |
| Engine.Board.Bomb | tetris-master/board.py:593-604 | the board ends in the state and reply of `bomb` |
| Engine.Board.Arm | tetris-master/board.py:599-603 | with a bomb left and a non-bomb next block, `next` becomes a bomb and one bomb is spent; otherwise nothing changes |
| Engine.Board.Discard | tetris-master/board.py:606-623 | the board ends in the state and reply of `discard` |
| Engine.Board.DoAction | tetris-master/board.py:492-503 | each action runs the operation the source dispatches it to |
| Engine.Board.Alive | tetris-master/board.py:431-439 | alive exactly when there is no falling block or it overlaps no landed cell |
| Engine.Board.RunAdversary | tetris-master/board.py:451-459 | on a deal, `next` is a new block of the dealt shape and the budget follows `Choose`; on the limit, nothing changes |
| Engine.Board.Clone | tetris-master/board.py:639-657 | the clone is a new board with new cell set and blocks and the same state |
| Laws.TranslateTwice | tetris-master/board.py:216-244 | two moves compose into one by the summed offset |
| Laws.TranslateNothing | tetris-master/board.py:216-244 | a move by zero leaves the block unchanged |
| Laws.SideMoveRollback | tetris-master/board.py:216-232 | a side move never lands and scores nothing; it moves the block exactly when the moved block is on the board and clear, and otherwise restores it |
| Laws.DropLands | tetris-master/board.py:246-249 | a drop always lands, scores one point per row fallen, moves straight down, and leaves the block supported |
| Laws.TurnBack | tetris-master/board.py:262-266 | a clockwise and an anticlockwise turn about the same centre undo each other |
| Laws.RotateScoresDown | tetris-master/board.py:285-304 | a rotation's ceiling correction never takes points away |
| Laws.RemoveLineShifts | tetris-master/board.py:361-374 | after removing a row, each row above it holds what the row one higher held before, and rows below are unchanged |
| Laws.RemoveLineColorsShift | tetris-master/board.py:366-369 | the colours move down with their cells |
| Laws.CleanLeavesNoFullRow | tetris-master/board.py:385-390 | after `clean` no row from 1 to 23 is full |
| Laws.RowZeroKept | tetris-master/board.py:386 | a board whose cells all lie in row 0 is left as it is, even a full row 0 |
| Laws.RowZeroFollows | tetris-master/board.py:385-390 | full rows 0 and 1 are both removed, row 0 after it comes down into row 1, leaving an empty board |
| Laws.RemoveLineCount | tetris-master/board.py:361-374 | removing a full row drops at least its ten cells, exactly ten when every cell lies in columns 0 to 9, which stays so |
| Laws.CleanTally | tetris-master/board.py:385-390 | `removed` counts the rows taken off: at least ten cells per removed row, exactly ten when every cell lies in columns 0 to 9 |
| Laws.CleanFromCounts | tetris-master/board.py:385-390 | the count of removed rows only grows, and if no row was removed the cells are unchanged |
| Laws.MergePaints | tetris-master/board.py:541-543 | merging adds the block's cells in its colour and keeps every other cell's colour |
| Laws.LandOutcome | tetris-master/board.py:535-549 | after a landing no row from 1 to 23 is full; bombs and discards are kept; with r the rows `clean` removed, which took at least ten cells each off the board (exactly ten on columns 0 to 9), the landing succeeds exactly when r < 5, the score then rises by `scores[r]` of 0/25/100/400/1600 and `next` is promoted; otherwise the bonus lookup fails and the score and `next` are kept |
| Laws.RestackSpec | tetris-master/board.py:414-421 | settling a column packs its cells against the landed cell below, in order, and changes nothing else |
| Laws.ExplodeColumns | tetris-master/board.py:394-421 | after a bomb, each of the three columns is packed from its first landed cell below the bomb, with no gaps, and every other column is only blasted |
| Laws.ExplodeShrinks | tetris-master/board.py:396-421 | a bomb never adds cells |
| Laws.NoBlockRaises | tetris-master/board.py:551-637 | without a falling block every action raises NoBlockException; `bomb` first arms the next block |
| Laws.ImplicitDownScores | tetris-master/board.py:234-244 | the implicit step down never lowers the score |
| Laws.MoveScores | tetris-master/board.py:551-571 | `move` never lowers the score |
| Laws.RotateScores | tetris-master/board.py:573-591 | `rotate` never lowers the score |
| Laws.ScoreNeverFalls | tetris-master/board.py:492-503 | no action lowers the score |
| Laws.BombLoadsNext | tetris-master/board.py:593-604 | an armed bomb spends one bomb and the bomb becomes the next block, or the falling one if the skip landed; an unarmed bomb is a skip |
| Laws.DiscardReplaces | tetris-master/board.py:606-623 | a discard with discards left spends one and promotes `next` without touching cells, colours, score or bombs; without discards nothing changes |
| Laws.StepKeepsSet | tetris-master/board.py:371 | when an action does not rebind the cell set, the old set object holds the new cells |
| Laws.LandKeepsSet | tetris-master/board.py:536-543 | when a landing does not rebind the cell set, the old set object holds the cells after it |
| Laws.DropAlwaysLands | tetris-master/board.py:246-249 | a Drop move always ends the turn |
| Laws.SideStepKeepsRows | tetris-master/board.py:216-232 | a side move does not change the block's lowest row |
| Laws.DownStepLowers | tetris-master/board.py:566-571 | an implicit step down that does not land lowers the block by one row |
| Laws.DownRule | tetris-master/board.py:234-244 | a Down step lands exactly when the block is supported, and then leaves it in place for 0 points; otherwise it moves the block `count` rows straight down for exactly `count` points |
| Laws.DownActionFallsTwo | tetris-master/board.py:562-571 | `move(Down)` lands at once on a supported block, lands one row lower for one point when supported there, and otherwise drops the block two rows for exactly two points and replies False |
| Laws.SideStepFalls | tetris-master/board.py:551-571 | a side move that does not land ends one row lower |
| Heuristic.ColumnHeightBound | tetris-master/player.py:110-115 | every column height lies between 0 and 24 |
| Heuristic.HeightAt | tetris-master/player.py:107-116 | an occupied column's height reaches its topmost cell; an empty column repeats the previous height |
| Heuristic.HeightsSpec | tetris-master/player.py:107-116 | ten heights in 0..24; occupied columns measured from their topmost cell; empty columns carry the previous height over |
| Heuristic.HolesBound | tetris-master/player.py:119-128 | there are at most 240 holes, and none on an empty board |
| Heuristic.BumpinessZero | tetris-master/player.py:142-147 | bumpiness is zero exactly when all heights are equal |
| Heuristic.BumpFromBound | tetris-master/player.py:142-147 | the bumpiness summed from any column on is at most 24 per column |
| Heuristic.FillFourRowsSpec | tetris-master/player.py:156-163 | the fill is at most 30, and exactly 30 when the bottom three rows are full |
| Heuristic.ScoreBoardBounds | tetris-master/player.py:165-187 | every placement scores between -264000 and 90030, above the search's initial best |
| Search.TrackingKept | tetris-master/player.py:76 | the set object the sandbox captured follows the board until an action rebinds the board's set, and then stays frozen |
| Search.AttemptMoves | tetris-master/player.py:80-105 | a scored move list is at most `rt` clockwise turns, then Left/Right moves, with a Drop only at the end |
| Search.NoBlockFails | tetris-master/player.py:85-94 | without a falling block the trial fails |
| Search.TurnPhase | tetris-master/player.py:84-89 | a rotation phase that completes leaves a consistent board after at most `rt` turns |
| Search.Approach | tetris-master/player.py:91-104 | a scored approach is a non-empty list of Left, Right and Drop moves with a Drop only at the end |
| Search.TestBoard.constructor | tetris-master/player.py:74-78 | the sandbox keeps the board, the board's own set object, the initial score and the initial block |
| Search.TestBoard.MoveToTarget | tetris-master/player.py:80-105 | the sandbox run gives the score and move list of the pure trial |
| Search.TestBoard.RotationLoop | tetris-master/player.py:84-89 | the turns taken are clockwise turns and the loop ends as the pure rotation phase does |
| Search.TestBoard.ApproachLoop | tetris-master/player.py:91-105 | the side moves and final drop give the pure approach's result |
| Search.TestBoard.GetHeights | tetris-master/player.py:107-116 | the loops compute the column heights, previous-row carry-over included |
| Search.TestBoard.GetHoles | tetris-master/player.py:119-128 | the loops count the empty cells below each column's height |
| Search.TestBoard.GetBumpiness | tetris-master/player.py:142-147 | the loop sums the height differences of adjacent columns |
| Search.TestBoard.GetFill | tetris-master/player.py:156-163 | the loops count the captured set's filled cells in the bottom three rows |
| Search.TestBoard.ScoreLanded | tetris-master/player.py:165-187 | the score of the landed board, or a failure when there was no initial block |
| Search.Candidates | tetris-master/player.py:19-26 | the search evaluates 40 placements |
| Search.TrialAt | tetris-master/player.py:19-26 | placement k is rotation k mod 4 at column k div 4 |
| Search.CandidateAt | tetris-master/player.py:19-26 | placement 4 tx + rt is the trial for rotation rt at column tx |
| Search.ConsiderTwice | tetris-master/player.py:29-31 | weighing the same trial twice changes nothing |
| Search.SweepBounds | tetris-master/player.py:52-54 | a sweep ending with a best has every trial scored no higher than it |
| Search.SweepFirstBest | tetris-master/player.py:52-54 | a sweep that changes the best picks the first trial reaching the final score |
| Search.SweepCrash | tetris-master/player.py:49 | a sweep raises exactly when some trial fails, and then with the first failure |
| Search.SweepSettled | tetris-master/player.py:29-31 | once all placements have been weighed, weighing any one again changes nothing |
| Search.SweepAgain | tetris-master/player.py:42-54 | a second sweep after the first changes nothing |
| Search.FirstThenSweep | tetris-master/player.py:19-54 | weighing the first placement and then sweeping all gives the same as sweeping |
| Search.ChooseFirstBest | tetris-master/player.py:15-69 | the chosen moves belong to the first placement with the greatest score, and every placement scores no more |
| Search.ChooseCrash | tetris-master/player.py:15-69 | `choose_action` raises exactly when some placement fails, and then with the first failure |
| Search.ChooseNeverEmpty | tetris-master/player.py:16-31 | a successful choice beats the initial best and returns a non-empty move list |
| Search.ScoredAbove | tetris-master/player.py:16-29 | every scored placement lies above -264000 |
| Search.ApproachBound | tetris-master/player.py:91-105 | the approach's score lies above -264000 |
| Search.AttemptNonEmpty | tetris-master/player.py:80-105 | a scored trial has at least one move |
| Search.TryTarget | tetris-master/player.py:21-26 | cloning, building the sandbox and moving to target gives the pure trial |
| Search.Consult | tetris-master/player.py:21-31 | one placement weighed against the best so far |
| Search.Sweep | tetris-master/player.py:42-54 | the inner loop nest weighs all 40 placements in order |
| Search.Retry | tetris-master/player.py:19-54 | each outer iteration, inner nest included, leaves the search at its final choice |
| Search.ChooseAction | tetris-master/player.py:15-69 | the move list returned, or the exception raised, is that of the best placement |
| Game.PromoteConsistent | tetris-master/board.py:519-522 | the first dealt shape, once placed, gives a consistent board |
| Game.TurnOnEmpty | tetris-master/board.py:476-508 | an empty reply makes the loop ask the player again |
| Game.RunSound | tetris-master/board.py:510-533 | a game keeps the invariant and never lowers the score; it never deals the bomb and deals at most one shape per draw; a budget ends the game at 0; a lost game has a colliding block; the first event is the first shape |
| Game.RoundsSound | tetris-master/board.py:524-533 | the same for the loop of rounds |
| Game.TurnSound | tetris-master/board.py:469-508 | the same for the player's turn |
| Game.ReplySound | tetris-master/board.py:491-508 | the same for one reply |
| Game.DispatchSound | tetris-master/board.py:492-508 | the same for one action |
| Game.ActionStep | tetris-master/board.py:492-508 | an exception ends the game with no event; otherwise the action is recorded, and a landing returns to the adversary |
| Game.PlayAction | tetris-master/board.py:492-508 | one action applied to the live board, with its event |
| Game.PlayReply | tetris-master/board.py:491-508 | one reply applied action by action until a landing or an exception |
| Game.RunPlayer | tetris-master/board.py:469-508 | the live board and the events follow the pure turn |
| Game.PlayRound | tetris-master/board.py:526-533 | one round: a shape, the `alive` check, the player's turn |
| Game.PlayRounds | tetris-master/board.py:524-533 | the loop of rounds gives the pure game's events, end and final board |
| Game.RunGame | tetris-master/board.py:510-533 | the whole game gives the pure game's events, end and final board |

## Left out

- The `Lock` of the board and every front end are not modelled. The front ends are the
  command-line and pygame renderers, the client and server, and argument handling.
  `tmp/board.py` is not part of this model.
- Randomness is not modelled. `random.choice` of the adversary is an index `draw < 7` given as
  a parameter, and the player's unused `Random` is dropped.
- The game loop takes finite sequences of draws and replies. When either runs out, the
  model ends the game with `OutOfDraws` or `OutOfReplies`, where the program would go on.
- The player's replies are given as data. The loop does not call `choose_action` itself;
  `Search.ChooseAction` models that call on its own.
- The generator form of a reply is not modelled: the clone that replays actions for a
  generator player (`do_action`) is left out.
- The board size is fixed at 10 x 24. `Board` takes width and height but requires those
  values, since `get_heights`, `fill_FourRows` and `explode` hard-code 24 and 10.
- `get_blocks` and `xscore` are computed by the program and never used. They are not modelled.
- The score of a landing during the rotation phase is overwritten by the approach phase. It
  is not kept.
- The sets `countholes` and `fourRows` hold each cell once, so their sizes are counted
  directly rather than built as sets.
- `Board.__str__`, `Position` and the `Shape`/`Action` enumerations beyond their values are
  not modelled.
- Engine.Board.constructor, Adversaries.RandomAdversary.constructor: the source's default
  arguments (`score=0`, `discards_remaining=10`, `bombs_remaining=5`, `blocks=None`) are not
  modelled; the constructors take every value explicitly.
- Python's unbounded integers need no wrap-around. Block cells are a sequence in the order
  the table lists them, where the program has a `set`. Only `explode`'s choice of the bomb
  cell depends on that order, and a bomb has one cell.
- Shapes.ShapeCells: the contract states only the number of cells; where they lie is given
  by the table itself and used through `Rules.CenteredOnBoard`.
- Pieces.StepRight, Pieces.StepLeft, Pieces.StepDown: the contracts state only that shape
  and cell count are kept; where the block goes is stated by `Laws.SideMoveRollback`,
  `Laws.DropLands` and `Laws.DownRule`, and the two-row fall of the `Down` action by
  `Laws.DownActionFallsTwo`.
- Pieces.FixLeft, Pieces.FixRight, Pieces.FixTop: the contracts state only what is kept;
  the result of a whole rotation is stated by `Pieces.RotatePiece`.
