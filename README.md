# Gomoku match engine and reference bot, in Dafny

This project models the two algorithmic parts of a Gomoku (five-in-a-row)
tournament system and proves properties of them:

- the **match engine** of `engine.py`: the `GomokuGame` object (an N x N
  board of 0/1/2 cells, the colour to move, an optional winner and an
  append-only move history), its single guarded transition `make_move`, the
  exactly-five win test `_check_win`, `is_full`, `get_board_copy`, and the
  turn loop of `run_game` with its fault policy;
- the **reference bot** of `main.py`: `get_move` and the win/block search,
  the radius-2 neighbourhood test, `count_line` and the tiered
  `evaluate_position` score, and the tie-collecting `find_best_move`.

Files, one module each:

| file | module | contents |
|---|---|---|
| `wrappers.dfy` | `Wrappers` | `Option`, for Python's value-or-`None` |
| `grid.dfy` | `Grid` | board values `seq<seq<int>>`, `Place`, stone counting, `Full` |
| `lines.dfy` | `Lines` | the four axes, the outward walk `Run`/`RunEnd`, the exactly-five rule `WinAt` |
| `engine.dfy` | `Engine` | class `Game` over an `array2<int>`, the history replay and the game invariant |
| `runner.dfy` | `Runner` | the `run_game` turn loop with strategies as abstract responses |
| `bot.dfy` | `Bot` | the reference strategy of `main.py` |

The engine's board is a two-dimensional array updated in place; the ghost
field `Game.cells` is its value, and `Game.Valid()` ties the two together and
carries the game invariant `Consistent`: replaying the history on an empty
board gives the board, every history entry's cell holds that entry's stone,
the board holds exactly as many stones as the history has entries, colours
alternate from black, and a set winner is the author of the last move, which
completed exactly five. No move before the one that ended the game completed
five; while there is no winner, no move did. `MakeMove` preserves it, so it
holds after any sequence of calls on a fresh game.

The bot reads the board it is given and never changes it (it is a value). Its
loops are methods, each proved against a specification function: `Run` for
the counting walks, `WinAt` for the win test, `Line` for `count_line`, `Score`
for `evaluate_position`, `Best` for `find_best_move`.

Two behaviours of the code are modelled literally:

- The win rule is exactly five: an axis through the placed stone counting six
  or more is not a win, for the engine and for the bot alike
  (`Lines.WinAtIffExactlyFive`, `Lines.RowOfKWinsIffFive`).
- In `count_line` each direction stops at the first cell that is not an own
  stone, and reports it as an opponent stone or as an open end, never both.
  So `opp_count + open_ends <= 2`, and the defensive tiers of
  `evaluate_position` (main.py:147-154) need three or more and can never add
  anything (`Bot.DefenceNeverScores`). The model keeps those branches.
  An "open end" is the first non-own cell in a direction being on the board
  and not an opponent stone. It is not the immediate neighbour being empty.

`make_move` never records a draw, even when the board fills up; only the
`run_game` loop concludes "draw", when it ends with no winner (engine.py:134,
163-167).

In `run_game` a strategy is a function of the board copy and the colour to
move, answering with coordinates, a malformed value or a raised error. The
model proves that every logged move is what the mover's strategy answered on
the board left by the earlier moves, and that a fault names the response that
caused it.

## Model

| member | source | states |
|---|---|---|
| `Grid.Place` | engine.py:41 | writing a cell changes that cell and no other |
| `Grid.StonesAfterPlace` | engine.py:35-42 | a stone placed on an empty cell adds exactly one stone to the board |
| `Grid.FullIffAllStones` | engine.py:78-83 | an n x n board holds at most n*n stones, and is full (no 0 cell) exactly when it holds n*n |
| `Lines.RunIsMaximal` | engine.py:59-71 | one while loop of the win test counts a maximal run: the first `Run` cells along the direction hold the stone, the next one is off the board or does not |
| `Lines.RunIsUnique` | engine.py:59-71 | the maximal run along a direction is unique, so `Run` is its length |
| `Lines.WinAtIffExactlyFive` | engine.py:52-76 | the cell wins iff some axis among (1,0), (0,1), (1,1), (1,-1) has maximal runs on its two sides totalling four, i.e. a line of exactly five through the cell |
| `Lines.RowOfKWinsIffFive` | engine.py:73 | a line of k stones from a corner wins iff k is 5; a line of six is not a win |
| `Lines.WinAtIgnoresOwnCell` | main.py:58-82 | the win test never reads the cell it is asked about, so testing before or after placing the stone gives the same answer |
| `Engine.ColorAtNext` | engine.py:49 | the colour to move alternates black, white, black, ... |
| `Engine.LogAfterMove` | engine.py:40-42 | placing the mover's stone on an empty cell and appending the move keeps the history a faithful log of the board |
| `Engine.ConsistentAfterMove` | engine.py:40-49 | an accepted move keeps the game invariant: the winner, if set, made the last move and it completed five; otherwise the turn passed and no move so far completed five |
| `Engine.NoFiveAfterMove` | engine.py:44-46 | appending a move leaves the earlier moves' "completed five" verdicts as they were, and the new move completed five iff the win test holds once its stone is placed |
| `Engine.Game.constructor` | engine.py:18-29 | a new game has an all-zero board of side `board_size`, black to move, no winner and an empty history |
| `Engine.Game.MakeMove` | engine.py:31-50 | accepted iff in bounds, the cell is empty and there is no winner; a rejected move changes nothing; an accepted one sets only `board[x][y]` to the mover's stone, appends `(mover, x, y)`, and either makes the mover the winner without passing the turn or passes the turn; occupied cells never change |
| `Engine.Game.CheckWin` | engine.py:52-76 | `_check_win` returns true iff `WinAt` holds: some axis counts exactly five |
| `Engine.Game.CountRun` | engine.py:59-64 | one counting while loop returns `Run`, the length of the maximal run |
| `Engine.Game.IsFull` | engine.py:78-83 | true iff no cell is 0 |
| `Engine.Game.GetBoardCopy` | engine.py:85-87 | a cell-by-cell equal board value, which shares nothing with the game's array |
| `Engine.FullIffHistoryComplete` | engine.py:29-46 | the history never exceeds n*n entries, and the board is full exactly when it holds n*n |
| `Runner.FinishedGame` | engine.py:134 | when the loop stops, a winner made the last move, which completed five, and no earlier move did; with no winner the board is full after n*n moves, none of which completed five |
| `Runner.AnsweredAfterMove` | engine.py:139-149 | appending the move the mover's strategy answered on the current board keeps every logged move an answer of its colour's strategy |
| `Runner.Turn` | engine.py:135-161 | one loop pass asks the mover's strategy on a copy of the board; a `Malformed` answer is an invalid-format fault, a `Raised` one an exception fault, rejected coordinates an invalid-move fault (off the board or on an occupied cell) naming them, each charged to the mover's player with the game unchanged; otherwise the answered move is played and logged, and the game has a winner iff that move completed five |
| `Runner.RunGame` | engine.py:110-167 | a load failure, a malformed response, a rejected move or a raised error makes the other player the winner, never a draw, and the fault names the response the mover's strategy gave on the final board; every logged move is what its colour's strategy answered on the board before it; a played game holds a legal history of at most n*n moves in which no move but the last completed five; it ends with the player of the last mover's colour as winner, that move completing five, or as a draw on a full board where no move completed five; a fault's history holds no completed five |
| `Bot.IsWinningMove` | main.py:58-82 | `is_winning_move` equals the engine's win test evaluated after placing the stone at (x, y) |
| `Bot.CountRun` | main.py:66-77 | one counting while loop returns `Run` |
| `Bot.FindWinningMove` | main.py:48-55 | returns the first empty cell in row-major order (x outer, y inner) where the stone completes five; None iff there is none |
| `Bot.HasNeighbor` | main.py:108-118 | true iff some on-board cell other than (x, y) within two steps on both axes holds a stone |
| `Bot.Line` | main.py:159-193 | `opp_count`, `open_ends` and their sum are each at most 2 |
| `Bot.WalkSide` | main.py:165-177 | one side of `count_line` counts the maximal run of own stones and reports the cell that ends it as opponent stone, open end, or (off the board) neither |
| `Bot.CountLine` | main.py:159-193 | `count_line` returns both sides of `Line` added together |
| `Bot.EvaluatePosition` | main.py:121-156 | returns `Score`: the centre bonus `max(0, 10 - distance)` plus one offensive and one defensive tier per axis |
| `Bot.AddTiers` | main.py:134-154 | the loop body adds exactly the offensive and defensive tier of one axis |
| `Bot.DefenceNeverScores` | main.py:146-154 | for lines with `opp_count + open_ends <= 2`, as `count_line` always reports, no defensive tier fires: the tiers add up to the offensive tiers alone |
| `Bot.ScoreIsCenterPlusAttack` | main.py:121-156 | the score of every cell is the centre bonus plus the offensive tiers of its four axes; the defensive branches never contribute |
| `Bot.AttackBounds` | main.py:134-144 | each axis adds at most one offensive tier; without a four the tiers sum to at most 1000 per axis, with one they reach 10000 |
| `Bot.ScoreAtLeastCenter` | main.py:126-129 | the score is at least `max(0, 10 - d)`, d being the Manhattan distance from (x, y) to the centre (n // 2, n // 2), so never negative |
| `Bot.ScoreTopTier` | main.py:135-136 | the score reaches 10000 iff some axis has four or more own stones beside the cell |
| `Bot.ScanDone` | main.py:85-105 | after the scan the list holds exactly the top-scoring candidates, and is empty iff there is no candidate |
| `Bot.ScanFindsBest` | main.py:85-105 | the same for the board's candidates and scores |
| `Bot.FindBestMove` | main.py:85-105 | every listed cell is empty, has a neighbour and has the maximum score; every cell reaching it is listed, in row-major order; the pick is one of them; None iff no empty cell has a neighbour |
| `Bot.EmptyCellsFrom` | main.py:44 | the list holds exactly the empty cells from the given position on, each once, in strictly increasing row-major order |
| `Bot.GetMove` | main.py:10-45 | own win first, then block, then a top-scoring candidate, then the empty centre, then any empty cell; the move is empty whenever the board has an empty cell, and a full board gives the placeholder (0, 0) |

## Left out

- `load_player_module` (engine.py:93-107): dynamic import of strategy code is
  not modelled; `Runner.RunGame` takes each player as an `Option<Strategy>`,
  `None` standing for a load failure.
- Colour assignment by `random.random()` (engine.py:124-127) is an input
  (`player1Black`); `random.choice` (main.py:45, 105) is modelled as an
  arbitrary pick from the candidate list, whose contents are specified.
- Python's dynamic typing in `run_game` (the `isinstance`/`len` test, the
  `int(...)` conversion and exception catching, engine.py:137-161) becomes the
  `Response` datatype: coordinates, a malformed value, or a raised error. A
  failing `int(...)` conversion is a raised error, as in the source.
- The error message text and the `players` entry of `run_game`'s dictionary
  are not modelled; the fault kind, culprit and bad coordinates are.
- `write_game_log` and `main()` (engine.py:170-238): file output, timestamps,
  argument parsing and printing.
- visualizer.py: the HTTP replay viewer.
- Engine.Game.constructor: takes the board size and always builds an empty
  board; a caller-supplied non-empty `board`, which `__post_init__` keeps
  (engine.py:28), and the default `board_size = 15` (engine.py:21, 110) are
  not modelled, since `run_game` never supplies a board and always passes the
  size.
- `Bot.GetMove`: requires a non-empty board; on a 0 x 0 board the source
  raises an index error at `board[center][center]` (main.py:41).
- Runner.RunGame: a strategy is a function of the board and the colour only;
  a strategy keeping state between calls, or being non-deterministic, is not
  modelled.
