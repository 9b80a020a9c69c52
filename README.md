# Tic-tac-toe Q-learning: a Dafny model

`main.py` pits two units against each other on an N-by-N tic-tac-toe board.
Each unit is a person (`Player`) or a Q-learning bot (`Bot`). A bot keeps a
Q-table. The table maps *state keys* to values. A state key is the flat
tuple of the `(row, col, mark)` triples recorded so far in the match,
starting with `(0, 0, mark)`. A bot's move is recorded in both units'
keys; a person's move only in the person's own keys, so against a person
a bot's key holds only its own moves (`Controller.StepContinues`). On its turn a bot explores (a random legal move) or
plays greedily: it takes the first legal move whose key has the largest
value. After its move it updates the value of its previous key with the
rule `V <- V + alpha * (reward - V + gamma * max)`. The reward is the status
`check_winner` returns: 100 for a win, 10 for a draw and -1 otherwise. The
controller `Game` alternates the turn, counts wins, losses and draws,
resets the board after each finished match, and counts plies and matches
in `iteration`.

The project has six modules:

- **`Board`** (board.dfy): the grid and its rules. It covers the legal
  moves (`get_actions`), `check_position`, and the verdict of
  `check_winner`. These are pure functions with lemmas.
- **`Keys`** (keys.dfy): state keys, and the mark <-> sentinel codec used
  by `QTable.json` and `QTable.from_json`.
- **`TableCodec`** (codec.dfy): the same codec lifted to whole Q-tables.
- **`QLearning`** (qtable.dfy): `class QTable`, whose `table` is a `map`
  that `RunModel` and `GetNextMove` update in place. Both methods are
  proved against the functions `Learned`, `Touch` and `GreedyChoice`.
- **`Units`** (units.dfy): `class Unit`, with its statistics and its two
  keys.
- **`Controller`** (controller.dfy) and **`Match`** (game.dfy):
  - `Controller` states one call of `Game.move` as a function `Step` on a
    snapshot `GameState`, and proves what a move does.
  - `Match` holds `class Game`. Its methods are proved to perform exactly
    those transitions. `Game.Start` adds the ply and match counter of
    `start`.

Randomness and keyboard input are parameters:

- `explore` stands for `random.random() < eps`.
- `pick` selects the `pick`-th legal move (modulo their number). This
  stands for `random.choice` and, in the controller model, for the free
  cell a person finally enters. A single entry of a person, with the
  program's own acceptance test, is modelled separately
  (`Match.Game.PlayerMove`).

Values, `alpha` and `gamma` are `real`.

The learning rule of `run_model` reads differently from the textbook rule,
but `UpdateIsTdBlend` proves it is the same: the usual temporal-difference
blend `(1 - alpha) * V + alpha * (reward + gamma * max)`.

Two consequences of the code are proved as lemmas:

- **A draw is never learned.** A draw means a full board, so `run_model`
  finds no action and changes no value (`Controller.DrawNotLearned`).
- **The counter skips values.** A ply that finishes a match adds 2 to
  `iteration` (see Findings).

## Model

The board, its lines (`Board.EmptyGrid`, `Board.Column`,
`Board.Diagonal`, `Board.AntiDiagonal`), the move triple (`Keys.Triple`),
the candidate keys and their values (`QLearning.Candidates`,
`QLearning.Values`) and the board after a move (`Controller.After`) are
definitions. What they mean is stated by the rows that use them:
`Board.JudgeSpec` and `Match.Game.HasLine` for the lines,
`Board.EmptyGridOngoing` and `Match.Game.InitTable` for the empty board,
`Keys.KeyOkAppend` and `Controller.StepContinues` for the triple,
`QLearning.LearnedInserts`, `QLearning.GreedyChoiceSpec` and
`QLearning.LearnedUpdate` for the candidates.

| member | source | states |
|---|---|---|
| Board.Place | main.py:170 | marking cell (x, y) sets exactly that cell and leaves the shape and every other cell unchanged |
| Board.CountFull | main.py:344 | a line's count of a mark equals its length exactly when every cell of the line holds that mark (the `count(mark) == size` test) |
| Board.ActionsSpec | main.py:258-264 | `get_actions` lists exactly the empty cells of the board, in strict row-major order (so without duplicates), and their number plus the occupied count is size*size |
| Board.CheckPosition | main.py:373-379 | for on-board coordinates `check_position` accepts (x, y) exactly when (x, y) is among the legal moves |
| Board.CheckPositionAsWritten | main.py:373-382 | with Python's indexing, a coordinate in -n..n-1 is accepted when the cell it reaches is free, and off-board gives a falsy None; this agrees with `CheckPosition` on non-negative coordinates and never accepts an occupied cell |
| Board.NegativeCoordinateAccepted | main.py:373-379 | on the empty 3x3 board the entry (-1, 0) is accepted although it is no legal move; it reaches cell (2, 0) |
| Board.FullIffNoActions | main.py:258-264 | the board is full exactly when there is no legal move |
| Board.PlaceTakesAction | main.py:170 | marking a legal cell removes exactly that cell from the legal moves and raises the occupied count by one |
| Board.JudgeSpec | main.py:334-362 | `check_winner` gives unit1's win iff unit1's mark fills a row, column or diagonal; unit2's win iff it does not and unit2's mark does; a draw iff neither wins and no cell is empty; "none" iff neither wins and some cell is empty |
| Board.FullIffNoEmpty | main.py:354-359 | the occupied count reaches size*size exactly when no cell is empty |
| Board.OngoingHasActions | main.py:354-362 | while the verdict is "none" there is at least one legal move |
| Board.EmptyGridOngoing | main.py:324-325 | a fresh board of size >= 1 has no winner, is not a draw, and offers all n*n cells |
| Board.SingleCellEndsMatch | main.py:334-362 | on a 1x1 board the first mark ends the match |
| Keys.KeyOkAppend | main.py:169 | appending an on-board triple to a well-formed key keeps it well formed and adds exactly 3 to its length |
| Keys.InitialKeyOk | main.py:121-122 | the starting key `(0, 0, mark)` is a well-formed key on any board of size >= 1 |
| Keys.EncodeKey | main.py:52-59 | encoding maps each X to -10 and each O to -20 and keeps every integer, position by position |
| Keys.DecodeKey | main.py:39-46 | decoding maps -10 to X and -20 to O and keeps every other integer, position by position |
| Keys.KeyOkSentinelFree | main.py:121-122 | no integer of a well-formed key (coordinates in 0..n-1) is a sentinel |
| Keys.DecodeEncode | main.py:39-59 | decode(encode(k)) == k for every key without sentinel integers |
| Keys.EncodeDecode | main.py:39-59 | encode(decode(s)) == s for every list of integers |
| Keys.EncodeInjective | main.py:52-59 | two sentinel-free keys with the same encoding are equal |
| Keys.DecodeInjective | main.py:39-46 | two integer lists with the same decoding are equal |
| TableCodec.EncodeTable | main.py:50-59 | the saved table has exactly the encoded keys, each with its value carried over |
| TableCodec.DecodeTable | main.py:37-46 | the loaded table has exactly the decoded keys, each with its value carried over |
| TableCodec.AgentTableSentinelFree | main.py:50-59 | the Q-table of every well-kept unit (all keys with on-board coordinates) holds no sentinel integer, so it meets the requirement of `EncodeTable` |
| TableCodec.RoundTripKeeps | main.py:37-59 | after saving and loading, every key of the table is present with its value |
| TableCodec.RoundTripAddsNothing | main.py:37-59 | saving and loading adds no key |
| TableCodec.TableRoundTrip | main.py:37-59 | loading what was saved gives back the same table |
| QLearning.Insert | main.py:69-70 | the insert-if-missing step: the key is present with its old value (0 if absent), exactly one key may be added, and no value changes |
| QLearning.TouchSpec | main.py:73-76 | inserting a list of keys adds exactly those keys, with value 0, and keeps every stored value |
| QLearning.MaxOf | main.py:79 | `max(nvec)` is one of the values and no value exceeds it |
| QLearning.FirstMax | main.py:89-95 | the strict `<` scan from -inf returns a position of a largest value that no earlier value equals |
| QLearning.GreedyChoiceSpec | main.py:89-96 | with no action the greedy choice is (0, 0); otherwise it is a legal action whose candidate value is largest and strictly larger than that of every earlier action |
| QLearning.LearnedInserts | main.py:69-77 | after `run_model`, `prev_state` and every candidate key are in the table, keys that were absent hold 0, and no stored value other than that of `prev_state` changes |
| QLearning.MaxOfIsBest | main.py:77-79 | the maximum of `nvec` is the value of some candidate key and at least that of each one |
| QLearning.LearnedUpdate | main.py:78-83 | with at least one action, the new V(prev_state) is V + alpha * (reward - V + gamma * best), where V is the value before the call (0 if absent) and best the largest candidate value |
| QLearning.LearnedNoAction | main.py:78 | with no action, `run_model` only adds `prev_state` and changes no value |
| QLearning.UpdateIsTdBlend | main.py:80-83 | the update equals (1 - alpha) * V + alpha * (reward + gamma * best) |
| QLearning.InsertCandidates | main.py:69-77 | the loop of `run_model` inserts `prev_state` and the candidates and collects their values as they were before the call |
| QLearning.ScanCandidates | main.py:89-96 | the loop of `get_next_move` inserts the candidates and ends with the greedy choice |
| QLearning.QTable.constructor | main.py:14-28 | a new Q-table is empty and has the given alpha and gamma |
| QLearning.QTable.GetNextMove | main.py:85-97 | exploring returns the picked legal move and leaves the table alone; greedy play returns `GreedyChoice` and only inserts the candidate keys |
| QLearning.QTable.RunModel | main.py:68-83 | the table afterwards is `Learned` of the table before, which has the insertions and the update stated above |
| Units.RestartedOk | main.py:154-156 | a restarted unit is well kept again and keeps its table and statistics |
| Units.NewAgentOk | main.py:108-122 | a new unit is well kept on any non-empty board |
| Units.Unit.constructor | main.py:108-122 | a new unit has an empty Q-table, zero statistics, and both keys `(0, 0, mark)` |
| Units.Unit.Restart | main.py:154-156 | `restart` puts both keys back to `(0, 0, mark)` and changes nothing else |
| Controller.Chosen | main.py:161-187 | the cell a unit takes is a legal move, so the retry paths are never taken |
| Controller.PlayedInStages | main.py:283-289 | a move is the unit's own move followed, for a bot, by the bookkeeping of lines 286-289, with the status as reward |
| Controller.LearntOk | main.py:68-83 | every key the moving bot's table holds after learning is well formed |
| Controller.PlayedOk | main.py:283-289 | the move and its bookkeeping keep every unit's keys and table well formed |
| Controller.FinishedOk | main.py:297-305 | after a finished match is counted, reset and the turn switched, a new match is in progress |
| Controller.StepInProgress | main.py:279-305 | each call of `move` starts and ends with a match in progress |
| Controller.StepTables | main.py:297-305 | ending a match does not touch the Q-tables |
| Controller.StepSwitchesTurn | main.py:305 | each call of `move` passes the turn to the other unit |
| Controller.StepContinues | main.py:283-289 | when the match goes on: the cell is marked; the mover's `prev_state` becomes its old `state` and its `state` grows by the move triple; after a bot's move the other unit's `state` grows by the same triple, after a person's it does not; the counter and all statistics are unchanged |
| Controller.StepFinishes | main.py:290-304 | when the match ends: a draw adds a draw to both units, a win adds a win to the winner and a loss to the other, the board is empty again, all keys are back to `(0, 0, mark)`, the counter rises by one and the Q-tables stay as the move left them |
| Controller.StepCounter | main.py:327-329 | `move` raises the counter by one exactly when it finishes a match |
| Controller.OnlyMovingBotLearns | main.py:285-289 | only the bot on turn learns: the other unit's table and a person's table never change |
| Controller.DrawNotLearned | main.py:78-83 | a move that ends in a draw changes no value in the table |
| Controller.WinLearned | main.py:78-83 | a winning move with a cell still free sets V(prev_state) to V + alpha * (100 - V + gamma * best) |
| Controller.BotsShareHistory | main.py:286-288 | with two bots, both `state` keys keep holding the same moves after their starting triple |
| Controller.SingleCellStep | main.py:279-305 | on a 1x1 board every move ends the match and adds one to the counter |
| Match.Game.constructor | main.py:239-256 | a new game has an empty board, the counter at 0, unit1 on turn, and a match in progress |
| Match.Game.InitTable | main.py:324-325 | `init_table` sets the board to the empty n-by-n board |
| Match.Game.GetActions | main.py:258-264 | the double loop returns exactly the legal moves |
| Match.Game.CountOccupied | main.py:354-358 | the loop counts exactly the occupied cells |
| Match.Game.HasLine | main.py:342-352 | the row, column and diagonal tests for one unit report exactly whether its mark fills a line |
| Match.Game.CheckWinner | main.py:334-362 | `check_winner` returns the unit and the status of the verdict, unit1 checked first; the board is not modified |
| Match.Game.PlayerMove | main.py:161-170 | an entry is accepted exactly when `check_position` as written (main.py:373-382) accepts it (Python's indexing, so -n..-1 reach from the far side); an accepted entry marks the cell it reaches, makes `prev_state` the old `state` and appends the coordinates as typed to `state`; a refused entry changes nothing |
| Match.Game.BotMove | main.py:178-190 | `Bot.move` marks the chosen cell and returns `(x, y, mark)` |
| Match.Game.TurnMove | main.py:283 | `self.turn.move()` performs the unit's own move and returns the bot's triple |
| Match.Game.RecordBotMove | main.py:285-289 | the bot's `prev_state` takes its `state`, both units' `state` grow by the move, and the bot runs `run_model` with the status |
| Match.Game.Play | main.py:283-289 | the move, its verdict and its bookkeeping, with the winner and status `check_winner` returns |
| Match.Game.AddStats | main.py:307-316 | a draw adds a draw to both units; otherwise the winner gets a win and the other a loss |
| Match.Game.SwitchTurn | main.py:318-322 | the turn passes to the other unit |
| Match.Game.Restart | main.py:327-332 | `restart` raises the counter by one, empties the board and resets both units' keys |
| Match.Game.Move | main.py:279-305 | one call of `move` makes exactly one `Step` and keeps the units linked |
| Match.Game.Finish | main.py:297-304 | a finished match is counted and the board and keys are reset |
| Match.Game.Ply | main.py:271-272 | a ply is one `Step` followed by the counter increment (`Ticked`); it keeps a match in progress, reports whether it finished a match, and raises the counter by 2 if so, by 1 otherwise |
| Match.Game.Tick | main.py:272 | the per-ply increment changes only the counter |
| Match.Game.Round | main.py:270-276 | one turn of the loop extends the run by its ply and its new state, raises the counter, stops exactly when the counter reaches or passes `iterations` (the corrected `>=`, see Findings), and records a checkpoint otherwise exactly when the counter is a multiple of 100 |
| Match.Game.Start | main.py:266-277 | the run is a chain of states from the starting state, each the previous one after one ply (`Ticked`), with `ends[i]` true exactly when ply i finished a match, and the game ends in the last state of the chain; the counter after the run is one per ply plus one per finished match; the run stops at the first ply that brings the counter to `iterations` or beyond; it saves at exactly the counter values that are multiples of 100 before that; it stops within `iterations - iteration` plies |
| Match.RunPly | main.py:269-272 | every link of a run of `start` is a ply of `move` plus the increment, taken from a state with a match in progress (well-kept units, a square board with a free cell, no winner yet) |
| Match.RunCounter | main.py:266-277 | the counter at the end of a run (line 272, plus `restart` at line 329) is the starting counter plus 2 per finished match and 1 per other ply |
| Match.RunKeepsSize | main.py:266-277 | no ply of a run changes the board size |
| Match.RunOnSingleCell | main.py:266-277 | on a 1x1 board every ply of a run finishes a match, so the counter rises by exactly 2 per ply |
| Match.CounterSnoc | main.py:272 | one more ply adds 2 to the counter if it finished a match and 1 otherwise |
| Match.CounterIncreases | main.py:272 | the counter grows strictly from ply to ply |
| Match.SkippedValue | main.py:272-275 | after a ply that finishes a match, the value one above the counter before that ply is never reached, so neither the stop test nor the checkpoint test sees it |
| Match.NeverStopsOnSingleCell | main.py:272-274 | on a 1x1 board the counter takes only the values 0, 2, 4, ..., so with `iterations` = 1 the `==` test never stops the loop |

## Left out

- Terminal I/O is not modelled. This covers `print`, `draw`, `clear` and `time.sleep`. It also covers `Player.move`'s parsing of `input()` and its retry on bad input. The person's final, accepted entry is the parameter `pick`.
- Persistence is not modelled: `serialize`, `deserialize`, `json.dumps`/`json.loads`, and the `repr` of the key lists. Only the element-wise sentinel codec is modelled (`Keys`, `TableCodec`). `deserialize` rebuilds `turn` as a new object, which is not modelled either.
- The `alpha`, `gamma` and `eps` fields that `QTable.json` and `QTable.from_json` carry are not part of the codec model.
- Randomness is not modelled. `random.random() < eps` is the flag `explore`; `random.choice` is the index `pick`. `eps` itself therefore has no value in the model.
- `Bot.move(rand=True)` is not modelled. No caller passes `rand=True`.
- Floating point is replaced by exact `real` arithmetic. `-inf` in the greedy scan is replaced by an "unset" bound.
- `Game.move(restart=False)` is not modelled. Every caller uses the default, `True`.
- A board of size 0 is excluded (`size >= 1`), because the program crashes on it: an exploring bot calls `random.choice([])`, which raises IndexError (main.py:87), and a greedy bot's move (0, 0) is refused by `check_position`, so `Bot.move` calls itself until Python raises RecursionError (main.py:184-187). A move on a board with no free cell is also excluded (`Playable`): between calls of `move` a match is always in progress, and a match in progress leaves a free cell.
- Names, the `game`/`unit` back-references and `Game.step` are not modelled, because no logic reads them. `LOSE` (-100) is never used in the source.
- The program's entry point is not modelled: the units it builds, and `iterations=1000`.
- TableCodec.EncodeTable: requires that no key contains -10 or -20 as an integer. Every table a well-kept unit holds meets this (`TableCodec.AgentTableSentinelFree`).
- Match.Game.Start: runs over a given finite sequence of plies, where the source loops until it stops. It also uses the corrected `>=` stop test rather than the `==` of main.py:273 (see Findings).
- Match.Game.Round: one turn of the loop stops with the corrected `>=` test rather than the `==` of main.py:273 (see Findings), as `Match.Game.Start` does.
- Match.Game.Start: the checkpoint save is reported as the list of counter values at which it happens. The file write itself is not modelled.
- Match.Game.PlayerMove: models a single entry with coordinates that are already parsed. The recursion on refusal is left to the caller.
- Controller.Chosen: in the controller model (`Step`, `Match.Game.Move`, `Match.Game.Start`) a person takes only a legal on-board cell. An accepted negative entry (Findings, first row) is modelled only by `Match.Game.PlayerMove`; it would put negative coordinates into the keys, which the controller's well-formedness invariant (`AgentOk`) does not allow.

## Findings

| source | as written | input that shows it | evidently intended | confidence | as-written member | corrected member |
|---|---|---|---|---|---|---|
| main.py:373-379 | `check_position` indexes `desk[x][y]` with Python's negative indexing, so coordinates from -n to -1 are accepted when the cell they reach from the far side is free | a person types "-1 0" on the empty 3x3 board: it is accepted, cell (2, 0) is marked, and the key records (-1, 0, 'X') | accept exactly the free on-board cells 0 <= x, y < n | not executed | Board.CheckPositionAsWritten, Board.NegativeCoordinateAccepted, Match.Game.PlayerMove | Board.CheckPosition |
| main.py:272-273 | `iteration` rises by 1 per ply (line 272) and by 1 more in `restart` (line 329), and `start` stops only when `iteration == iterations` | size 1, iterations 1: every ply ends a match, so the counter goes 0, 2, 4, ... and never equals 1 (the same skip can hide a multiple of 100 from the checkpoint test at line 275) | stop once the counter reaches `iterations` (`>=`) | not executed | Match.StopsAsWritten, Match.NeverStopsOnSingleCell, Match.SkippedValue | Match.Game.Start, Match.Game.Round |
