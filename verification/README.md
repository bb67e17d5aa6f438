# Tic-tac-toe game engine in Dafny

This project models the game-state engine of a tkinter tic-tac-toe ("Boter, kaas & eieren") program
and proves properties of it. The program is `main.py` with class `Game`. The model covers these parts:

- the per-player score dictionary and `update_score`;
- `is_winner` and `is_tie`;
- `is_valid_move`;
- the turn generator built in `__init__` and `reset_game`, and `switch_player`, which draws from it;
- the click handler `process_movement` together with `move_player`;
- the `game_over` flag that `end_game` sets;
- the state part of `reset_game`.

Modules:

- `Results` (`results.dfy`): `Option` and `Result`. The Python exceptions the engine can raise become `Err` values.
- `Board` (`board.dfy`): fields of the 3x3 grid as `Position(row, col)` and the eight scoring lines with their three cells each. It also holds the counting argument that at most nine distinct fields exist.
- `Scoring` (`scoring.dfy`): `Player` with one counter per key `row0..row2`, `col0..col2`, `d0`, `d1`, plus `UpdateScore` and `IsWinner`.
- `Turns` (`turns.dfy`): the generator as a cursor that counts how many values it has produced. The i-th value (i = 1..10) is `active_players[(i + 1) % 2]`. The 11th call is `StopIteration`.
- `Game` (`game.dfy`): the attributes of `Game` that the engine reads and writes (`GameState`), plus `Click` (`process_movement`), `MovePlayer`, `SwitchPlayer`, `Reset` and the state invariant `Valid`. `Valid` ties each counter to the fields its player holds: the k-th used field belongs to the generator's k-th value.
- `Play` (`play.dfy`): runs of clicks, and two complete games written out state by state.

`Click` follows the branches of `process_movement` as written:

- Once `game_over` is set, a click does nothing.
- On the first move the player comes from the generator. On later moves it comes from `active`.
- A free field is taken: `move_player` appends it, updates the score and draws the next `active`.
- The win check on that player then runs before the tie check, whether or not the field was free.

The model keeps `active` across `Reset`, because `reset_game` does not clear it. It is never read before the next first move, which draws from the generator.

## Model

| member | source | states |
|---|---|---|
| Scoring.NewPlayer | main.py:30-45 | A new player has the given symbol and every one of its eight counters is zero. |
| Scoring.UpdateScore | main.py:50-59 | A field on the grid succeeds. Each counter then goes up by one exactly when the field lies on that counter's line, and every other counter is unchanged. A row outside 0..2 raises the row-key error first; otherwise a column outside 0..2 raises the column-key error. |
| Scoring.UpdateScoreExamples | tests/test_functionality.py:32-41 | (2, 1) raises exactly `row2` and `col1` and no diagonal. The centre raises both diagonals. (2, 3) is a missing `col3` key. |
| Scoring.DiagonalMembership | main.py:55-59 | A field is on `d0` iff its coordinates are equal and on `d1` iff they add up to two. The centre is the only field on both. |
| Scoring.AnyThree | main.py:158-160 | The loop over the counter values returns true iff some value equals three. |
| Scoring.IsWinner | main.py:155-160 | A player is a winner iff some line's counter is exactly three. |
| Turns.PlayerAt | main.py:24-26 | The generator's value for attempt i is X iff i is odd. |
| Turns.Next | main.py:151-153 | Drawing succeeds iff fewer than ten values were drawn. It advances the cursor by one and yields X iff an even number had been drawn before. |
| Turns.DrawTurns | tests/test_functionality.py:82-101 | Drawing n times from a fresh generator gives X, O, X, ... It fails exactly when n exceeds ten, and then after ten values. |
| Game.SwitchPlayer | main.py:151-153 | Drawing the next player succeeds iff the generator has produced at most nine values. Only the cursor changes, and the player is the generator's next value. |
| Game.New | main.py:24-28 | The new game satisfies the invariant and has no active player, and a reset leaves it unchanged, so a new game and a reset game start alike. |
| Game.Reset | main.py:177-183 | After a reset: no used fields, `game_over` cleared, a fresh generator, players X and O, and all counters zero. |
| Game.IsValidMove | main.py:131-133 | A field is a valid move iff it occurs at no position of the used fields. `ClickRejected` and `ClickAccepted` state what the click handler does in each case. |
| Game.IsValidMoveExamples | tests/test_functionality.py:5-14 | With (2, 2), (0, 2) and (0, 0) used, (1, 2) is a valid move and (2, 2) is not. |
| Game.IsTie | main.py:162-164 | When no field was used twice, `is_tie` holds iff every field of the grid is used. |
| Game.MovePlayer | main.py:139-149 | Moving fails only when the generator is exhausted. On success the field is appended and `game_over` is unchanged. The generator has advanced by one, and `active` is its new value. With consistent symbols, the mover's counters go up on exactly the lines through the field and the opponent is unchanged. |
| Game.Click | main.py:110-129 | A click after the game ended changes nothing. A click that draws no symbol leaves the used fields as they were. A click that draws a symbol was on a free field and appends it. |
| Game.TallyAtMostThree | main.py:143-145 | Without repeated fields, no player holds more than three fields of one line. |
| Game.NewAndResetAreValid | main.py:24-28 | The new game, and the result of resetting any state, satisfy the invariant. |
| Game.CountersAtMostThree | main.py:50-59 | In a valid state every counter is at most three. |
| Game.InProgressBelowThree | main.py:126-129 | While a valid game is running, a field is free and every counter of both players is below three. |
| Game.TieMeansBoardFull | main.py:162-164 | In a valid state `is_tie` holds iff every field of the grid is used. |
| Game.ClickAcceptedShape | main.py:116-129 | An accepted click takes the mover from the generator on the first move and from `active` later, and it is the same player. Then it reports a win, else a tie, else the next player. |
| Game.PlacedFacts | main.py:139-149 | `move_player` appends the field. It raises the mover's counters on exactly the lines through the field and leaves the opponent unchanged, and the opponent has no line. It makes the opponent active and keeps every counter equal to its player's fields on that line. |
| Game.ClickAccepted | main.py:110-149 | A free field in a running valid game is taken by the generator's (n + 1)-th value, where n fields were used before, so X makes the odd-numbered moves and O the even ones. The status is a win for the mover iff one of its counters reached three, a tie iff not and nine fields are used, and otherwise the opponent's turn. `game_over` is set iff the game did not continue, and the result is valid. |
| Game.ClickRejected | main.py:123-133 | A click on a used field, or after the game ended, returns the state unchanged and draws nothing. The win and tie checks that still run cannot fire. |
| Game.ClickKeepsValid | main.py:110-153 | Every click on a valid state succeeds, so no `StopIteration` and no unset `active`. It keeps the invariant, and the generator is called at most ten times. |
| Game.MoversAlternate | main.py:116-124 | Of two accepted clicks in a row, the second is drawn by the opponent of the first. If the game goes on, the turn passes back to the first mover. |
| Game.FirstMoveAfterResetIsX | main.py:177-183 | After any reset, the next click is X's and hands the turn to O. |
| Board.DistinctFieldsBound | main.py:162-164 | A game uses at most nine distinct fields, and exactly nine iff all fields of the grid. |
| Play.Run | main.py:110-129 | Once the game is over, any sequence of clicks leaves the state unchanged. The number of used fields never shrinks and grows by at most one per click. |
| Play.RunKeepsValid | main.py:110-153 | Any sequence of clicks from a valid state never faults. It ends valid, extends the used fields, has at most nine moves and makes at most ten generator calls. |
| Play.RunFollows | main.py:110-129 | A run of clicks ends in the last state of any trace whose consecutive states the clicks lead between. |
| Play.ContinuingStep | main.py:126-129 | An accepted click with no line completed and a free field left continues with the opponent. |
| Play.WinningStep | main.py:126-129 | An accepted click that completes a line is the mover's win. |
| Play.RowWinGame | main.py:110-160 | From any reset game, X at (0,0), O at (1,1), X at (0,1), O at (1,0), X at (0,2) alternate X, O, X, O, X. The fifth click is X's win with `row0` at three. |
| Play.LastMoveWinGame | main.py:126-129 | From any reset game, a ninth click that fills the board and completes column 2 is X's win, not a tie. |

## Left out

- The tkinter window is not modelled: header, grid buttons, footer label, fonts and colours, `draw_symbol`, the widget disabling and enabling in `end_game` and `reset_game`, and `main`. A click's effect on the display is returned instead: `Step.drawn` is the symbol drawn on the field, and `Step.status` stands for the footer message.
- Footer and window strings are left out; they carry no engine state.
- The source identifies a field by its widget name `str([row, col])` and stores that string in `used_fields`. The model uses `Position(row, col)` directly. The name is a one-to-one function of the pair, so `is_valid_move` gives the same answers.
- Click: when the source raises mid-click, it leaves partially mutated state. For example, the field is already appended when `update_score` or `switch_player` raises. The model returns only the `Err`. `ClickKeepsValid` shows no such exception occurs from a valid state.
- UpdateScore: when the column is out of range, the source has already incremented the row counter before raising `KeyError`. The model returns only the error.
- `update_score` accepts any Python value as a coordinate. The model takes `int`s; the engine only ever passes grid indices.
- `is_winner` returns `None` rather than `False` when no counter is three. The model returns a `bool`.
- `Player.__repr__` is not modelled; it only prints the symbol.
- Play.RowWinGame and Play.LastMoveWinGame state the two games as chains of click results, not as one `Run` over their click lists. `Play.RunFollows` is the general link from such a chain to `Run`, but it is not applied to these two games: evaluating `Run` on their literal click lists exceeds the verifier's resource budget.
