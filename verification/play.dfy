/** Sequences of clicks fed to `process_movement`, and the properties of whole games. */
module Play {
  import opened Results
  import opened Board
  import opened Scoring
  import opened Turns
  import opened Game

  /** Feed `clicks` to the click handler one after another; the first fault, if any,
      ends the run. Once the game is over no click changes anything, and each click adds
      at most one used field. */
  function Run(s: GameState, clicks: seq<Position>): (r: Result<GameState, Fault>)
    ensures s.gameOver ==> r == Ok(s)
    ensures r.Ok? ==> |s.used| <= |r.value.used| <= |s.used| + |clicks|
    decreases |clicks|
  {
    if |clicks| == 0 then Ok(s)
    else
      match Run(s, clicks[..|clicks| - 1])
      case Err(f) => Err(f)
      case Ok(t) =>
        match Click(t, clicks[|clicks| - 1])
        case Err(f) => Err(f)
        case Ok(step) => Ok(step.state)
  }

  /** Any run from a valid state, in particular from a new or reset game, never faults:
      the generator is never exhausted and `active` is set whenever it is read. It ends
      in a valid state whose used fields extend the starting ones, with at most nine
      moves and at most ten generator calls. */
  lemma {:induction false} RunKeepsValid(s: GameState, clicks: seq<Position>)
    requires Valid(s)
    ensures Run(s, clicks).Ok?
    ensures Valid(Run(s, clicks).value)
    ensures |s.used| <= |Run(s, clicks).value.used| <= MaxAttempts
    ensures Run(s, clicks).value.used[..|s.used|] == s.used
    ensures Run(s, clicks).value.turns.calls <= MaxAttempts + 1
    decreases |clicks|
  {
    if |clicks| > 0 {
      var front := clicks[..|clicks| - 1];
      RunKeepsValid(s, front);
      var t := Run(s, front).value;
      ClickKeepsValid(t, clicks[|clicks| - 1]);
      var u := Click(t, clicks[|clicks| - 1]).value.state;
      assert u.used[..|s.used|] == t.used[..|s.used|];
    }
  }

  /** A run follows a trace: if `states` starts at `s` and each click leads from one state
      of the trace to the next, the run ends in the last state of the trace. */
  lemma {:induction false} RunFollows(s: GameState, clicks: seq<Position>, states: seq<GameState>)
    requires |states| == |clicks| + 1
    requires states[0] == s
    requires forall k :: 0 <= k < |clicks| ==>
               Click(states[k], clicks[k]).Ok? && Click(states[k], clicks[k]).value.state == states[k + 1]
    ensures Run(s, clicks) == Ok(states[|clicks|])
    decreases |clicks|
  {
    if |clicks| > 0 {
      RunFollows(s, clicks[..|clicks| - 1], states[..|states| - 1]);
    }
  }

  /** An accepted click that neither wins nor fills the board, on a state whose generator
      and `active` are in step: the click returns the state `move_player` leaves, with the
      mover drawn and the turn handed to the other player. */
  lemma ContinuingStep(s: GameState, pos: Position, t: GameState)
    requires InStep(s) && !s.gameOver && pos !in s.used && |s.used| < MaxAttempts
    requires Placed(s, pos) == t
    requires !IsWinner(PlayerOf(t, PlayerAt(|s.used| + 1)))
    requires |t.used| < MaxAttempts
    ensures Click(s, pos) == Ok(Step(t, Some(PlayerAt(|s.used| + 1)), Continue(Other(PlayerAt(|s.used| + 1)))))
  {
    ClickAcceptedShape(s, pos);
  }

  /** An accepted click that completes a line for its mover ends the game as that
      mover's win, whether or not the board is full. */
  lemma WinningStep(s: GameState, pos: Position, t: GameState)
    requires InStep(s) && !s.gameOver && pos !in s.used && |s.used| < MaxAttempts
    requires Placed(s, pos).(gameOver := true) == t
    requires IsWinner(PlayerOf(t, PlayerAt(|s.used| + 1)))
    ensures Click(s, pos) == Ok(Step(t, Some(PlayerAt(|s.used| + 1)), Won(PlayerAt(|s.used| + 1))))
  {
    ClickAcceptedShape(s, pos);
  }

  /** The clicks of the row-0 game. */
  const RowWinClicks: seq<Position> := [Position(0, 0), Position(1, 1), Position(0, 1), Position(1, 0), Position(0, 2)]

  /** The row-0 game after 1 click. */
  const RowWinAfter1: GameState :=
    GameState([Position(0, 0)],
              Player(X, Score(1, 0, 0, 1, 0, 0, 1, 0)), Player(O, Score(0, 0, 0, 0, 0, 0, 0, 0)),
              Scheduler(2), Some(O), false)

  /** The row-0 game after 2 clicks. */
  const RowWinAfter2: GameState :=
    GameState([Position(0, 0), Position(1, 1)],
              Player(X, Score(1, 0, 0, 1, 0, 0, 1, 0)), Player(O, Score(0, 1, 0, 0, 1, 0, 1, 1)),
              Scheduler(3), Some(X), false)

  /** The row-0 game after 3 clicks. */
  const RowWinAfter3: GameState :=
    GameState([Position(0, 0), Position(1, 1), Position(0, 1)],
              Player(X, Score(2, 0, 0, 1, 1, 0, 1, 0)), Player(O, Score(0, 1, 0, 0, 1, 0, 1, 1)),
              Scheduler(4), Some(O), false)

  /** The row-0 game after 4 clicks. */
  const RowWinAfter4: GameState :=
    GameState([Position(0, 0), Position(1, 1), Position(0, 1), Position(1, 0)],
              Player(X, Score(2, 0, 0, 1, 1, 0, 1, 0)), Player(O, Score(0, 2, 0, 1, 1, 0, 1, 1)),
              Scheduler(5), Some(X), false)

  /** The row-0 game after 5 clicks. */
  const RowWinAfter5: GameState :=
    GameState([Position(0, 0), Position(1, 1), Position(0, 1), Position(1, 0), Position(0, 2)],
              Player(X, Score(3, 0, 0, 1, 1, 1, 1, 1)), Player(O, Score(0, 2, 0, 1, 1, 0, 1, 1)),
              Scheduler(6), Some(O), true)

  /** Click 1 of the row-0 game, on a reset game. */
  lemma RowWinMove1(s: GameState)
    ensures Click(Reset(s), RowWinClicks[0]) == Ok(Step(RowWinAfter1, Some(X), Continue(O)))
  {
    ContinuingStep(Reset(s), RowWinClicks[0], RowWinAfter1);
  }

  /** Click 2 of the row-0 game. */
  lemma RowWinMove2()
    ensures Click(RowWinAfter1, RowWinClicks[1]) == Ok(Step(RowWinAfter2, Some(O), Continue(X)))
  {
    ContinuingStep(RowWinAfter1, RowWinClicks[1], RowWinAfter2);
  }

  /** Click 3 of the row-0 game. */
  lemma RowWinMove3()
    ensures Click(RowWinAfter2, RowWinClicks[2]) == Ok(Step(RowWinAfter3, Some(X), Continue(O)))
  {
    ContinuingStep(RowWinAfter2, RowWinClicks[2], RowWinAfter3);
  }

  /** Click 4 of the row-0 game. */
  lemma RowWinMove4()
    ensures Click(RowWinAfter3, RowWinClicks[3]) == Ok(Step(RowWinAfter4, Some(O), Continue(X)))
  {
    ContinuingStep(RowWinAfter3, RowWinClicks[3], RowWinAfter4);
  }

  /** Click 5 of the row-0 game. */
  lemma RowWinMove5()
    ensures Click(RowWinAfter4, RowWinClicks[4]) == Ok(Step(RowWinAfter5, Some(X), Won(X)))
  {
    WinningStep(RowWinAfter4, RowWinClicks[4], RowWinAfter5);
  }

  /** The game in which X takes row 0 on its third move while O takes two fields of row 1,
      started from any reset game: the fifth click is X's win and ends the game with X's
      row-0 counter at three. */
  lemma RowWinGame(s: GameState)
    ensures Click(Reset(s), RowWinClicks[0]) == Ok(Step(RowWinAfter1, Some(X), Continue(O)))
    ensures Click(RowWinAfter1, RowWinClicks[1]) == Ok(Step(RowWinAfter2, Some(O), Continue(X)))
    ensures Click(RowWinAfter2, RowWinClicks[2]) == Ok(Step(RowWinAfter3, Some(X), Continue(O)))
    ensures Click(RowWinAfter3, RowWinClicks[3]) == Ok(Step(RowWinAfter4, Some(O), Continue(X)))
    ensures Click(RowWinAfter4, RowWinClicks[4]) == Ok(Step(RowWinAfter5, Some(X), Won(X)))
    ensures RowWinAfter5.gameOver && Count(RowWinAfter5.playerX.score, Row(0)) == 3
  {
    RowWinMove1(s);
    RowWinMove2();
    RowWinMove3();
    RowWinMove4();
    RowWinMove5();
  }

  /** The clicks of the last-move game. */
  const LastMoveWinClicks: seq<Position> := [Position(1, 0), Position(0, 0), Position(2, 1), Position(0, 1), Position(0, 2), Position(1, 1), Position(1, 2), Position(2, 0), Position(2, 2)]

  /** The last-move game after 1 click. */
  const LastMoveWinAfter1: GameState :=
    GameState([Position(1, 0)],
              Player(X, Score(0, 1, 0, 1, 0, 0, 0, 0)), Player(O, Score(0, 0, 0, 0, 0, 0, 0, 0)),
              Scheduler(2), Some(O), false)

  /** The last-move game after 2 clicks. */
  const LastMoveWinAfter2: GameState :=
    GameState([Position(1, 0), Position(0, 0)],
              Player(X, Score(0, 1, 0, 1, 0, 0, 0, 0)), Player(O, Score(1, 0, 0, 1, 0, 0, 1, 0)),
              Scheduler(3), Some(X), false)

  /** The last-move game after 3 clicks. */
  const LastMoveWinAfter3: GameState :=
    GameState([Position(1, 0), Position(0, 0), Position(2, 1)],
              Player(X, Score(0, 1, 1, 1, 1, 0, 0, 0)), Player(O, Score(1, 0, 0, 1, 0, 0, 1, 0)),
              Scheduler(4), Some(O), false)

  /** The last-move game after 4 clicks. */
  const LastMoveWinAfter4: GameState :=
    GameState([Position(1, 0), Position(0, 0), Position(2, 1), Position(0, 1)],
              Player(X, Score(0, 1, 1, 1, 1, 0, 0, 0)), Player(O, Score(2, 0, 0, 1, 1, 0, 1, 0)),
              Scheduler(5), Some(X), false)

  /** The last-move game after 5 clicks. */
  const LastMoveWinAfter5: GameState :=
    GameState([Position(1, 0), Position(0, 0), Position(2, 1), Position(0, 1), Position(0, 2)],
              Player(X, Score(1, 1, 1, 1, 1, 1, 0, 1)), Player(O, Score(2, 0, 0, 1, 1, 0, 1, 0)),
              Scheduler(6), Some(O), false)

  /** The last-move game after 6 clicks. */
  const LastMoveWinAfter6: GameState :=
    GameState([Position(1, 0), Position(0, 0), Position(2, 1), Position(0, 1), Position(0, 2), Position(1, 1)],
              Player(X, Score(1, 1, 1, 1, 1, 1, 0, 1)), Player(O, Score(2, 1, 0, 1, 2, 0, 2, 1)),
              Scheduler(7), Some(X), false)

  /** The last-move game after 7 clicks. */
  const LastMoveWinAfter7: GameState :=
    GameState([Position(1, 0), Position(0, 0), Position(2, 1), Position(0, 1), Position(0, 2), Position(1, 1), Position(1, 2)],
              Player(X, Score(1, 2, 1, 1, 1, 2, 0, 1)), Player(O, Score(2, 1, 0, 1, 2, 0, 2, 1)),
              Scheduler(8), Some(O), false)

  /** The last-move game after 8 clicks. */
  const LastMoveWinAfter8: GameState :=
    GameState([Position(1, 0), Position(0, 0), Position(2, 1), Position(0, 1), Position(0, 2), Position(1, 1), Position(1, 2), Position(2, 0)],
              Player(X, Score(1, 2, 1, 1, 1, 2, 0, 1)), Player(O, Score(2, 1, 1, 2, 2, 0, 2, 2)),
              Scheduler(9), Some(X), false)

  /** The last-move game after 9 clicks. */
  const LastMoveWinAfter9: GameState :=
    GameState([Position(1, 0), Position(0, 0), Position(2, 1), Position(0, 1), Position(0, 2), Position(1, 1), Position(1, 2), Position(2, 0), Position(2, 2)],
              Player(X, Score(1, 2, 2, 1, 1, 3, 1, 1)), Player(O, Score(2, 1, 1, 2, 2, 0, 2, 2)),
              Scheduler(10), Some(O), true)

  /** Click 1 of the last-move game, on a reset game. */
  lemma LastMoveWinMove1(s: GameState)
    ensures Click(Reset(s), LastMoveWinClicks[0]) == Ok(Step(LastMoveWinAfter1, Some(X), Continue(O)))
  {
    ContinuingStep(Reset(s), LastMoveWinClicks[0], LastMoveWinAfter1);
  }

  /** Click 2 of the last-move game. */
  lemma LastMoveWinMove2()
    ensures Click(LastMoveWinAfter1, LastMoveWinClicks[1]) == Ok(Step(LastMoveWinAfter2, Some(O), Continue(X)))
  {
    ContinuingStep(LastMoveWinAfter1, LastMoveWinClicks[1], LastMoveWinAfter2);
  }

  /** Click 3 of the last-move game. */
  lemma LastMoveWinMove3()
    ensures Click(LastMoveWinAfter2, LastMoveWinClicks[2]) == Ok(Step(LastMoveWinAfter3, Some(X), Continue(O)))
  {
    ContinuingStep(LastMoveWinAfter2, LastMoveWinClicks[2], LastMoveWinAfter3);
  }

  /** Click 4 of the last-move game. */
  lemma LastMoveWinMove4()
    ensures Click(LastMoveWinAfter3, LastMoveWinClicks[3]) == Ok(Step(LastMoveWinAfter4, Some(O), Continue(X)))
  {
    ContinuingStep(LastMoveWinAfter3, LastMoveWinClicks[3], LastMoveWinAfter4);
  }

  /** Click 5 of the last-move game. */
  lemma LastMoveWinMove5()
    ensures Click(LastMoveWinAfter4, LastMoveWinClicks[4]) == Ok(Step(LastMoveWinAfter5, Some(X), Continue(O)))
  {
    ContinuingStep(LastMoveWinAfter4, LastMoveWinClicks[4], LastMoveWinAfter5);
  }

  /** Click 6 of the last-move game. */
  lemma LastMoveWinMove6()
    ensures Click(LastMoveWinAfter5, LastMoveWinClicks[5]) == Ok(Step(LastMoveWinAfter6, Some(O), Continue(X)))
  {
    ContinuingStep(LastMoveWinAfter5, LastMoveWinClicks[5], LastMoveWinAfter6);
  }

  /** Click 7 of the last-move game. */
  lemma LastMoveWinMove7()
    ensures Click(LastMoveWinAfter6, LastMoveWinClicks[6]) == Ok(Step(LastMoveWinAfter7, Some(X), Continue(O)))
  {
    ContinuingStep(LastMoveWinAfter6, LastMoveWinClicks[6], LastMoveWinAfter7);
  }

  /** Click 8 of the last-move game. */
  lemma LastMoveWinMove8()
    ensures Click(LastMoveWinAfter7, LastMoveWinClicks[7]) == Ok(Step(LastMoveWinAfter8, Some(O), Continue(X)))
  {
    ContinuingStep(LastMoveWinAfter7, LastMoveWinClicks[7], LastMoveWinAfter8);
  }

  /** Click 9 of the last-move game. */
  lemma LastMoveWinMove9()
    ensures Click(LastMoveWinAfter8, LastMoveWinClicks[8]) == Ok(Step(LastMoveWinAfter9, Some(X), Won(X)))
  {
    WinningStep(LastMoveWinAfter8, LastMoveWinClicks[8], LastMoveWinAfter9);
  }

  /** A game, started from any reset game, in which the ninth click fills the board and at
      the same time completes column 2 for X: the click is X's win, not a tie. */
  lemma LastMoveWinGame(s: GameState)
    ensures Click(Reset(s), LastMoveWinClicks[0]) == Ok(Step(LastMoveWinAfter1, Some(X), Continue(O)))
    ensures Click(LastMoveWinAfter1, LastMoveWinClicks[1]) == Ok(Step(LastMoveWinAfter2, Some(O), Continue(X)))
    ensures Click(LastMoveWinAfter2, LastMoveWinClicks[2]) == Ok(Step(LastMoveWinAfter3, Some(X), Continue(O)))
    ensures Click(LastMoveWinAfter3, LastMoveWinClicks[3]) == Ok(Step(LastMoveWinAfter4, Some(O), Continue(X)))
    ensures Click(LastMoveWinAfter4, LastMoveWinClicks[4]) == Ok(Step(LastMoveWinAfter5, Some(X), Continue(O)))
    ensures Click(LastMoveWinAfter5, LastMoveWinClicks[5]) == Ok(Step(LastMoveWinAfter6, Some(O), Continue(X)))
    ensures Click(LastMoveWinAfter6, LastMoveWinClicks[6]) == Ok(Step(LastMoveWinAfter7, Some(X), Continue(O)))
    ensures Click(LastMoveWinAfter7, LastMoveWinClicks[7]) == Ok(Step(LastMoveWinAfter8, Some(O), Continue(X)))
    ensures Click(LastMoveWinAfter8, LastMoveWinClicks[8]) == Ok(Step(LastMoveWinAfter9, Some(X), Won(X)))
    ensures IsTie(LastMoveWinAfter9) && Count(LastMoveWinAfter9.playerX.score, Col(2)) == 3
  {
    LastMoveWinMove1(s);
    LastMoveWinMove2();
    LastMoveWinMove3();
    LastMoveWinMove4();
    LastMoveWinMove5();
    LastMoveWinMove6();
    LastMoveWinMove7();
    LastMoveWinMove8();
    LastMoveWinMove9();
  }

}
