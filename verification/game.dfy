/** The game-state part of `Game`: used fields, the two players, the turn generator, the
    active player and the `game_over` flag, with the click handler `process_movement`,
    `move_player`, `is_valid_move`, `is_tie` and the state part of `reset_game`. */
module Game {
  import opened Results
  import opened Board
  import opened Scoring
  import opened Turns

  /** What a click leaves in the footer: nothing new, whose turn it is, a win or a tie. */
  datatype Status = Ignored | Continue(next: Symbol) | Won(winner: Symbol) | Tied

  /** The exceptions the click handler could raise: `StopIteration` from the generator,
      `AttributeError` when `active` was never set, `KeyError` from `update_score`. */
  datatype Fault = SchedulerExhausted | NoActivePlayer | BadField(e: KeyError)

  /** The attributes of `Game` that the engine reads and writes. */
  datatype GameState = GameState(
    used: seq<Position>,    // `used_fields`, in the order the fields were taken
    playerX: Player,        // `active_players[0]`
    playerO: Player,        // `active_players[1]`
    turns: Scheduler,       // `players`, the turn generator
    active: Option<Symbol>, // `active`, unset until the first move
    gameOver: bool)         // `game_over`

  /** The outcome of one click: the new state, the symbol drawn on the clicked field
      (if any) and the footer status. */
  datatype Step = Step(state: GameState, drawn: Option<Symbol>, status: Status)

  function PlayerOf(s: GameState, sym: Symbol): Player
  {
    if sym == X then s.playerX else s.playerO
  }

  function WithPlayer(s: GameState, p: Player): GameState
  {
    if p.symbol == X then s.(playerX := p) else s.(playerO := p)
  }

  /** The state `Game.__init__` sets up: it satisfies the invariant, no player is active
      yet, and resetting it gives it back unchanged, so a new game and a reset one agree. */
  function New(): (r: GameState)
    ensures Valid(r)
    ensures r.active.None? && Reset(r) == r
  {
    GameState([], NewPlayer(X), NewPlayer(O), Fresh, None, false)
  }

  /** The state part of `reset_game`: fresh players, a fresh generator, no used fields and
      `game_over` cleared. The `active` attribute is not touched by the source either; it is
      not read again before the next first move assigns it. */
  function Reset(s: GameState): (r: GameState)
    ensures r.used == [] && !r.gameOver && r.turns == Fresh
    ensures r.playerX.symbol == X && r.playerO.symbol == O
    ensures forall sym: Symbol, l: Line :: Count(PlayerOf(r, sym).score, l) == 0
  {
    s.(used := [], playerX := NewPlayer(X), playerO := NewPlayer(O), turns := Fresh, gameOver := false)
  }

  /** `switch_player`: draw the next player from the generator. */
  function SwitchPlayer(s: GameState): (r: Result<(Symbol, GameState), Fault>)
    ensures r.Ok? <==> s.turns.calls <= MaxAttempts
    ensures r.Ok? ==> r.value.1 == s.(turns := Scheduler(s.turns.calls + 1))
    ensures r.Ok? ==> r.value.0 == PlayerAt(s.turns.calls + 1)
  {
    match Next(s.turns)
    case Err(_) => Err(SchedulerExhausted)
    case Ok((sym, g)) => Ok((sym, s.(turns := g)))
  }

  /** `is_valid_move`: the field has not been taken before, at any position of the
      used fields. */
  function IsValidMove(s: GameState, pos: Position): (r: bool)
    ensures r <==> forall k :: 0 <= k < |s.used| ==> s.used[k] != pos
  {
    pos !in s.used
  }

  /** `test_is_valid_move` and `test_is_not_valid_move`: with (2, 2), (0, 2) and (0, 0)
      used, (1, 2) is free and (2, 2) is not. */
  lemma IsValidMoveExamples()
    ensures IsValidMove(New().(used := [Position(2, 2), Position(0, 2), Position(0, 0)]), Position(1, 2))
    ensures !IsValidMove(New().(used := [Position(2, 2), Position(0, 2), Position(0, 0)]), Position(2, 2))
  {
  }

  /** `is_tie`: as many fields are used as a game has moves. As long as no field was
      used twice, that is exactly when every field of the grid is used. */
  function IsTie(s: GameState): (r: bool)
    ensures Distinct(s.used) ==> (r <==> forall p: Position :: p in s.used)
  {
    if Distinct(s.used) then DistinctFieldsBound(s.used); |s.used| == MaxAttempts
    else |s.used| == MaxAttempts
  }

  /** `move_player` without the drawing and footer: record the field as used, update the
      mover's counters, and draw the next active player from the generator. */
  function MovePlayer(s: GameState, mover: Symbol, pos: Position): (r: Result<GameState, Fault>)
    ensures r.Ok? <==> s.turns.calls <= MaxAttempts
    ensures r.Ok? ==>
              && r.value.used == s.used + [pos]
              && r.value.gameOver == s.gameOver
              && r.value.turns.calls == s.turns.calls + 1
              && r.value.active == Some(PlayerAt(s.turns.calls + 1))
    ensures r.Ok? && s.playerX.symbol == X && s.playerO.symbol == O ==>
              && r.value.playerX.symbol == X && r.value.playerO.symbol == O
              && PlayerOf(r.value, Other(mover)) == PlayerOf(s, Other(mover))
              && forall l: Line :: Count(PlayerOf(r.value, mover).score, l)
                                   == Count(PlayerOf(s, mover).score, l) + (if pos in Cells(l) then 1 else 0)
  {
    match UpdateScore(PlayerOf(s, mover), pos.row, pos.col)
    case Err(e) => Err(BadField(e))
    case Ok(p) =>
      var s1 := WithPlayer(s.(used := s.used + [pos]), p);
      match SwitchPlayer(s1)
      case Err(f) => Err(f)
      case Ok((next, s2)) => Ok(s2.(active := Some(next)))
  }

  /** `process_movement` for a click on `pos`. Once the game is over a click does nothing.
      Otherwise the first move of a game draws its player from the generator and later
      moves use `active`; a free field is taken by that player; then, whether or not the
      field was free, the win check on that player runs before the tie check. */
  function Click(s: GameState, pos: Position): (r: Result<Step, Fault>)
    ensures s.gameOver ==> r == Ok(Step(s, None, Ignored))
    ensures r.Ok? && r.value.drawn.None? ==> r.value.state.used == s.used
    ensures r.Ok? && r.value.drawn.Some? ==> pos !in s.used && r.value.state.used == s.used + [pos]
  {
    if s.gameOver then Ok(Step(s, None, Ignored))
    else
      var pick := if |s.used| == 0 then SwitchPlayer(s)
                  else if s.active.Some? then Ok((s.active.value, s))
                  else Err(NoActivePlayer);
      match pick
      case Err(f) => Err(f)
      case Ok((player, s1)) =>
        var accepted := IsValidMove(s1, pos);
        var moved := if accepted then MovePlayer(s1, player, pos) else Ok(s1);
        match moved
        case Err(f) => Err(f)
        case Ok(s2) =>
          var drawn := if accepted then Some(player) else None;
          if IsWinner(PlayerOf(s2, player)) then Ok(Step(s2.(gameOver := true), drawn, Won(player)))
          else if IsTie(s2) then Ok(Step(s2.(gameOver := true), drawn, Tied))
          else if accepted && s2.active.Some? then Ok(Step(s2, drawn, Continue(s2.active.value)))
          else Ok(Step(s2, drawn, Ignored))
  }

  /** How many of the fields in `used` that lie on line `l` belong to `sym`. The k-th used
      field (counting from 1) belongs to the k-th value of the turn generator. */
  function Tally(used: seq<Position>, sym: Symbol, l: Line): nat
    decreases |used|
  {
    if |used| == 0 then 0
    else
      Tally(used[..|used| - 1], sym, l)
      + (if PlayerAt(|used|) == sym && used[|used| - 1] in Cells(l) then 1 else 0)
  }

  /** No player holds more than three fields of one line. */
  lemma TallyAtMostThree(used: seq<Position>, sym: Symbol, l: Line)
    requires Distinct(used)
    ensures Tally(used, sym, l) <= 3
  {
    TallyBound(used, sym, l);
    SubsetSize(Elems(used) * Cells(l), Cells(l));
  }

  lemma {:induction false} TallyBound(used: seq<Position>, sym: Symbol, l: Line)
    requires Distinct(used)
    ensures Tally(used, sym, l) <= |Elems(used) * Cells(l)|
    decreases |used|
  {
    if |used| > 0 {
      var front := used[..|used| - 1];
      var last := used[|used| - 1];
      DistinctLastIsNew(used);
      TallyBound(front, sym, l);
      LineFieldsGrow(Elems(front), last, Cells(l));
    }
  }

  /** Adding a new field to a set of fields adds it to the part on a line exactly when the
      field lies on the line. */
  lemma LineFieldsGrow(fields: set<Position>, p: Position, cells: set<Position>)
    requires p !in fields
    ensures |(fields + {p}) * cells| == |fields * cells| + (if p in cells then 1 else 0)
  {
    if p in cells {
      assert (fields + {p}) * cells == (fields * cells) + {p};
    } else {
      assert (fields + {p}) * cells == fields * cells;
    }
  }

  /** The generator and `active` are in step with the moves: the generator has been called
      once more than there were moves (not at all before the first), and `active` holds the
      value it drew last. */
  predicate InStep(s: GameState)
  {
    && s.turns.calls == (if |s.used| == 0 then 0 else |s.used| + 1)
    && (|s.used| > 0 ==> s.active == Some(PlayerAt(|s.used| + 1)))
  }

  /** The state invariant of a game in progress or just finished. */
  ghost predicate Valid(s: GameState)
  {
    && s.playerX.symbol == X
    && s.playerO.symbol == O
    // the used fields are distinct, and there are at most nine
    && Distinct(s.used)
    && |s.used| <= MaxAttempts
    && InStep(s)
    // every counter counts that player's fields on that line
    && (forall sym: Symbol, l: Line :: Count(PlayerOf(s, sym).score, l) == Tally(s.used, sym, l))
    // a game in progress has a free field and no winner
    && (!s.gameOver ==> |s.used| < MaxAttempts && !IsWinner(s.playerX) && !IsWinner(s.playerO))
    // a finished game was won by the last mover or filled the board, and the other player has no line
    && (s.gameOver ==>
          && |s.used| > 0
          && !IsWinner(PlayerOf(s, PlayerAt(|s.used| + 1)))
          && (IsWinner(PlayerOf(s, PlayerAt(|s.used|))) || |s.used| == MaxAttempts))
  }

  /** A new game and a reset game satisfy the invariant. */
  lemma NewAndResetAreValid(s: GameState)
    ensures Valid(New())
    ensures Valid(Reset(s))
  {
  }

  /** Each counter of a valid state is at most three. */
  lemma CountersAtMostThree(s: GameState)
    requires Valid(s)
    ensures forall sym: Symbol, l: Line :: Count(PlayerOf(s, sym).score, l) <= 3
  {
    forall sym: Symbol, l: Line
      ensures Count(PlayerOf(s, sym).score, l) <= 3
    {
      TallyAtMostThree(s.used, sym, l);
    }
  }

  /** While a valid game is in progress, a field is still free and every counter of both
      players is below three. */
  lemma InProgressBelowThree(s: GameState)
    requires Valid(s)
    requires !s.gameOver
    ensures |s.used| < MaxAttempts
    ensures forall sym: Symbol, l: Line :: Count(PlayerOf(s, sym).score, l) < 3
  {
    CountersAtMostThree(s);
  }

  /** In a valid state `is_tie` holds exactly when every field of the grid is taken. */
  lemma TieMeansBoardFull(s: GameState)
    requires Valid(s)
    ensures IsTie(s) <==> forall p: Position :: p in s.used
  {
    DistinctFieldsBound(s.used);
  }

  /** The state `move_player` leaves after an accepted click on `pos` in a valid game,
      before the end-of-game checks: the (|used| + 1)-th generator value has moved. */
  function Placed(s: GameState, pos: Position): GameState
  {
    var n := |s.used|;
    var mover := PlayerAt(n + 1);
    var p := UpdateScore(PlayerOf(s, mover), pos.row, pos.col).value;
    WithPlayer(s.(used := s.used + [pos]), p).(turns := Scheduler(n + 2), active := Some(PlayerAt(n + 2)))
  }

  /** An accepted click picks the mover from the generator (first move) or from `active`
      (later moves), which is the same player either way, and then runs the win check
      before the tie check. */
  lemma ClickAcceptedShape(s: GameState, pos: Position)
    requires InStep(s)
    requires !s.gameOver
    requires pos !in s.used
    requires |s.used| < MaxAttempts
    ensures var t := Placed(s, pos);
            var mover := PlayerAt(|s.used| + 1);
            Click(s, pos) == Ok(
              if IsWinner(PlayerOf(t, mover)) then Step(t.(gameOver := true), Some(mover), Won(mover))
              else if IsTie(t) then Step(t.(gameOver := true), Some(mover), Tied)
              else Step(t, Some(mover), Continue(Other(mover))))
  {
    var n := |s.used|;
    var mover := PlayerAt(n + 1);
    var s1 := if n == 0 then s.(turns := Scheduler(1)) else s;
    var pick := if n == 0 then SwitchPlayer(s) else if s.active.Some? then Ok((s.active.value, s)) else Err(NoActivePlayer);
    assert pick == Ok((mover, s1));
    assert MovePlayer(s1, mover, pos) == Ok(Placed(s, pos));
  }

  /** What `move_player` changes: the field is appended, the mover's counters go up on
      exactly the lines through it, the opponent is untouched and becomes active, and the
      counters still count each player's fields. */
  lemma PlacedFacts(s: GameState, pos: Position)
    requires Valid(s)
    requires !s.gameOver
    requires pos !in s.used
    ensures var t := Placed(s, pos);
            var mover := PlayerAt(|s.used| + 1);
            && t.used == s.used + [pos]
            && Distinct(t.used)
            && t.playerX.symbol == X && t.playerO.symbol == O
            && (forall l: Line :: Count(PlayerOf(t, mover).score, l)
                                  == Count(PlayerOf(s, mover).score, l) + (if pos in Cells(l) then 1 else 0))
            && PlayerOf(t, Other(mover)) == PlayerOf(s, Other(mover))
            && !IsWinner(PlayerOf(t, Other(mover)))
            && t.active == Some(Other(mover))
            && t.turns.calls == |t.used| + 1
            && (forall sym: Symbol, l: Line :: Count(PlayerOf(t, sym).score, l) == Tally(t.used, sym, l))
  {
    var n := |s.used|;
    var t := Placed(s, pos);
    var mover := PlayerAt(n + 1);
    assert t.used[..n] == s.used;
    assert PlayerOf(t, Other(mover)) == PlayerOf(s, Other(mover));
    forall sym: Symbol, l: Line
      ensures Count(PlayerOf(t, sym).score, l) == Tally(t.used, sym, l)
    {
      assert Tally(t.used, sym, l) == Tally(s.used, sym, l) + (if mover == sym && pos in Cells(l) then 1 else 0);
    }
  }

  /** An accepted click: the field is free and the game in progress. The mover is the
      generator's (|used| + 1)-th value, so X makes the odd-numbered moves and O the even
      ones; the mover's counters go up by one on exactly the lines through the field and
      the opponent's are untouched; the opponent becomes active; the game is won by the
      mover exactly when one of its counters reaches three, tied exactly when it is not won
      and the ninth field was taken, and goes on otherwise. */
  lemma ClickAccepted(s: GameState, pos: Position)
    requires Valid(s)
    requires !s.gameOver
    requires pos !in s.used
    ensures Click(s, pos).Ok?
    ensures var step := Click(s, pos).value;
            var t := step.state;
            var mover := PlayerAt(|s.used| + 1);
            && (mover == X <==> |s.used| % 2 == 0)
            && step.drawn == Some(mover)
            && t.used == s.used + [pos]
            && (forall l: Line :: Count(PlayerOf(t, mover).score, l)
                                  == Count(PlayerOf(s, mover).score, l) + (if pos in Cells(l) then 1 else 0))
            && PlayerOf(t, Other(mover)) == PlayerOf(s, Other(mover))
            && t.active == Some(Other(mover))
            && t.turns.calls == |t.used| + 1
            && (step.status == Won(mover) <==> IsWinner(PlayerOf(t, mover)))
            && (step.status == Tied <==> !IsWinner(PlayerOf(t, mover)) && |t.used| == MaxAttempts)
            && (step.status == Continue(Other(mover)) <==> !IsWinner(PlayerOf(t, mover)) && |t.used| < MaxAttempts)
            && (step.status.Won? || step.status.Tied? || step.status == Continue(Other(mover)))
            && (t.gameOver <==> !step.status.Continue?)
            && Valid(t)
  {
    ClickAcceptedShape(s, pos);
    PlacedFacts(s, pos);
  }

  /** A rejected click, on a taken field or after the game ended, changes nothing: the win
      and tie checks that still run after it cannot fire in a valid state. */
  lemma ClickRejected(s: GameState, pos: Position)
    requires Valid(s)
    requires s.gameOver || pos in s.used
    ensures Click(s, pos) == Ok(Step(s, None, Ignored))
  {
    if !s.gameOver {
      assert s.active == Some(PlayerAt(|s.used| + 1));
    }
  }

  /** Every click on a valid state succeeds (the generator is never exhausted and `active`
      is always set when read) and leaves a valid state. */
  lemma ClickKeepsValid(s: GameState, pos: Position)
    requires Valid(s)
    ensures Click(s, pos).Ok?
    ensures Valid(Click(s, pos).value.state)
    ensures Click(s, pos).value.state.turns.calls <= MaxAttempts + 1
  {
    if s.gameOver || pos in s.used {
      ClickRejected(s, pos);
    } else {
      ClickAccepted(s, pos);
    }
  }

  /** Moves alternate: of two accepted clicks in a row, the second is made by the opponent
      of the first, and the turn goes back to the first mover if the game goes on. */
  lemma MoversAlternate(s: GameState, p: Position, q: Position)
    requires Valid(s) && !s.gameOver && p !in s.used
    requires Click(s, p).Ok?
    requires !Click(s, p).value.state.gameOver && q !in Click(s, p).value.state.used
    ensures Click(s, p).value.drawn.Some?
    ensures Click(Click(s, p).value.state, q).Ok?
    ensures Click(Click(s, p).value.state, q).value.drawn == Some(Other(Click(s, p).value.drawn.value))
    ensures Click(Click(s, p).value.state, q).value.status.Continue? ==>
              Click(Click(s, p).value.state, q).value.status.next == Click(s, p).value.drawn.value
  {
    ClickAccepted(s, p);
    ClickAccepted(Click(s, p).value.state, q);
  }

  /** After a reset, the next accepted click is made by X and hands the turn to O,
      whatever state the reset started from. */
  lemma FirstMoveAfterResetIsX(s: GameState, pos: Position)
    ensures Click(Reset(s), pos).Ok?
    ensures Click(Reset(s), pos).value.drawn == Some(X)
    ensures Click(Reset(s), pos).value.status == Continue(O)
  {
    NewAndResetAreValid(s);
    ClickAccepted(Reset(s), pos);
  }
}
