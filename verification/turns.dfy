/** The turn generator built in `Game.__init__` and `reset_game` and consumed by `switch_player`.
    It is modelled as a cursor: the number of values drawn so far. */
module Turns {
  import opened Results
  import opened Scoring

  /** The most moves a game can have. */
  const MaxAttempts: nat := 9

  /** `active_players`: X first, then O. */
  const ActivePlayers: seq<Symbol> := [X, O]

  /** The generator's position: how many values it has yielded. */
  datatype Scheduler = Scheduler(calls: nat)

  /** A freshly built generator. */
  const Fresh: Scheduler := Scheduler(0)

  /** `StopIteration`, raised by `next` on an exhausted generator. */
  datatype Exhausted = StopIteration

  /** The value the generator yields for `attempts == i`, namely
      `active_players[(i + 1) % len(active_players)]`: X on odd calls, O on even ones. */
  function PlayerAt(i: nat): (sym: Symbol)
    ensures sym == X <==> i % 2 == 1
  {
    ActivePlayers[(i + 1) % |ActivePlayers|]
  }

  /** `switch_player`: draw the next value. The generator ranges over
      `attempts` in 1..MaxAttempts + 1, so the call after the (MaxAttempts + 1)-th fails. */
  function Next(g: Scheduler): (r: Result<(Symbol, Scheduler), Exhausted>)
    ensures r.Ok? <==> g.calls < MaxAttempts + 1
    ensures r.Ok? ==> r.value.1.calls == g.calls + 1
    ensures r.Ok? ==> (r.value.0 == X <==> g.calls % 2 == 0)
  {
    if g.calls < MaxAttempts + 1 then
      var attempts := g.calls + 1;
      Ok((PlayerAt(attempts), Scheduler(attempts)))
    else
      Err(StopIteration)
  }

  /** Call `switch_player` `n` times on a fresh generator, stopping at the first
      `StopIteration`. The values drawn alternate X, O, X, ... and exactly
      MaxAttempts + 1 of them can be drawn. */
  method DrawTurns(n: nat) returns (drawn: seq<Symbol>, exhausted: bool)
    ensures exhausted <==> n > MaxAttempts + 1
    ensures |drawn| == if exhausted then MaxAttempts + 1 else n
    ensures forall i :: 0 <= i < |drawn| ==> (drawn[i] == X <==> i % 2 == 0)
  {
    var g := Fresh;
    drawn := [];
    exhausted := false;
    var k := 0;
    while k < n
      invariant k <= n && k <= MaxAttempts + 1
      invariant g.calls == k && |drawn| == k
      invariant forall i :: 0 <= i < k ==> (drawn[i] == X <==> i % 2 == 0)
    {
      match Next(g)
      case Err(_) =>
        exhausted := true;
        return;
      case Ok((sym, g')) =>
        drawn := drawn + [sym];
        g := g';
        k := k + 1;
    }
  }
}
