/** `Game.Player`: a symbol and eight per-line counters, with `update_score` and `is_winner`. */
module Scoring {
  import opened Results
  import opened Board

  /** The two player symbols. */
  datatype Symbol = X | O

  /** The opponent of `sym`. */
  function Other(sym: Symbol): (r: Symbol)
    ensures r != sym
  {
    if sym == X then O else X
  }

  /** The score dictionary: one counter per key, in the dictionary's key order. */
  datatype Score = Score(row0: nat, row1: nat, row2: nat,
                         col0: nat, col1: nat, col2: nat,
                         d0: nat, d1: nat)

  /** A player: its symbol (fixed at creation) and its counters. */
  datatype Player = Player(symbol: Symbol, score: Score)

  /** The counter kept under the key of line `l`. */
  function Count(s: Score, l: Line): nat
  {
    match l
    case Row(r) => if r == 0 then s.row0 else if r == 1 then s.row1 else s.row2
    case Col(c) => if c == 0 then s.col0 else if c == 1 then s.col1 else s.col2
    case D0 => s.d0
    case D1 => s.d1
  }

  /** `Player(symbol)`: every counter starts at zero. */
  function NewPlayer(sym: Symbol): (p: Player)
    ensures p.symbol == sym
    ensures forall l: Line :: Count(p.score, l) == 0
  {
    Player(sym, Score(0, 0, 0, 0, 0, 0, 0, 0))
  }

  /** The `KeyError` raised when the formatted key `row{n}` or `col{n}` is not in the dictionary. */
  datatype KeyError = NoRowKey(row: int) | NoColKey(col: int)

  /** `update_score(row_n, col_n)`: add one to the row and column counters, to `d0` when
      the field is on the main diagonal and to `d1` when it is on the anti-diagonal.
      A row or column outside 0..2 names a key that does not exist; the row key is
      looked up first. */
  function UpdateScore(p: Player, row: int, col: int): (r: Result<Player, KeyError>)
    ensures r.Ok? <==> 0 <= row <= 2 && 0 <= col <= 2
    ensures !(0 <= row <= 2) ==> r == Err(NoRowKey(row))
    ensures 0 <= row <= 2 && !(0 <= col <= 2) ==> r == Err(NoColKey(col))
    ensures 0 <= row <= 2 && 0 <= col <= 2 ==>
              && r.value.symbol == p.symbol
              && forall l: Line :: Count(r.value.score, l)
                                   == Count(p.score, l) + (if Position(row, col) in Cells(l) then 1 else 0)
  {
    if !(0 <= row <= 2) then Err(NoRowKey(row))
    else if !(0 <= col <= 2) then Err(NoColKey(col))
    else
      var s := p.score;
      var score := Score(
        row0 := s.row0 + (if row == 0 then 1 else 0),
        row1 := s.row1 + (if row == 1 then 1 else 0),
        row2 := s.row2 + (if row == 2 then 1 else 0),
        col0 := s.col0 + (if col == 0 then 1 else 0),
        col1 := s.col1 + (if col == 1 then 1 else 0),
        col2 := s.col2 + (if col == 2 then 1 else 0),
        d0 := s.d0 + (if row == col then 1 else 0),
        d1 := s.d1 + (if row + col == 2 then 1 else 0));
      Ok(p.(score := score))
  }

  /** The counters in the order `is_winner` visits `score.values()`. */
  function Values(s: Score): (vs: seq<nat>)
    ensures |vs| == |AllLines|
    ensures forall i :: 0 <= i < |vs| ==> vs[i] == Count(s, AllLines[i])
  {
    [s.row0, s.row1, s.row2, s.col0, s.col1, s.col2, s.d0, s.d1]
  }

  /** The loop of `is_winner`: does any visited value equal three? */
  function AnyThree(vs: seq<nat>): (r: bool)
    ensures r <==> exists i :: 0 <= i < |vs| && vs[i] == 3
    decreases |vs|
  {
    if |vs| == 0 then false
    else if vs[0] == 3 then true
    else
      var rest := AnyThree(vs[1..]);
      assert forall i :: 1 <= i < |vs| ==> vs[i] == vs[1..][i - 1];
      rest
  }

  /** Index of line `l` in `AllLines`. */
  function LineIndex(l: Line): (i: nat)
    ensures i < |AllLines| && AllLines[i] == l
  {
    match l
    case Row(r) => r
    case Col(c) => 3 + c
    case D0 => 6
    case D1 => 7
  }

  /** `is_winner(player)`: the player has a line with all three counters' worth of fields,
      i.e. some counter equals exactly three. */
  function IsWinner(p: Player): (r: bool)
    ensures r <==> exists l: Line :: Count(p.score, l) == 3
  {
    var vs := Values(p.score);
    var r := AnyThree(vs);
    assert r ==> exists l: Line :: Count(p.score, l) == 3 by {
      if r {
        var i :| 0 <= i < |vs| && vs[i] == 3;
        assert Count(p.score, AllLines[i]) == 3;
      }
    }
    assert (exists l: Line :: Count(p.score, l) == 3) ==> r by {
      if l: Line :| Count(p.score, l) == 3 {
        assert vs[LineIndex(l)] == 3;
      }
    }
    r
  }

  /** The two cases pinned down for `update_score`: the field (2, 1) lies on no diagonal,
      and the centre lies on both. */
  lemma UpdateScoreExamples(p: Player)
    ensures var r := UpdateScore(p, 2, 1);
            && r.Ok?
            && r.value.score == p.score.(row2 := p.score.row2 + 1, col1 := p.score.col1 + 1)
    ensures var r := UpdateScore(p, 1, 1);
            && r.Ok?
            && r.value.score.d0 == p.score.d0 + 1
            && r.value.score.d1 == p.score.d1 + 1
    ensures UpdateScore(p, 2, 3) == Err(NoColKey(3))
  {
  }

  /** The counters of `UpdateScore` are exactly the lines through the field: an index on
      the main diagonal is one with equal coordinates, one on the anti-diagonal one whose
      coordinates add up to two. */
  lemma DiagonalMembership(p: Position)
    ensures p in Cells(D0) <==> p.row == p.col
    ensures p in Cells(D1) <==> p.row + p.col == 2
    ensures p in Cells(D0) && p in Cells(D1) <==> p == Position(1, 1)
  {
  }
}
