/** The 3x3 grid: positions, the eight scoring lines and the cells each line covers. */
module Board {

  /** A row or column index of the grid built by `board_grid`. */
  type Coord = i: int | 0 <= i <= 2

  /** One field of the grid; the source names the button after this pair. */
  datatype Position = Position(row: Coord, col: Coord)

  /** The eight scoring lines, one per key of `Player.score`:
      `row0..row2`, `col0..col2`, `d0` (main diagonal) and `d1` (anti-diagonal). */
  datatype Line = Row(r: Coord) | Col(c: Coord) | D0 | D1

  /** The lines in the key order of the score dictionary. */
  const AllLines: seq<Line> := [Row(0), Row(1), Row(2), Col(0), Col(1), Col(2), D0, D1]

  /** The nine fields of the grid, written out. */
  const AllPositions: set<Position> :=
    {Position(0, 0), Position(0, 1), Position(0, 2),
     Position(1, 0), Position(1, 1), Position(1, 2),
     Position(2, 0), Position(2, 1), Position(2, 2)}

  /** The three fields a line runs through, listed geometrically (no index arithmetic). */
  function Cells(l: Line): (cells: set<Position>)
    ensures |cells| == 3
    ensures cells <= AllPositions
  {
    match l
    case Row(r) => {Position(r, 0), Position(r, 1), Position(r, 2)}
    case Col(c) => {Position(0, c), Position(1, c), Position(2, c)}
    case D0 => {Position(0, 0), Position(1, 1), Position(2, 2)}
    case D1 => {Position(0, 2), Position(1, 1), Position(2, 0)}
  }

  /** Every field of the grid is one of the nine, and there are nine. */
  lemma AllPositionsComplete()
    ensures forall p: Position :: p in AllPositions
    ensures |AllPositions| == 9
  {
    forall p: Position
      ensures p in AllPositions
    {
      assert p.row == 0 || p.row == 1 || p.row == 2;
      assert p.col == 0 || p.col == 1 || p.col == 2;
    }
  }

  /** No field occurs twice. */
  predicate Distinct(ps: seq<Position>)
  {
    forall i, j :: 0 <= i < j < |ps| ==> ps[i] != ps[j]
  }

  /** The set of fields occurring in `ps`. */
  function Elems(ps: seq<Position>): set<Position>
  {
    set p | p in ps
  }

  /** A sequence without repetitions has as many elements as it has distinct fields. */
  lemma {:induction false} DistinctElems(ps: seq<Position>)
    requires Distinct(ps)
    ensures |Elems(ps)| == |ps|
    decreases |ps|
  {
    if |ps| > 0 {
      DistinctLastIsNew(ps);
      DistinctElems(ps[..|ps| - 1]);
    }
  }

  /** Splitting off the last field of a sequence without repetitions: the front has no
      repetitions either, and the last field is new to it. */
  lemma DistinctLastIsNew(ps: seq<Position>)
    requires Distinct(ps)
    requires |ps| > 0
    ensures Distinct(ps[..|ps| - 1])
    ensures Elems(ps) == Elems(ps[..|ps| - 1]) + {ps[|ps| - 1]}
    ensures ps[|ps| - 1] !in Elems(ps[..|ps| - 1])
  {
    var front := ps[..|ps| - 1];
    var last := ps[|ps| - 1];
    assert ps == front + [last];
    forall k | 0 <= k < |front|
      ensures front[k] != last
    {
      assert front[k] == ps[k];
    }
  }

  /** A subset of equal finite size is the whole set. */
  lemma SubsetOfSameSize<T>(a: set<T>, b: set<T>)
    requires a <= b
    requires |a| == |b|
    ensures a == b
  {
    if x :| x in b && x !in a {
      assert a <= b - {x};
      assert |b - {x}| == |b| - 1;
      SubsetSize(a, b - {x});
      assert false;
    }
  }

  /** A subset is no larger than its superset. */
  lemma {:induction false} SubsetSize<T>(a: set<T>, b: set<T>)
    requires a <= b
    ensures |a| <= |b|
    decreases |b|
  {
    if a != {} {
      var x :| x in a;
      SubsetSize(a - {x}, b - {x});
    }
  }

  /** Pigeonhole on the grid: a sequence of distinct fields has at most nine of them,
      and exactly nine exactly when it covers every field. */
  lemma DistinctFieldsBound(ps: seq<Position>)
    requires Distinct(ps)
    ensures |ps| <= 9
    ensures |ps| == 9 <==> forall p: Position :: p in ps
  {
    DistinctElems(ps);
    AllPositionsComplete();
    assert Elems(ps) <= AllPositions;
    SubsetSize(Elems(ps), AllPositions);
    if |ps| == 9 {
      SubsetOfSameSize(Elems(ps), AllPositions);
      forall p: Position
        ensures p in ps
      {
        assert p in Elems(ps);
      }
    }
    if forall p: Position :: p in ps {
      assert AllPositions <= Elems(ps);
      SubsetSize(AllPositions, Elems(ps));
    }
  }
}
