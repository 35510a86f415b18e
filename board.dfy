/** Board geometry used by the turn decision: positions, the fixed 15x15
    board, the two distances, and the table of eight king moves. */
module Board {

  /** A coordinate pair. The bot's own position is whatever the server sends,
      so positions are not constrained to the board; `InBoard` says when one is. */
  datatype Pos = Pos(x: int, y: int)

  /** Side of the square board, as hard-coded in the bounds tests of the scoring loops. */
  const BoardSize: int := 15

  predicate InBoard(p: Pos)
  {
    0 <= p.x < BoardSize && 0 <= p.y < BoardSize
  }

  function Abs(n: int): nat
  {
    if n < 0 then -n else n
  }

  /** The inner `manhattan` helper of the turn routine. */
  function Manhattan(a: Pos, b: Pos): nat
  {
    Abs(a.x - b.x) + Abs(a.y - b.y)
  }

  /** King-move distance: 1 exactly for the eight cells around a position. */
  function Chebyshev(a: Pos, b: Pos): nat
  {
    var dx := Abs(a.x - b.x);
    var dy := Abs(a.y - b.y);
    if dx < dy then dy else dx
  }

  datatype Offset = Offset(dx: int, dy: int)

  /** The `moves` table, in its order. It has no (0, 0) entry. */
  const Moves: seq<Offset> :=
    [Offset(-1, -1), Offset(-1, 0), Offset(-1, 1),
     Offset(0, -1), Offset(0, 1),
     Offset(1, -1), Offset(1, 0), Offset(1, 1)]

  /** The cell reached from `p` by the `k`-th entry of `Moves`. */
  function Step(p: Pos, k: nat): (r: Pos)
    requires k < |Moves|
    ensures Chebyshev(r, p) == 1
    ensures r != p
  {
    Pos(p.x + Moves[k].dx, p.y + Moves[k].dy)
  }

  /** Conversely, every cell at king-move distance 1 is reached by exactly one
      entry of `Moves`: the table lists all eight neighbours. */
  lemma NeighbourIndex(p: Pos, q: Pos) returns (k: nat)
    requires Chebyshev(p, q) == 1
    ensures k < |Moves| && Step(p, k) == q
    ensures forall j :: 0 <= j < |Moves| && Step(p, j) == q ==> j == k
  {
    var dx, dy := q.x - p.x, q.y - p.y;
    assert -1 <= dx <= 1 && -1 <= dy <= 1;
    if dx == -1 {
      k := if dy == -1 then 0 else if dy == 0 then 1 else 2;
    } else if dx == 0 {
      assert dy != 0;
      k := if dy == -1 then 3 else 4;
    } else {
      k := if dy == -1 then 5 else if dy == 0 then 6 else 7;
    }
  }

  /** A position on the board always has a neighbour on the board (the board
      is wider than one cell). */
  lemma NeighbourOnBoard(p: Pos) returns (k: nat)
    requires InBoard(p)
    ensures k < |Moves| && InBoard(Step(p, k))
  {
    k := if p.x + 1 < BoardSize then 6 else 1;
  }
}
