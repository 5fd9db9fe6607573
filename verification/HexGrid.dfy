/**
 The hex-world vocabulary: cells and chunks in axial coordinates, the six
 directions, the hex distance and the canonical face two neighbouring cells
 share. Coordinates are unbounded integers.
 */
module HexGrid {

  datatype Coord = Coord(q: int, r: int)

  datatype Chunk = Chunk(q: int, r: int)

  const ORIGIN := Coord(0, 0)
  const ORIGIN_CHUNK := Chunk(0, 0)

  /** One of the six neighbour directions, in canonical order. */
  type Direction = d: int | 0 <= d < 6

  const DIR_E: Direction := 0
  const DIR_NE: Direction := 1
  const DIR_NW: Direction := 2
  const DIR_W: Direction := 3
  const DIR_SW: Direction := 4
  const DIR_SE: Direction := 5

  function Delta(d: Direction): Coord {
    match d
    case 0 => Coord(1, 0)
    case 1 => Coord(1, -1)
    case 2 => Coord(0, -1)
    case 3 => Coord(-1, 0)
    case 4 => Coord(-1, 1)
    case _ => Coord(0, 1)
  }

  function Opposite(d: Direction): Direction {
    match d
    case 0 => DIR_W
    case 1 => DIR_SW
    case 2 => DIR_SE
    case 3 => DIR_E
    case 4 => DIR_NE
    case _ => DIR_NW
  }

  function Neighbor(c: Coord, d: Direction): Coord {
    Coord(c.q + Delta(d).q, c.r + Delta(d).r)
  }

  function ChunkNeighbor(ch: Chunk, d: Direction): Chunk {
    Chunk(ch.q + Delta(d).q, ch.r + Delta(d).r)
  }

  function Abs(v: int): nat {
    if v < 0 then -v else v
  }

  /** The hex norm of an axial offset: its longest axial component. */
  function Hex(q: int, r: int): nat {
    Max(Max(Abs(q), Abs(r)), Abs(q + r))
  }

  function Max(a: int, b: int): int {
    if a > b then a else b
  }

  function Min(a: int, b: int): int {
    if a < b then a else b
  }

  function Distance(a: Coord, b: Coord): nat {
    Hex(a.q - b.q, a.r - b.r)
  }

  function ChunkDistance(a: Chunk, b: Chunk): nat {
    Hex(a.q - b.q, a.r - b.r)
  }

  datatype Face = Face(cell: Coord, dir: Direction)

  /** The one name of the boundary between c and its neighbour in direction d. */
  function FaceOf(c: Coord, d: Direction): Face {
    var opp := Opposite(d);
    if d < opp then Face(c, d) else Face(Neighbor(c, d), opp)
  }

  predicate Adjacent(a: Coord, b: Coord) {
    exists d: Direction :: Neighbor(a, d) == b
  }

  /** A walk from a to b, each step to a neighbouring cell. */
  ghost predicate IsWalk(w: seq<Coord>, a: Coord, b: Coord) {
    && 0 < |w| && w[0] == a && w[|w| - 1] == b
    && forall i :: 0 <= i < |w| - 1 ==> Adjacent(w[i], w[i + 1])
  }

  lemma OppositeReturns(c: Coord, d: Direction)
    ensures Opposite(Opposite(d)) == d && Neighbor(Neighbor(c, d), Opposite(d)) == c
  {
  }

  /** Two sides name the same face exactly when they are the same side, or the two sides of one boundary. */
  lemma FaceNamesOneBoundary(c: Coord, d: Direction, c': Coord, d': Direction)
    ensures FaceOf(c, d) == FaceOf(c', d') <==> (c' == c && d' == d) || (c' == Neighbor(c, d) && d' == Opposite(d))
    ensures FaceOf(c, d).dir < 3
  {
    OppositeReturns(c, d);
    OppositeReturns(c', d');
  }

  /** The formula Distance and ChunkDistance compute is the hex norm. */
  lemma HexFormula(q: int, r: int)
    ensures Hex(q, r) == (Abs(q) + Abs(r) + Abs(q + r)) / 2
  {
  }

  lemma HexIsMax(q: int, r: int)
    ensures Abs(q) <= Hex(q, r) && Abs(r) <= Hex(q, r) && Abs(q + r) <= Hex(q, r)
    ensures Hex(q, r) == Abs(q) || Hex(q, r) == Abs(r) || Hex(q, r) == Abs(q + r)
  {
  }

  lemma HexWithin(q: int, r: int, n: int)
    ensures Hex(q, r) <= n <==> -n <= q <= n && -n <= r <= n && -n <= q + r <= n
  {
  }

  lemma HexSumWithin(q: int, r: int, q': int, r': int, h: nat, h': nat)
    requires Hex(q, r) <= h && Hex(q', r') <= h'
    ensures Hex(q + q', r + r') <= h + h'
  {
    HexWithin(q, r, h);
    HexWithin(q', r', h');
    HexWithin(q + q', r + r', h + h');
  }

  lemma HexOfNegative(q: int, r: int)
    ensures Hex(-q, -r) == Hex(q, r)
    ensures Hex(q, r) == 0 <==> q == 0 && r == 0
  {
  }

  lemma HexSubadditive(q: int, r: int, q': int, r': int)
    ensures Hex(q + q', r + r') <= Hex(q, r) + Hex(q', r')
  {
    hide Hex;
    HexSumWithin(q, r, q', r', Hex(q, r), Hex(q', r'));
  }

  lemma DistanceSymmetric(a: Coord, b: Coord)
    ensures Distance(a, b) == Distance(b, a)
    ensures Distance(a, b) == 0 <==> a == b
  {
    HexOfNegative(a.q - b.q, a.r - b.r);
  }

  lemma Triangle(a: Coord, b: Coord, c: Coord)
    ensures Distance(a, c) <= Distance(a, b) + Distance(b, c)
  {
    hide Hex;
    HexSubadditive(a.q - b.q, a.r - b.r, b.q - c.q, b.r - c.r);
  }

  lemma ChunkDistanceSymmetric(a: Chunk, b: Chunk)
    ensures ChunkDistance(a, b) == ChunkDistance(b, a)
    ensures ChunkDistance(a, b) == 0 <==> a == b
  {
    HexOfNegative(a.q - b.q, a.r - b.r);
  }

  lemma ChunkTriangle(a: Chunk, b: Chunk, c: Chunk)
    ensures ChunkDistance(a, c) <= ChunkDistance(a, b) + ChunkDistance(b, c)
  {
    hide Hex;
    HexSubadditive(a.q - b.q, a.r - b.r, b.q - c.q, b.r - c.r);
  }

  /** The first step of a shortest way from a to b. */
  function Toward(a: Coord, b: Coord): Direction {
    var q, r := b.q - a.q, b.r - a.r;
    if q > 0 then if r < 0 then DIR_NE else DIR_E
    else if q < 0 then if r > 0 then DIR_SW else DIR_W
    else if r < 0 then DIR_NW else DIR_SE
  }

  lemma TowardApproaches(a: Coord, b: Coord)
    requires a != b
    ensures Distance(Neighbor(a, Toward(a, b)), b) == Distance(a, b) - 1
  {
  }

  lemma StepIsOne(a: Coord, d: Direction)
    ensures Distance(a, Neighbor(a, d)) == 1
  {
  }

  lemma StepChangesByOne(a: Coord, d: Direction, b: Coord)
    ensures Distance(a, b) - 1 <= Distance(Neighbor(a, d), b) <= Distance(a, b) + 1
  {
    hide Hex;
    StepIsOne(a, d);
    DistanceSymmetric(a, Neighbor(a, d));
    Triangle(a, Neighbor(a, d), b);
    Triangle(Neighbor(a, d), a, b);
  }

  /** The distance is the number of steps of a shortest walk: one has that length and none is shorter. */
  lemma {:induction false} DistanceIsStepCount(a: Coord, b: Coord)
    ensures exists w :: IsWalk(w, a, b) && |w| == Distance(a, b) + 1
    ensures forall w :: IsWalk(w, a, b) ==> Distance(a, b) + 1 <= |w|
    decreases Distance(a, b)
  {
    if a == b {
      assert IsWalk([a], a, b);
    } else {
      var d := Toward(a, b);
      TowardApproaches(a, b);
      var n := Neighbor(a, d);
      DistanceIsStepCount(n, b);
      var w :| IsWalk(w, n, b) && |w| == Distance(n, b) + 1;
      assert IsWalk([a] + w, a, b);
    }
    forall w | IsWalk(w, a, b)
      ensures Distance(a, b) + 1 <= |w|
    {
      WalkIsLong(w, a, b);
    }
  }

  lemma {:induction false} WalkIsLong(w: seq<Coord>, a: Coord, b: Coord)
    requires IsWalk(w, a, b)
    ensures Distance(a, b) + 1 <= |w|
    decreases |w|
  {
    if |w| > 1 {
      assert Adjacent(w[0], w[1]);
      var d: Direction :| Neighbor(a, d) == w[1];
      WalkIsLong(w[1..], w[1], b);
      StepChangesByOne(a, d, b);
    }
  }
}
