/**
 The super-lattice of hexagonal chunks of radius R: which chunk holds a cell,
 a chunk's own cells, and the faces between two neighbouring chunks.
 Every radius R >= 0 is covered.
 */
module Lattices {
  import opened GoInt
  import opened HexGrid

  function CellCount(R: nat): nat {
    3 * R * R + 3 * R + 1
  }

  function Center(R: nat, ch: Chunk): Coord {
    Coord(ch.q * (2 * R + 1) + ch.r * R, -ch.q * R + ch.r * (R + 1))
  }

  function Offset(R: nat, d: Direction): Coord {
    Center(R, ChunkNeighbor(ORIGIN_CHUNK, d))
  }

  /** Chunk ch holds cell c: the chunk's cells are those within R of its centre. */
  predicate Holds(R: nat, ch: Chunk, c: Coord) {
    Distance(c, Center(R, ch)) <= R
  }

  function At(R: nat, ch: Chunk, local: Coord): Coord {
    Coord(ch.q * (2 * R + 1) + ch.r * R + local.q, -ch.q * R + ch.r * (R + 1) + local.r)
  }

  function Local(R: nat, ch: Chunk, c: Coord): Coord {
    Coord(c.q - Center(R, ch).q, c.r - Center(R, ch).r)
  }

  /** The estimate Locate starts from. */
  function Estimate(R: nat, c: Coord): Chunk {
    var n := CellCount(R);
    Chunk(FloorDiv((R + 1) * c.q - R * c.r, n), FloorDiv(R * c.q + (2 * R + 1) * c.r, n))
  }

  function Candidate(R: nat, c: Coord, di: int, dj: int): Chunk {
    Chunk(Estimate(R, c).q + di, Estimate(R, c).r + dj)
  }

  /** The first of the four candidates that holds c. */
  function ChunkOf(R: nat, c: Coord): Chunk {
    if Holds(R, Candidate(R, c, 0, 0), c) then Candidate(R, c, 0, 0)
    else if Holds(R, Candidate(R, c, 0, 1), c) then Candidate(R, c, 0, 1)
    else if Holds(R, Candidate(R, c, 1, 0), c) then Candidate(R, c, 1, 0)
    else Candidate(R, c, 1, 1)
  }

  // ---------- Tiling: existence ----------

  lemma QResidueIdentity(R: int, q: int, r: int, i: int, j: int)
    ensures var n := 3 * R * R + 3 * R + 1;
            n * (q - (i * (2 * R + 1) + j * R)) == (2 * R + 1) * ((R + 1) * q - R * r - i * n) + R * (R * q + (2 * R + 1) * r - j * n)
  {
  }

  lemma RResidueIdentity(R: int, q: int, r: int, i: int, j: int)
    ensures var n := 3 * R * R + 3 * R + 1;
            n * (r - (-i * R + j * (R + 1))) == (R + 1) * (R * q + (2 * R + 1) * r - j * n) - R * ((R + 1) * q - R * r - i * n)
  {
  }

  /** The floor residues of the estimate confine the cell's offset from the estimate's centre. */
  lemma EstimateBounds(R: nat, c: Coord)
    ensures var o := Local(R, Estimate(R, c), c);
            0 <= o.q <= 3 * R && 0 - R <= o.r <= R && 0 <= o.q + o.r && (R == 0 || 0 - R < o.r)
  {
    var n := CellCount(R);
    FloorResidue((R + 1) * c.q - R * c.r, n);
    FloorResidue(R * c.q + (2 * R + 1) * c.r, n);
    OffsetBounds(R, c.q, c.r, Estimate(R, c).q, Estimate(R, c).r);
  }

  lemma FloorResidue(x: int, n: int)
    requires n > 0
    ensures 0 <= x - FloorDiv(x, n) * n < n
  {
    FloorDivIsFloor(x, n);
  }

  lemma OffsetBounds(R: nat, q: int, r: int, i: int, j: int)
    requires 0 <= (R + 1) * q - R * r - i * CellCount(R) < CellCount(R)
    requires 0 <= R * q + (2 * R + 1) * r - j * CellCount(R) < CellCount(R)
    ensures var o := Local(R, Chunk(i, j), Coord(q, r));
            0 <= o.q <= 3 * R && 0 - R <= o.r <= R && 0 <= o.q + o.r && (R == 0 || 0 - R < o.r)
  {
    var n := CellCount(R);
    QResidueIdentity(R, q, r, i, j);
    RResidueIdentity(R, q, r, i, j);
    var o := Local(R, Chunk(i, j), Coord(q, r));
    var a, b := (R + 1) * q - R * r - i * n, R * q + (2 * R + 1) * r - j * n;
    SumIdentity(R, n, a, b, o.q, o.r);
    ResidueConsequences(R, n, a, b, o.q, o.r);
  }

  lemma SumIdentity(R: int, n: int, a: int, b: int, q: int, r: int)
    requires n * q == (2 * R + 1) * a + R * b && n * r == (R + 1) * b - R * a
    ensures n * (q + r) == (R + 1) * a + (2 * R + 1) * b
  {
  }

  lemma ResidueConsequences(R: int, n: int, a: int, b: int, q: int, r: int)
    requires 0 <= R && 0 <= a < n && 0 <= b < n
    requires n * q == (2 * R + 1) * a + R * b
    requires n * r == (R + 1) * b - R * a
    requires n * (q + r) == (R + 1) * a + (2 * R + 1) * b
    ensures 0 <= q <= 3 * R && -R <= r <= R && 0 <= q + r && (R == 0 || -R < r)
  {
    QBounds(R, n, a, b, q);
    RBounds(R, n, a, b, r);
    assert 0 <= q + r by { ScaledBounds(R + 1, 2 * R + 1, a, b, n); CancelNegative(n, q + r); }
  }

  lemma QBounds(R: int, n: int, a: int, b: int, q: int)
    requires 0 <= R && 0 <= a < n && 0 <= b < n && n * q == (2 * R + 1) * a + R * b
    ensures 0 <= q <= 3 * R
  {
    ScaledBounds(2 * R + 1, R, a, b, n);
    CancelFactor(n, q, 3 * R + 1);
    CancelNegative(n, q);
  }

  lemma RBounds(R: int, n: int, a: int, b: int, r: int)
    requires 0 <= R && 0 <= a < n && 0 <= b < n && n * r == (R + 1) * b - R * a
    ensures -R <= r <= R && (R == 0 || -R < r)
  {
    ScaledBounds(R + 1, 0, b, a, n);
    ScaledBounds(R, 0, a, b, n);
    CancelFactor(n, r, R + 1);
    if R > 0 { CancelFactor(n, -r, R); } else { CancelNegative(n, r); }
  }

  lemma CancelNegative(n: int, v: int)
    requires n > 0 && 0 <= n * v
    ensures 0 <= v
  {
    if v < 0 { MulMonotone(v, -1, n); }
  }

  lemma ScaledBounds(x: nat, y: nat, a: int, b: int, n: int)
    requires 0 <= a < n && 0 <= b < n
    ensures 0 <= x * a + y * b <= (x + y) * n
    ensures 0 < x + y ==> x * a + y * b < (x + y) * n
  {
    MulMonotone(a, n - 1, x);
    MulMonotone(b, n - 1, y);
    assert x * a + y * b <= (n - 1) * x + (n - 1) * y == (x + y) * n - (x + y);
  }

  lemma CancelFactor(n: int, v: int, w: int)
    requires n > 0 && n * v < w * n
    ensures v < w
  {
    if w <= v { MulMonotone(w, v, n); }
  }

  /** One of the four candidates holds the cell, so the search never falls through. */
  lemma CandidatesCover(R: nat, c: Coord)
    ensures Holds(R, ChunkOf(R, c), c)
  {
    hide Hex, Center, Estimate, CellCount;
    EstimateBounds(R, c);
    var e := Estimate(R, c);
    var o := Local(R, e, c);
    CandidateOffset(R, c, 0, 0);
    CandidateOffset(R, c, 0, 1);
    CandidateOffset(R, c, 1, 0);
    CandidateOffset(R, c, 1, 1);
    var di := if o.r >= 1 then (if o.q >= 2 * R + 1 then 1 else 0) else (if o.q <= R then 0 else 1);
    var dj := if o.r >= 1 then (if o.q >= 2 * R + 1 || o.q + o.r >= R + 1 then 1 else 0)
              else (if o.q + o.r >= 2 * R + 2 then 1 else 0);
    HexWithin(o.q - di * (2 * R + 1) - dj * R, o.r + di * R - dj * (R + 1), R);
  }

  lemma CandidateOffset(R: nat, c: Coord, di: int, dj: int)
    ensures var o := Local(R, Estimate(R, c), c);
            Local(R, Candidate(R, c, di, dj), c) == Coord(o.q - di * (2 * R + 1) - dj * R, o.r + di * R - dj * (R + 1))
  {
    var e := Estimate(R, c);
    CentreSum(R, e.q, e.r, di, dj);
  }

  lemma CentreSum(R: nat, i: int, j: int, di: int, dj: int)
    ensures Center(R, Chunk(i + di, j + dj)) ==
            Coord(Center(R, Chunk(i, j)).q + Center(R, Chunk(di, dj)).q, Center(R, Chunk(i, j)).r + Center(R, Chunk(di, dj)).r)
    ensures Center(R, Chunk(di, dj)) == Coord(di * (2 * R + 1) + dj * R, dj * (R + 1) - di * R)
  {
  }

  // ---------- Tiling: uniqueness ----------

  lemma SpreadIdentities(R: int, i: int, j: int, x: int, y: int)
    requires x == i * (2 * R + 1) + j * R && y == -i * R + j * (R + 1)
    ensures var n := 3 * R * R + 3 * R + 1;
            && R * x + (R + 1) * (x + y) == n * (i + j)
            && R * (x + y) + (R + 1) * y == n * j
            && R * y + (R + 1) * -x == -(n * i)
  {
  }

  /**
   The centre of the chunk at super-lattice offset (i, j) lies at least
   (3R^2+3R+1)/(2R+1) cells away for each chunk step.
   */
  lemma CentreSpread(R: nat, i: int, j: int)
    ensures var z := Center(R, Chunk(i, j));
            CellCount(R) * Hex(i, j) <= (2 * R + 1) * Hex(z.q, z.r)
  {
    var z := Center(R, Chunk(i, j));
    var n, h := CellCount(R), Hex(z.q, z.r);
    SpreadIdentities(R, i, j, z.q, z.r);
    HexIsMax(z.q, z.r);
    HexIsMax(i, j);
    WeightedBound(R, R + 1, z.q, z.q + z.r, h);
    WeightedBound(R, R + 1, z.q + z.r, z.r, h);
    WeightedBound(R, R + 1, z.r, -z.q, h);
    ScaleAbs(n, i);
    ScaleAbs(n, j);
    ScaleAbs(n, i + j);
  }

  lemma WeightedBound(x: nat, y: nat, u: int, v: int, h: nat)
    requires Abs(u) <= h && Abs(v) <= h
    ensures Abs(x * u + y * v) <= (x + y) * h
  {
    MulMonotone(u, h, x);
    MulMonotone(-u, h, x);
    MulMonotone(v, h, y);
    MulMonotone(-v, h, y);
    assert h * x + h * y == (x + y) * h;
  }

  lemma ScaleAbs(n: nat, v: int)
    ensures Abs(n * v) == n * Abs(v)
  {
    if v < 0 { assert n * v == -(n * -v); }
  }

  /** Distinct centres are at least 2R + 1 apart. */
  lemma CentresApart(R: nat, a: Chunk, b: Chunk)
    requires a != b
    ensures 2 * R + 1 <= Distance(Center(R, a), Center(R, b))
  {
    hide Hex, Center;
    var i, j := a.q - b.q, a.r - b.r;
    CentreSum(R, b.q, b.r, i, j);
    if Hex(i, j) >= 2 {
      FarCentresApart(R, i, j);
    } else {
      HexWithin(i, j, 1);
      NearCentresApart(R, i, j);
    }
  }

  lemma NearCentresApart(R: nat, i: int, j: int)
    requires -1 <= i <= 1 && -1 <= j <= 1 && -1 <= i + j <= 1 && (i != 0 || j != 0)
    ensures var z := Center(R, Chunk(i, j)); 2 * R + 1 <= Hex(z.q, z.r)
  {
    CentreSum(R, 0, 0, i, j);
  }

  lemma FarCentresApart(R: nat, i: int, j: int)
    requires 2 <= Hex(i, j)
    ensures var z := Center(R, Chunk(i, j)); 2 * R + 1 <= Hex(z.q, z.r)
  {
    hide Hex, Center, CellCount;
    var z := Center(R, Chunk(i, j));
    CentreSpread(R, i, j);
    SquareBelow(R, CellCount(R), 2 * R + 1);
    SpreadBeatsDiameter(CellCount(R), 2 * R + 1, Hex(i, j), Hex(z.q, z.r));
  }

  lemma SpreadBeatsDiameter(n: nat, m: nat, steps: nat, h: nat)
    requires 2 <= steps && n * steps <= m * h && (m - 1) * m < 2 * n
    ensures m <= h
  {
    MulMonotone(2, steps, n);
    if h < m { MulMonotone(h, m - 1, m); }
  }

  lemma SquareBelow(R: nat, n: int, m: int)
    requires n == CellCount(R) && m == 2 * R + 1
    ensures (m - 1) * m < 2 * n
  {
    assert (m - 1) * m == 2 * R * (2 * R + 1) == 4 * R * R + 2 * R;
    MulMonotone(0, R, R);
  }

  /** The chunks partition the plane: Locate's chunk is the one and only chunk that holds the cell. */
  lemma Tiling(R: nat, c: Coord, ch: Chunk)
    ensures Holds(R, ch, c) <==> ch == ChunkOf(R, c)
  {
    hide Hex, Center;
    CandidatesCover(R, c);
    var own := ChunkOf(R, c);
    if Holds(R, ch, c) && ch != own {
      CentresApart(R, ch, own);
      Triangle(Center(R, ch), c, Center(R, own));
      DistanceSymmetric(c, Center(R, ch));
    }
  }

  /** Locating a cell and taking it back, and placing a local cell and locating it, both return to the start. */
  lemma LocateAtInverse(R: nat, c: Coord, ch: Chunk, local: Coord)
    ensures At(R, ChunkOf(R, c), Local(R, ChunkOf(R, c), c)) == c
    ensures Distance(Local(R, ChunkOf(R, c), c), ORIGIN) <= R
    ensures Distance(local, ORIGIN) <= R ==>
              ChunkOf(R, At(R, ch, local)) == ch && Local(R, ch, At(R, ch, local)) == local
  {
    CandidatesCover(R, c);
    Tiling(R, At(R, ch, local), ch);
    hide Hex, ChunkOf;
  }

  /** Locate: the search over the four candidates, with the fallback it never reaches. */
  method Locate(R: nat, c: Coord) returns (ch: Chunk, local: Coord)
    ensures ch == ChunkOf(R, c) && local == Local(R, ch, c)
    ensures Holds(R, ch, c)
    ensures forall other :: Holds(R, other, c) ==> other == ch
  {
    hide Hex, Center;
    var n := CellCount(R);
    var iStar := FloorDiv((R + 1) * c.q - R * c.r, n);
    var jStar := FloorDiv(R * c.q + (2 * R + 1) * c.r, n);
    CandidatesCover(R, c);
    forall other | Holds(R, other, c)
      ensures other == ChunkOf(R, c)
    {
      Tiling(R, c, other);
    }
    for di := 0 to 2
      invariant forall x, y | 0 <= x < di && 0 <= y < 2 :: !Holds(R, Candidate(R, c, x, y), c)
    {
      for dj := 0 to 2
        invariant forall x, y | 0 <= x < di && 0 <= y < 2 :: !Holds(R, Candidate(R, c, x, y), c)
        invariant forall y | 0 <= y < dj :: !Holds(R, Candidate(R, c, di, y), c)
      {
        var i, j := iStar + di, jStar + dj;
        assert Candidate(R, c, di, dj) == Chunk(i, j);
        var centre := Center(R, Chunk(i, j));
        var dq, dr := c.q - centre.q, c.r - centre.r;
        HexFormula(dq, dr);
        if (Abs(dq) + Abs(dr) + Abs(dq + dr)) / 2 <= R {
          return Chunk(i, j), Coord(dq, dr);
        }
      }
    }
    assert false;
  }
}
