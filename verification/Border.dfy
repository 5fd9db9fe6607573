/** The faces on the border between a chunk and each of its six neighbours. */
module Borders {
  import opened GoInt
  import opened HexGrid
  import opened Lattices

  /** The m-th cell from the start of the path along a canonical border. */
  function BorderCell(R: nat, d: Direction, m: int): Coord
    requires d < 3
  {
    match d
    case 0 => Coord(R, m - R)
    case 1 => Coord(m, 0 - R)
    case _ => Coord(m - R, 0 - m)
  }

  function Translate(f: Face, v: Coord): Face {
    Face(Plus(f.cell, v), f.dir)
  }

  function Plus(c: Coord, v: Coord): Coord {
    Coord(c.q + v.q, c.r + v.r)
  }

  /** Offset(d), written out. */
  function Shift(R: nat, d: Direction): Coord {
    match d
    case 0 => Coord(2 * R + 1, 0 - R)
    case 1 => Coord(R + 1, 0 - 2 * R - 1)
    case 2 => Coord(0 - R, 0 - R - 1)
    case 3 => Coord(0 - 2 * R - 1, R)
    case 4 => Coord(0 - R - 1, 2 * R + 1)
    case _ => Coord(R, R + 1)
  }

  /** Within R of the origin. */
  predicate Inside(R: nat, c: Coord) {
    0 - R <= c.q <= R && 0 - R <= c.r <= R && 0 - R <= c.q + c.r <= R
  }

  /** The m-th face of a canonical border's path: the cells' lone faces, each next cell's secondary face before its lone one. */
  function PathFace(R: nat, d: Direction, m: nat): Face
    requires d < 3
  {
    if m % 2 == 0 then FaceOf(BorderCell(R, d, m / 2), d) else FaceOf(BorderCell(R, d, m / 2 + 1), d + 1)
  }

  /** The faces between the chunk at the origin and its neighbour in direction d, in border-path order. */
  function Border(R: nat, d: Direction): (b: seq<Face>)
    ensures |b| == 2 * R + 1
  {
    if d < 3 then seq(2 * R + 1, i requires 0 <= i < 2 * R + 1 => PathFace(R, d, 2 * R - i))
    else seq(2 * R + 1, i requires 0 <= i < 2 * R + 1 => Translate(PathFace(R, Opposite(d), 2 * R - i), Shift(R, d)))
  }

  function Reverse<T>(s: seq<T>): (r: seq<T>)
    ensures |r| == |s| && forall i :: 0 <= i < |s| ==> r[i] == s[|s| - 1 - i]
  {
    seq(|s|, i requires 0 <= i < |s| => s[|s| - 1 - i])
  }

  /** Two faces meet at a vertex: of the four cells they part, one is common and the other two are neighbours. */
  predicate ShareVertex(f: Face, g: Face) {
    var a, b := f.cell, Neighbor(f.cell, f.dir);
    var c, d := g.cell, Neighbor(g.cell, g.dir);
    f != g &&
    ((a == c && Adjacent(b, d)) || (a == d && Adjacent(b, c)) || (b == c && Adjacent(a, d)) || (b == d && Adjacent(a, c)))
  }

  /** Side d' of cell c leads from the origin chunk into its neighbour in direction d. */
  predicate Crosses(R: nat, d: Direction, c: Coord, d': Direction) {
    var n := Neighbor(c, d');
    Inside(R, c) && Inside(R, Coord(n.q - Shift(R, d).q, n.r - Shift(R, d).r))
  }

  lemma UnitCentres(R: nat)
    ensures Center(R, Chunk(1, 0)) == Shift(R, DIR_E) && Center(R, Chunk(1, -1)) == Shift(R, DIR_NE)
    ensures Center(R, Chunk(0, -1)) == Shift(R, DIR_NW) && Center(R, Chunk(-1, 0)) == Shift(R, DIR_W)
    ensures Center(R, Chunk(-1, 1)) == Shift(R, DIR_SW) && Center(R, Chunk(0, 1)) == Shift(R, DIR_SE)
    ensures Center(R, ORIGIN_CHUNK) == ORIGIN
  {
  }

  lemma ShiftIsOffset(R: nat, d: Direction)
    ensures Offset(R, d) == Shift(R, d)
  {
    UnitCentres(R);
  }

  lemma InsideIsHeld(R: nat, c: Coord, v: Coord)
    ensures Inside(R, Coord(c.q - v.q, c.r - v.r)) <==> Distance(c, v) <= R
  {
    HexWithin(c.q - v.q, c.r - v.r, R);
  }

  /** Crossing, in the lattice's own terms: one side held by the origin chunk, the other by its neighbour. */
  lemma CrossesMeansHeld(R: nat, d: Direction, c: Coord, d': Direction)
    ensures Crosses(R, d, c, d') <==> Holds(R, ORIGIN_CHUNK, c) && Holds(R, ChunkNeighbor(ORIGIN_CHUNK, d), Neighbor(c, d'))
  {
    ShiftIsOffset(R, d);
    UnitCentres(R);
    InsideIsHeld(R, c, ORIGIN);
    InsideIsHeld(R, Neighbor(c, d'), Shift(R, d));
  }

  lemma PathFaceCrosses(R: nat, d: Direction, m: nat)
    requires d < 3 && m <= 2 * R
    ensures exists c, d' :: Crosses(R, d, c, d') && FaceOf(c, d') == PathFace(R, d, m)
  {
    var x := m / 2;
    assert m == 2 * x || m == 2 * x + 1;
    if m % 2 == 0 {
      assert Crosses(R, d, BorderCell(R, d, x), d);
    } else {
      assert Crosses(R, d, BorderCell(R, d, x + 1), d + 1);
    }
  }

  lemma CrossingOnPath(R: nat, d: Direction, c: Coord, d': Direction)
    requires d < 3 && Crosses(R, d, c, d')
    ensures exists m: nat :: m <= 2 * R && FaceOf(c, d') == PathFace(R, d, m)
  {
    var x := match d case 0 => c.r + R case 1 => c.q case _ => c.q + R;
    CrossingCell(R, d, c, d');
    var m := if d' == d then 2 * x else 2 * x - 1;
    assert m / 2 == (if d' == d then x else x - 1);
    assert 0 <= m <= 2 * R && PathFace(R, d, m) == FaceOf(c, d');
  }

  lemma CrossingCell(R: nat, d: Direction, c: Coord, d': Direction)
    requires d < 3 && Crosses(R, d, c, d')
    ensures var x := match d case 0 => c.r + R case 1 => c.q case _ => c.q + R;
            BorderCell(R, d, x) == c && 0 <= x <= R && (d' == d || (d' == d + 1 && 1 <= x))
  {
    if d == 0 { assert c.q == R; } else if d == 1 { assert c.r == 0 - R; } else { assert c.q + c.r == 0 - R; }
  }

  lemma PathDistinct(R: nat, d: Direction, m: nat, m': nat)
    requires d < 3 && m < m'
    ensures PathFace(R, d, m) != PathFace(R, d, m')
  {
    var x, x' := m / 2, m' / 2;
    assert m == 2 * x || m == 2 * x + 1;
    assert m' == 2 * x' || m' == 2 * x' + 1;
    if m % 2 == m' % 2 {
      assert x < x';
    }
  }

  lemma PathTurnsAtVertices(R: nat, d: Direction, m: nat)
    requires d < 3
    ensures ShareVertex(PathFace(R, d, m + 1), PathFace(R, d, m))
  {
    hide ShareVertex;
    var x := m / 2;
    PathDistinct(R, d, m, m + 1);
    var c, c' := BorderCell(R, d, x), BorderCell(R, d, x + 1);
    if m % 2 == 0 {
      assert (m + 1) / 2 == x && (m + 1) % 2 == 1;
      var a: Direction := match d case 0 => DIR_NW case 1 => DIR_W case _ => DIR_SW;
      assert Neighbor(c', a) == c || Neighbor(c, Opposite(a)) == c';
      FacesMeet(c, d, c', d + 1);
    } else {
      assert (m + 1) / 2 == x + 1 && (m + 1) % 2 == 0;
      FacesMeet(c', d, c', d + 1);
    }
  }

  /** Two sides of one cell in adjacent directions meet, and so do sides of two cells that face a common third. */
  lemma FacesMeet(c: Coord, d: Direction, c': Coord, d': Direction)
    requires d < 3 && d' == d + 1
    requires c == c' || Neighbor(c, d) == Neighbor(c', d')
    ensures FaceOf(c, d) != FaceOf(c', d') ==> ShareVertex(FaceOf(c, d), FaceOf(c', d')) && ShareVertex(FaceOf(c', d'), FaceOf(c, d))
  {
    var turn: Direction := (d + 2) % 6;
    assert Neighbor(Neighbor(c, d), turn) == Neighbor(c, d + 1);
    assert Neighbor(Neighbor(c, d + 1), Opposite(turn)) == Neighbor(c, d);
    assert c != c' ==> Neighbor(c, Opposite(turn)) == c' && Neighbor(c', turn) == c;
  }

  lemma AdjacentIsNear(a: Coord, b: Coord)
    ensures Adjacent(a, b) <==> Hex(b.q - a.q, b.r - a.r) == 1
  {
    if Adjacent(a, b) {
      var d: Direction :| Neighbor(a, d) == b;
    } else {
      assert Neighbor(a, 0) != b && Neighbor(a, 1) != b && Neighbor(a, 2) != b;
      assert Neighbor(a, 3) != b && Neighbor(a, 4) != b && Neighbor(a, 5) != b;
    }
  }

  /** Face 2x of the path, or face 2x + 1. */
  function PathSide(R: nat, d: Direction, x: nat, odd: bool): Face
    requires d < 3
  {
    if odd then FaceOf(BorderCell(R, d, x + 1), d + 1) else FaceOf(BorderCell(R, d, x), d)
  }

  lemma SidesApart(R: nat, d: Direction, x: nat, odd: bool, x': nat, odd': bool)
    requires d < 3 && (x + 1 < x' || (x + 1 == x' && (odd ==> odd')))
    ensures !ShareVertex(PathSide(R, d, x, odd), PathSide(R, d, x', odd'))
  {
    hide Adjacent;
    SideParts(R, d, x, odd);
    SideParts(R, d, x', odd');
    hide PathSide, Neighbor;
  }

  /** The two cells such a face parts: one inside, one outside, both advancing along the border. */
  lemma SideParts(R: nat, d: Direction, x: nat, odd: bool)
    requires d < 3
    ensures var f, inner := PathSide(R, d, x, odd), BorderCell(R, d, if odd then x + 1 else x);
            var outer := Coord(BorderCell(R, d, x).q + Delta(d).q, BorderCell(R, d, x).r + Delta(d).r);
            (f.cell == inner && Neighbor(f.cell, f.dir) == outer) || (f.cell == outer && Neighbor(f.cell, f.dir) == inner)
  {
  }

  lemma PathApart(R: nat, d: Direction, m: nat, m': nat)
    requires d < 3 && m + 2 <= m'
    ensures !ShareVertex(PathFace(R, d, m), PathFace(R, d, m'))
  {
    var x, x' := m / 2, m' / 2;
    hide FaceOf, BorderCell, ShareVertex;
    assert m == 2 * x + m % 2;
    assert m' == 2 * x' + m' % 2;
    SidesApart(R, d, x, m % 2 == 1, x', m' % 2 == 1);
  }

  lemma ShiftsCancel(R: nat, d: Direction, c: Coord)
    ensures Plus(Shift(R, d), Shift(R, Opposite(d))) == ORIGIN
    ensures Plus(Plus(c, Shift(R, d)), Shift(R, Opposite(d))) == c
  {
  }

  lemma FaceOfTranslates(c: Coord, d: Direction, v: Coord)
    ensures FaceOf(Plus(c, v), d) == Translate(FaceOf(c, d), v)
    ensures Neighbor(Plus(c, v), d) == Plus(Neighbor(c, d), v)
  {
  }

  lemma CrossesFromEitherSide(R: nat, d: Direction, c: Coord, d': Direction)
    requires Crosses(R, d, c, d')
    ensures var v := Shift(R, Opposite(d));
            var n := Plus(Neighbor(c, d'), v);
            Crosses(R, Opposite(d), n, Opposite(d')) && FaceOf(n, Opposite(d')) == Translate(FaceOf(c, d'), v)
  {
    var v := Shift(R, Opposite(d));
    var n := Neighbor(c, d');
    OppositeReturns(c, d');
    FaceNamesOneBoundary(c, d', n, Opposite(d'));
    FaceOfTranslates(n, Opposite(d'), v);
    ShiftsCancel(R, d, c);
  }

  /**
   Border(d) lists, without repetition and in path order, exactly the faces
   that lead from the origin chunk into its neighbour in direction d.
   */
  lemma BorderIsExact(R: nat, d: Direction)
    ensures forall f :: f in Border(R, d) <==> exists c, d' :: Crosses(R, d, c, d') && FaceOf(c, d') == f
    ensures forall i, j :: 0 <= i < j < 2 * R + 1 ==> Border(R, d)[i] != Border(R, d)[j]
    ensures forall i :: 0 <= i < 2 * R ==> ShareVertex(Border(R, d)[i], Border(R, d)[i + 1])
  {
    var b := Border(R, d);
    forall i, j | 0 <= i < j < 2 * R + 1
      ensures b[i] != b[j]
    {
      BorderDistinct(R, d, i, j);
    }
    forall i | 0 <= i < 2 * R
      ensures ShareVertex(b[i], b[i + 1])
    {
      BorderTurnsAtVertices(R, d, i);
    }
    forall f | f in b
      ensures exists c, d' :: Crosses(R, d, c, d') && FaceOf(c, d') == f
    {
      var i :| 0 <= i < 2 * R + 1 && b[i] == f;
      BorderFaceCrosses(R, d, i);
    }
    forall c, d' | Crosses(R, d, c, d')
      ensures FaceOf(c, d') in b
    {
      CrossingOnBorder(R, d, c, d');
    }
  }

  /** The chunk's corner cell in direction d from its centre. */
  function Corner(R: nat, d: Direction): Coord {
    match d
    case 0 => Coord(R, 0)
    case 1 => Coord(R, 0 - R)
    case 2 => Coord(0, 0 - R)
    case 3 => Coord(0 - R, 0)
    case 4 => Coord(0 - R, R)
    case _ => Coord(0, R)
  }

  /** A canonical border's path runs from the corner its direction points at to the next corner. */
  lemma BorderRuns(R: nat, d: Direction)
    requires d < 3
    ensures Border(R, d)[0] == Face(Corner(R, d), d) && Border(R, d)[2 * R] == Face(Corner(R, d + 1), d)
  {
    var b, last := Border(R, d), 2 * R;
    assert last % 2 == 0 && last / 2 == R;
    assert b[0] == PathFace(R, d, last) && b[last] == PathFace(R, d, 0);
    assert Opposite(d) == d + 3;
  }

  lemma BorderDistinct(R: nat, d: Direction, i: nat, j: nat)
    requires i < j <= 2 * R
    ensures Border(R, d)[i] != Border(R, d)[j]
  {
    var base: Direction := if d < 3 then d else Opposite(d);
    PathDistinct(R, base, 2 * R - j, 2 * R - i);
  }

  lemma BorderTurnsAtVertices(R: nat, d: Direction, i: nat)
    requires i < 2 * R
    ensures ShareVertex(Border(R, d)[i], Border(R, d)[i + 1])
  {
    hide ShareVertex, PathFace;
    var base: Direction := if d < 3 then d else Opposite(d);
    PathTurnsAtVertices(R, base, 2 * R - i - 1);
    if d >= 3 {
      VertexTranslates(PathFace(R, base, 2 * R - i), PathFace(R, base, 2 * R - i - 1), Shift(R, d));
    }
  }

  /** Two faces of a border share a vertex exactly when they are consecutive in its list. */
  lemma OnlyConsecutiveTouch(R: nat, d: Direction, i: nat, j: nat)
    requires i < j <= 2 * R
    ensures ShareVertex(Border(R, d)[i], Border(R, d)[j]) <==> j == i + 1
  {
    hide ShareVertex, PathFace;
    if j == i + 1 {
      BorderTurnsAtVertices(R, d, i);
    } else {
      var base: Direction := if d < 3 then d else Opposite(d);
      var f, g := PathFace(R, base, 2 * R - i), PathFace(R, base, 2 * R - j);
      PathApart(R, base, 2 * R - j, 2 * R - i);
      if ShareVertex(f, g) { ShareVertexBack(f, g); }
      if d >= 3 {
        var v := Shift(R, Opposite(d));
        ShiftsCancel(R, d, f.cell);
        ShiftsCancel(R, d, g.cell);
        if ShareVertex(Translate(f, Shift(R, d)), Translate(g, Shift(R, d))) {
          VertexTranslates(Translate(f, Shift(R, d)), Translate(g, Shift(R, d)), v);
        }
      }
    }
  }

  lemma ShareVertexBack(f: Face, g: Face)
    requires ShareVertex(f, g)
    ensures ShareVertex(g, f)
  {
    var a, b := f.cell, Neighbor(f.cell, f.dir);
    var c, d := g.cell, Neighbor(g.cell, g.dir);
    AdjacentSymmetric(a, c);
    AdjacentSymmetric(a, d);
    AdjacentSymmetric(b, c);
    AdjacentSymmetric(b, d);
  }

  lemma AdjacentSymmetric(a: Coord, b: Coord)
    ensures Adjacent(a, b) <==> Adjacent(b, a)
  {
    AdjacentIsNear(a, b);
    AdjacentIsNear(b, a);
  }

  lemma AdjacentTranslates(a: Coord, b: Coord, v: Coord)
    requires Adjacent(a, b)
    ensures Adjacent(Plus(a, v), Plus(b, v))
  {
    var d: Direction :| Neighbor(a, d) == b;
    assert Neighbor(Plus(a, v), d) == Plus(b, v);
  }

  lemma VertexTranslates(f: Face, g: Face, v: Coord)
    requires ShareVertex(f, g)
    ensures ShareVertex(Translate(f, v), Translate(g, v))
  {
    var a, b := f.cell, Neighbor(f.cell, f.dir);
    var c, d := g.cell, Neighbor(g.cell, g.dir);
    FaceOfTranslates(a, f.dir, v);
    FaceOfTranslates(c, g.dir, v);
    if a == c && Adjacent(b, d) { AdjacentTranslates(b, d, v); }
    else if a == d && Adjacent(b, c) { AdjacentTranslates(b, c, v); }
    else if b == c && Adjacent(a, d) { AdjacentTranslates(a, d, v); }
    else { AdjacentTranslates(a, c, v); }
  }

  lemma TranslatedBorder(R: nat, d: Direction, i: nat)
    requires i <= 2 * R && d >= 3
    ensures Border(R, d)[i] == Translate(Border(R, Opposite(d))[i], Shift(R, d))
  {
  }

  lemma BorderFaceCrosses(R: nat, d: Direction, i: nat)
    requires i <= 2 * R
    ensures exists c, d' :: Crosses(R, d, c, d') && FaceOf(c, d') == Border(R, d)[i]
    decreases d
  {
    if d < 3 {
      PathFaceCrosses(R, d, 2 * R - i);
    } else {
      var e := Opposite(d);
      BorderFaceCrosses(R, e, i);
      var c, d' :| Crosses(R, e, c, d') && FaceOf(c, d') == Border(R, e)[i];
      CrossesFromEitherSide(R, e, c, d');
      OppositeReturns(c, d);
      TranslatedBorder(R, d, i);
      assert Crosses(R, d, Plus(Neighbor(c, d'), Shift(R, d)), Opposite(d'));
    }
  }

  lemma CrossingOnBorder(R: nat, d: Direction, c: Coord, d': Direction)
    requires Crosses(R, d, c, d')
    ensures FaceOf(c, d') in Border(R, d)
    decreases d
  {
    var f := FaceOf(c, d');
    if d < 3 {
      CrossingOnPath(R, d, c, d');
      var m: nat :| m <= 2 * R && f == PathFace(R, d, m);
      assert Border(R, d)[2 * R - m] == f;
    } else {
      var e := Opposite(d);
      CrossesFromEitherSide(R, d, c, d');
      CrossingOnBorder(R, e, Plus(Neighbor(c, d'), Shift(R, e)), Opposite(d'));
      var i :| 0 <= i < |Border(R, e)| && Border(R, e)[i] == Translate(f, Shift(R, e));
      TranslatedBorder(R, d, i);
      OppositeReturns(c, d);
      ShiftsCancel(R, e, f.cell);
    }
  }

  function Exit(R: nat, n: Coord): Direction {
    if n.q == R + 1 then (if n.r == 0 - R - 1 then DIR_NE else DIR_E)
    else if n.r == 0 - R - 1 then (if n.q > 0 then DIR_NE else DIR_NW)
    else if n.q + n.r == 0 - R - 1 then (if n.q == 0 - R - 1 then DIR_W else DIR_NW)
    else if n.q == 0 - R - 1 then (if n.r == R + 1 then DIR_SW else DIR_W)
    else if n.r == R + 1 then (if n.q < 0 then DIR_SW else DIR_SE)
    else DIR_SE
  }

  /** A side of a cell of the origin chunk that leaves the chunk leads into exactly one of the six neighbours. */
  lemma LeavingFaceHasOneBorder(R: nat, c: Coord, d': Direction)
    requires Inside(R, c) && !Inside(R, Neighbor(c, d'))
    ensures exists d: Direction :: Crosses(R, d, c, d')
    ensures forall d1: Direction, d2: Direction :: Crosses(R, d1, c, d') && Crosses(R, d2, c, d') ==> d1 == d2
  {
    var n := Neighbor(c, d');
    ExitCrosses(R, c, d');
    forall d1: Direction, d2: Direction | Crosses(R, d1, c, d') && Crosses(R, d2, c, d')
      ensures d1 == d2
    {
      CrossesMeansHeld(R, d1, c, d');
      CrossesMeansHeld(R, d2, c, d');
      Tiling(R, n, ChunkNeighbor(ORIGIN_CHUNK, d1));
      Tiling(R, n, ChunkNeighbor(ORIGIN_CHUNK, d2));
      DeltasDiffer(d1, d2);
    }
  }

  lemma DeltasDiffer(d1: Direction, d2: Direction)
    ensures Delta(d1) == Delta(d2) <==> d1 == d2
  {
  }

  lemma ExitCrosses(R: nat, c: Coord, d': Direction)
    requires Inside(R, c) && !Inside(R, Neighbor(c, d'))
    ensures Crosses(R, Exit(R, Neighbor(c, d')), c, d')
  {
    var n := Neighbor(c, d');
    assert Inside(R + 1, n);
    var e := Exit(R, n);
    var v := Shift(R, e);
    assert Inside(R, Coord(n.q - v.q, n.r - v.r));
  }

  lemma PathFaceAt(R: nat, d: Direction, x: nat)
    requires d < 3
    ensures PathFace(R, d, 2 * x) == FaceOf(BorderCell(R, d, x), d)
    ensures x > 0 ==> PathFace(R, d, 2 * x - 1) == FaceOf(BorderCell(R, d, x), d + 1)
  {
    if x > 0 { assert 2 * x - 1 == 2 * (x - 1) + 1 && (2 * x - 1) / 2 == x - 1; }
  }

  method ReverseBySwaps<T>(s: seq<T>) returns (r: seq<T>)
    ensures r == Reverse(s)
  {
    r := s;
    var i, j := 0, |s| - 1;
    while i < j
      invariant 0 <= i <= j + 1 && i + j == |s| - 1 && |r| == |s|
      invariant forall k :: 0 <= k < i || j < k < |r| ==> r[k] == s[|s| - 1 - k]
      invariant forall k :: i <= k <= j ==> r[k] == s[k]
    {
      r := r[i := r[j]][j := r[i]];
      i, j := i + 1, j - 1;
    }
  }

  /** Lattice.Border, canonical directions: one path built forward, then reversed in place. */
  method CanonicalBorder(R: nat, d: Direction) returns (faces: seq<Face>)
    requires d < 3
    ensures faces == Border(R, d)
  {
    faces := [FaceOf(BorderCell(R, d, 0), d)];
    PathFaceAt(R, d, 0);
    for x := 1 to R + 1
      invariant |faces| == 2 * x - 1
      invariant forall m :: 0 <= m < |faces| ==> faces[m] == PathFace(R, d, m)
    {
      PathFaceAt(R, d, x);
      faces := faces + [FaceOf(BorderCell(R, d, x), d + 1), FaceOf(BorderCell(R, d, x), d)];
    }
    faces := ReverseBySwaps(faces);
  }

  method ListBorder(R: nat, d: Direction) returns (faces: seq<Face>)
    ensures faces == Border(R, d)
  {
    if d < 3 {
      faces := CanonicalBorder(R, d);
    } else {
      var base := CanonicalBorder(R, Opposite(d));
      var offset := Offset(R, d);
      ShiftIsOffset(R, d);
      faces := [];
      for i := 0 to |base|
        invariant |faces| == i
        invariant forall k :: 0 <= k < i ==> faces[k] == Translate(base[k], offset)
      {
        faces := faces + [Translate(base[i], offset)];
      }
      forall i | 0 <= i < |faces| ensures faces[i] == Border(R, d)[i] { TranslatedBorder(R, d, i); }
    }
  }
}
