/** A chunk's map: its cells' face states, and rebuilding one from what was stored. */
module Maps {
  import opened GoInt
  import opened HexGrid
  import opened Lattices
  import opened LocalCells
  import opened ChunkGraphs
  import opened Params

  const MAX_INT32 := 0x7FFF_FFFF

  type FaceState = v: int | -128 <= v < 128

  const FACE_WALL: FaceState := 0
  const FACE_PASSAGE: FaceState := 1

  type CellFaces = f: seq<FaceState> | |f| == 6
    witness [0, 0, 0, 0, 0, 0]

  datatype Map = Map(chunk: Chunk, typ: ChunkType, version: int, graph: ChunkGraph, faces: seq<CellFaces>)

  datatype Refusal =
    | UnknownType
    | BadVersion
    | NotAHexagon(length: nat)
    | StrayState(cell: nat)
    | Disagreement(face: InteriorFace)
    | RadiusMismatch(length: nat, want: nat)
    | StrayBits(cell: nat)

  datatype MapResult = MapOk(m: Map) | MapErr(error: Refusal)

  predicate IsState(f: FaceState) {
    f == FACE_WALL || f == FACE_PASSAGE
  }

  predicate StatesOk(f: CellFaces) {
    forall d: Direction :: IsState(f[d])
  }

  /** Both cells of an interior face give it the same state. */
  predicate Agrees(faces: seq<CellFaces>, f: InteriorFace)
    requires f.a < |faces| && f.b < |faces|
  {
    faces[f.a][f.dir] == faces[f.b][Opposite(f.dir)]
  }

  ghost predicate InteriorAgrees(g: ChunkGraph, faces: seq<CellFaces>)
    requires |faces| == |g.cells|
  {
    forall f :: IsInteriorFace(g, f) ==> Agrees(faces, f)
  }

  /** What every Map value is, however it was made. */
  ghost predicate WellFormed(m: Map) {
    && IsChunkGraph(m.graph)
    && MIN_RADIUS <= m.graph.radius <= MAX_INT32
    && m.typ != Unset && 1 <= m.version
    && |m.faces| == |m.graph.cells|
    && (forall i :: 0 <= i < |m.faces| ==> StatesOk(m.faces[i]))
    && InteriorAgrees(m.graph, m.faces)
  }

  /** A map's chunk, type, version and faces leave no choice of anything else. */
  lemma MapDetermined(m: Map, m': Map)
    requires WellFormed(m) && WellFormed(m')
    requires m.chunk == m'.chunk && m.typ == m'.typ && m.version == m'.version && m.faces == m'.faces
    ensures m == m'
  {
    hide IsChunkGraph, InteriorAgrees;
    GraphCellCount(m.graph);
    GraphCellCount(m'.graph);
    RadiusUnique(m.graph.radius, m'.graph.radius);
    GraphDetermined(m.graph, m'.graph);
  }

  lemma GraphCellCount(g: ChunkGraph)
    requires IsChunkGraph(g)
    ensures |g.cells| == CellCount(g.radius)
  {
    CellsAreTheHexagon(g.radius);
  }

  lemma RadiusUnique(r: nat, r': nat)
    ensures CellCount(r) == CellCount(r') <==> r == r'
  {
    if r < r' { CellCountGrows(r, r'); } else if r' < r { CellCountGrows(r', r); }
  }

  lemma CellCountGrows(r: nat, r': nat)
    requires r < r'
    ensures CellCount(r) < CellCount(r')
  {
    var k := r' - r;
    assert CellCount(r') == CellCount(r) + 3 * k * (2 * r + k + 1);
    MulMonotone(1, 2 * r + k + 1, k);
  }

  // ---------- Reading a face ----------

  /** Map.Faces. */
  method Faces(m: Map, local: Coord) returns (faces: CellFaces, ok: bool)
    requires WellFormed(m)
    ensures ok <==> Distance(local, ORIGIN) <= m.graph.radius
    ensures ok ==> exists i :: 0 <= i < |m.faces| && m.graph.cells[i] == local && m.faces[i] == faces
  {
    CellsAreTheHexagon(m.graph.radius);
    if local !in m.graph.index {
      return [FACE_WALL, FACE_WALL, FACE_WALL, FACE_WALL, FACE_WALL, FACE_WALL], false;
    }
    return m.faces[m.graph.index[local]], true;
  }

  lemma LocalIsCell(m: Map, c: Coord)
    requires WellFormed(m) && Holds(m.graph.radius, m.chunk, c)
    ensures Local(m.graph.radius, m.chunk, c) in m.graph.index
  {
    CellsAreTheHexagon(m.graph.radius);
  }

  /** The index of absolute cell c in its chunk's map. */
  function CellAt(m: Map, c: Coord): (i: nat)
    requires WellFormed(m) && Holds(m.graph.radius, m.chunk, c)
    ensures i < |m.faces| && m.graph.cells[i] == Local(m.graph.radius, m.chunk, c)
  {
    LocalIsCell(m, c);
    m.graph.index[Local(m.graph.radius, m.chunk, c)]
  }

  /** The state map m gives side d of absolute cell c. */
  function StateAt(m: Map, c: Coord, d: Direction): FaceState
    requires WellFormed(m) && Holds(m.graph.radius, m.chunk, c)
  {
    m.faces[CellAt(m, c)][d]
  }

  // ---------- Radius from a cell count ----------

  predicate IsSqrt(n: nat, x: nat) {
    x * x <= n < (x + 1) * (x + 1)
  }

  lemma SqrtUnique(n: nat, x: nat, y: nat)
    requires IsSqrt(n, x) && IsSqrt(n, y)
    ensures x == y
  {
    if x < y { SquareMonotone(x + 1, y); }
    if y < x { SquareMonotone(y + 1, x); }
  }

  lemma SquareMonotone(a: nat, b: nat)
    requires a <= b
    ensures a * a <= b * b
  {
    MulMonotone(a, b, a);
    MulMonotone(a, b, b);
  }

  /** A Newton step never falls below the root. */
  lemma NewtonAbove(n: nat, x: nat)
    requires 1 <= x
    ensures var y := (x + n / x) / 2; n < (y + 1) * (y + 1)
  {
    var k := n / x + 1;
    var y := (x + n / x) / 2;
    DivBounds(n, x);
    assert n < x * k by { assert x * k == n / x * x + x; }
    MeanBound(x, k);
    assert x + k <= 2 * (y + 1);
    SquareMonotone(x + k, 2 * (y + 1));
    assert (2 * (y + 1)) * (2 * (y + 1)) == 4 * ((y + 1) * (y + 1));
  }

  lemma MeanBound(a: nat, b: nat)
    ensures 4 * (a * b) <= (a + b) * (a + b)
  {
    var d := if a <= b then b - a else a - b;
    SquareMonotone(0, d);
    assert (a + b) * (a + b) == 4 * (a * b) + d * d;
  }

  lemma NewtonBelow(n: nat, x: nat)
    requires 1 <= x && x <= (x + n / x) / 2
    ensures x * x <= n
  {
    DivBounds(n, x);
    MulMonotone(x, n / x, x);
  }

  /** isqrt, by Newton's method over integers. */
  method ISqrt(n: nat) returns (x: nat)
    ensures IsSqrt(n, x)
  {
    if n < 2 {
      return n;
    }
    x := n;
    var y := (x + 1) / 2;
    OwnQuotient(n);
    SquareAbove(n);
    while y < x
      invariant 1 <= x && y == (x + n / x) / 2
      invariant n < (x + 1) * (x + 1)
      decreases x
    {
      NewtonAbove(n, x);
      NewtonPositive(n, x);
      x := y;
      y := (x + n / x) / 2;
    }
    NewtonBelow(n, x);
  }

  lemma OwnQuotient(n: nat)
    requires 1 <= n
    ensures n / n == 1
  {
  }

  lemma SquareAbove(n: nat)
    ensures n < (n + 1) * (n + 1)
  {
    assert (n + 1) * (n + 1) == n * n + 2 * n + 1;
    SquareMonotone(0, n);
  }

  lemma NewtonPositive(n: nat, x: nat)
    requires 1 <= x && 2 <= n
    ensures 1 <= (x + n / x) / 2
  {
    DivBounds(n, x);
    if x == 1 { assert n / x == n; }
  }

  /** radiusForCellCount: inverts 3r^2 + 3r + 1, and rejects every other count. */
  method RadiusForCellCount(n: int) returns (r: int, ok: bool)
    ensures ok <==> exists x: nat :: x <= MAX_INT32 && CellCount(x) == n
    ensures ok ==> 0 <= r <= MAX_INT32 && CellCount(r) == n
    ensures !ok ==> r == 0
  {
    hide IsSqrt, CellCount;
    var disc := 12 * n - 3;
    if disc < 0 {
      NoNegativeRoot(n);
      return 0, false;
    }
    var s := ISqrt(disc);
    if s * s != disc {
      NoRadius(n, s);
      return 0, false;
    }
    var num := s - 3;
    if num < 0 || num % 6 != 0 {
      NoRadius(n, s);
      return 0, false;
    }
    var root := num / 6;
    OneRadius(n, s, root);
    if root > MAX_INT32 {
      return 0, false;
    }
    return root, true;
  }

  lemma NoNegativeRoot(n: int)
    requires 12 * n - 3 < 0
    ensures forall x: nat :: CellCount(x) != n
  {
    forall x: nat ensures CellCount(x) != n { Discriminant(x); }
  }

  /** Without a root of the form 6x + 3 there is no radius. */
  lemma NoRadius(n: int, s: nat)
    requires 0 <= 12 * n - 3 && IsSqrt(12 * n - 3, s)
    requires s * s != 12 * n - 3 || s < 3 || (s - 3) % 6 != 0
    ensures forall x: nat :: CellCount(x) != n
  {
    hide CellCount, IsSqrt;
    forall x: nat
      ensures CellCount(x) != n
    {
      if CellCount(x) == n { RootOf(n, s, x); SixTimes(x, s); }
    }
  }

  lemma SixTimes(x: nat, s: nat)
    requires s == 6 * x + 3
    ensures 3 <= s && (s - 3) % 6 == 0
  {
  }

  /** With one there is exactly that radius. */
  lemma OneRadius(n: int, s: nat, root: nat)
    requires 0 <= 12 * n - 3 && IsSqrt(12 * n - 3, s) && s * s == 12 * n - 3 && s == 6 * root + 3
    ensures CellCount(root) == n && forall x: nat :: CellCount(x) == n ==> x == root
  {
    hide CellCount, IsSqrt;
    Discriminant(root);
    forall x: nat | CellCount(x) == n ensures x == root { RootOf(n, s, x); }
  }

  lemma RootOf(n: int, s: nat, x: nat)
    requires 0 <= 12 * n - 3 && IsSqrt(12 * n - 3, s) && CellCount(x) == n
    ensures s * s == 12 * n - 3 && s == 6 * x + 3
  {
    Discriminant(x);
    hide CellCount, IsSqrt;
    ExactRoot(6 * x + 3);
    SqrtUnique(12 * n - 3, s, 6 * x + 3);
  }

  lemma Discriminant(x: nat)
    ensures 12 * CellCount(x) - 3 == (6 * x + 3) * (6 * x + 3)
  {
  }

  lemma ExactRoot(s: nat)
    ensures 0 <= s * s && IsSqrt(s * s, s)
  {
    assert (s + 1) * (s + 1) == s * s + 2 * s + 1;
    SquareMonotone(0, s);
  }

  // ---------- Rebuilding a map ----------

  /** That many faces name a hexagon a map may have. */
  ghost predicate NamesRadius(length: nat, r: nat) {
    MIN_RADIUS <= r <= MAX_INT32 && CellCount(r) == length
  }

  /** NewMap's refusal names something that is wrong, the first check that fails. */
  ghost predicate Refuses(typ: ChunkType, version: int, faces: seq<CellFaces>, e: Refusal) {
    match e
    case UnknownType => typ == Unset
    case BadVersion => typ != Unset && version < 1
    case NotAHexagon(n) =>
      typ != Unset && 1 <= version && n == |faces| && forall r: nat :: !NamesRadius(n, r)
    case StrayState(i) =>
      typ != Unset && 1 <= version && (exists r: nat :: NamesRadius(|faces|, r)) && i < |faces| && !StatesOk(faces[i])
      && forall k :: 0 <= k < i ==> StatesOk(faces[k])
    case Disagreement(f) =>
      typ != Unset && 1 <= version && (forall k :: 0 <= k < |faces| ==> StatesOk(faces[k]))
      && exists g :: IsChunkGraph(g) && NamesRadius(|faces|, g.radius) && IsInteriorFace(g, f) && |faces| == |g.cells| && !Agrees(faces, f)
    case _ => false
  }

  /** m is the map those parts rebuild. */
  ghost predicate IsRebuilt(m: Map, ch: Chunk, typ: ChunkType, version: int, faces: seq<CellFaces>) {
    WellFormed(m) && m.chunk == ch && m.typ == typ && m.version == version && m.faces == faces
  }

  /** NewMap: accepts exactly the parts of a map, and gives that map back. */
  method NewMap(ch: Chunk, typ: ChunkType, version: int, faces: seq<CellFaces>) returns (res: MapResult)
    ensures res.MapOk? <==> exists m :: IsRebuilt(m, ch, typ, version, faces)
    ensures res.MapOk? ==> IsRebuilt(res.m, ch, typ, version, faces)
    ensures res.MapErr? ==> Refuses(typ, version, faces, res.error)
  {
    hide IsChunkGraph, CellCount, IsInteriorFace, Agrees, StatesOk;
    if typ == Unset {
      return MapErr(UnknownType);
    }
    if version < 1 {
      return MapErr(BadVersion);
    }
    var r, ok := RadiusForCellCount(|faces|);
    assert ok ==> forall x: nat :: CellCount(x) == |faces| ==> x == r by {
      forall x: nat | ok && CellCount(x) == |faces| ensures x == r { RadiusUnique(x, r); }
    }
    if !ok || r < MIN_RADIUS {
      forall m | IsRebuilt(m, ch, typ, version, faces) ensures false { GraphCellCount(m.graph); }
      return MapErr(NotAHexagon(|faces|));
    }
    assert NamesRadius(|faces|, r);
    var g := NewChunkGraph(r);
    GraphCellCount(g);
    forall m | IsRebuilt(m, ch, typ, version, faces)
      ensures m.graph == g
    {
      GraphCellCount(m.graph);
      GraphDetermined(m.graph, g);
    }
    for idx := 0 to |faces|
      invariant forall k :: 0 <= k < idx ==> StatesOk(faces[k])
    {
      var clean := CheckStates(faces[idx]);
      if !clean {
        return MapErr(StrayState(idx));
      }
    }
    var interior := InteriorFaces(g);
    forall k | 0 <= k < |interior|
      ensures interior[k].a < |faces| && interior[k].b < |faces|
    {
      assert interior[k] in interior;
      FaceStartsInside(g, interior[k]);
    }
    var first := FirstDisagreement(faces, interior);
    if first < |interior| {
      assert interior[first] in interior;
      return MapErr(Disagreement(interior[first]));
    }
    var m := Map(ch, typ, version, g, faces);
    assert IsRebuilt(m, ch, typ, version, faces);
    return MapOk(m);
  }

  /** The first listed face whose two sides differ, or the end of the list. */
  method FirstDisagreement(faces: seq<CellFaces>, interior: seq<InteriorFace>) returns (first: nat)
    requires forall k :: 0 <= k < |interior| ==> interior[k].a < |faces| && interior[k].b < |faces|
    ensures first <= |interior| && (first < |interior| ==> !Agrees(faces, interior[first]))
    ensures forall k :: 0 <= k < first ==> Agrees(faces, interior[k])
  {
    for i := 0 to |interior|
      invariant forall k :: 0 <= k < i ==> Agrees(faces, interior[k])
    {
      var f := interior[i];
      var aState := faces[f.a][f.dir];
      var bState := faces[f.b][Opposite(f.dir)];
      AgreesIs(faces, f);
      if aState != bState {
        return i;
      }
    }
    return |interior|;
  }

  lemma AgreesIs(faces: seq<CellFaces>, f: InteriorFace)
    requires f.a < |faces| && f.b < |faces|
    ensures Agrees(faces, f) <==> faces[f.a][f.dir] == faces[f.b][Opposite(f.dir)]
  {
  }

  method CheckStates(f: CellFaces) returns (clean: bool)
    ensures clean <==> StatesOk(f)
  {
    for d := 0 to 6
      invariant forall k: Direction :: k < d ==> IsState(f[k])
    {
      if f[d] != FACE_WALL && f[d] != FACE_PASSAGE {
        return false;
      }
    }
    return true;
  }
}
