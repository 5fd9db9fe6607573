/** One chunk's cells as a graph: local coordinates, plain indices, and interior adjacency. */
module ChunkGraphs {
  import opened HexGrid
  import opened Lattices
  import opened LocalCells
  import opened Graphs

  datatype ChunkGraph = ChunkGraph(radius: nat, cells: seq<Coord>, index: map<Coord, nat>)

  /** g is the graph newChunkGraph builds: the lattice's local cells, and index its inverse. */
  ghost predicate IsChunkGraph(g: ChunkGraph) {
    && g.cells == Cells(g.radius)
    && (forall c :: c in g.index <==> c in g.cells)
    && (forall c :: c in g.index ==> g.index[c] < |g.cells| && g.cells[g.index[c]] == c)
    && (forall i :: 0 <= i < |g.cells| ==> g.cells[i] in g.index && g.index[g.cells[i]] == i)
  }

  method NewChunkGraph(R: nat) returns (g: ChunkGraph)
    ensures IsChunkGraph(g) && g.radius == R
  {
    var cells := ListCells(R);
    CellsAreTheHexagon(R);
    var index: map<Coord, nat> := map[];
    for i := 0 to |cells|
      invariant forall c :: c in index <==> c in cells[..i]
      invariant forall k :: 0 <= k < i ==> cells[k] in index && index[cells[k]] == k
      invariant forall c :: c in index ==> index[c] < i && cells[index[c]] == c
    {
      assert cells[..i + 1] == cells[..i] + [cells[i]];
      index := index[cells[i] := i];
    }
    assert cells[..|cells|] == cells;
    g := ChunkGraph(R, cells, index);
  }

  predicate IsBorderCell(g: ChunkGraph, idx: nat)
    requires idx < |g.cells|
  {
    Distance(g.cells[idx], ORIGIN) == g.radius
  }

  /** The interior neighbours of cell idx in directions d and later. */
  function NeighborsFrom(g: ChunkGraph, idx: nat, d: nat): seq<nat>
    requires idx < |g.cells| && d <= 6
    decreases 6 - d
  {
    if d == 6 then []
    else
      var n := Neighbor(g.cells[idx], d);
      (if n in g.index then [g.index[n]] else []) + NeighborsFrom(g, idx, d + 1)
  }

  function Neighbors(g: ChunkGraph, idx: nat): seq<nat>
    requires idx < |g.cells|
  {
    NeighborsFrom(g, idx, 0)
  }

  lemma {:induction false} NeighborsFromHas(g: ChunkGraph, idx: nat, d: nat, j: nat)
    requires IsChunkGraph(g) && idx < |g.cells| && d <= 6 && j < |g.cells|
    ensures j in NeighborsFrom(g, idx, d) <==> exists k: Direction :: d <= k && Neighbor(g.cells[idx], k) == g.cells[j]
    decreases 6 - d
  {
    hide Neighbor;
    if d < 6 {
      NeighborsFromHas(g, idx, d + 1, j);
      IndexNames(g, Neighbor(g.cells[idx], d), j);
      hide IsChunkGraph;
    }
  }

  lemma IndexNames(g: ChunkGraph, c: Coord, j: nat)
    requires IsChunkGraph(g) && j < |g.cells|
    ensures c == g.cells[j] <==> c in g.index && g.index[c] == j
  {
  }

  lemma {:induction false} NeighborsInRange(g: ChunkGraph, idx: nat, d: nat)
    requires IsChunkGraph(g) && idx < |g.cells| && d <= 6
    ensures forall j :: j in NeighborsFrom(g, idx, d) ==> j < |g.cells|
    decreases 6 - d
  {
    if d < 6 { NeighborsInRange(g, idx, d + 1); }
  }

  /** Two cells of the chunk are neighbours in the graph exactly when they are on the lattice; so the relation is symmetric. */
  lemma NeighborsAreAdjacent(g: ChunkGraph, i: nat, j: nat)
    requires IsChunkGraph(g) && i < |g.cells| && j < |g.cells|
    ensures j in Neighbors(g, i) <==> Adjacent(g.cells[i], g.cells[j])
    ensures j in Neighbors(g, i) <==> i in Neighbors(g, j)
    ensures i !in Neighbors(g, i)
  {
    hide Neighbor, NeighborsFrom;
    NeighborsFromHas(g, i, 0, j);
    NeighborsFromHas(g, j, 0, i);
    NeighborsFromHas(g, i, 0, i);
    AdjacentBack(g.cells[i], g.cells[j]);
    AdjacentBack(g.cells[j], g.cells[i]);
    forall d: Direction ensures Neighbor(g.cells[i], d) != g.cells[i] { NeverOwnNeighbor(g.cells[i], d); }
  }

  lemma NeverOwnNeighbor(c: Coord, d: Direction)
    ensures Neighbor(c, d) != c
  {
  }

  lemma AdjacentBack(a: Coord, b: Coord)
    ensures Adjacent(a, b) ==> Adjacent(b, a)
  {
    if Adjacent(a, b) { OppositeOf(a, b); }
  }

  lemma OppositeOf(a: Coord, b: Coord)
    requires Adjacent(a, b)
    ensures Adjacent(b, a)
  {
    hide Neighbor, Opposite;
    var d: Direction :| Neighbor(a, d) == b;
    OppositeReturns(a, d);
    assert Neighbor(b, Opposite(d)) == a;
  }

  /** The edges of the chunk's graph between cells of vs. */
  ghost function GraphEdges(g: ChunkGraph, vs: set<int>): (e: EdgeSet)
    requires forall v :: v in vs ==> 0 <= v < |g.cells|
  {
    set a, b | a in vs && b in vs && b in Neighbors(g, a) :: NewEdgeKey(a, b)
  }

  lemma GraphEdgesHas(g: ChunkGraph, vs: set<int>, a: int, b: int)
    requires IsChunkGraph(g) && forall v :: v in vs ==> 0 <= v < |g.cells|
    ensures Has(GraphEdges(g, vs), a, b) <==> a in vs && b in vs && b in Neighbors(g, a)
    ensures EdgesWithin(GraphEdges(g, vs), vs) && Canonical(GraphEdges(g, vs))
  {
    hide Neighbors, IsChunkGraph;
    if a in vs && b in vs { NeighborsAreAdjacent(g, a, b); }
    if Has(GraphEdges(g, vs), a, b) {
      var x, y :| x in vs && y in vs && y in Neighbors(g, x) && NewEdgeKey(x, y) == NewEdgeKey(a, b);
      assert (x == a && y == b) || (x == b && y == a);
    }
  }

  ghost function AllCells(g: ChunkGraph): (s: set<int>)
    ensures forall v :: v in s <==> 0 <= v < |g.cells|
    ensures |s| == |g.cells|
  {
    Below(|g.cells|)
  }

  function Below(n: nat): (s: set<int>)
    ensures forall v :: v in s <==> 0 <= v < n
    ensures |s| == n
  {
    if n == 0 then {} else Below(n - 1) + {n - 1}
  }

  // ---------- Interior faces ----------

  /** An interior face: the two cells it joins, the lower index first, and the direction from a to b. */
  datatype InteriorFace = InteriorFace(a: nat, b: nat, dir: Direction)

  function KeyOf(f: InteriorFace): EdgeKey {
    NewEdgeKey(f.a, f.b)
  }

  ghost predicate IsInteriorFace(g: ChunkGraph, f: InteriorFace) {
    f.a < f.b < |g.cells| && g.cells[f.b] == Neighbor(g.cells[f.a], f.dir)
  }

  /** Cell order, then direction order. */
  predicate FaceBefore(f: InteriorFace, f': InteriorFace) {
    f.a < f'.a || (f.a == f'.a && f.dir < f'.dir)
  }

  /** The faces of cell idx that lead onward in the order, in the directions below d. */
  function FacesOf(g: ChunkGraph, idx: nat, d: nat): seq<InteriorFace>
    requires idx < |g.cells| && d <= 6
  {
    if d == 0 then []
    else
      var n := Neighbor(g.cells[idx], d - 1);
      FacesOf(g, idx, d - 1) + if n in g.index && g.index[n] > idx then [InteriorFace(idx, g.index[n], d - 1)] else []
  }

  /** The interior faces of the first k cells. */
  function FacesBelow(g: ChunkGraph, k: nat): seq<InteriorFace>
    requires k <= |g.cells|
  {
    if k == 0 then [] else FacesBelow(g, k - 1) + FacesOf(g, k - 1, 6)
  }

  ghost predicate InFaceOrder(faces: seq<InteriorFace>) {
    forall i, j :: 0 <= i < j < |faces| ==> FaceBefore(faces[i], faces[j])
  }

  lemma {:induction false} FacesOfAre(g: ChunkGraph, idx: nat, d: nat)
    requires IsChunkGraph(g) && idx < |g.cells| && d <= 6
    ensures forall f :: f in FacesOf(g, idx, d) <==> IsInteriorFace(g, f) && f.a == idx && f.dir < d
    ensures InFaceOrder(FacesOf(g, idx, d)) && |FacesOf(g, idx, d)| <= d
  {
    hide Neighbor, IsChunkGraph, IsInteriorFace, FaceBefore;
    if d > 0 {
      FacesOfAre(g, idx, d - 1);
      var less, n := FacesOf(g, idx, d - 1), Neighbor(g.cells[idx], d - 1);
      forall f: InteriorFace | f.a == idx && f.dir == d - 1
        ensures IsInteriorFace(g, f) <==> n in g.index && g.index[n] == f.b && f.b > idx
      {
        FaceInDirection(g, f);
      }
      if n in g.index && g.index[n] > idx { FaceAtEnd(less, InteriorFace(idx, g.index[n], d - 1)); }
    }
  }

  lemma FaceInDirection(g: ChunkGraph, f: InteriorFace)
    requires IsChunkGraph(g) && f.a < |g.cells|
    ensures var n := Neighbor(g.cells[f.a], f.dir); IsInteriorFace(g, f) <==> n in g.index && g.index[n] == f.b && f.b > f.a
  {
    hide Neighbor;
    var n := Neighbor(g.cells[f.a], f.dir);
    if f.b < |g.cells| { IndexNames(g, n, f.b); }
    if n in g.index { IndexInRange(g, n); }
  }

  lemma FaceAtEnd(less: seq<InteriorFace>, f: InteriorFace)
    requires InFaceOrder(less) && forall e :: e in less ==> e.a == f.a && e.dir < f.dir
    ensures InFaceOrder(less + [f])
  {
    assert forall i :: 0 <= i < |less| ==> less[i] in less;
  }

  lemma IndexInRange(g: ChunkGraph, c: Coord)
    requires IsChunkGraph(g) && c in g.index
    ensures g.index[c] < |g.cells| && g.cells[g.index[c]] == c
  {
  }

  lemma {:induction false} FacesBelowAre(g: ChunkGraph, k: nat)
    requires IsChunkGraph(g) && k <= |g.cells|
    ensures forall f :: f in FacesBelow(g, k) <==> IsInteriorFace(g, f) && f.a < k
    ensures InFaceOrder(FacesBelow(g, k)) && |FacesBelow(g, k)| <= 6 * k
  {
    hide IsChunkGraph, IsInteriorFace, FacesOf;
    if k > 0 {
      FacesBelowAre(g, k - 1);
      FacesOfAre(g, k - 1, 6);
      var less, more := FacesBelow(g, k - 1), FacesOf(g, k - 1, 6);
      assert forall i :: 0 <= i < |less| ==> less[i] in less;
      assert forall i :: 0 <= i < |more| ==> more[i] in more;
    }
  }

  /** interiorFaces: every interior face of the chunk exactly once, in cell then direction order. */
  method InteriorFaces(g: ChunkGraph) returns (faces: seq<InteriorFace>)
    requires IsChunkGraph(g)
    ensures faces == FacesBelow(g, |g.cells|)
    ensures forall f :: f in faces <==> IsInteriorFace(g, f)
    ensures InFaceOrder(faces) && |faces| <= 6 * |g.cells|
  {
    hide IsChunkGraph, IsInteriorFace;
    faces := [];
    for idx := 0 to |g.cells|
      invariant faces == FacesBelow(g, idx)
    {
      for d := 0 to 6
        invariant faces == FacesBelow(g, idx) + FacesOf(g, idx, d)
      {
        var n := Neighbor(g.cells[idx], d);
        if n in g.index && g.index[n] > idx {
          faces := faces + [InteriorFace(idx, g.index[n], d)];
        }
      }
    }
    FacesBelowAre(g, |g.cells|);
    forall f | IsInteriorFace(g, f) ensures f.a < |g.cells| { FaceStartsInside(g, f); }
  }

  lemma FaceStartsInside(g: ChunkGraph, f: InteriorFace)
    requires IsInteriorFace(g, f)
    ensures f.a < |g.cells| && f.b < |g.cells|
  {
  }

  /** The one graph of a radius. */
  ghost function GraphOf(R: nat): (g: ChunkGraph)
    ensures IsChunkGraph(g) && g.radius == R
  {
    CellsAreTheHexagon(R);
    IndexIsInverse(Cells(R));
    hide Cells;
    ChunkGraph(R, Cells(R), IndexOf(Cells(R)))
  }

  function IndexOf(cells: seq<Coord>): map<Coord, nat>
    requires forall i, j :: 0 <= i < j < |cells| ==> cells[i] != cells[j]
  {
    map i: nat | i < |cells| :: cells[i] := i
  }

  lemma IndexIsInverse(cells: seq<Coord>)
    requires forall i, j :: 0 <= i < j < |cells| ==> cells[i] != cells[j]
    ensures forall c :: c in IndexOf(cells) <==> c in cells
    ensures forall c :: c in IndexOf(cells) ==> IndexOf(cells)[c] < |cells| && cells[IndexOf(cells)[c]] == c
    ensures forall i :: 0 <= i < |cells| ==> cells[i] in IndexOf(cells) && IndexOf(cells)[cells[i]] == i
  {
  }

  /** A radius leaves no choice of graph. */
  lemma GraphDetermined(g: ChunkGraph, g': ChunkGraph)
    requires IsChunkGraph(g) && IsChunkGraph(g') && g.radius == g'.radius
    ensures g == g'
  {
    assert g.index.Keys == g'.index.Keys;
    assert forall c :: c in g.index ==> g'.index[g.cells[g.index[c]]] == g.index[c];
    assert g.index == g'.index;
  }

  /** The interior faces and the graph's edges correspond one to one. */
  lemma FacesAreEdges(g: ChunkGraph, f: InteriorFace, f': InteriorFace)
    requires IsChunkGraph(g) && IsInteriorFace(g, f) && IsInteriorFace(g, f')
    ensures f.b in Neighbors(g, f.a)
    ensures KeyOf(f) == KeyOf(f') ==> f == f'
  {
    assert Adjacent(g.cells[f.a], g.cells[f.b]);
    NeighborsAreAdjacent(g, f.a, f.b);
    if f.a == f'.a && f.b == f'.b { DirectionsDiffer(g.cells[f.a], f.dir, f'.dir); }
  }

  lemma DirectionsDiffer(c: Coord, d: Direction, d': Direction)
    ensures Neighbor(c, d) == Neighbor(c, d') <==> d == d'
  {
  }

  lemma FaceOfEdge(g: ChunkGraph, a: nat, b: nat) returns (f: InteriorFace)
    requires IsChunkGraph(g) && a < |g.cells| && b < |g.cells| && b in Neighbors(g, a)
    ensures IsInteriorFace(g, f) && KeyOf(f) == NewEdgeKey(a, b)
  {
    hide Neighbor, Neighbors, IsChunkGraph;
    NeighborsAreAdjacent(g, a, b);
    NeighborsAreAdjacent(g, b, a);
    if a < b {
      var d: Direction :| Neighbor(g.cells[a], d) == g.cells[b];
      f := InteriorFace(a, b, d);
    } else {
      var d: Direction :| Neighbor(g.cells[b], d) == g.cells[a];
      f := InteriorFace(b, a, d);
    }
  }

  // ---------- Connectivity of the whole hexagon ----------

  /** Every cell of a chunk is joined to every other inside the chunk. */
  lemma HexagonLinked(g: ChunkGraph)
    requires IsChunkGraph(g)
    ensures AllLinked(GraphEdges(g, AllCells(g)), AllCells(g))
  {
    var e := GraphEdges(g, AllCells(g));
    CellsAreTheHexagon(g.radius);
    assert ORIGIN in g.cells;
    var centre := g.index[ORIGIN];
    forall u, v | u in AllCells(g) && v in AllCells(g)
      ensures Linked(e, u, v)
    {
      LinkedToCentre(g, u);
      LinkedToCentre(g, v);
      LinkedBack(e, v, centre);
      LinkedThrough(e, u, centre, v);
    }
  }

  lemma {:induction false} LinkedToCentre(g: ChunkGraph, u: nat)
    requires IsChunkGraph(g) && u < |g.cells|
    ensures ORIGIN in g.index && Linked(GraphEdges(g, AllCells(g)), u, g.index[ORIGIN])
    decreases Distance(g.cells[u], ORIGIN)
  {
    var e := GraphEdges(g, AllCells(g));
    CellsAreTheHexagon(g.radius);
    var c := g.cells[u];
    assert ORIGIN in g.cells && c in g.cells;
    if c == ORIGIN {
      LinkedSelf(e, u);
    } else {
      TowardApproaches(c, ORIGIN);
      var n := Neighbor(c, Toward(c, ORIGIN));
      assert n in g.cells;
      var v := g.index[n];
      LinkedToCentre(g, v);
      assert Adjacent(c, n);
      NeighborsAreAdjacent(g, u, v);
      GraphEdgesHas(g, AllCells(g), u, v);
      LinkedByEdge(e, u, v);
      LinkedThrough(e, u, v, g.index[ORIGIN]);
    }
  }
}
