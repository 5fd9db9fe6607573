/** Walking through a world: what its chunks' passages join. */
module Walks {
  import opened HexGrid
  import opened Lattices
  import opened LocalCells
  import opened Borders
  import opened Graphs
  import opened ChunkGraphs
  import opened Spanning
  import opened Params
  import opened Islands
  import opened Portals
  import opened Maps
  import opened Generates
  import opened Worlds

  /** Some stored map shows side d of cell x as a passage to y. */
  ghost predicate StepsTo(chunks: Table, x: Coord, y: Coord) {
    exists ch, i, d :: IsStep(chunks, ch, i, d, x, y)
  }

  ghost predicate IsStep(chunks: Table, ch: Chunk, i: int, d: Direction, x: Coord, y: Coord) {
    && ch in chunks && IsOpenSide(chunks[ch].m, i, d)
    && CellOf(chunks[ch].m, i) == x && Neighbor(x, d) == y
  }

  predicate IsOpenSide(m: Map, i: int, d: Direction) {
    0 <= m.graph.radius && 0 <= i < |m.faces| == |m.graph.cells| && m.faces[i][d] == FACE_PASSAGE
  }

  ghost predicate IsWay(chunks: Table, way: seq<Coord>) {
    way != [] && forall k :: 0 <= k < |way| - 1 ==> StepsTo(chunks, way[k], way[k + 1])
  }

  /** One can walk from x to y, each step through a passage. */
  ghost predicate Walkable(chunks: Table, x: Coord, y: Coord) {
    exists way :: IsWay(chunks, way) && way[0] == x && way[|way| - 1] == y
  }

  /** The i-th cell of m has a passage on some side. */
  ghost predicate HasPassage(m: Map, i: int) {
    exists d :: IsOpenSide(m, i, d)
  }

  lemma Stay(chunks: Table, x: Coord)
    ensures Walkable(chunks, x, x)
  {
    assert IsWay(chunks, [x]);
  }

  lemma OneStep(chunks: Table, x: Coord, y: Coord)
    requires StepsTo(chunks, x, y)
    ensures Walkable(chunks, x, y)
  {
    assert IsWay(chunks, [x, y]);
  }

  lemma WalkOn(chunks: Table, x: Coord, y: Coord, z: Coord)
    requires Walkable(chunks, x, y) && Walkable(chunks, y, z)
    ensures Walkable(chunks, x, z)
  {
    hide StepsTo;
    var a :| IsWay(chunks, a) && a[0] == x && a[|a| - 1] == y;
    var b :| IsWay(chunks, b) && b[0] == y && b[|b| - 1] == z;
    var way := a + b[1..];
    forall k | 0 <= k < |way| - 1
      ensures StepsTo(chunks, way[k], way[k + 1])
    {
      if k < |a| - 1 { assert way[k] == a[k]; } else { assert way[k] == b[k - |a| + 1] && way[k + 1] == b[k - |a| + 2]; }
    }
    assert IsWay(chunks, way);
  }

  // ---------- Inside a chunk ----------

  /** An open interior face is a step, both ways. */
  lemma FaceSteps(chunks: Table, ch: Chunk, f: InteriorFace)
    requires ch in chunks && WellFormed(chunks[ch].m) && IsOpenInside(chunks[ch].m, f)
    ensures f.a < f.b < |chunks[ch].m.graph.cells| && 0 <= chunks[ch].m.graph.radius
    ensures var m := chunks[ch].m; StepsTo(chunks, CellOf(m, f.a), CellOf(m, f.b)) && StepsTo(chunks, CellOf(m, f.b), CellOf(m, f.a))
  {
    var m := chunks[ch].m;
    FacesFit(m);
    FaceAgrees(m, f);
    OppositeReturns(m.graph.cells[f.a], f.dir);
    NeighborOfCell(m, f.a, f.b, f.dir);
    NeighborOfCell(m, f.b, f.a, Opposite(f.dir));
    hide WellFormed, CellOf;
    assert IsStep(chunks, ch, f.a, f.dir, CellOf(m, f.a), CellOf(m, f.b));
    assert IsStep(chunks, ch, f.b, Opposite(f.dir), CellOf(m, f.b), CellOf(m, f.a));
  }

  lemma FaceAgrees(m: Map, f: InteriorFace)
    requires WellFormed(m) && IsInteriorFace(m.graph, f)
    ensures f.a < f.b < |m.faces| && m.faces[f.a][f.dir] == m.faces[f.b][Opposite(f.dir)]
  {
    assert Agrees(m.faces, f);
  }

  lemma NeighborOfCell(m: Map, i: nat, j: nat, d: Direction)
    requires 0 <= m.graph.radius && i < |m.graph.cells| && j < |m.graph.cells| && m.graph.cells[j] == Neighbor(m.graph.cells[i], d)
    ensures CellOf(m, j) == Neighbor(CellOf(m, i), d)
  {
  }

  lemma KeyEnds(f: InteriorFace, a: int, b: int)
    requires f.a < f.b && KeyOf(f) == NewEdgeKey(a, b)
    ensures (f.a == a && f.b == b) || (f.a == b && f.b == a)
  {
  }

  lemma EdgeSteps(chunks: Table, ch: Chunk, p: Params, interior: Interior, a: int, b: int)
    requires ch in chunks && WellFormed(chunks[ch].m) && 0 <= p.radius && InteriorOk(p, chunks[ch].m.typ, chunks[ch].m.graph, interior)
    requires Shows(chunks[ch].m, interior) && Has(interior.open, a, b)
    ensures var m := chunks[ch].m; 0 <= a < |m.graph.cells| && 0 <= b < |m.graph.cells| && 0 <= m.graph.radius
    ensures var m := chunks[ch].m; StepsTo(chunks, CellOf(m, a), CellOf(m, b))
  {
    hide *;
    var m := chunks[ch].m;
    HasIs(interior.open, a, b);
    OpenEdgeShown(p, m.typ, m, interior, NewEdgeKey(a, b));
    var f :| IsOpenInside(m, f) && KeyOf(f) == NewEdgeKey(a, b);
    FaceSteps(chunks, ch, f);
    KeyEnds(f, a, b);
  }

  lemma HasIs(e: EdgeSet, a: int, b: int)
    ensures Has(e, a, b) <==> NewEdgeKey(a, b) in e
  {
  }

  lemma {:induction false} PathSteps(chunks: Table, ch: Chunk, p: Params, interior: Interior, path: seq<int>, u: int, v: int)
    requires ch in chunks && WellFormed(chunks[ch].m) && 0 <= p.radius && InteriorOk(p, chunks[ch].m.typ, chunks[ch].m.graph, interior)
    requires Shows(chunks[ch].m, interior) && IsPath(interior.open, path, u, v)
    requires 0 <= u < |chunks[ch].m.graph.cells| && 0 <= v < |chunks[ch].m.graph.cells| && 0 <= chunks[ch].m.graph.radius
    ensures Walkable(chunks, CellOf(chunks[ch].m, u), CellOf(chunks[ch].m, v))
    decreases |path|
  {
    hide *;
    var m := chunks[ch].m;
    PathParts(interior.open, path, u, v);
    if |path| == 1 {
      Stay(chunks, CellOf(m, u));
    } else {
      EdgeSteps(chunks, ch, p, interior, u, path[1]);
      OneStep(chunks, CellOf(m, u), CellOf(m, path[1]));
      PathSteps(chunks, ch, p, interior, path[1..], path[1], v);
      WalkOn(chunks, CellOf(m, u), CellOf(m, path[1]), CellOf(m, v));
    }
  }

  lemma PathParts(e: EdgeSet, path: seq<int>, u: int, v: int)
    requires IsPath(e, path, u, v)
    ensures 1 <= |path| && (|path| == 1 ==> u == v)
    ensures 1 < |path| ==> Has(e, u, path[1]) && IsPath(e, path[1..], path[1], v)
  {
  }

  /** A cell with a passage is no island. */
  lemma PassageOnLand(m: Map, interior: Interior, i: nat)
    requires WellFormed(m) && Shows(m, interior) && HasPassage(m, i)
    ensures i in Land(m.graph, interior.islands)
  {
    hide WellFormed, ShowsOpen;
    var d :| IsOpenSide(m, i, d);
    assert ShowsWalls(m, interior.islands);
  }

  /** Inside one chunk, every two cells with a passage are joined. */
  lemma ChunkIsWalkable(chunks: Table, ch: Chunk, i: nat, j: nat)
    requires ch in chunks && WellFormed(chunks[ch].m) && SoundInterior(chunks[ch].m)
    requires HasPassage(chunks[ch].m, i) && HasPassage(chunks[ch].m, j)
    ensures var m := chunks[ch].m; 0 <= m.graph.radius && i < |m.graph.cells| && j < |m.graph.cells|
    ensures Walkable(chunks, CellOf(chunks[ch].m, i), CellOf(chunks[ch].m, j))
  {
    var m := chunks[ch].m;
    var p, interior :| Valid(p) && p.radius == m.graph.radius && InteriorOk(p, m.typ, m.graph, interior) && Shows(m, interior);
    assert 0 <= p.radius;
    hide *;
    PassageOnLand(m, interior, i);
    PassageOnLand(m, interior, j);
    PassageInRange(m, i);
    PassageInRange(m, j);
    LandJoined(p, m.typ, m.graph, interior, i, j);
    var path := PathOf(interior.open, i, j);
    PathSteps(chunks, ch, p, interior, path, i, j);
  }

  lemma PathOf(e: EdgeSet, u: int, v: int) returns (path: seq<int>)
    requires Linked(e, u, v)
    ensures IsPath(e, path, u, v)
  {
    path :| IsPath(e, path, u, v);
  }

  lemma PassageInRange(m: Map, i: nat)
    requires HasPassage(m, i)
    ensures 0 <= m.graph.radius && i < |m.faces| == |m.graph.cells|
  {
  }

  lemma LandJoined(p: Params, typ: ChunkType, g: ChunkGraph, interior: Interior, u: int, v: int)
    requires 0 <= p.radius && InteriorOk(p, typ, g, interior) && u in Land(g, interior.islands) && v in Land(g, interior.islands)
    ensures Linked(interior.open, u, v)
  {
    hide IslandsOk, LandEdges, Linked, ExtraTarget;
  }

  /** The chunk has a border cell other than v. */
  lemma AnotherBorderCell(g: ChunkGraph, v: int) returns (u: nat)
    requires IsChunkGraph(g) && 1 <= g.radius
    ensures u < |g.cells| && IsBorderCell(g, u) && u != v
  {
    hide IsBorderCell;
    CellsAreTheHexagon(g.radius);
    var a, b := Coord(g.radius, 0), Coord(0 - g.radius, 0);
    CornersAreBorder(g.radius);
    assert a in g.cells && b in g.cells;
    u := if g.index[a] == v then g.index[b] else g.index[a];
    assert IsBorderCell(g, u) by { BorderIs(g, u); }
  }

  lemma CornersAreBorder(R: nat)
    ensures Distance(Coord(R, 0), ORIGIN) == R && Distance(Coord(0 - R, 0), ORIGIN) == R
  {
  }

  lemma BorderIs(g: ChunkGraph, u: nat)
    requires u < |g.cells|
    ensures IsBorderCell(g, u) <==> Distance(g.cells[u], ORIGIN) == g.radius
  {
  }

  /** Every cell that is no island has a passage. */
  lemma LandHasPassage(p: Params, m: Map, interior: Interior, v: nat)
    requires 0 <= p.radius && WellFormed(m) && InteriorOk(p, m.typ, m.graph, interior) && Shows(m, interior)
    requires v in Land(m.graph, interior.islands)
    ensures HasPassage(m, v)
  {
    hide *;
    FacesFit(m);
    RadiusOk(m);
    var u := AnotherBorderCell(m.graph, v);
    BorderOnLand(p, m.typ, m.graph, interior, u);
    LandJoined(p, m.typ, m.graph, interior, v, u);
    var path := PathOf(interior.open, v, u);
    PathParts(interior.open, path, v, u);
    HasIs(interior.open, v, path[1]);
    OpenEdgeShown(p, m.typ, m, interior, NewEdgeKey(v, path[1]));
    var f :| IsOpenInside(m, f) && KeyOf(f) == NewEdgeKey(v, path[1]);
    FaceOpens(m, f);
    KeyEnds(f, v, path[1]);
  }

  lemma RadiusOk(m: Map)
    requires WellFormed(m)
    ensures 1 <= m.graph.radius
  {
  }

  lemma BorderOnLand(p: Params, typ: ChunkType, g: ChunkGraph, interior: Interior, u: nat)
    requires 0 <= p.radius && InteriorOk(p, typ, g, interior) && u < |g.cells| && IsBorderCell(g, u)
    ensures u in Land(g, interior.islands)
  {
    hide LandConnected, LandEdges, Linked, ExtraTarget, AllLinked;
    BorderNeverIsland(g, typ, u);
  }

  /** An open interior face is a passage of both its cells. */
  lemma FaceOpens(m: Map, f: InteriorFace)
    requires WellFormed(m) && IsOpenInside(m, f)
    ensures f.a < f.b && HasPassage(m, f.a) && HasPassage(m, f.b)
  {
    FacesFit(m);
    FaceAgrees(m, f);
    hide WellFormed;
    assert IsOpenSide(m, f.a, f.dir);
    assert IsOpenSide(m, f.b, Opposite(f.dir));
  }

  /** The cells without any passage: all off the border, and no more of them than the island share allows. */
  ghost predicate FewIslands(p: Params, m: Map, islands: set<int>)
    requires 0 <= p.radius
  {
    && (forall v: nat :: v < |m.graph.cells| ==> (HasPassage(m, v) <==> v !in islands))
    && (forall v :: v in islands ==> MayBeIsland(m.graph, m.typ, v))
    && (islands != {} ==> |islands| <= IslandTarget(p))
  }

  /** Every generated map's cells but its islands have a passage, and those are within the target. */
  lemma OnlyIslandsHaveNone(gen: Generator, m: Map)
    requires Ready(gen) && MadeAlone(gen, m)
    ensures 0 <= gen.params.radius && exists islands :: FewIslands(gen.params, m, islands)
  {
    hide *;
    ReadyIsSound(gen);
    NoNeighborsFit(gen);
    AloneIs(gen, m);
    var interior :| HasInterior(gen, m.chunk, m.typ, interior) && IsFilled(gen, m.chunk, m.typ, interior.open, map[], m);
    FilledHas(gen, m.chunk, m.typ, interior.open, map[], m);
    InteriorIsDetermined(gen, m.chunk, m.typ, interior, interior);
    GraphDetermined(m.graph, GraphOf(gen.params.radius));
    FilledInterior(gen, m.chunk, m.typ, interior, map[], m);
    forall v: nat | v < |m.graph.cells|
      ensures HasPassage(m, v) <==> v !in interior.islands
    {
      IsOnLand(m.graph, interior.islands, v);
      if v !in interior.islands { LandHasPassage(gen.params, m, interior, v); }
      if HasPassage(m, v) { PassageOnLand(m, interior, v); }
    }
    AreFewIslands(gen.params, m, interior);
  }

  lemma IsOnLand(g: ChunkGraph, islands: set<int>, v: nat)
    ensures v in Land(g, islands) <==> v < |g.cells| && v !in islands
  {
  }

  lemma AreFewIslands(p: Params, m: Map, interior: Interior)
    requires 0 <= p.radius && InteriorOk(p, m.typ, m.graph, interior)
    requires forall v: nat :: v < |m.graph.cells| ==> (HasPassage(m, v) <==> v !in interior.islands)
    ensures FewIslands(p, m, interior.islands)
  {
    hide HasPassage, MayBeIsland, LandConnected, LandEdges, AllLinked, ExtraTarget, IslandTarget;
  }

  // ---------- From chunk to chunk ----------

  /** A border with a passage joins a cell of the one chunk to a cell of the other, both with passages. */
  lemma BorderSteps(chunks: Table, a: Chunk, b: Chunk) returns (i: nat, j: nat)
    requires a in chunks && b in chunks && WellFormed(chunks[a].m) && WellFormed(chunks[b].m)
    requires chunks[a].m.chunk == a && chunks[b].m.chunk == b && chunks[a].m.graph.radius == chunks[b].m.graph.radius
    requires 0 <= chunks[a].m.graph.radius && AgreeAcross(chunks[a].m.graph.radius, chunks[a].m, chunks[b].m)
    requires |chunks[a].m.faces| == |chunks[a].m.graph.cells| && PassagesInto(chunks[a].m, b) != {}
    ensures HasPassage(chunks[a].m, i) && HasPassage(chunks[b].m, j)
    ensures i < |chunks[a].m.graph.cells| && j < |chunks[b].m.graph.cells|
    ensures StepsTo(chunks, CellOf(chunks[a].m, i), CellOf(chunks[b].m, j))
    ensures StepsTo(chunks, CellOf(chunks[b].m, j), CellOf(chunks[a].m, i))
  {
    hide *;
    var m, m' := chunks[a].m, chunks[b].m;
    FacesFit(m');
    var f :| f in PassagesInto(m, b);
    var d;
    i, d := PassageOf(m, b, f);
    PassageLeads(m, b, i, d);
    LeadsHolds(m.graph.radius, a, b, CellOf(m, i), d);
    j := IndexOfHeld(m', Neighbor(CellOf(m, i), d));
    OtherSideOpen(m.graph.radius, m, m', i, j, d);
    OppositeReturns(CellOf(m, i), d);
    IsAStep(chunks, a, i, d);
    IsAStep(chunks, b, j, Opposite(d));
  }

  lemma LeadsHolds(R: nat, a: Chunk, b: Chunk, c: Coord, d: Direction)
    requires Leads(R, a, b, c, d)
    ensures Holds(R, a, c) && Holds(R, b, Neighbor(c, d))
  {
    hide Holds;
  }

  lemma OtherSideOpen(R: nat, m: Map, m': Map, i: nat, j: nat, d: Direction)
    requires WellFormed(m) && WellFormed(m') && m.graph.radius == R && m'.graph.radius == R && AgreeAcross(R, m, m')
    requires i < |m.faces| && j < |m'.faces| && m.faces[i][d] == FACE_PASSAGE
    requires Leads(R, m.chunk, m'.chunk, CellOf(m, i), d) && CellOf(m', j) == Neighbor(CellOf(m, i), d)
    ensures m'.faces[j][Opposite(d)] == FACE_PASSAGE
  {
    hide Holds, StateAt, CellOf, WellFormed;
    FacesFit(m);
    FacesFit(m');
    StateOfCell(m, i, d);
    StateOfCell(m', j, Opposite(d));
    assert StateAt(m, CellOf(m, i), d) == StateAt(m', Neighbor(CellOf(m, i), d), Opposite(d));
  }

  lemma IsAStep(chunks: Table, ch: Chunk, i: nat, d: Direction)
    requires ch in chunks && WellFormed(chunks[ch].m) && i < |chunks[ch].m.faces| && chunks[ch].m.faces[i][d] == FACE_PASSAGE
    ensures var m := chunks[ch].m; 0 <= m.graph.radius && i < |m.graph.cells| && HasPassage(m, i)
    ensures StepsTo(chunks, CellOf(chunks[ch].m, i), Neighbor(CellOf(chunks[ch].m, i), d))
  {
    var m := chunks[ch].m;
    FacesFit(m);
    hide WellFormed, CellOf;
    assert IsOpenSide(m, i, d);
    assert IsStep(chunks, ch, i, d, CellOf(m, i), Neighbor(CellOf(m, i), d));
  }

  /** What every world built by one generator is, chunk by chunk and border by border. */
  ghost predicate Joined(chunks: Table) {
    && (forall ch :: ch in chunks ==> ChunkOk(chunks[ch].m, ch))
    && forall a, b :: a in chunks && b in chunks && ChunksAdjacent(a, b) ==> BorderOk(chunks[a].m, chunks[b].m)
  }

  ghost predicate ChunkOk(m: Map, ch: Chunk) {
    m.chunk == ch && WellFormed(m) && SoundInterior(m)
  }

  ghost predicate BorderOk(m: Map, m': Map) {
    && WellFormed(m) && WellFormed(m') && 0 <= m.graph.radius == m'.graph.radius && |m.faces| == |m.graph.cells|
    && AgreeAcross(m.graph.radius, m, m') && PassagesInto(m, m'.chunk) != {}
  }

  /** Chunks stored, each next to the one before. */
  ghost predicate IsChain(chunks: Table, chain: seq<Chunk>) {
    && chain != [] && (forall k :: 0 <= k < |chain| ==> chain[k] in chunks)
    && forall k :: 0 < k < |chain| ==> ChunksAdjacent(chain[k - 1], chain[k])
  }

  lemma {:induction false} ChainIsWalkable(chunks: Table, chain: seq<Chunk>, i: nat, j: nat)
    requires Joined(chunks) && IsChain(chunks, chain)
    requires HasPassage(chunks[chain[0]].m, i) && HasPassage(chunks[chain[|chain| - 1]].m, j)
    ensures var m, m' := chunks[chain[0]].m, chunks[chain[|chain| - 1]].m;
            && 0 <= m.graph.radius && i < |m.graph.cells| && 0 <= m'.graph.radius && j < |m'.graph.cells|
            && Walkable(chunks, CellOf(m, i), CellOf(m', j))
    decreases |chain|
  {
    hide WellFormed, SoundInterior, HasPassage, Walkable, CellOf, BorderOk, ChunksAdjacent;
    var a, z := chain[0], chain[|chain| - 1];
    PassageInRange(chunks[a].m, i);
    PassageInRange(chunks[z].m, j);
    assert ChunkOk(chunks[a].m, a);
    if |chain| == 1 {
      ChunkIsWalkable(chunks, a, i, j);
    } else {
      var b, rest := chain[1], chain[1..];
      assert BorderOk(chunks[a].m, chunks[b].m);
      var i', j' := CrossBorder(chunks, a, b);
      ChunkIsWalkable(chunks, a, i, i');
      assert IsChain(chunks, rest);
      ChainIsWalkable(chunks, rest, j', j);
      PassageInRange(chunks[a].m, i');
      PassageInRange(chunks[b].m, j');
      WalkOn(chunks, CellOf(chunks[a].m, i), CellOf(chunks[a].m, i'), CellOf(chunks[b].m, j'));
      WalkOn(chunks, CellOf(chunks[a].m, i), CellOf(chunks[b].m, j'), CellOf(chunks[z].m, j));
    }
  }

  lemma CrossBorder(chunks: Table, a: Chunk, b: Chunk) returns (i: nat, j: nat)
    requires a in chunks && b in chunks && ChunkOk(chunks[a].m, a) && ChunkOk(chunks[b].m, b) && BorderOk(chunks[a].m, chunks[b].m)
    ensures HasPassage(chunks[a].m, i) && HasPassage(chunks[b].m, j)
    ensures i < |chunks[a].m.graph.cells| && j < |chunks[b].m.graph.cells| && 0 <= chunks[a].m.graph.radius && 0 <= chunks[b].m.graph.radius
    ensures Walkable(chunks, CellOf(chunks[a].m, i), CellOf(chunks[b].m, j))
  {
    hide WellFormed, SoundInterior, AgreeAcross, PassagesInto, HasPassage, StepsTo, Walkable, CellOf;
    i, j := BorderSteps(chunks, a, b);
    OneStep(chunks, CellOf(chunks[a].m, i), CellOf(chunks[b].m, j));
  }

  lemma WorldIsJoinedUp(states: seq<State>, events: seq<Event>, i: nat, gen: Generator)
    requires Ready(gen) && IsRun(states, events) && i < |states|
    requires forall j :: 0 <= j < |states| ==> OnlyGenerator(states[j], gen)
    ensures Joined(states[i].chunks)
  {
    hide Ready, IsRun, OnlyGenerator, WellFormed, SoundInterior, AgreeAcross, PassagesInto, ChunksAdjacent, Guaranteed, MadeAlone;
    var chunks := states[i].chunks;
    forall ch | ch in chunks
      ensures ChunkOk(chunks[ch].m, ch)
    {
      WorldIsConsistent(states, events, i, ch, ch);
      WorldIsJoined(states, events, i, gen, ch);
    }
    forall a, b | a in chunks && b in chunks && ChunksAdjacent(a, b)
      ensures BorderOk(chunks[a].m, chunks[b].m)
    {
      WorldIsConsistent(states, events, i, a, b);
      WorldIsJoined(states, events, i, gen, a);
      WorldIsJoined(states, events, i, gen, b);
      SomePassage(gen.params, chunks[a].m, b);
    }
  }

  lemma SomePassage(p: Params, m: Map, nc: Chunk)
    requires 0 <= m.graph.radius && |m.faces| == |m.graph.cells| && Guaranteed(p, m, nc)
    ensures PassagesInto(m, nc) != {}
  {
    hide PassagesInto;
  }

  /**
   In every world built by one generator, whatever its order, failures and
   concurrency, one can walk from any cell with a passage, of any stored chunk, to
   any other of any chunk that stored chunks join to it.
   */
  lemma WorldIsWalkable(states: seq<State>, events: seq<Event>, n: nat, gen: Generator, chain: seq<Chunk>, i: nat, j: nat)
    requires Ready(gen) && IsRun(states, events) && n < |states|
    requires forall k :: 0 <= k < |states| ==> OnlyGenerator(states[k], gen)
    requires IsChain(states[n].chunks, chain)
    requires var chunks := states[n].chunks; HasPassage(chunks[chain[0]].m, i) && HasPassage(chunks[chain[|chain| - 1]].m, j)
    ensures var m, m' := states[n].chunks[chain[0]].m, states[n].chunks[chain[|chain| - 1]].m;
            && 0 <= m.graph.radius && i < |m.graph.cells| && 0 <= m'.graph.radius && j < |m'.graph.cells|
            && Walkable(states[n].chunks, CellOf(m, i), CellOf(m', j))
  {
    WorldIsJoinedUp(states, events, n, gen);
    hide Joined, IsRun, Ready, OnlyGenerator, HasPassage, Walkable, CellOf;
    ChainIsWalkable(states[n].chunks, chain, i, j);
  }
}
