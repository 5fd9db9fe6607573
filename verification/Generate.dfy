/** Generating a chunk's map against the maps its stored neighbours already have. */
module Generates {
  import opened GoInt
  import opened HexGrid
  import opened Lattices
  import opened LocalCells
  import opened Borders
  import opened Draws
  import opened Graphs
  import opened ChunkGraphs
  import opened Spanning
  import opened Params
  import opened Portals
  import opened SortedSeq
  import opened Kruskal
  import opened Wilson
  import opened Islands
  import opened Maps

  const VERSION := 1

  /** The keyed word streams of one world seed. A border's stream is keyed by its two chunks in canonical order. */
  datatype Keys = Keys(island: Chunk -> Words, algorithm: Chunk -> Words, structure: Chunk -> Words, cycle: Chunk -> Words,
                       border: (Chunk, Chunk) -> Words)

  /** A generator, with the range of portal counts its shares give a border. */
  datatype Generator = Generator(keys: Keys, params: Params, low: int, high: int)

  ghost predicate FairKeys(k: Keys) {
    && (forall ch :: Fair(k.island(ch)) && Fair(k.algorithm(ch)) && Fair(k.structure(ch)) && Fair(k.cycle(ch)))
    && forall a, b :: Fair(k.border(a, b))
  }

  /** What a generator's borders rely on. */
  ghost predicate Sound(gen: Generator) {
    FairKeys(gen.keys) && MIN_RADIUS <= gen.params.radius <= MAX_INT32 && BoundsOk(gen.low, gen.high, 2 * gen.params.radius + 1)
  }

  /** A constructed generator, over a radius whose cells can be counted in 64 bits. */
  ghost predicate Ready(gen: Generator) {
    && Sound(gen) && Valid(gen.params)
    && gen.low == CeilShare(gen.params.portalLower, 2 * gen.params.radius + 1)
    && gen.high == CeilShare(gen.params.portalUpper, 2 * gen.params.radius + 1)
    && 6 * CellCount(gen.params.radius) <= MAX_UINT64
  }

  datatype NewResult = NewGenerator(gen: Generator) | InvalidParams

  /** New: refuses exactly invalid parameters. */
  method New(keys: Keys, params: Params) returns (res: NewResult)
    requires FairKeys(keys) && params.radius <= MAX_INT32
    requires 0 <= params.radius ==> 6 * CellCount(params.radius) <= MAX_UINT64
    ensures res.InvalidParams? <==> !Valid(params)
    ensures res.NewGenerator? ==> Ready(res.gen) && res.gen.keys == keys && res.gen.params == params
  {
    hide FairKeys, CeilShare, Fair;
    if !Valid(params) {
      return InvalidParams;
    }
    PortalBoundsValid(params);
    var l := 2 * params.radius + 1;
    assert l < CellCount(params.radius);
    return NewGenerator(Generator(keys, params, CeilShare(params.portalLower, l), CeilShare(params.portalUpper, l)));
  }

  /** The portals the portal rule gives the border of chunks a and b. */
  ghost function BorderPortals(gen: Generator, a: Chunk, b: Chunk): set<Face>
    requires Sound(gen)
  {
    PortalsOf(gen.keys.border(Lesser(a, b), Greater(a, b)), CandidateFaces(gen.params.radius, a, b), gen.low, gen.high)
  }

  /** The portal rule does not depend on which side asks. */
  lemma BorderPortalsFromEitherSide(gen: Generator, a: Chunk, b: Chunk)
    requires Sound(gen)
    ensures BorderPortals(gen, a, b) == BorderPortals(gen, b, a)
  {
    OrderFromEitherSide(a, b);
    CandidatesFromEitherSide(gen.params.radius, a, b);
  }

  // ---------- Neighbour maps ----------

  datatype Refused = UnknownChunkType | OwnMap(index: nat) | WrongRadius(index: nat) | NotAdjacent(index: nat) | Repeated(index: nat)

  datatype Resolved = Resolved(maps: map<Chunk, Map>) | Refusal(error: Refused)

  /** Map i is one Generate may be given for ch. */
  predicate Acceptable(ch: Chunk, radius: int, neighbors: seq<Map>, i: nat)
    requires i < |neighbors|
  {
    && neighbors[i].chunk != ch && neighbors[i].graph.radius == radius
    && ChunksAdjacent(ch, neighbors[i].chunk)
    && forall k :: 0 <= k < i ==> neighbors[k].chunk != neighbors[i].chunk
  }

  /** The error names the first check the i-th map fails. */
  predicate RefusedFor(ch: Chunk, radius: int, neighbors: seq<Map>, e: Refused) {
    match e
    case UnknownChunkType => false
    case OwnMap(i) => i < |neighbors| && neighbors[i].chunk == ch
    case WrongRadius(i) => i < |neighbors| && neighbors[i].chunk != ch && neighbors[i].graph.radius != radius
    case NotAdjacent(i) => i < |neighbors| && neighbors[i].graph.radius == radius && !ChunksAdjacent(ch, neighbors[i].chunk)
    case Repeated(i) => i < |neighbors| && exists k :: 0 <= k < i && neighbors[k].chunk == neighbors[i].chunk
  }

  /** maps holds exactly the listed maps, keyed by their chunks. */
  ghost predicate Keyed(maps: map<Chunk, Map>, neighbors: seq<Map>) {
    && (forall nc :: nc in maps ==> maps[nc] in neighbors && maps[nc].chunk == nc)
    && (forall nm :: nm in neighbors ==> nm.chunk in maps && maps[nm.chunk] == nm)
  }

  /** The listing order does not matter. */
  lemma KeyedInAnyOrder(maps: map<Chunk, Map>, maps': map<Chunk, Map>, neighbors: seq<Map>, neighbors': seq<Map>)
    requires Keyed(maps, neighbors) && Keyed(maps', neighbors')
    requires forall nm :: nm in neighbors <==> nm in neighbors'
    ensures maps == maps'
  {
    forall nc
      ensures nc in maps <==> nc in maps'
      ensures nc in maps ==> maps[nc] == maps'[nc]
    {
      if nc in maps { assert maps[nc] in neighbors'; }
      if nc in maps' { assert maps'[nc] in neighbors; }
    }
    assert maps.Keys == maps'.Keys;
  }

  /** resolveNeighborMaps: every check on every map, in order. */
  method ResolveNeighborMaps(ch: Chunk, radius: int, neighbors: seq<Map>) returns (res: Resolved)
    ensures res.Resolved? <==> forall i :: 0 <= i < |neighbors| ==> Acceptable(ch, radius, neighbors, i)
    ensures res.Resolved? ==> Keyed(res.maps, neighbors)
    ensures res.Refusal? ==> RefusedFor(ch, radius, neighbors, res.error)
  {
    hide ChunksAdjacent;
    var out: map<Chunk, Map> := map[];
    for i := 0 to |neighbors|
      invariant forall k :: 0 <= k < i ==> Acceptable(ch, radius, neighbors, k)
      invariant Keyed(out, neighbors[..i])
    {
      assert neighbors[..i + 1] == neighbors[..i] + [neighbors[i]];
      var nm := neighbors[i];
      var nc := nm.chunk;
      if nc == ch {
        assert !Acceptable(ch, radius, neighbors, i);
        return Refusal(OwnMap(i));
      }
      if nm.graph.radius != radius {
        assert !Acceptable(ch, radius, neighbors, i);
        return Refusal(WrongRadius(i));
      }
      var adjacent := IsNeighborChunk(ch, nc);
      if !adjacent {
        assert !Acceptable(ch, radius, neighbors, i);
        return Refusal(NotAdjacent(i));
      }
      if nc in out {
        assert out[nc] in neighbors[..i];
        assert !Acceptable(ch, radius, neighbors, i);
        return Refusal(Repeated(i));
      }
      forall k | 0 <= k < i
        ensures neighbors[k].chunk != nc
      {
        assert neighbors[k] in neighbors[..i];
      }
      out := out[nc := nm];
    }
    assert neighbors[..|neighbors|] == neighbors;
    return Resolved(out);
  }

  method IsNeighborChunk(ch: Chunk, nc: Chunk) returns (adjacent: bool)
    ensures adjacent <==> ChunksAdjacent(ch, nc)
  {
    for d := 0 to 6
      invariant forall k: Direction :: k < d ==> ChunkNeighbor(ch, k) != nc
    {
      if ChunkNeighbor(ch, d) == nc {
        return true;
      }
    }
    return false;
  }

  // ---------- The faces ----------

  ghost predicate NeighborsFit(gen: Generator, maps: map<Chunk, Map>) {
    forall nc :: nc in maps ==> WellFormed(maps[nc]) && maps[nc].chunk == nc && maps[nc].graph.radius == gen.params.radius
  }

  /** The other side of side d of absolute cell c. */
  function Beyond(gen: Generator, c: Coord, d: Direction): Chunk
    requires 0 <= gen.params.radius
  {
    ChunkOf(gen.params.radius, Neighbor(c, d))
  }

  /** Whether side d of absolute cell c, which leaves its chunk ch, is a passage. */
  ghost predicate CrossingOpen(gen: Generator, ch: Chunk, maps: map<Chunk, Map>, c: Coord, d: Direction)
    requires Sound(gen) && NeighborsFit(gen, maps)
  {
    var nc := Beyond(gen, c, d);
    CandidatesCover(gen.params.radius, Neighbor(c, d));
    if nc in maps then StateAt(maps[nc], Neighbor(c, d), Opposite(d)) == FACE_PASSAGE
    else FaceOf(c, d) in BorderPortals(gen, ch, nc)
  }

  /** Whether side d of the idx-th cell is a passage. */
  ghost predicate SideOpen(gen: Generator, ch: Chunk, g: ChunkGraph, open: EdgeSet, maps: map<Chunk, Map>, idx: nat, d: Direction)
    requires Sound(gen) && NeighborsFit(gen, maps) && idx < |g.cells|
  {
    var n := Neighbor(g.cells[idx], d);
    if n in g.index then Has(open, idx, g.index[n])
    else CrossingOpen(gen, ch, maps, At(gen.params.radius, ch, g.cells[idx]), d)
  }

  ghost predicate CellDone(gen: Generator, ch: Chunk, g: ChunkGraph, open: EdgeSet, maps: map<Chunk, Map>, idx: nat, f: CellFaces)
    requires Sound(gen) && NeighborsFit(gen, maps) && idx < |g.cells|
  {
    forall d: Direction :: f[d] == if SideOpen(gen, ch, g, open, maps, idx, d) then FACE_PASSAGE else FACE_WALL
  }

  /** m is what the face pass fills from the interior's open edges and the neighbours' maps. */
  ghost predicate IsFilled(gen: Generator, ch: Chunk, typ: ChunkType, open: EdgeSet, maps: map<Chunk, Map>, m: Map)
    requires Sound(gen) && NeighborsFit(gen, maps)
  {
    && m.chunk == ch && m.typ == typ && m.version == VERSION
    && IsChunkGraph(m.graph) && m.graph.radius == gen.params.radius
    && |m.faces| == |m.graph.cells|
    && forall i :: 0 <= i < |m.faces| ==> CellDone(gen, ch, m.graph, open, maps, i, m.faces[i])
  }

  /** The interior's part of a filled map never disagrees with itself. */
  lemma FilledIsWellFormed(gen: Generator, ch: Chunk, typ: ChunkType, open: EdgeSet, maps: map<Chunk, Map>, m: Map)
    requires Sound(gen) && NeighborsFit(gen, maps) && typ != Unset && IsFilled(gen, ch, typ, open, maps, m)
    ensures WellFormed(m)
  {
    hide CrossingOpen, NeighborsFit;
    var g := m.graph;
    forall i | 0 <= i < |m.faces|
      ensures StatesOk(m.faces[i])
    {
      assert CellDone(gen, ch, g, open, maps, i, m.faces[i]);
    }
    forall f | IsInteriorFace(g, f)
      ensures Agrees(m.faces, f)
    {
      InteriorSides(g, f);
      assert CellDone(gen, ch, g, open, maps, f.a, m.faces[f.a]);
      assert CellDone(gen, ch, g, open, maps, f.b, m.faces[f.b]);
    }
  }

  lemma InteriorSides(g: ChunkGraph, f: InteriorFace)
    requires IsChunkGraph(g) && IsInteriorFace(g, f)
    ensures Neighbor(g.cells[f.a], f.dir) in g.index && g.index[Neighbor(g.cells[f.a], f.dir)] == f.b
    ensures Neighbor(g.cells[f.b], Opposite(f.dir)) in g.index && g.index[Neighbor(g.cells[f.b], Opposite(f.dir))] == f.a
    ensures forall open :: Has(open, f.a, f.b) <==> Has(open, f.b, f.a)
  {
    OppositeReturns(g.cells[f.a], f.dir);
  }

  /** Equal inputs leave one map only. */
  lemma FilledIsDetermined(gen: Generator, ch: Chunk, typ: ChunkType, open: EdgeSet, maps: map<Chunk, Map>, m: Map,
                           maps': map<Chunk, Map>, m': Map)
    requires Sound(gen) && NeighborsFit(gen, maps) && NeighborsFit(gen, maps') && typ != Unset
    requires IsFilled(gen, ch, typ, open, maps, m) && IsFilled(gen, ch, typ, open, maps', m')
    requires forall c, d | Holds(gen.params.radius, ch, c) && Beyond(gen, c, d) != ch ::
               CrossingOpen(gen, ch, maps, c, d) == CrossingOpen(gen, ch, maps', c, d)
    ensures m == m'
  {
    hide NeighborsFit, CrossingOpen, Beyond, IsChunkGraph, Sound, Center, ChunkOf, Hex;
    GraphDetermined(m.graph, m'.graph);
    var g := m.graph;
    forall i | 0 <= i < |m.faces|
      ensures m.faces[i] == m'.faces[i]
    {
      var f, f' := m.faces[i], m'.faces[i];
      assert CellDone(gen, ch, g, open, maps, i, f) && CellDone(gen, ch, g, open, maps', i, f');
      forall k | 0 <= k < 6
        ensures f[k] == f'[k]
      {
        var d: Direction := k;
        if Neighbor(g.cells[i], d) !in g.index { LeavesChunk(gen, ch, g, i, d); }
        assert SideOpen(gen, ch, g, open, maps, i, d) == SideOpen(gen, ch, g, open, maps', i, d);
      }
    }
    assert m.faces == m'.faces;
  }

  /** A side with no neighbour in the graph leads out of the chunk. */
  lemma LeavesChunk(gen: Generator, ch: Chunk, g: ChunkGraph, i: nat, d: Direction)
    requires Sound(gen) && IsChunkGraph(g) && g.radius == gen.params.radius && i < |g.cells|
    ensures var c := At(g.radius, ch, g.cells[i]);
            && Holds(g.radius, ch, c) && Local(g.radius, ch, c) == g.cells[i]
            && (Neighbor(g.cells[i], d) in g.index <==> Beyond(gen, c, d) == ch)
  {
    hide Center, ChunkOf, Hex, Sound;
    var R := g.radius;
    CellsAreTheHexagon(R);
    var c := At(R, ch, g.cells[i]);
    assert g.cells[i] in g.cells;
    AtIsFromCentre(R, ch, g.cells[i]);
    assert Local(R, ch, c) == g.cells[i];
    Tiling(R, Neighbor(c, d), ch);
    assert Local(R, ch, Neighbor(c, d)) == Neighbor(g.cells[i], d);
  }

  lemma AtIsFromCentre(R: nat, ch: Chunk, local: Coord)
    ensures At(R, ch, local) == Coord(Center(R, ch).q + local.q, Center(R, ch).r + local.r)
  {
  }

  // ---------- What the borders of filled maps agree on ----------

  /** Both maps give every face between their chunks the same state. */
  ghost predicate AgreeAcross(R: nat, m: Map, m': Map)
    requires WellFormed(m) && WellFormed(m') && m.graph.radius == R && m'.graph.radius == R
  {
    forall c, d :: Leads(R, m.chunk, m'.chunk, c, d) ==> StateAt(m, c, d) == StateAt(m', Neighbor(c, d), Opposite(d))
  }

  lemma AgreeAcrossBack(R: nat, m: Map, m': Map)
    requires WellFormed(m) && WellFormed(m') && m.graph.radius == R && m'.graph.radius == R
    requires AgreeAcross(R, m, m')
    ensures AgreeAcross(R, m', m)
  {
    hide WellFormed, Holds, StateAt;
    forall c, d | Leads(R, m'.chunk, m.chunk, c, d)
      ensures StateAt(m', c, d) == StateAt(m, Neighbor(c, d), Opposite(d))
    {
      OppositeReturns(c, d);
      assert Leads(R, m.chunk, m'.chunk, Neighbor(c, d), Opposite(d));
    }
  }

  /** What a filled map says of a side that leaves its chunk. */
  lemma CrossingState(gen: Generator, ch: Chunk, typ: ChunkType, open: EdgeSet, maps: map<Chunk, Map>, m: Map, nc: Chunk, c: Coord, d: Direction)
    requires Sound(gen) && NeighborsFit(gen, maps) && typ != Unset && IsFilled(gen, ch, typ, open, maps, m)
    requires nc != ch && Leads(gen.params.radius, ch, nc, c, d)
    ensures WellFormed(m) && Beyond(gen, c, d) == nc
    ensures StateAt(m, c, d) == if CrossingOpen(gen, ch, maps, c, d) then FACE_PASSAGE else FACE_WALL
  {
    hide Center, ChunkOf, Hex, CrossingOpen, NeighborsFit, Sound;
    FilledIsWellFormed(gen, ch, typ, open, maps, m);
    var R := gen.params.radius;
    Tiling(R, Neighbor(c, d), nc);
    var i := CellAt(m, c);
    LeavesChunk(gen, ch, m.graph, i, d);
    AtIsFromCentre(R, ch, m.graph.cells[i]);
    assert At(R, ch, m.graph.cells[i]) == c;
    assert CellDone(gen, ch, m.graph, open, maps, i, m.faces[i]);
  }

  /** A map generated against a neighbour's map agrees with it on every shared face, whoever made the neighbour. */
  lemma AgreesWithNeighbor(gen: Generator, ch: Chunk, typ: ChunkType, open: EdgeSet, maps: map<Chunk, Map>, m: Map, nc: Chunk)
    requires Sound(gen) && NeighborsFit(gen, maps) && typ != Unset && IsFilled(gen, ch, typ, open, maps, m)
    requires nc in maps && nc != ch
    ensures WellFormed(m) && AgreeAcross(gen.params.radius, m, maps[nc])
  {
    var R := gen.params.radius;
    FilledIsWellFormed(gen, ch, typ, open, maps, m);
    var nm := maps[nc];
    hide WellFormed, IsFilled, Sound;
    forall c, d | Leads(R, ch, nc, c, d)
      ensures StateAt(m, c, d) == StateAt(nm, Neighbor(c, d), Opposite(d))
    {
      CrossingState(gen, ch, typ, open, maps, m, nc, c, d);
      StateIsState(nm, Neighbor(c, d), Opposite(d));
    }
  }

  lemma StateIsState(m: Map, c: Coord, d: Direction)
    requires WellFormed(m) && Holds(m.graph.radius, m.chunk, c)
    ensures StateAt(m, c, d) == FACE_PASSAGE || StateAt(m, c, d) == FACE_WALL
  {
    assert StatesOk(m.faces[CellAt(m, c)]);
    assert IsState(m.faces[CellAt(m, c)][d]);
  }

  /** A crossing no stored map decides is open from one side exactly when it is from the other. */
  lemma DerivedFromEitherSide(gen: Generator, ch: Chunk, nc: Chunk, c: Coord, d: Direction)
    requires Sound(gen) && ch != nc && Leads(gen.params.radius, ch, nc, c, d)
    ensures CrossingOpen(gen, ch, map[], c, d) == CrossingOpen(gen, nc, map[], Neighbor(c, d), Opposite(d))
  {
    hide Center, ChunkOf, Hex, BorderPortals, Sound;
    var R, n := gen.params.radius, Neighbor(c, d);
    Tiling(R, n, nc);
    Tiling(R, c, ch);
    OppositeReturns(c, d);
    FaceNamesOneBoundary(c, d, n, Opposite(d));
    BorderPortalsFromEitherSide(gen, ch, nc);
  }

  /** Chunks generated alone agree across their border, whatever their types and interiors. */
  lemma AloneMapsAgree(gen: Generator, ch: Chunk, typ: ChunkType, open: EdgeSet, m: Map, ch': Chunk, typ': ChunkType, open': EdgeSet, m': Map)
    requires Sound(gen) && typ != Unset && typ' != Unset && ch != ch'
    requires IsFilled(gen, ch, typ, open, map[], m) && IsFilled(gen, ch', typ', open', map[], m')
    ensures WellFormed(m) && WellFormed(m') && AgreeAcross(gen.params.radius, m, m')
  {
    var R := gen.params.radius;
    FilledIsWellFormed(gen, ch, typ, open, map[], m);
    FilledIsWellFormed(gen, ch', typ', open', map[], m');
    hide WellFormed, IsFilled, Sound, CrossingOpen;
    forall c, d | Leads(R, ch, ch', c, d)
      ensures StateAt(m, c, d) == StateAt(m', Neighbor(c, d), Opposite(d))
    {
      CrossingState(gen, ch, typ, open, map[], m, ch', c, d);
      OppositeReturns(c, d);
      CrossingState(gen, ch', typ', open', map[], m', ch, Neighbor(c, d), Opposite(d));
      DerivedFromEitherSide(gen, ch, ch', c, d);
    }
  }

  /** The map's borders are what the portal rule alone gives, whatever its interior. */
  ghost predicate BordersAlone(gen: Generator, m: Map)
    requires Sound(gen)
  {
    m.typ != Unset && exists open :: IsFilled(gen, m.chunk, m.typ, open, map[], m)
  }

  /** Filling against neighbours whose borders are the portal rule's own is filling with no neighbours. */
  lemma SequentialIsAlone(gen: Generator, ch: Chunk, typ: ChunkType, open: EdgeSet, maps: map<Chunk, Map>, m: Map)
    requires Sound(gen) && NeighborsFit(gen, maps) && typ != Unset && ch !in maps
    requires forall nc :: nc in maps ==> BordersAlone(gen, maps[nc])
    requires IsFilled(gen, ch, typ, open, maps, m)
    ensures IsFilled(gen, ch, typ, open, map[], m)
  {
    hide NeighborsFit, BordersAlone, Sound, CellDone, SideOpen, IsChunkGraph;
    var R, g := gen.params.radius, m.graph;
    assert NeighborsFit(gen, map[]) by { NoNeighborsFit(gen); }
    forall i | 0 <= i < |m.faces|
      ensures CellDone(gen, ch, g, open, map[], i, m.faces[i])
    {
      assert CellDone(gen, ch, g, open, maps, i, m.faces[i]);
      forall d: Direction
        ensures SideOpen(gen, ch, g, open, map[], i, d) == SideOpen(gen, ch, g, open, maps, i, d)
      {
        SameSide(gen, ch, g, open, maps, i, d);
      }
      SameCell(gen, ch, g, open, maps, i, m.faces[i]);
    }
  }

  lemma NoNeighborsFit(gen: Generator)
    ensures NeighborsFit(gen, map[])
  {
  }

  lemma SameCell(gen: Generator, ch: Chunk, g: ChunkGraph, open: EdgeSet, maps: map<Chunk, Map>, i: nat, f: CellFaces)
    requires Sound(gen) && NeighborsFit(gen, maps) && i < |g.cells| && CellDone(gen, ch, g, open, maps, i, f)
    requires forall d: Direction :: SideOpen(gen, ch, g, open, map[], i, d) == SideOpen(gen, ch, g, open, maps, i, d)
    ensures CellDone(gen, ch, g, open, map[], i, f)
  {
    hide SideOpen, Sound, NeighborsFit;
  }

  lemma SameSide(gen: Generator, ch: Chunk, g: ChunkGraph, open: EdgeSet, maps: map<Chunk, Map>, i: nat, d: Direction)
    requires Sound(gen) && NeighborsFit(gen, maps) && ch !in maps
    requires IsChunkGraph(g) && g.radius == gen.params.radius && i < |g.cells|
    requires forall nc :: nc in maps ==> BordersAlone(gen, maps[nc])
    ensures SideOpen(gen, ch, g, open, map[], i, d) == SideOpen(gen, ch, g, open, maps, i, d)
  {
    hide Sound, NeighborsFit, CrossingOpen, BordersAlone, Center, Hex, ChunkOf, Holds, IsChunkGraph;
    if Neighbor(g.cells[i], d) !in g.index {
      LeavesChunk(gen, ch, g, i, d);
      SameCrossing(gen, ch, maps, At(gen.params.radius, ch, g.cells[i]), d);
    }
  }

  /** A crossing into a neighbour whose borders are the portal rule's own is open exactly when the rule opens it. */
  lemma SameCrossing(gen: Generator, ch: Chunk, maps: map<Chunk, Map>, c: Coord, d: Direction)
    requires Sound(gen) && NeighborsFit(gen, maps) && ch !in maps && Holds(gen.params.radius, ch, c) && Beyond(gen, c, d) != ch
    requires forall nc :: nc in maps ==> BordersAlone(gen, maps[nc])
    ensures CrossingOpen(gen, ch, map[], c, d) == CrossingOpen(gen, ch, maps, c, d)
  {
    hide Sound, CrossingOpen, IsFilled, Center, Hex, ChunkOf;
    var R, n, nc := gen.params.radius, Neighbor(c, d), Beyond(gen, c, d);
    Tiling(R, n, nc);
    if nc in maps {
      var nm := maps[nc];
      var open' :| IsFilled(gen, nc, nm.typ, open', map[], nm);
      OppositeReturns(c, d);
      CrossingState(gen, nc, nm.typ, open', map[], nm, ch, n, Opposite(d));
      DerivedFromEitherSide(gen, ch, nc, c, d);
      CrossingIs(gen, ch, maps, c, d);
    } else {
      CrossingNotStored(gen, ch, maps, c, d);
    }
  }

  lemma CrossingIs(gen: Generator, ch: Chunk, maps: map<Chunk, Map>, c: Coord, d: Direction)
    requires Sound(gen) && NeighborsFit(gen, maps) && Beyond(gen, c, d) in maps
    requires Holds(gen.params.radius, Beyond(gen, c, d), Neighbor(c, d))
    ensures CrossingOpen(gen, ch, maps, c, d) <==> StateAt(maps[Beyond(gen, c, d)], Neighbor(c, d), Opposite(d)) == FACE_PASSAGE
  {
  }

  lemma CrossingNotStored(gen: Generator, ch: Chunk, maps: map<Chunk, Map>, c: Coord, d: Direction)
    requires Sound(gen) && NeighborsFit(gen, maps) && Beyond(gen, c, d) !in maps
    ensures CrossingOpen(gen, ch, maps, c, d) == CrossingOpen(gen, ch, map[], c, d)
    ensures CrossingOpen(gen, ch, maps, c, d) == (FaceOf(c, d) in BorderPortals(gen, ch, Beyond(gen, c, d)))
  {
  }

  // ---------- The guaranteed passages of the map itself ----------

  /** The absolute cell the i-th of a map's cells is. */
  function CellOf(m: Map, i: nat): Coord
    requires 0 <= m.graph.radius && i < |m.graph.cells|
  {
    At(m.graph.radius, m.chunk, m.graph.cells[i])
  }

  /** Side d of map m's i-th cell is a passage into chunk nc. */
  predicate IsPassageInto(m: Map, nc: Chunk, i: int, d: Direction)
    requires 0 <= m.graph.radius && |m.faces| == |m.graph.cells|
  {
    && 0 <= i < |m.faces| && m.faces[i][d] == FACE_PASSAGE
    && Leads(m.graph.radius, m.chunk, nc, CellOf(m, i), d)
  }

  /** The faces map m shows as passages into chunk nc. */
  ghost function PassagesInto(m: Map, nc: Chunk): set<Face>
    requires 0 <= m.graph.radius && |m.faces| == |m.graph.cells|
  {
    set i, d: Direction | 0 <= i < |m.faces| && IsPassageInto(m, nc, i, d) :: FaceOf(CellOf(m, i), d)
  }

  /**
   What the parameters promise of a border: at least the lower share of its faces
   are passages and, rounding aside, no more than the upper share, at least one of
   them in all; and no two passages share a vertex.
   */
  ghost predicate Guaranteed(p: Params, m: Map, nc: Chunk)
    requires 0 <= m.graph.radius && |m.faces| == |m.graph.cells|
  {
    var passages, l := PassagesInto(m, nc), (2 * m.graph.radius + 1) as real;
    && p.portalLower * l <= |passages| as real < p.portalUpper * l + 1.0
    && 1 <= |passages|
    && forall f, g :: f in passages && g in passages ==> !ShareVertex(f, g)
  }

  /** The promise holds of every border but those the listed maps already decide. */
  ghost predicate NewGuaranteed(p: Params, m: Map, neighbors: seq<Map>)
    requires 0 <= m.graph.radius && |m.faces| == |m.graph.cells|
  {
    forall nc :: ChunksAdjacent(m.chunk, nc) && (forall nm :: nm in neighbors ==> nm.chunk != nc) ==> Guaranteed(p, m, nc)
  }

  ghost predicate AllGuaranteed(p: Params, m: Map)
    requires 0 <= m.graph.radius && |m.faces| == |m.graph.cells|
  {
    forall nc :: ChunksAdjacent(m.chunk, nc) ==> Guaranteed(p, m, nc)
  }

  lemma SideInto(gen: Generator, ch: Chunk, typ: ChunkType, open: EdgeSet, maps: map<Chunk, Map>, m: Map, nc: Chunk, i: nat, d: Direction)
    requires Sound(gen) && NeighborsFit(gen, maps) && IsFilled(gen, ch, typ, open, maps, m)
    requires nc !in maps && nc != ch && i < |m.faces| && Leads(gen.params.radius, ch, nc, CellOf(m, i), d)
    ensures m.faces[i][d] == FACE_PASSAGE <==> FaceOf(CellOf(m, i), d) in BorderPortals(gen, ch, nc)
  {
    hide Center, ChunkOf, Hex, CrossingOpen, NeighborsFit, Sound, IsChunkGraph, Holds, BorderPortals;
    var c := CellOf(m, i);
    assert CellDone(gen, ch, m.graph, open, maps, i, m.faces[i]);
    LeavesChunk(gen, ch, m.graph, i, d);
    Tiling(gen.params.radius, Neighbor(c, d), nc);
    CrossingNotStored(gen, ch, maps, c, d);
  }

  /** Every cell a chunk holds is one of its map's. */
  lemma IndexOfHeld(m: Map, c: Coord) returns (i: nat)
    requires 0 <= m.graph.radius && IsChunkGraph(m.graph) && Holds(m.graph.radius, m.chunk, c)
    ensures i < |m.graph.cells| && CellOf(m, i) == c
  {
    hide Hex, Center;
    var R := m.graph.radius;
    var local := Local(R, m.chunk, c);
    CellsAreTheHexagon(R);
    HeldIsInside(R, m.chunk, c);
    assert local in m.graph.cells;
    i :| 0 <= i < |m.graph.cells| && m.graph.cells[i] == local;
    AtIsFromCentre(R, m.chunk, local);
  }

  lemma HeldIsInside(R: nat, ch: Chunk, c: Coord)
    ensures Holds(R, ch, c) <==> Distance(Local(R, ch, c), ORIGIN) <= R
  {
  }

  lemma PassageOf(m: Map, nc: Chunk, f: Face) returns (i: nat, d: Direction)
    requires 0 <= m.graph.radius && |m.faces| == |m.graph.cells| && f in PassagesInto(m, nc)
    ensures i < |m.faces| && IsPassageInto(m, nc, i, d) && FaceOf(CellOf(m, i), d) == f
  {
    hide IsPassageInto, CellOf;
    i, d :| 0 <= i < |m.faces| && IsPassageInto(m, nc, i, d) && FaceOf(CellOf(m, i), d) == f;
  }

  lemma IsPassage(m: Map, nc: Chunk, i: nat, d: Direction)
    requires 0 <= m.graph.radius && |m.faces| == |m.graph.cells| && i < |m.faces|
    requires m.faces[i][d] == FACE_PASSAGE && Leads(m.graph.radius, m.chunk, nc, CellOf(m, i), d)
    ensures FaceOf(CellOf(m, i), d) in PassagesInto(m, nc)
  {
    hide CellOf, Leads, FaceOf;
    assert IsPassageInto(m, nc, i, d);
  }

  lemma PassageLeads(m: Map, nc: Chunk, i: nat, d: Direction)
    requires 0 <= m.graph.radius && |m.faces| == |m.graph.cells| && i < |m.faces| && IsPassageInto(m, nc, i, d)
    ensures m.faces[i][d] == FACE_PASSAGE && Leads(m.graph.radius, m.chunk, nc, CellOf(m, i), d)
  {
    hide CellOf, Leads;
  }

  lemma BetweenAt(R: nat, a: Chunk, b: Chunk, f: Face) returns (c: Coord, d: Direction)
    requires Between(R, a, b, f)
    ensures Leads(R, a, b, c, d) && FaceOf(c, d) == f && Holds(R, a, c)
  {
    hide Holds;
    c, d :| Leads(R, a, b, c, d) && FaceOf(c, d) == f;
  }

  lemma FilledHas(gen: Generator, ch: Chunk, typ: ChunkType, open: EdgeSet, maps: map<Chunk, Map>, m: Map)
    requires Sound(gen) && NeighborsFit(gen, maps) && IsFilled(gen, ch, typ, open, maps, m)
    ensures m.chunk == ch && IsChunkGraph(m.graph) && m.graph.radius == gen.params.radius && 0 <= m.graph.radius
    ensures |m.faces| == |m.graph.cells|
  {
  }

  /** Into a neighbour whose map was not given, the map's passages are the portal rule's. */
  lemma PassagesAreDrawn(gen: Generator, ch: Chunk, typ: ChunkType, open: EdgeSet, maps: map<Chunk, Map>, m: Map, nc: Chunk)
    requires Sound(gen) && NeighborsFit(gen, maps) && IsFilled(gen, ch, typ, open, maps, m)
    requires ChunksAdjacent(ch, nc) && nc !in maps
    ensures 0 <= m.graph.radius && |m.faces| == |m.graph.cells| && PassagesInto(m, nc) == BorderPortals(gen, ch, nc)
  {
    hide *;
    FilledHas(gen, ch, typ, open, maps, m);
    PortalsBetween(gen, ch, nc);
    ChunksAdjacentBack(ch, nc);
    var portals := BorderPortals(gen, ch, nc);
    forall f | f in PassagesInto(m, nc)
      ensures f in portals
    {
      var i, d := PassageOf(m, nc, f);
      PassageLeads(m, nc, i, d);
      SideInto(gen, ch, typ, open, maps, m, nc, i, d);
    }
    forall f | f in portals
      ensures f in PassagesInto(m, nc)
    {
      var c, d := BetweenAt(gen.params.radius, ch, nc, f);
      var i := IndexOfHeld(m, c);
      SideInto(gen, ch, typ, open, maps, m, nc, i, d);
      IsPassage(m, nc, i, d);
    }
  }

  lemma PortalsBetween(gen: Generator, ch: Chunk, nc: Chunk)
    requires Sound(gen) && ChunksAdjacent(ch, nc)
    ensures var portals := BorderPortals(gen, ch, nc);
            && gen.low <= |portals| <= gen.high && (forall f :: f in portals ==> Between(gen.params.radius, ch, nc, f))
            && forall f, g :: f in portals && g in portals ==> !ShareVertex(f, g)
  {
    hide PortalsOf, CandidateFaces, Between, ShareVertex, ChunksAdjacent;
    PortalsAreApart(gen.keys.border(Lesser(ch, nc), Greater(ch, nc)), gen.params.radius, ch, nc, gen.low, gen.high);
  }

  /** Whatever the interior, and whatever other neighbours' maps were given. */
  lemma BordersAreGuaranteed(gen: Generator, ch: Chunk, typ: ChunkType, open: EdgeSet, maps: map<Chunk, Map>, m: Map, nc: Chunk)
    requires Ready(gen) && NeighborsFit(gen, maps) && IsFilled(gen, ch, typ, open, maps, m)
    requires ChunksAdjacent(ch, nc) && nc !in maps
    ensures Guaranteed(gen.params, m, nc)
  {
    hide *;
    ReadyIsSound(gen);
    PassagesAreDrawn(gen, ch, typ, open, maps, m, nc);
    FilledHas(gen, ch, typ, open, maps, m);
    PortalsBetween(gen, ch, nc);
    CountIsShare(gen, |BorderPortals(gen, ch, nc)|);
    IsGuaranteed(gen.params, m, nc);
  }

  lemma CountIsShare(gen: Generator, n: nat)
    requires Ready(gen) && gen.low <= n <= gen.high
    ensures var l := (2 * gen.params.radius + 1) as real;
            gen.params.portalLower * l <= n as real < gen.params.portalUpper * l + 1.0 && 1 <= n
  {
    PortalBoundsValid(gen.params);
    var l := 2 * gen.params.radius + 1;
    CeilRealIsCeiling(gen.params.portalLower * l as real);
    CeilRealIsCeiling(gen.params.portalUpper * l as real);
    hide Sound, Valid, CeilReal;
  }

  lemma IsGuaranteed(p: Params, m: Map, nc: Chunk)
    requires 0 <= m.graph.radius && |m.faces| == |m.graph.cells|
    requires var passages, l := PassagesInto(m, nc), (2 * m.graph.radius + 1) as real;
             && p.portalLower * l <= |passages| as real < p.portalUpper * l + 1.0 && 1 <= |passages|
             && forall f, g :: f in passages && g in passages ==> !ShareVertex(f, g)
    ensures Guaranteed(p, m, nc)
  {
    hide PassagesInto, ShareVertex;
  }

  /** The border's passages are the same faces, whichever of two agreeing maps shows them. */
  lemma PassagesFromEitherSide(R: nat, m: Map, m': Map)
    requires WellFormed(m) && WellFormed(m') && m.graph.radius == R && m'.graph.radius == R && AgreeAcross(R, m, m')
    ensures PassagesInto(m, m'.chunk) == PassagesInto(m', m.chunk)
  {
    hide WellFormed, AgreeAcross;
    AgreeAcrossBack(R, m, m');
    PassagesBack(R, m, m');
    PassagesBack(R, m', m);
  }

  lemma PassagesBack(R: nat, m: Map, m': Map)
    requires WellFormed(m) && WellFormed(m') && m.graph.radius == R && m'.graph.radius == R && AgreeAcross(R, m, m')
    ensures PassagesInto(m, m'.chunk) <= PassagesInto(m', m.chunk)
  {
    hide *;
    FacesFit(m);
    FacesFit(m');
    forall f | f in PassagesInto(m, m'.chunk)
      ensures f in PassagesInto(m', m.chunk)
    {
      var i, d := PassageOf(m, m'.chunk, f);
      PassageLeads(m, m'.chunk, i, d);
      PassageBack(R, m, m', i, d);
    }
  }

  lemma PassageBack(R: nat, m: Map, m': Map, i: nat, d: Direction)
    requires WellFormed(m) && WellFormed(m') && m.graph.radius == R && m'.graph.radius == R && AgreeAcross(R, m, m')
    requires i < |m.faces| && m.faces[i][d] == FACE_PASSAGE && Leads(R, m.chunk, m'.chunk, CellOf(m, i), d)
    ensures FaceOf(CellOf(m, i), d) in PassagesInto(m', m.chunk)
  {
    hide Center, Hex, Holds, StateAt, PassagesInto, FaceOf, WellFormed, CellOf;
    FacesFit(m);
    FacesFit(m');
    var c := CellOf(m, i);
    var n, back := Neighbor(c, d), Opposite(d);
    OppositeReturns(c, d);
    FaceNamesOneBoundary(c, d, n, back);
    StateOfCell(m, i, d);
    assert StateAt(m, c, d) == StateAt(m', n, back);
    var j := IndexOfHeld(m', n);
    StateOfCell(m', j, back);
    IsPassage(m', m.chunk, j, back);
  }

  lemma StateOfCell(m: Map, i: nat, d: Direction)
    requires WellFormed(m) && i < |m.faces| && Holds(m.graph.radius, m.chunk, CellOf(m, i))
    ensures StateAt(m, CellOf(m, i), d) == m.faces[i][d]
  {
    hide Hex, Center, Holds;
    AtIsFromCentre(m.graph.radius, m.chunk, m.graph.cells[i]);
    assert Local(m.graph.radius, m.chunk, CellOf(m, i)) == m.graph.cells[i];
    CellsAreTheHexagon(m.graph.radius);
  }

  // ---------- The interior a generator gives a chunk ----------

  function StreamsOf(gen: Generator, ch: Chunk): Streams {
    Streams(gen.keys.island(ch), gen.keys.algorithm(ch), gen.keys.structure(ch), gen.keys.cycle(ch))
  }

  function BiasOf(gen: Generator): nat
    requires Valid(gen.params)
  {
    BiasThreshold(gen.params.bias)
  }

  /** The interior the four keyed streams give, within a budget of steps. */
  ghost function InteriorOf(gen: Generator, ch: Chunk, typ: ChunkType, budget: nat): InteriorResult
    requires Ready(gen)
  {
    InteriorFrom(gen.params, typ, GraphOf(gen.params.radius), StreamsOf(gen, ch), BiasOf(gen), budget)
  }

  ghost function DrawnAlgorithm(gen: Generator, ch: Chunk): Algorithm {
    AlgorithmDrawn(gen.params, StreamsOf(gen, ch))
  }

  /**
   Every pass draws from its own stream: the islands from the chunk's island
   stream alone, the algorithm from its algorithm stream, the whole interior from
   the chunk's four, and a border's portals from the border's.
   */
  lemma PassesDrawFromTheirOwnStreams(gen: Generator, gen': Generator, ch: Chunk, typ: ChunkType, budget: nat, nc: Chunk)
    requires Ready(gen) && Ready(gen') && gen.params == gen'.params
    ensures gen.keys.island(ch) == gen'.keys.island(ch) ==>
              InteriorOf(gen, ch, typ, budget).Made? && InteriorOf(gen', ch, typ, budget).Made? ==>
                InteriorOf(gen, ch, typ, budget).interior.islands == InteriorOf(gen', ch, typ, budget).interior.islands
    ensures gen.keys.algorithm(ch) == gen'.keys.algorithm(ch) ==> DrawnAlgorithm(gen, ch) == DrawnAlgorithm(gen', ch)
    ensures (&& gen.keys.island(ch) == gen'.keys.island(ch) && gen.keys.algorithm(ch) == gen'.keys.algorithm(ch)
             && gen.keys.structure(ch) == gen'.keys.structure(ch) && gen.keys.cycle(ch) == gen'.keys.cycle(ch)) ==>
              InteriorOf(gen, ch, typ, budget) == InteriorOf(gen', ch, typ, budget)
    ensures gen.keys.border(Lesser(ch, nc), Greater(ch, nc)) == gen'.keys.border(Lesser(ch, nc), Greater(ch, nc)) ==>
              BorderPortals(gen, ch, nc) == BorderPortals(gen', ch, nc)
  {
    hide Sound, IslandsOf, StructureOf, WithExtra, Weighed, PortalsOf, CandidateFaces, BiasThreshold;
    assert Sound(gen) && Sound(gen');
  }

  /** The chunk's interior, in whatever budget. */
  ghost predicate HasInterior(gen: Generator, ch: Chunk, typ: ChunkType, interior: Interior)
    requires Ready(gen)
  {
    exists budget: nat :: InteriorOf(gen, ch, typ, budget) == Made(interior)
  }

  lemma MadeIsInterior(gen: Generator, ch: Chunk, typ: ChunkType, budget: nat)
    requires Ready(gen)
    ensures var res := InteriorOf(gen, ch, typ, budget); res.Made? ==> HasInterior(gen, ch, typ, res.interior)
  {
    hide InteriorOf, Ready;
  }

  /** Keys, parameters, chunk and type leave no choice of interior, and it is a sound one. */
  lemma InteriorIsDetermined(gen: Generator, ch: Chunk, typ: ChunkType, interior: Interior, interior': Interior)
    requires Ready(gen) && HasInterior(gen, ch, typ, interior) && HasInterior(gen, ch, typ, interior')
    ensures interior == interior'
    ensures InteriorOk(gen.params, typ, GraphOf(gen.params.radius), interior)
  {
    hide Sound, InteriorFrom, InteriorOk, StreamsOf, BiasOf;
    var g := GraphOf(gen.params.radius);
    var b: nat :| InteriorOf(gen, ch, typ, b) == Made(interior);
    var b': nat :| InteriorOf(gen, ch, typ, b') == Made(interior');
    InteriorInAnyBudget(gen.params, typ, g, StreamsOf(gen, ch), BiasOf(gen), b, b');
    InteriorFromIsOk(gen.params, typ, g, StreamsOf(gen, ch), BiasOf(gen), b);
  }

  /**
   A chunk has an interior in some budget exactly when the walks of its run all
   arrive, if it is Wilson's; and an algorithm of weight zero is never drawn.
   */
  lemma InteriorExistsExactly(gen: Generator, ch: Chunk, typ: ChunkType)
    requires Ready(gen)
    ensures (exists interior :: HasInterior(gen, ch, typ, interior)) <==>
            InteriorEnds(gen.params, typ, GraphOf(gen.params.radius), StreamsOf(gen, ch))
    ensures gen.params.weights[4] == 0 ==> DrawnAlgorithm(gen, ch) != WilsonWalk && exists interior :: HasInterior(gen, ch, typ, interior)
  {
    hide Sound, InteriorFrom, InteriorOk, BiasOf, EveryWalkArrives, AlgorithmDrawn;
    var g := GraphOf(gen.params.radius);
    InteriorEndsExactly(gen.params, typ, g, StreamsOf(gen, ch), BiasOf(gen));
    if budget: nat :| InteriorFrom(gen.params, typ, g, StreamsOf(gen, ch), BiasOf(gen), budget).Made? {
      assert HasInterior(gen, ch, typ, InteriorOf(gen, ch, typ, budget).interior);
    }
    if gen.params.weights[4] == 0 { WeightlessNeverDrawn(gen.params, StreamsOf(gen, ch), 4); }
  }

  // ---------- The generated map's interior ----------

  /** The keys of the interior faces map m has as passages. */
  ghost predicate IsOpenInside(m: Map, f: InteriorFace)
    requires WellFormed(m)
  {
    IsInteriorFace(m.graph, f) && m.faces[f.a][f.dir] == FACE_PASSAGE
  }

  /** m's interior passages are the open faces. */
  ghost predicate ShowsOpen(m: Map, open: EdgeSet)
    requires WellFormed(m)
  {
    forall f :: IsInteriorFace(m.graph, f) ==> (IsOpenInside(m, f) <==> KeyOf(f) in open)
  }

  /** m's islands are walled on all sides. */
  ghost predicate ShowsWalls(m: Map, islands: set<int>) {
    forall v, d: Direction :: v in islands ==> 0 <= v < |m.faces| && m.faces[v][d] == FACE_WALL
  }

  ghost predicate Shows(m: Map, interior: Interior)
    requires WellFormed(m)
  {
    ShowsOpen(m, interior.open) && ShowsWalls(m, interior.islands)
  }

  /** The map's interior passages are exactly the open edges; and an island is walled on all six sides. */
  lemma FilledInterior(gen: Generator, ch: Chunk, typ: ChunkType, interior: Interior, maps: map<Chunk, Map>, m: Map)
    requires Sound(gen) && NeighborsFit(gen, maps) && typ != Unset && IsFilled(gen, ch, typ, interior.open, maps, m)
    requires InteriorOk(gen.params, typ, m.graph, interior)
    ensures WellFormed(m) && Shows(m, interior)
    ensures forall k :: k in interior.open ==> exists f :: IsOpenInside(m, f) && KeyOf(f) == k
  {
    hide *;
    FilledIsWellFormed(gen, ch, typ, interior.open, maps, m);
    FilledParts(gen, ch, typ, interior.open, maps, m);
    FilledFaces(gen, ch, typ, interior.open, maps, m);
    FilledIslands(gen, ch, typ, interior, maps, m);
    ShowsBoth(m, interior);
    forall k | k in interior.open
      ensures exists f :: IsOpenInside(m, f) && KeyOf(f) == k
    {
      OpenEdgeShown(gen.params, typ, m, interior, k);
    }
  }

  lemma ShowsBoth(m: Map, interior: Interior)
    requires WellFormed(m) && ShowsOpen(m, interior.open) && ShowsWalls(m, interior.islands)
    ensures Shows(m, interior)
  {
    hide WellFormed, ShowsOpen, ShowsWalls;
  }

  lemma FilledFaces(gen: Generator, ch: Chunk, typ: ChunkType, open: EdgeSet, maps: map<Chunk, Map>, m: Map)
    requires Sound(gen) && NeighborsFit(gen, maps) && IsFilled(gen, ch, typ, open, maps, m) && WellFormed(m)
    ensures ShowsOpen(m, open)
  {
    var g := m.graph;
    hide Sound, NeighborsFit, IsChunkGraph, CellDone, WellFormed, KeyOf;
    forall f | IsInteriorFace(g, f)
      ensures IsOpenInside(m, f) <==> KeyOf(f) in open
    {
      FilledFace(gen, ch, open, maps, g, f, m.faces[f.a]);
    }
  }

  lemma FilledIslands(gen: Generator, ch: Chunk, typ: ChunkType, interior: Interior, maps: map<Chunk, Map>, m: Map)
    requires Sound(gen) && NeighborsFit(gen, maps) && IsFilled(gen, ch, typ, interior.open, maps, m)
    requires InteriorOk(gen.params, typ, m.graph, interior)
    ensures ShowsWalls(m, interior.islands)
  {
    var g := m.graph;
    InteriorParts(gen.params, typ, g, interior);
    hide Sound, NeighborsFit, IsChunkGraph, CellDone, InteriorOk, LandEdges;
    forall v, d: Direction | v in interior.islands
      ensures 0 <= v < |m.faces| && m.faces[v][d] == FACE_WALL
    {
      assert MayBeIsland(g, typ, v);
      FilledIsland(gen, ch, interior, maps, g, v, d, m.faces[v]);
    }
  }

  /** Every open edge is some interior face's. */
  lemma OpenEdgeShown(p: Params, typ: ChunkType, m: Map, interior: Interior, k: EdgeKey)
    requires 0 <= p.radius && WellFormed(m) && InteriorOk(p, typ, m.graph, interior) && Shows(m, interior) && k in interior.open
    ensures exists f :: IsOpenInside(m, f) && KeyOf(f) == k
  {
    var g, land := m.graph, Land(m.graph, interior.islands);
    InteriorParts(p, typ, g, interior);
    EdgeOfLand(g, interior.islands, k);
    hide InteriorOk, WellFormed, IsOpenInside, KeyOf, IsInteriorFace, LandEdges;
    var f :| IsInteriorFace(g, f) && KeyOf(f) == k;
    assert IsOpenInside(m, f);
  }

  lemma EdgeOfLand(g: ChunkGraph, islands: set<int>, k: EdgeKey)
    requires IsChunkGraph(g) && k in LandEdges(g, islands)
    ensures exists f :: IsInteriorFace(g, f) && KeyOf(f) == k
  {
    hide IsChunkGraph, IsInteriorFace, KeyOf, Neighbors;
    var a, b :| a in Land(g, islands) && b in Land(g, islands) && b in Neighbors(g, a) && NewEdgeKey(a, b) == k;
    var f := FaceOfEdge(g, a, b);
  }

  lemma InteriorParts(p: Params, typ: ChunkType, g: ChunkGraph, interior: Interior)
    requires 0 <= p.radius && InteriorOk(p, typ, g, interior)
    ensures interior.open <= LandEdges(g, interior.islands) && forall v :: v in interior.islands ==> MayBeIsland(g, typ, v)
  {
  }

  /** Inside m, for some valid parameters, is what every interior is. */
  ghost predicate SoundInterior(m: Map)
    requires WellFormed(m)
  {
    exists p, interior :: Valid(p) && p.radius == m.graph.radius && InteriorOk(p, m.typ, m.graph, interior) && Shows(m, interior)
  }

  /** m is the chunk's own interior, filled against the maps given. */
  ghost predicate IsGenerated(gen: Generator, ch: Chunk, typ: ChunkType, maps: map<Chunk, Map>, m: Map)
    requires Ready(gen) && NeighborsFit(gen, maps)
  {
    exists interior :: HasInterior(gen, ch, typ, interior) && IsFilled(gen, ch, typ, interior.open, maps, m)
  }

  lemma ReadyIsSound(gen: Generator)
    requires Ready(gen)
    ensures Sound(gen) && Valid(gen.params) && 0 <= gen.params.radius
  {
  }

  lemma FilledParts(gen: Generator, ch: Chunk, typ: ChunkType, open: EdgeSet, maps: map<Chunk, Map>, m: Map)
    requires Sound(gen) && NeighborsFit(gen, maps) && IsFilled(gen, ch, typ, open, maps, m)
    ensures m.chunk == ch && m.typ == typ && IsChunkGraph(m.graph) && m.graph.radius == gen.params.radius
    ensures 0 <= gen.params.radius
  {
  }

  /** A generated map is well formed and has a sound interior. */
  lemma GeneratedIsSound(gen: Generator, ch: Chunk, typ: ChunkType, maps: map<Chunk, Map>, m: Map)
    requires Ready(gen) && NeighborsFit(gen, maps) && typ != Unset && IsGenerated(gen, ch, typ, maps, m)
    ensures m.chunk == ch && m.typ == typ && WellFormed(m) && SoundInterior(m)
  {
    ReadyIsSound(gen);
    var interior :| HasInterior(gen, ch, typ, interior) && IsFilled(gen, ch, typ, interior.open, maps, m);
    hide *;
    FilledParts(gen, ch, typ, interior.open, maps, m);
    InteriorIsDetermined(gen, ch, typ, interior, interior);
    GraphDetermined(m.graph, GraphOf(gen.params.radius));
    FilledInterior(gen, ch, typ, interior, maps, m);
    IsSound(gen.params, m, interior);
  }

  lemma IsSound(p: Params, m: Map, interior: Interior)
    requires Valid(p) && WellFormed(m) && p.radius == m.graph.radius && InteriorOk(p, m.typ, m.graph, interior) && Shows(m, interior)
    ensures SoundInterior(m)
  {
    hide Valid, WellFormed, InteriorOk, Shows;
  }

  /** Against neighbours gen made alone, the map generated is the one made alone. */
  lemma GeneratedIsAlone(gen: Generator, ch: Chunk, typ: ChunkType, maps: map<Chunk, Map>, m: Map)
    requires Ready(gen) && NeighborsFit(gen, maps) && typ != Unset && ch !in maps && IsGenerated(gen, ch, typ, maps, m)
    requires forall nc :: nc in maps ==> MadeAlone(gen, maps[nc])
    ensures m.chunk == ch && m.typ == typ && MadeAlone(gen, m)
  {
    ReadyIsSound(gen);
    var interior :| HasInterior(gen, ch, typ, interior) && IsFilled(gen, ch, typ, interior.open, maps, m);
    hide *;
    FilledParts(gen, ch, typ, interior.open, maps, m);
    NoNeighborsFit(gen);
    forall nc | nc in maps
      ensures BordersAlone(gen, maps[nc])
    {
      AloneBorders(gen, maps[nc]);
    }
    SequentialIsAlone(gen, ch, typ, interior.open, maps, m);
    AloneIs(gen, m);
  }

  lemma FilledFace(gen: Generator, ch: Chunk, open: EdgeSet, maps: map<Chunk, Map>, g: ChunkGraph, f: InteriorFace, faces: CellFaces)
    requires Sound(gen) && NeighborsFit(gen, maps) && IsChunkGraph(g) && IsInteriorFace(g, f)
    requires CellDone(gen, ch, g, open, maps, f.a, faces)
    ensures faces[f.dir] == FACE_PASSAGE <==> KeyOf(f) in open
  {
    hide CrossingOpen;
    InteriorSides(g, f);
  }

  lemma FilledIsland(gen: Generator, ch: Chunk, interior: Interior, maps: map<Chunk, Map>, g: ChunkGraph, v: nat, d: Direction, faces: CellFaces)
    requires Sound(gen) && NeighborsFit(gen, maps) && IsChunkGraph(g) && v < |g.cells| && v in interior.islands
    requires CellDone(gen, ch, g, interior.open, maps, v, faces) && !IsBorderCell(g, v)
    requires interior.open <= LandEdges(g, interior.islands)
    ensures faces[d] == FACE_WALL
  {
    hide CrossingOpen;
    InnerCellHasNeighbors(g, v, d);
    var w := g.index[Neighbor(g.cells[v], d)];
    GraphEdgesHas(g, Land(g, interior.islands), v, w);
  }

  lemma InnerCellHasNeighbors(g: ChunkGraph, v: nat, d: Direction)
    requires IsChunkGraph(g) && v < |g.cells| && !IsBorderCell(g, v)
    ensures Neighbor(g.cells[v], d) in g.index
  {
    hide Hex;
    CellsAreTheHexagon(g.radius);
    assert g.cells[v] in g.cells;
    StepChangesByOne(g.cells[v], d, ORIGIN);
    assert Neighbor(g.cells[v], d) in g.cells;
  }

  // ---------- The passes ----------

  datatype GenerateResult = Generated(m: Map) | NotGenerated(error: Refused) | OutOfBudget

  /** Generate's last pass: every cell's faces, each neighbour's derived portals computed once. */
  method FillFaces(gen: Generator, ch: Chunk, g: ChunkGraph, open: EdgeSet, maps: map<Chunk, Map>) returns (faces: seq<CellFaces>)
    requires Ready(gen) && NeighborsFit(gen, maps) && IsChunkGraph(g) && g.radius == gen.params.radius
    ensures |faces| == |g.cells| && forall i :: 0 <= i < |faces| ==> CellDone(gen, ch, g, open, maps, i, faces[i])
  {
    hide IsChunkGraph, Sound, NeighborsFit, SideOpen, BorderPortals;
    var derived: map<Chunk, set<Face>> := map[];
    faces := [];
    for idx := 0 to |g.cells|
      invariant |faces| == idx && forall i :: 0 <= i < idx ==> CellDone(gen, ch, g, open, maps, i, faces[i])
      invariant forall nc :: nc in derived ==> derived[nc] == BorderPortals(gen, ch, nc)
    {
      var f: CellFaces := [FACE_WALL, FACE_WALL, FACE_WALL, FACE_WALL, FACE_WALL, FACE_WALL];
      for d := 0 to 6
        invariant forall k: Direction :: k < d ==> f[k] == if SideOpen(gen, ch, g, open, maps, idx, k) then FACE_PASSAGE else FACE_WALL
        invariant forall nc :: nc in derived ==> derived[nc] == BorderPortals(gen, ch, nc)
      {
        var passage;
        passage, derived := FillSide(gen, ch, g, open, maps, idx, d, derived);
        f := f[d := if passage then FACE_PASSAGE else FACE_WALL];
      }
      faces := faces + [f];
    }
  }

  method FillSide(gen: Generator, ch: Chunk, g: ChunkGraph, open: EdgeSet, maps: map<Chunk, Map>, idx: nat, d: Direction,
                  derived0: map<Chunk, set<Face>>) returns (passage: bool, derived: map<Chunk, set<Face>>)
    requires Ready(gen) && NeighborsFit(gen, maps) && IsChunkGraph(g) && g.radius == gen.params.radius && idx < |g.cells|
    requires forall nc :: nc in derived0 ==> derived0[nc] == BorderPortals(gen, ch, nc)
    ensures passage == SideOpen(gen, ch, g, open, maps, idx, d)
    ensures forall nc :: nc in derived ==> derived[nc] == BorderPortals(gen, ch, nc)
  {
    hide Center, ChunkOf, Hex, BorderPortals, IsChunkGraph;
    derived := derived0;
    var n := Neighbor(g.cells[idx], d);
    if n in g.index {
      return Has(open, idx, g.index[n]), derived;
    }
    var c := At(g.radius, ch, g.cells[idx]);
    var neighborChunk, neighborLocal := Locate(g.radius, Neighbor(c, d));
    if neighborChunk in maps {
      var nm := maps[neighborChunk];
      var nFaces, ok := Faces(nm, neighborLocal);
      CrossingIs(gen, ch, maps, c, d);
      assert ok;
      var i := CellAt(nm, Neighbor(c, d));
      SameLocal(nm, neighborLocal, i, nFaces);
      passage := nFaces[Opposite(d)] == FACE_PASSAGE;
    } else {
      CrossingNotStored(gen, ch, maps, c, d);
      if neighborChunk !in derived {
        var portals := DeriveBorder(gen, ch, neighborChunk);
        derived := derived[neighborChunk := portals];
      }
      passage := FaceOf(c, d) in derived[neighborChunk];
    }
  }

  lemma SameLocal(m: Map, local: Coord, i: nat, faces: CellFaces)
    requires WellFormed(m) && i < |m.faces| && m.graph.cells[i] == local
    requires exists k :: 0 <= k < |m.faces| && m.graph.cells[k] == local && m.faces[k] == faces
    ensures m.faces[i] == faces
  {
    CellsAreTheHexagon(m.graph.radius);
  }

  method DeriveBorder(gen: Generator, ch: Chunk, nc: Chunk) returns (portals: set<Face>)
    requires Ready(gen)
    ensures portals == BorderPortals(gen, ch, nc)
  {
    hide PortalsOf, CandidateFaces, CeilShare;
    var candidates := BorderCandidates(gen.params.radius, ch, nc);
    var s := new Stream(gen.keys.border(Lesser(ch, nc), Greater(ch, nc)));
    portals := SelectPortals(candidates, s, gen.params.portalLower, gen.params.portalUpper);
  }

  /** Every neighbour map given is one Generate may be given. */
  ghost predicate AllAcceptable(gen: Generator, ch: Chunk, neighbors: seq<Map>) {
    forall i :: 0 <= i < |neighbors| ==> Acceptable(ch, gen.params.radius, neighbors, i)
  }

  /** m is the chunk's interior, filled against the neighbours given. */
  ghost predicate FilledFrom(gen: Generator, ch: Chunk, typ: ChunkType, neighbors: seq<Map>, open: EdgeSet, m: Map)
    requires Sound(gen)
  {
    exists maps :: Keyed(maps, neighbors) && NeighborsFit(gen, maps) && ch !in maps && IsFilled(gen, ch, typ, open, maps, m)
  }

  /** What Generate gives. */
  ghost predicate IsOutcome(gen: Generator, ch: Chunk, typ: ChunkType, neighbors: seq<Map>, budget: nat, res: GenerateResult)
    requires Ready(gen)
  {
    if typ == Unset || !AllAcceptable(gen, ch, neighbors) then res.NotGenerated?
    else
      match InteriorOf(gen, ch, typ, budget)
      case NotMade => res.OutOfBudget?
      case Made(interior) => res.Generated? && FilledFrom(gen, ch, typ, neighbors, interior.open, res.m)
  }

  /**
   Generate: refuses an unknown type and every neighbour map resolveNeighborMaps
   refuses; otherwise the chunk's own interior, which is a sound one, filled
   against the neighbours' borders or the portal rule's. Only Wilson's walk can
   run out of its step budget.
   */
  method Generate(gen: Generator, ch: Chunk, typ: ChunkType, neighbors: seq<Map>, budget: nat)
    returns (res: GenerateResult, ghost maps: map<Chunk, Map>, ghost interior: Interior)
    requires Ready(gen) && forall nm :: nm in neighbors ==> WellFormed(nm)
    ensures IsOutcome(gen, ch, typ, neighbors, budget, res)
    ensures res.NotGenerated? <==>
              typ == Unset || exists i :: 0 <= i < |neighbors| && !Acceptable(ch, gen.params.radius, neighbors, i)
    ensures res.Generated? ==> Keyed(maps, neighbors) && NeighborsFit(gen, maps) && ch !in maps
    ensures res.Generated? ==> InteriorOf(gen, ch, typ, budget) == Made(interior)
    ensures res.Generated? ==> WellFormed(res.m) && IsFilled(gen, ch, typ, interior.open, maps, res.m)
    ensures res.Generated? ==> InteriorOk(gen.params, typ, res.m.graph, interior)
    ensures res.Generated? ==> |res.m.faces| == |res.m.graph.cells| && NewGuaranteed(gen.params, res.m, neighbors)
    ensures res.OutOfBudget? ==> DrawnAlgorithm(gen, ch) == WilsonWalk
  {
    FairStreams(gen, ch);
    hide *;
    maps, interior := map[], Interior({}, {});
    if typ == Unset {
      Refuses(gen, ch, typ, neighbors, budget, UnknownChunkType);
      return NotGenerated(UnknownChunkType), maps, interior;
    }
    var resolved := ResolveNeighborMaps(ch, gen.params.radius, neighbors);
    if resolved.Refusal? {
      Refuses(gen, ch, typ, neighbors, budget, resolved.error);
      return NotGenerated(resolved.error), maps, interior;
    }
    maps := resolved.maps;
    ResolvedFit(gen, ch, neighbors, maps);
    var g := NewChunkGraph(gen.params.radius);
    GraphCounts(gen, g);
    var bias := BiasOf(gen);
    var made := BuildInterior(gen.params, typ, g, StreamsOf(gen, ch), bias, budget);
    InteriorIs(gen, ch, typ, budget);
    if made.NotMade? {
      Gives(gen, ch, typ, neighbors, budget, maps, interior, GenerateResult.OutOfBudget);
      return GenerateResult.OutOfBudget, maps, interior;
    }
    interior := made.interior;
    var faces := FillFaces(gen, ch, g, made.interior.open, resolved.maps);
    var m := Map(ch, typ, VERSION, g, faces);
    IsFilledFrom(gen, ch, typ, interior.open, maps, m);
    NewBordersAreGuaranteed(gen, ch, typ, neighbors, interior.open, maps, m);
    Gives(gen, ch, typ, neighbors, budget, maps, interior, Generated(m));
    return Generated(m), maps, interior;
  }

  lemma NewBordersAreGuaranteed(gen: Generator, ch: Chunk, typ: ChunkType, neighbors: seq<Map>, open: EdgeSet, maps: map<Chunk, Map>, m: Map)
    requires Ready(gen) && NeighborsFit(gen, maps) && Keyed(maps, neighbors) && IsFilled(gen, ch, typ, open, maps, m)
    ensures 0 <= m.graph.radius && |m.faces| == |m.graph.cells| && NewGuaranteed(gen.params, m, neighbors)
  {
    hide *;
    ReadyIsSound(gen);
    FilledHas(gen, ch, typ, open, maps, m);
    forall nc | ChunksAdjacent(ch, nc) && forall nm :: nm in neighbors ==> nm.chunk != nc
      ensures Guaranteed(gen.params, m, nc)
    {
      if nc in maps { KeyedOnly(maps, neighbors, nc); }
      BordersAreGuaranteed(gen, ch, typ, open, maps, m, nc);
    }
    IsNewGuaranteed(gen.params, m, neighbors);
  }

  lemma KeyedOnly(maps: map<Chunk, Map>, neighbors: seq<Map>, nc: Chunk)
    requires Keyed(maps, neighbors) && nc in maps
    ensures exists nm :: nm in neighbors && nm.chunk == nc
  {
  }

  lemma IsNewGuaranteed(p: Params, m: Map, neighbors: seq<Map>)
    requires 0 <= m.graph.radius && |m.faces| == |m.graph.cells|
    requires forall nc :: ChunksAdjacent(m.chunk, nc) && (forall nm :: nm in neighbors ==> nm.chunk != nc) ==> Guaranteed(p, m, nc)
    ensures NewGuaranteed(p, m, neighbors)
  {
    hide Guaranteed, ChunksAdjacent;
  }

  lemma Refuses(gen: Generator, ch: Chunk, typ: ChunkType, neighbors: seq<Map>, budget: nat, e: Refused)
    requires Ready(gen) && (typ == Unset || exists i :: 0 <= i < |neighbors| && !Acceptable(ch, gen.params.radius, neighbors, i))
    ensures IsOutcome(gen, ch, typ, neighbors, budget, NotGenerated(e))
  {
    hide Acceptable, Ready, InteriorOf;
  }

  lemma Gives(gen: Generator, ch: Chunk, typ: ChunkType, neighbors: seq<Map>, budget: nat, maps: map<Chunk, Map>, interior: Interior, res: GenerateResult)
    requires Ready(gen) && typ != Unset && forall i :: 0 <= i < |neighbors| ==> Acceptable(ch, gen.params.radius, neighbors, i)
    requires match InteriorOf(gen, ch, typ, budget)
             case NotMade => res.OutOfBudget?
             case Made(i) =>
               && i == interior && res.Generated? && Keyed(maps, neighbors) && NeighborsFit(gen, maps) && ch !in maps
               && IsFilled(gen, ch, typ, interior.open, maps, res.m)
    ensures IsOutcome(gen, ch, typ, neighbors, budget, res)
  {
    hide Acceptable, InteriorOf, NeighborsFit, IsFilled, Keyed, Sound;
  }

  lemma GraphCounts(gen: Generator, g: ChunkGraph)
    requires Ready(gen) && IsChunkGraph(g) && g.radius == gen.params.radius
    ensures Countable(g) && g == GraphOf(gen.params.radius)
  {
    hide Sound, Valid;
    CellsAreTheHexagon(g.radius);
    GraphDetermined(g, GraphOf(gen.params.radius));
  }

  lemma InteriorIs(gen: Generator, ch: Chunk, typ: ChunkType, budget: nat)
    requires Ready(gen)
    ensures InteriorOf(gen, ch, typ, budget) == InteriorFrom(gen.params, typ, GraphOf(gen.params.radius), StreamsOf(gen, ch), BiasOf(gen), budget)
    ensures DrawnAlgorithm(gen, ch) == AlgorithmDrawn(gen.params, StreamsOf(gen, ch))
  {
    hide InteriorFrom, AlgorithmDrawn, StreamsOf, BiasOf, Sound;
  }

  lemma IsFilledFrom(gen: Generator, ch: Chunk, typ: ChunkType, open: EdgeSet, maps: map<Chunk, Map>, m: Map)
    requires Sound(gen) && NeighborsFit(gen, maps) && typ != Unset && m.chunk == ch && m.typ == typ && m.version == VERSION
    requires IsChunkGraph(m.graph) && m.graph.radius == gen.params.radius && |m.faces| == |m.graph.cells|
    requires forall i :: 0 <= i < |m.faces| ==> CellDone(gen, ch, m.graph, open, maps, i, m.faces[i])
    ensures WellFormed(m) && IsFilled(gen, ch, typ, open, maps, m)
  {
    FilledIsWellFormed(gen, ch, typ, open, maps, m);
  }

  // ---------- One map for a chunk, however it is generated ----------

  /** gen generated the map with no neighbours given, in some budget. */
  ghost predicate MadeAlone(gen: Generator, m: Map)
    requires Ready(gen)
  {
    exists budget: nat :: IsOutcome(gen, m.chunk, m.typ, [], budget, Generated(m))
  }

  lemma NothingGiven(gen: Generator, ch: Chunk, maps: map<Chunk, Map>)
    requires Keyed(maps, [])
    ensures maps == map[]
  {
    assert forall nc :: nc in maps ==> maps[nc] in [];
    assert maps.Keys == {};
  }

  lemma AloneIs(gen: Generator, m: Map)
    requires Ready(gen)
    ensures MadeAlone(gen, m) <==>
            m.typ != Unset && NeighborsFit(gen, map[]) && exists interior :: HasInterior(gen, m.chunk, m.typ, interior) && IsFilled(gen, m.chunk, m.typ, interior.open, map[], m)
  {
    hide InteriorOf, Sound, IsFilled, NeighborsFit;
    NoNeighborsFit(gen);
    if MadeAlone(gen, m) {
      var budget: nat :| IsOutcome(gen, m.chunk, m.typ, [], budget, Generated(m));
      var interior := InteriorOf(gen, m.chunk, m.typ, budget).interior;
      var maps :| Keyed(maps, []) && NeighborsFit(gen, maps) && IsFilled(gen, m.chunk, m.typ, interior.open, maps, m);
      NothingGiven(gen, m.chunk, maps);
      assert HasInterior(gen, m.chunk, m.typ, interior);
    }
    if m.typ != Unset && exists interior :: HasInterior(gen, m.chunk, m.typ, interior) && IsFilled(gen, m.chunk, m.typ, interior.open, map[], m) {
      var interior :| HasInterior(gen, m.chunk, m.typ, interior) && IsFilled(gen, m.chunk, m.typ, interior.open, map[], m);
      var budget: nat :| InteriorOf(gen, m.chunk, m.typ, budget) == Made(interior);
      assert Keyed(map[], []);
      assert FilledFrom(gen, m.chunk, m.typ, [], interior.open, m);
      assert IsOutcome(gen, m.chunk, m.typ, [], budget, Generated(m));
    }
  }

  /** Keys, parameters, chunk and type leave no choice of the map made alone, whatever the budgets. */
  lemma AloneIsUnique(gen: Generator, m: Map, m': Map)
    requires Ready(gen) && MadeAlone(gen, m) && MadeAlone(gen, m') && m.chunk == m'.chunk && m.typ == m'.typ
    ensures m == m'
  {
    hide Sound, IsFilled, NeighborsFit, InteriorOf, HasInterior, MadeAlone, InteriorOk, CrossingOpen;
    AloneIs(gen, m);
    AloneIs(gen, m');
    var interior :| HasInterior(gen, m.chunk, m.typ, interior) && IsFilled(gen, m.chunk, m.typ, interior.open, map[], m);
    var interior' :| HasInterior(gen, m.chunk, m.typ, interior') && IsFilled(gen, m.chunk, m.typ, interior'.open, map[], m');
    InteriorIsDetermined(gen, m.chunk, m.typ, interior, interior');
    FilledIsDetermined(gen, m.chunk, m.typ, interior.open, map[], m, map[], m');
  }

  /** A map made alone keeps the promise on all six of its borders. */
  lemma AloneIsGuaranteed(gen: Generator, m: Map)
    requires Ready(gen) && MadeAlone(gen, m)
    ensures m.graph.radius == gen.params.radius && WellFormed(m) && AllGuaranteed(gen.params, m)
  {
    hide *;
    ReadyIsSound(gen);
    NoNeighborsFit(gen);
    AloneIs(gen, m);
    var interior :| HasInterior(gen, m.chunk, m.typ, interior) && IsFilled(gen, m.chunk, m.typ, interior.open, map[], m);
    FilledIsWellFormed(gen, m.chunk, m.typ, interior.open, map[], m);
    FilledParts(gen, m.chunk, m.typ, interior.open, map[], m);
    FacesFit(m);
    forall nc | ChunksAdjacent(m.chunk, nc)
      ensures Guaranteed(gen.params, m, nc)
    {
      BordersAreGuaranteed(gen, m.chunk, m.typ, interior.open, map[], m, nc);
    }
    IsAllGuaranteed(gen.params, m);
  }

  /** Maps made alone of different chunks agree across the border between them. */
  lemma AloneAgree(gen: Generator, m: Map, m': Map)
    requires Ready(gen) && MadeAlone(gen, m) && MadeAlone(gen, m') && m.chunk != m'.chunk
    ensures WellFormed(m) && WellFormed(m') && m.graph.radius == m'.graph.radius == gen.params.radius
    ensures 0 <= gen.params.radius && AgreeAcross(gen.params.radius, m, m')
  {
    hide *;
    ReadyIsSound(gen);
    AloneIs(gen, m);
    AloneIs(gen, m');
    var interior :| HasInterior(gen, m.chunk, m.typ, interior) && IsFilled(gen, m.chunk, m.typ, interior.open, map[], m);
    var interior' :| HasInterior(gen, m'.chunk, m'.typ, interior') && IsFilled(gen, m'.chunk, m'.typ, interior'.open, map[], m');
    FilledHas(gen, m.chunk, m.typ, interior.open, map[], m);
    FilledHas(gen, m'.chunk, m'.typ, interior'.open, map[], m');
    AloneMapsAgree(gen, m.chunk, m.typ, interior.open, m, m'.chunk, m'.typ, interior'.open, m');
  }

  lemma FacesFit(m: Map)
    requires WellFormed(m)
    ensures 0 <= m.graph.radius && IsChunkGraph(m.graph) && |m.faces| == |m.graph.cells|
  {
  }

  lemma IsAllGuaranteed(p: Params, m: Map)
    requires 0 <= m.graph.radius && |m.faces| == |m.graph.cells|
    requires forall nc :: ChunksAdjacent(m.chunk, nc) ==> Guaranteed(p, m, nc)
    ensures AllGuaranteed(p, m)
  {
    hide Guaranteed, ChunksAdjacent;
  }

  lemma AloneBorders(gen: Generator, m: Map)
    requires Ready(gen) && MadeAlone(gen, m)
    ensures BordersAlone(gen, m)
  {
    hide Sound, IsFilled, NeighborsFit, InteriorOf, HasInterior, MadeAlone;
    AloneIs(gen, m);
  }

  /** With each neighbour one that gen made alone, the filled map is the one filled with none. */
  lemma FilledFromAlone(gen: Generator, ch: Chunk, typ: ChunkType, neighbors: seq<Map>, open: EdgeSet, m: Map)
    requires Ready(gen) && typ != Unset && (forall nm :: nm in neighbors ==> MadeAlone(gen, nm)) && FilledFrom(gen, ch, typ, neighbors, open, m)
    ensures NeighborsFit(gen, map[]) && IsFilled(gen, ch, typ, open, map[], m)
  {
    hide Sound, IsFilled, NeighborsFit, MadeAlone, BordersAlone;
    NoNeighborsFit(gen);
    var maps :| Keyed(maps, neighbors) && NeighborsFit(gen, maps) && ch !in maps && IsFilled(gen, ch, typ, open, maps, m);
    forall nc | nc in maps
      ensures BordersAlone(gen, maps[nc])
    {
      AloneBorders(gen, maps[nc]);
    }
    SequentialIsAlone(gen, ch, typ, open, maps, m);
  }

  /**
   Generating a chunk against neighbours gen made alone gives what generating it
   with none does: the same map, or the same spent budget.
   */
  lemma NeighborsMadeAloneDoNotMatter(gen: Generator, ch: Chunk, typ: ChunkType, neighbors: seq<Map>, budget: nat,
                                      res: GenerateResult, res': GenerateResult)
    requires Ready(gen) && AllAcceptable(gen, ch, neighbors) && (forall nm :: nm in neighbors ==> MadeAlone(gen, nm))
    requires IsOutcome(gen, ch, typ, neighbors, budget, res) && IsOutcome(gen, ch, typ, [], budget, res')
    ensures typ != Unset ==> res == res'
  {
    hide Sound, IsFilled, NeighborsFit, MadeAlone, AllAcceptable, InteriorOf, FilledFrom, Acceptable, CrossingOpen;
    NoneAcceptable(gen, ch);
    if typ != Unset && InteriorOf(gen, ch, typ, budget).Made? {
      var interior := InteriorOf(gen, ch, typ, budget).interior;
      FilledFromAlone(gen, ch, typ, neighbors, interior.open, res.m);
      FilledFromAlone(gen, ch, typ, [], interior.open, res'.m);
      FilledIsDetermined(gen, ch, typ, interior.open, map[], res.m, map[], res'.m);
    }
  }

  lemma NoneAcceptable(gen: Generator, ch: Chunk)
    ensures AllAcceptable(gen, ch, [])
  {
  }

  /** The result does not depend on the order of the neighbours: the same map, a spent budget, or a refusal. */
  lemma NeighborOrderDoesNotMatter(gen: Generator, ch: Chunk, typ: ChunkType, neighbors: seq<Map>, neighbors': seq<Map>, budget: nat,
                                   res: GenerateResult, res': GenerateResult)
    requires Ready(gen) && multiset(neighbors) == multiset(neighbors')
    requires IsOutcome(gen, ch, typ, neighbors, budget, res) && IsOutcome(gen, ch, typ, neighbors', budget, res')
    ensures res == res' || (res.NotGenerated? && res'.NotGenerated?)
  {
    hide Sound, IsFilled, NeighborsFit, AllAcceptable, InteriorOf, Keyed, CrossingOpen;
    AcceptableInAnyOrder(gen, ch, neighbors, neighbors');
    if typ != Unset && AllAcceptable(gen, ch, neighbors) && InteriorOf(gen, ch, typ, budget).Made? {
      var open := InteriorOf(gen, ch, typ, budget).interior.open;
      var maps :| Keyed(maps, neighbors) && NeighborsFit(gen, maps) && IsFilled(gen, ch, typ, open, maps, res.m);
      var maps' :| Keyed(maps', neighbors') && NeighborsFit(gen, maps') && IsFilled(gen, ch, typ, open, maps', res'.m);
      SameElements(neighbors, neighbors');
      KeyedInAnyOrder(maps, maps', neighbors, neighbors');
      FilledIsDetermined(gen, ch, typ, open, maps, res.m, maps', res'.m);
    }
  }

  lemma AcceptableInAnyOrder(gen: Generator, ch: Chunk, neighbors: seq<Map>, neighbors': seq<Map>)
    requires multiset(neighbors) == multiset(neighbors')
    ensures AllAcceptable(gen, ch, neighbors) <==> AllAcceptable(gen, ch, neighbors')
  {
    if AllAcceptable(gen, ch, neighbors) { StillAcceptable(gen, ch, neighbors, neighbors'); }
    if AllAcceptable(gen, ch, neighbors') { StillAcceptable(gen, ch, neighbors', neighbors); }
  }

  lemma StillAcceptable(gen: Generator, ch: Chunk, neighbors: seq<Map>, neighbors': seq<Map>)
    requires multiset(neighbors) == multiset(neighbors') && AllAcceptable(gen, ch, neighbors)
    ensures AllAcceptable(gen, ch, neighbors')
  {
    hide ChunksAdjacent;
    SameElements(neighbors, neighbors');
    forall i, j | 0 <= i < j < |neighbors|
      ensures neighbors[i] != neighbors[j]
    {
      assert Acceptable(ch, gen.params.radius, neighbors, j);
    }
    StillDistinct(neighbors', neighbors);
    forall i | 0 <= i < |neighbors'|
      ensures Acceptable(ch, gen.params.radius, neighbors', i)
    {
      var x := PlaceOf(neighbors, neighbors'[i]);
      assert Acceptable(ch, gen.params.radius, neighbors, x);
      forall k | 0 <= k < i
        ensures neighbors'[k].chunk != neighbors'[i].chunk
      {
        var y := PlaceOf(neighbors, neighbors'[k]);
        assert Acceptable(ch, gen.params.radius, neighbors, if x < y then y else x);
      }
    }
  }

  lemma PlaceOf(maps: seq<Map>, m: Map) returns (i: nat)
    requires m in maps
    ensures i < |maps| && maps[i] == m
  {
    i :| 0 <= i < |maps| && maps[i] == m;
  }

  lemma FairStreams(gen: Generator, ch: Chunk)
    requires Ready(gen)
    ensures Valid(gen.params) && 0 <= gen.params.radius && Sound(gen)
    ensures var s := StreamsOf(gen, ch); Fair(s.island) && Fair(s.algorithm) && Fair(s.structure) && Fair(s.cycle)
  {
  }

  lemma ResolvedFit(gen: Generator, ch: Chunk, neighbors: seq<Map>, maps: map<Chunk, Map>)
    requires Keyed(maps, neighbors) && forall nm :: nm in neighbors ==> WellFormed(nm)
    requires forall i :: 0 <= i < |neighbors| ==> Acceptable(ch, gen.params.radius, neighbors, i)
    ensures NeighborsFit(gen, maps) && ch !in maps
  {
    forall nc | nc in maps
      ensures nc != ch && maps[nc].graph.radius == gen.params.radius
    {
      var i :| 0 <= i < |neighbors| && neighbors[i] == maps[nc];
      assert Acceptable(ch, gen.params.radius, neighbors, i);
    }
  }
}
