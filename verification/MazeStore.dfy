/** One maze's handle: the body of each call, over the stored rows, as it runs while it holds the maze's lock. */
module MazeStores {
  import opened HexGrid
  import opened Lattices
  import opened LocalCells
  import opened Spirals
  import opened NextGate
  import opened Params
  import opened Portals
  import opened Graphs
  import opened Islands
  import opened Maps
  import opened ChunkMaps
  import opened Generates
  import opened Worlds

  /** A chunk row as stored. */
  datatype StoredRow = StoredRow(typ: string, faces: seq<bv8>, version: int, gate: Gating)

  datatype Read = Absent | Present(m: Map) | Unreadable

  datatype MapAnswer = MapAt(m: Map) | NoMap

  datatype GateAnswer = GateAt(ch: Chunk) | NoGateGiven

  datatype Neighbors = Neighbors(maps: seq<Map>) | NeighborUnreadable

  function FromMaze(typ: ChunkType): string {
    if typ == Gate then "gate" else "fabric"
  }

  lemma TypeRoundTrips(typ: ChunkType)
    requires typ != Unset
    ensures ToMaze(FromMaze(typ)) == typ
  {
    assert FromMaze(typ)[0] == if typ == Gate then 'g' else 'f';
  }

  lemma StoredOnce(m: Map, m': Map, ch: Chunk, row: StoredRow)
    requires IsStoredAs(m, ch, row.typ, row.version, row.faces) && IsStoredAs(m', ch, row.typ, row.version, row.faces)
    ensures m == m'
  {
    StandsForIsOneToOne(row.faces, m.faces, row.faces, m'.faces);
    MapDetermined(m, m');
  }

  lemma ReadyRadius(gen: Generator)
    requires Ready(gen)
    ensures 0 <= gen.params.radius <= MAX_INT32 && Sound(gen)
  {
  }

  /** The decoded table holds what the stored rows decode to. */
  ghost predicate RowsMatch(rows: map<Chunk, StoredRow>, table: Table) {
    && rows.Keys == table.Keys
    && forall ch :: ch in table ==>
         IsStoredAs(table[ch].m, ch, rows[ch].typ, rows[ch].version, rows[ch].faces) && rows[ch].gate == table[ch].gate
  }

  lemma KeysMatch(rows: map<Chunk, StoredRow>, table: Table)
    requires RowsMatch(rows, table)
    ensures rows.Keys == table.Keys
  {
  }

  lemma RowOf(rows: map<Chunk, StoredRow>, table: Table, ch: Chunk)
    requires RowsMatch(rows, table)
    ensures ch in rows <==> ch in table
    ensures ch in table ==> IsStoredAs(table[ch].m, ch, rows[ch].typ, rows[ch].version, rows[ch].faces)
    ensures ch in table ==> rows[ch].gate == table[ch].gate
  {
  }

  /** The stored neighbours of ch in the directions below d, in that order. */
  ghost function StoredNeighbors(table: Table, ch: Chunk, d: nat): seq<Map>
    requires d <= 6
  {
    if d == 0 then []
    else
      StoredNeighbors(table, ch, d - 1) +
      if ChunkNeighbor(ch, d - 1) in table then [table[ChunkNeighbor(ch, d - 1)].m] else []
  }

  lemma {:induction false} StoredNeighborsAre(table: Table, ch: Chunk, d: nat)
    requires d <= 6 && forall c :: c in table ==> table[c].m.chunk == c
    ensures forall m :: m in StoredNeighbors(table, ch, d) <==>
              exists k: Direction :: k < d && ChunkNeighbor(ch, k) in table && m == table[ChunkNeighbor(ch, k)].m
    ensures forall i, j :: 0 <= i < j < |StoredNeighbors(table, ch, d)| ==>
              StoredNeighbors(table, ch, d)[i].chunk != StoredNeighbors(table, ch, d)[j].chunk
  {
    hide ChunkNeighbor;
    if d > 0 {
      StoredNeighborsAre(table, ch, d - 1);
      var nc := ChunkNeighbor(ch, d - 1);
      if nc in table {
        forall m | m in StoredNeighbors(table, ch, d - 1)
          ensures m.chunk != nc
        {
          var k: Direction :| k < d - 1 && ChunkNeighbor(ch, k) in table && m == table[ChunkNeighbor(ch, k)].m;
          DirectionsApart(ch, k, d - 1);
        }
      }
    }
  }

  /** No stored neighbour of ch has another radius. */
  ghost predicate Readable(table: Table, radius: int, ch: Chunk) {
    forall k: Direction :: ChunkNeighbor(ch, k) in table ==> table[ChunkNeighbor(ch, k)].m.graph.radius == radius
  }

  /** The call can create ch: its neighbours can be read and its interior made within the budget. */
  ghost predicate CanCreate(table: Table, gen: Generator, budget: nat, ch: Chunk, typ: ChunkType)
    requires Ready(gen)
  {
    Readable(table, gen.params.radius, ch) && InteriorOf(gen, ch, typ, budget).Made?
  }

  class Maze {
    const gen: Generator
    const spacing: int
    const budget: nat
    var rows: map<Chunk, StoredRow>
    ghost var table: Table

    ghost predicate Valid()
      reads this
    {
      Ready(gen) && RowsMatch(rows, table) && TableOk(table)
    }

    /** Every stored map is what this maze's generator makes of its chunk and type alone. */
    ghost predicate AllAlone()
      requires Ready(gen)
      reads this
    {
      BuiltAlone(gen, table)
    }

    constructor (gen: Generator, spacing: int, budget: nat)
      requires Ready(gen)
      ensures Valid() && this.gen == gen && this.spacing == spacing && table == map[]
    {
      this.gen, this.spacing, this.budget := gen, spacing, budget;
      rows, table := map[], map[];
    }

    /** readChunk: finds exactly the stored chunks, and reads exactly those of this handle's radius. */
    method ReadChunk(ch: Chunk) returns (res: Read)
      requires Valid()
      ensures res.Absent? <==> ch !in table
      ensures res.Present? <==> ch in table && table[ch].m.graph.radius == gen.params.radius
      ensures res.Present? ==> res.m == table[ch].m
    {
      hide TableOk, WellFormed, Ready, StandsFor, RowsMatch;
      RowOf(rows, table, ch);
      if ch !in rows {
        return Absent;
      }
      var row := rows[ch];
      ReadyRadius(gen);
      var decoded := Decode(ch, row.typ, row.version, row.faces, gen.params.radius);
      if decoded.MapErr? {
        return Unreadable;
      }
      StoredOnce(decoded.m, table[ch].m, ch, row);
      return Present(decoded.m);
    }

    /** readNeighbors: every stored neighbour, in canonical direction order, unless one has another radius. */
    method ReadNeighbors(ch: Chunk) returns (res: Neighbors)
      requires Valid()
      ensures res.Neighbors? ==> res.maps == StoredNeighbors(table, ch, 6)
      ensures res.Neighbors? <==> Readable(table, gen.params.radius, ch)
    {
      hide TableOk, WellFormed, Ready, RowsMatch, ChunkNeighbor;
      var maps: seq<Map> := [];
      for d := 0 to 6
        invariant maps == StoredNeighbors(table, ch, d)
        invariant forall k: Direction :: k < d && ChunkNeighbor(ch, k) in table ==>
                    table[ChunkNeighbor(ch, k)].m.graph.radius == gen.params.radius
      {
        var read := ReadChunk(ChunkNeighbor(ch, d));
        if read.Unreadable? {
          return NeighborUnreadable;
        }
        if read.Present? {
          maps := maps + [read.m];
        }
      }
      return Neighbors(maps);
    }

    /** The chunk stored as r's gate, if any. */
    method ReadGateChunk(chat: int) returns (found: GateAnswer)
      requires Valid()
      ensures found.NoGateGiven? <==> Gateless(table, chat)
      ensures found.GateAt? ==> HasGate(table, chat, found.ch)
    {
      hide TableOk, Ready, RowsMatch;
      assert rows.Keys == table.Keys by { KeysMatch(rows, table); }
      var left := rows.Keys;
      while left != {}
        invariant left <= rows.Keys
        invariant forall ch :: ch in table && ch !in left ==> !HasGate(table, chat, ch)
        decreases left
      {
        var ch :| ch in left;
        left := left - {ch};
        RowOf(rows, table, ch);
        if rows[ch].gate.GateOf? && rows[ch].gate.chat == chat {
          assert HasGate(table, chat, ch);
          return GateAt(ch);
        }
      }
      return NoGateGiven;
    }

    /** The coordinates of the stored chunks, or of the stored gates, in whatever order the table gives them. */
    method ReadChunkCoords(gatesOnly: bool) returns (coords: seq<Chunk>)
      requires Valid()
      ensures forall ch :: ch in coords <==> if gatesOnly then IsGate(table, ch) else ch in table
    {
      hide TableOk, Ready, RowsMatch;
      coords := [];
      assert rows.Keys == table.Keys by { KeysMatch(rows, table); }
      var left := rows.Keys;
      while left != {}
        invariant left <= rows.Keys
        invariant forall ch :: ch in coords <==> ch !in left && if gatesOnly then IsGate(table, ch) else ch in table
        decreases left
      {
        var ch :| ch in left;
        left := left - {ch};
        RowOf(rows, table, ch);
        if !gatesOnly || rows[ch].gate.GateOf? {
          coords := coords + [ch];
        }
      }
    }

    /**
     generateInsertAndAppend: succeeds exactly when every stored neighbour can be
     read and the interior is made within the budget; then exactly one row more,
     agreeing with every stored neighbour; otherwise the table as it was.
     */
    method GenerateInsertAndAppend(ch: Chunk, r: Request) returns (res: MapAnswer)
      requires Valid() && ch !in table
      requires match r
               case EnsureChunk(want) => want == ch
               case ActivateChat(chat) =>
                 Gateless(table, chat) && forall g :: IsGate(table, g) ==> spacing + 1 <= ChunkDistance(ch, g)
      modifies this
      ensures Valid()
      ensures res.MapAt? <==> CanCreate(old(table), gen, budget, ch, TypeOf(r))
      ensures res.NoMap? ==> table == old(table)
      ensures res.MapAt? ==> res.m.chunk == ch && res.m.typ == TypeOf(r) && table == old(table)[ch := Row(res.m, GatingOf(r, ch))]
      ensures res.MapAt? ==> Grows(old(table), table)
      ensures old(AllAlone()) ==> AllAlone()
    {
      ReadyRadius(gen);
      hide TableOk, WellFormed, Ready, Sound, RowsMatch, RowOk, Gateless, ChunksAdjacent, InteriorOf, IsGenerated, MadeAlone, CanCreate,
        BuiltAlone, InteriorOk, IsFilled, HasInterior, IsOutcome, Readable, MayStore, GeneratedAs, NeighborsRead, MayCreate, StandsFor, DrawnAlgorithm;
      var read := ReadNeighbors(ch);
      if read.NeighborUnreadable? {
        CannotCreate(table, gen, budget, ch, TypeOf(r));
        return NoMap;
      }
      NeighborsAreWellFormed(table, ch);
      NeighborsAcceptable(table, gen.params.radius, ch);
      var made, maps, interior := Generate(gen, ch, TypeOf(r), read.maps, budget);
      OutcomeDecides(table, gen, budget, ch, TypeOf(r), read.maps, made);
      if !made.Generated? {
        return NoMap;
      }
      ghost var c := Call(Handle(gen, spacing), r, Locked);
      ReadIsNeighborsRead(c.handle, table, ch, maps);
      WasGenerated(c, ch, maps, interior, made.m, budget);
      StoreAllowed(c, table, ch, maps, made.m);
      Insert(ch, r, made.m, c);
      return MapAt(made.m);
    }

    /** Stores the encoded map. */
    method Insert(ch: Chunk, r: Request, m: Map, ghost c: Call)
      requires Valid() && WellFormed(m) && m.chunk == ch && m.typ == TypeOf(r)
      requires c.handle.gen == gen && c.request == r && MayStore(c, table, ch, Row(m, GatingOf(r, ch)))
      modifies this
      ensures Valid() && table == old(table)[ch := Row(m, GatingOf(r, ch))] && Grows(old(table), table)
      ensures old(AllAlone()) ==> AllAlone()
    {
      hide TableOk, WellFormed, Ready, Sound, RowsMatch, RowOk, MadeAlone, BuiltAlone, MayStore, StandsFor, SpiralIndex, Grows;
      CommitKeepsTable(c, table, ch, Row(m, GatingOf(r, ch)));
      if AllAlone() { StaysAlone(c, table, ch, m); }
      var faces := Encode(m);
      var row := StoredRow(FromMaze(TypeOf(r)), faces, m.version, GatingOf(r, ch));
      TypeRoundTrips(TypeOf(r));
      InsertMatches(rows, table, ch, row, m);
      rows := rows[ch := row];
      table := table[ch := Row(m, GatingOf(r, ch))];
    }

    /** EnsureChunkAt: the map of the one chunk holding the cell, stored before or created now. */
    method EnsureChunkAt(cell: Coord) returns (res: MapAnswer)
      requires Valid()
      modifies this
      ensures Valid() && Grows(old(table), table)
      ensures res.MapAt? ==> Holds(gen.params.radius, res.m.chunk, cell)
      ensures res.MapAt? ==> res.m.chunk in table && table[res.m.chunk].m == res.m
      ensures table == old(table) || (res.MapAt? && res.m.chunk !in old(table) && table == old(table)[res.m.chunk := Row(res.m, NoGate)])
      ensures forall ch :: Holds(gen.params.radius, ch, cell) ==>
                (res.MapAt? <==>
                  if ch in old(table) then old(table)[ch].m.graph.radius == gen.params.radius else CanCreate(old(table), gen, budget, ch, Fabric))
      ensures old(AllAlone()) ==> AllAlone()
    {
      hide TableOk, WellFormed, Ready, RowsMatch, Hex, Center, ChunkOf, CanCreate, BuiltAlone;
      ReadyRadius(gen);
      var ch, local := Locate(gen.params.radius, cell);
      forall other | Holds(gen.params.radius, other, cell) ensures other == ch { Tiling(gen.params.radius, cell, other); Tiling(gen.params.radius, cell, ch); }
      var read := ReadChunk(ch);
      if read.Unreadable? {
        return NoMap;
      }
      if read.Present? {
        StoredUnderOwnChunk(table, ch);
        return MapAt(read.m);
      }
      res := GenerateInsertAndAppend(ch, EnsureChunk(ch));
    }

    /**
     ActivateChat, once the chat is known to be one: its own gate if it has one,
     else the earliest admissible chunk of the spiral, if that can be created.
     */
    method Activate(chat: int) returns (res: GateAnswer)
      requires Valid()
      modifies this
      ensures Valid() && Grows(old(table), table)
      ensures res.GateAt? ==> HasGate(table, chat, res.ch)
      ensures !Gateless(old(table), chat) ==> table == old(table) && res.GateAt?
      ensures res.GateAt? && Gateless(old(table), chat) ==>
                exists created, gates :: Listed(created, gates, old(table)) && Earliest(res.ch, created, gates, spacing)
      ensures Gateless(old(table), chat) ==>
                (res.GateAt? <==> 0 <= spacing && MayAllocate(old(table), gen, budget, spacing))
      ensures spacing < 0 || res.NoGateGiven? ==> table == old(table)
      ensures old(AllAlone()) ==> AllAlone()
    {
      hide TableOk, WellFormed, Ready, RowsMatch, Earliest, SpiralIndex, Gateless, CanCreate, BuiltAlone;
      var found := ReadGateChunk(chat);
      if found.GateAt? {
        return found;
      }
      var created := ReadChunkCoords(false);
      var gates := ReadChunkCoords(true);
      var chosen := Next(created, gates, spacing);
      if chosen.NegativeK? {
        return NoGateGiven;
      }
      assert Listed(created, gates, table);
      ChosenIsAdmissible(chosen.ch, created, gates, spacing);
      ChosenDecides(table, gen, budget, spacing, chosen.ch, created, gates);
      var made := GenerateInsertAndAppend(chosen.ch, ActivateChat(chat));
      if made.NoMap? {
        return NoGateGiven;
      }
      return GateAt(chosen.ch);
    }
  }

  /** The next gate's chunk can be created. */
  ghost predicate MayAllocate(table: Table, gen: Generator, budget: nat, spacing: int)
    requires Ready(gen) && 0 <= spacing
  {
    exists ch, created, gates :: Listed(created, gates, table) && Earliest(ch, created, gates, spacing) && CanCreate(table, gen, budget, ch, Gate)
  }

  lemma CannotCreate(table: Table, gen: Generator, budget: nat, ch: Chunk, typ: ChunkType)
    requires Ready(gen) && !Readable(table, gen.params.radius, ch)
    ensures !CanCreate(table, gen, budget, ch, typ)
  {
  }

  /** Given readable neighbours, Generate refuses nothing, and succeeds exactly when the interior is made. */
  lemma OutcomeDecides(table: Table, gen: Generator, budget: nat, ch: Chunk, typ: ChunkType, maps: seq<Map>, made: GenerateResult)
    requires Ready(gen) && typ != Unset && Readable(table, gen.params.radius, ch)
    requires forall i :: 0 <= i < |maps| ==> Acceptable(ch, gen.params.radius, maps, i)
    requires IsOutcome(gen, ch, typ, maps, budget, made)
    ensures made.Generated? <==> CanCreate(table, gen, budget, ch, typ)
  {
    hide InteriorOf, Ready, Readable, Acceptable, FilledFrom;
  }

  /** The stored neighbours are maps Generate accepts. */
  lemma NeighborsAcceptable(table: Table, radius: int, ch: Chunk)
    requires TableOk(table) && Readable(table, radius, ch)
    ensures var maps := StoredNeighbors(table, ch, 6); forall i :: 0 <= i < |maps| ==> Acceptable(ch, radius, maps, i)
  {
    hide TableOk, ChunkNeighbor;
    forall c | c in table ensures table[c].m.chunk == c { StoredUnderOwnChunk(table, c); }
    StoredNeighborsAre(table, ch, 6);
    var maps := StoredNeighbors(table, ch, 6);
    forall i | 0 <= i < |maps|
      ensures Acceptable(ch, radius, maps, i)
    {
      assert maps[i] in maps;
      var k: Direction :| ChunkNeighbor(ch, k) in table && maps[i] == table[ChunkNeighbor(ch, k)].m;
      assert ChunksAdjacent(ch, maps[i].chunk);
      ChunksAdjacentBack(ch, maps[i].chunk);
    }
  }

  lemma WasGenerated(c: Call, ch: Chunk, maps: map<Chunk, Map>, interior: Interior, m: Map, budget: nat)
    requires Ready(c.handle.gen) && Sound(c.handle.gen) && NeighborsFit(c.handle.gen, maps)
    requires InteriorOf(c.handle.gen, ch, TypeOf(c.request), budget) == Made(interior)
    requires IsFilled(c.handle.gen, ch, TypeOf(c.request), interior.open, maps, m)
    ensures GeneratedAs(c, ch, maps, m) && m.chunk == ch && m.typ == TypeOf(c.request)
  {
    hide Ready, InteriorOf, NeighborsFit;
    assert HasInterior(c.handle.gen, ch, TypeOf(c.request), interior);
  }

  lemma StoreAllowed(c: Call, table: Table, ch: Chunk, maps: map<Chunk, Map>, m: Map)
    requires ch !in table && NeighborsRead(c.handle, table, ch, 6, maps) && GeneratedAs(c, ch, maps, m)
    requires match c.request
             case EnsureChunk(want) => want == ch
             case ActivateChat(chat) =>
               Gateless(table, chat) && forall g :: IsGate(table, g) ==> c.handle.spacing + 1 <= ChunkDistance(ch, g)
    ensures MayStore(c, table, ch, Row(m, GatingOf(c.request, ch)))
  {
    hide GeneratedAs, NeighborsRead, Gateless, Hex, SpiralIndex;
  }

  lemma StaysAlone(c: Call, table: Table, ch: Chunk, m: Map)
    requires Ready(c.handle.gen) && BuiltAlone(c.handle.gen, table) && MayStore(c, table, ch, Row(m, GatingOf(c.request, ch)))
    ensures BuiltAlone(c.handle.gen, table[ch := Row(m, GatingOf(c.request, ch))])
  {
    hide Ready, MadeAlone, MayStore;
    CommitIsAlone(c, table, ch, Row(m, GatingOf(c.request, ch)));
  }

  /** Which chunk is the next gate's does not depend on the order the stored chunks are read in. */
  lemma ChosenDecides(table: Table, gen: Generator, budget: nat, spacing: int, ch: Chunk, created: seq<Chunk>, gates: seq<Chunk>)
    requires Ready(gen) && 0 <= spacing && Listed(created, gates, table) && Earliest(ch, created, gates, spacing)
    ensures MayAllocate(table, gen, budget, spacing) <==> CanCreate(table, gen, budget, ch, Gate)
  {
    hide Ready, Earliest, CanCreate;
    if ch', created', gates' :| Listed(created', gates', table) && Earliest(ch', created', gates', spacing) && CanCreate(table, gen, budget, ch', Gate) {
      EarliestIsUnique(ch, created, gates, ch', created', gates', spacing);
    }
  }

  /** Two mazes of one generator, however each came to be, store the same map for a chunk and type both have. */
  lemma MazesAgree(gen: Generator, table: Table, table': Table, ch: Chunk)
    requires Ready(gen) && BuiltAlone(gen, table) && BuiltAlone(gen, table')
    requires ch in table && ch in table' && table[ch].m.typ == table'[ch].m.typ
    ensures table[ch].m == table'[ch].m
  {
    hide Ready, MadeAlone;
    AloneIsUnique(gen, table[ch].m, table'[ch].m);
  }

  lemma ChosenIsAdmissible(ch: Chunk, created: seq<Chunk>, gates: seq<Chunk>, k: int)
    requires Earliest(ch, created, gates, k)
    ensures ch !in created && forall g :: g in gates ==> k + 1 <= ChunkDistance(ch, g)
  {
    assert Admissible(ch, created, gates, k);
  }

  lemma StoredUnderOwnChunk(table: Table, ch: Chunk)
    requires TableOk(table) && ch in table
    ensures table[ch].m.chunk == ch && WellFormed(table[ch].m)
  {
    assert RowOk(ch, table[ch]);
  }

  lemma NeighborsAreWellFormed(table: Table, ch: Chunk)
    requires TableOk(table)
    ensures forall m :: m in StoredNeighbors(table, ch, 6) ==> WellFormed(m)
  {
    hide WellFormed;
    forall c | c in table ensures table[c].m.chunk == c { StoredUnderOwnChunk(table, c); }
    StoredNeighborsAre(table, ch, 6);
    forall m | m in StoredNeighbors(table, ch, 6)
      ensures WellFormed(m)
    {
      var k: Direction :| ChunkNeighbor(ch, k) in table && m == table[ChunkNeighbor(ch, k)].m;
      StoredUnderOwnChunk(table, ChunkNeighbor(ch, k));
    }
  }

  lemma ReadIsNeighborsRead(h: Handle, table: Table, ch: Chunk, maps: map<Chunk, Map>)
    requires TableOk(table) && Keyed(maps, StoredNeighbors(table, ch, 6))
    requires forall k: Direction :: ChunkNeighbor(ch, k) in table ==> table[ChunkNeighbor(ch, k)].m.graph.radius == h.gen.params.radius
    ensures NeighborsRead(h, table, ch, 6, maps)
  {
    hide TableOk, ChunkNeighbor;
    forall c | c in table ensures table[c].m.chunk == c { StoredUnderOwnChunk(table, c); }
    StoredNeighborsAre(table, ch, 6);
    forall nc | nc in maps
      ensures ChunksAdjacent(ch, nc) && ReadChunk(h, table, nc) == Hit(maps[nc])
    {
      var k: Direction :| ChunkNeighbor(ch, k) in table && maps[nc] == table[ChunkNeighbor(ch, k)].m;
    }
    forall k: Direction | ChunkNeighbor(ch, k) in table
      ensures ChunkNeighbor(ch, k) in maps
    {
      assert table[ChunkNeighbor(ch, k)].m in StoredNeighbors(table, ch, 6);
    }
  }

  lemma InsertMatches(rows: map<Chunk, StoredRow>, table: Table, ch: Chunk, row: StoredRow, m: Map)
    requires RowsMatch(rows, table) && WellFormed(m) && m.chunk == ch && m.typ == ToMaze(row.typ) && m.version == row.version
    requires StandsFor(row.faces, m.faces)
    ensures RowsMatch(rows[ch := row], table[ch := Row(m, row.gate)])
  {
    hide WellFormed, StandsFor;
  }
}
