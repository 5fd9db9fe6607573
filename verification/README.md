# Verified model of the world, the ledger and the background workers

This project models, in Dafny, the six parts of the game server whose
correctness is not visible from any one function, and proves what they promise.
`dafny verify dfyconfig.toml` checks all of it.

1. **The hexagonal super-lattice and gate geometry.** Which chunk holds a cell,
   the faces between two chunks, the spiral order of chunks, the depth of a cell
   below the nearest gate, and where the next gate goes. Coordinates are
   unbounded integers, as the lattice code disclaims its 32-bit seam.
   (`GoInt`, `HexGrid`, `Lattice`, `LocalCells`, `Border`, `Spiral`, `NextGate`, `Depth`)
2. **Maze generation.** Five spanning-structure algorithms, islands behind a
   connectivity guard, extra passages, portals, maps, their stored form, and the
   border rule that makes neighbouring chunks agree. A keyed random stream is an
   arbitrary infinite sequence of 64-bit words. What each pass makes of it is a
   function, whose properties are proved for every such sequence; the passes
   themselves are proved to end with that function's value on every sequence that
   never runs out of words below 2^63, which is what rejection sampling needs.
   Decimal shares are exact reals.
   (`Draw`, `Graph`, `ChunkGraph`, `Spanning`, `Kruskal`, `Wilson`, `EndlessWalk`, `Params`,
   `Islands`, `Portal`, `Map`, `ChunkMap`, `Generate`)
3. **World persistence.** Concurrent chunk creations and gate allocations over
   one maze's rows, as a state machine of unlocked reads, lock, re-read, neighbour
   reads, insert and commit, with failures anywhere (`World`); what can be walked
   in the worlds that result (`Walk`); and the same calls as a class over the
   stored bytes (`MazeStore`).
4. **The sliding-window rate limiter.** Schedules updated in place, the joint
   earliest instant, eviction, and whole runs against a complete history.
   What a run grants is also told from the calls and the configured rates alone.
   (`SortedSeq`, `Windows`, `Schedules`, `RateRuns`, `Limiter`, `ClockHypothesis`)
5. **The double-entry ledger and the item machine.** Posting, moving, the chain
   constraints of the movement table, and runs in which a move's reads may be
   stale by the time it writes. (`Ledger`, `Chains`, `ItemMove`, `Effects`, `StoreRuns`, `StoreOps`)
6. **Update ingestion and the scheduler.** The offset protocol under every
   pattern of failed begins, handler errors, panics and failed commits
   (`Ingest`, `IngestLoop`); one scheduled row under claims, settlements, deferred
   drains, downtime shifts and corrections, and the worker's operations over the
   whole task table (`Cadence`, `Scheduler`, `SchedulerOps`).

Code that changes state step by step is a class or a method with loops, proved
equal to a specification function or predicate; what the source promises is then
proved of that specification, over every input and every run, in terms that do
not name it: the passages a map shows, the instants a class was granted, the
fields of a task row, the place of an item.

## Where the code and its promise part

Each of these is kept as the code has it, with the exact condition or a run that
shows the difference.

- **Limiter clock.** The caller reads its clock before it takes the limiter's
  lock (`internal/tg/caller.go:69`), so calls can arrive out of order. The
  windows are kept over all runs if and only if no call arrives more than one
  clock unit late: `ClockHypothesis.WindowsKeptExactlyWhenBarelyLate`. The
  comment that a refusal mutates nothing (`internal/tg/limit.go:303-307`) is not
  what the code does: it has evicted by then, and the shortest breaking run uses
  exactly that.
- **Reconcile.** Corrections carry an instant read earlier
  (`internal/scheduler/reconcile.go:47-66`). A row's `run_at` never returns to a
  value it was claimed at if and only if a correction runs within less than the
  shortest period any worker declares for it:
  `Schedulers.RunsNeverReturnExactlyWhenTimely`.
- **Ingest commits.** "Settled exactly one way" holds of every run if and only if
  no commit lands while an error is reported:
  `Ingests.SettlesOnceExactlyWhenHeard`, with the one-poll run that fails
  otherwise in `Ingests.UnheardCommitSettlesTwice`. `Ingests.RunLosesNothing` is
  what still holds then. The comment on `processUpdate`
  (`internal/ingest/loop.go:286-289`) says a non-nil return means cancellation;
  the code also returns one when a settlement's own transaction fails
  (`internal/ingest/settle.go:35-45`), and the model follows the code.
- **Wilson's walks** need not end. The walk's one guard
  (`internal/maze/algorithms.go:286-294`) ends it at an isolated cell, which cannot
  occur; nothing bounds its steps elsewhere. A build ends if and only if each walk of the run the stream gives reaches the tree:
  `Wilson.WilsonEndsExactlyWhenWalksArrive`, and `Generates.InteriorExistsExactly`
  for a whole chunk. On the all-zero stream one never does, for any radius from 2 on, so a
  generator can be valid and never give a chunk: `EndlessWalk.ZeroStreamNeverEnds`,
  `EndlessWalk.GenerateNeedNotEnd`. With no weight on that algorithm every
  generation ends.

## Model

| member | source | states |
|---|---|---|
| HexGrid.FaceNamesOneBoundary | internal/hexgrid/face.go:3-23 | Two (cell, side) pairs name one face exactly when they are the same pair or the two sides of one boundary; the kept direction is always one of the first three |
| HexGrid.OppositeReturns | internal/hexgrid/coord.go:36-64 | The opposite direction leads back, and opposite of opposite is the direction itself |
| HexGrid.HexFormula | internal/hexgrid/lattice.go:136-143 | The source's halved sum of absolute values is the largest of the three axial components |
| HexGrid.Triangle | internal/hexgrid/lattice.go:136-143 | Cell distance obeys the triangle inequality |
| HexGrid.DistanceSymmetric | internal/hexgrid/lattice.go:136-143 | Cell distance is symmetric and zero exactly on equal cells |
| HexGrid.ChunkTriangle | internal/hexgrid/chunk.go:21-27 | Chunk distance obeys the triangle inequality |
| HexGrid.DistanceIsStepCount | internal/hexgrid/lattice.go:136-143 | Distance is the number of neighbour steps of a shortest walk: one that long exists, and none is shorter |
| HexGrid.StepChangesByOne | internal/hexgrid/coord.go:58-64 | A neighbour step changes the distance to any cell by at most one |
| GoInt.FloorDivIsFloor | internal/hexgrid/lattice.go:145-152 | The truncating-division correction is the mathematical floor for every dividend |
| GoInt.FloorModIsResidue | internal/gate/spiral.go:16-25 | The corrected remainder lies in [0, n) and is congruent to the dividend |
| GoInt.CeilDivIsCeiling | internal/gate/depth.go:88-91 | Ceiling division is the least quotient that covers the dividend |
| Lattices.CandidatesCover | internal/hexgrid/lattice.go:39-67 | One of the four candidate chunks always holds the cell, so the search's fallback is never reached |
| Lattices.CentreSpread | internal/gate/depth.go:79-86 | A chunk centre lies at least (3R²+3R+1)/(2R+1) cells away for each chunk step, in every sextant |
| Lattices.CentresApart | internal/hexgrid/lattice.go:19-29 | Distinct chunk centres are at least 2R+1 apart, for every R including 0 |
| Lattices.Tiling | internal/hexgrid/lattice.go:34-39 | The chunks partition the plane: of all chunks, exactly the one the search gives holds the cell |
| Lattices.LocateAtInverse | internal/hexgrid/lattice.go:39-77 | Locating then placing, and placing then locating, both return to the start |
| Lattices.Locate | internal/hexgrid/lattice.go:39-67 | The nested search returns the unique holding chunk and the cell's local coordinate, without ever falling through |
| LocalCells.CellsAreTheHexagon | internal/hexgrid/lattice.go:79-97 | The listed cells are exactly those within R of the centre, each once, 3R²+3R+1 of them, row by row |
| LocalCells.ListCells | internal/hexgrid/lattice.go:79-97 | The two nested loops build that list |
| Borders.CrossesMeansHeld | internal/hexgrid/lattice.go:99-134 | A side crosses a border exactly when one chunk holds the cell and the other its neighbour |
| Borders.BorderIsExact | internal/hexgrid/lattice.go:99-134 | The border list holds exactly the faces leading into that neighbour, each once, consecutive ones meeting at a vertex, 2R+1 in all |
| Borders.BorderRuns | internal/hexgrid/lattice.go:119-134 | A canonical border's path runs from the corner its direction points at to the next corner |
| Borders.OnlyConsecutiveTouch | internal/maze/portal.go:11-20 | Two faces of a border share a vertex exactly when they are consecutive in its list, which is what non-consecutive portals rely on |
| Borders.LeavingFaceHasOneBorder | internal/hexgrid/lattice.go:99-134 | Every side leaving a chunk crosses exactly one of its six borders |
| Borders.CrossesFromEitherSide | internal/hexgrid/lattice.go:99-134 | A crossing seen from the neighbour is the same face, translated |
| Borders.CanonicalBorder | internal/hexgrid/lattice.go:119-134 | The path built forward and reversed in place is the specified list |
| Borders.ListBorder | internal/hexgrid/lattice.go:99-117 | Non-canonical directions are the opposite border translated by the offset, giving the specified list |
| Borders.ReverseBySwaps | internal/hexgrid/lattice.go:124-134 | Swapping inwards from both ends reverses the list |
| Spirals.RingWalk | internal/gate/spiral.go:27-45 | Every position of ring n's walk is a chunk at distance n, and the index formula returns that position |
| Spirals.RingWalkOnto | internal/gate/spiral.go:27-45 | Every chunk at distance n is some position of ring n's walk |
| Spirals.RingWalkInFull | internal/gate/spiral.go:22-45 | The walk coordinate by coordinate: from (n, −⌊n/2⌋) up that side, round the other five in direction order, and back |
| Spirals.SpiralBijection | internal/gate/spiral.go:47-96 | Order and index are mutually inverse over all naturals and all chunks |
| Spirals.SpiralByRings | internal/gate/spiral.go:47-67 | Position i is at chunk distance n exactly when i lies in ring n's stretch of 6n positions |
| Spirals.SpiralWalk.Yield | internal/gate/spiral.go:51-67 | Each resumption of the nested-loop generator gives the next chunk of the order |
| NextGate.FarChunkAdmissible | internal/gate/next.go:45-58 | Any chunk at ring m+k+1 is uncreated and far enough from every gate |
| NextGate.FallbackIsEarliest | internal/gate/next.go:45-58 | When the scan finds nothing, the closed-form chunk is the first admissible one of the infinite spiral |
| NextGate.EarliestIsUnique | internal/gate/next.go:16-58 | The next gate's chunk depends only on which chunks are created and which are gates |
| NextGate.FarEnough | internal/gate/next.go:60-69 | Answers exactly whether every gate is at least k+1 away |
| NextGate.Next | internal/gate/next.go:16-58 | Refuses exactly negative k; otherwise returns the earliest chunk of the whole infinite spiral that is not created and keeps k+1 from every gate |
| Depth.StopRuleSound | internal/gate/depth.go:46-66 | No cell is nearer to a chunk centre at ring distance ring or more than the lower bound |
| Depth.LowerBoundGrows | internal/gate/depth.go:82-86 | The lower bound never decreases with the ring and passes every value |
| Depth.NewSet | internal/gate/depth.go:20-33 | Refuses exactly a negative radius and keeps exactly the given gates |
| Depth.RingChunksAround | internal/gate/depth.go:68-77 | The ring around any chunk lists exactly the chunks at that distance |
| Depth.VisitRing | internal/gate/depth.go:46-66 | One ring's pass keeps the minimum over all gates seen so far |
| Depth.DepthSearch | internal/gate/depth.go:35-66 | Terminates and returns exactly the minimum distance to any gate centre, or no gate exactly for the empty set; it stops at the last ring whose bound is still below the depth |
| Draws.DrawUnbiased | internal/maze/draw.go:19-38 | Of the 2⁶⁴ words, every value below n has exactly ⌊(2⁶⁴−1)/n⌋ that give it when met first, so a draw is unbiased |
| Draws.BoundedDraw | internal/maze/draw.go:26-38 | On every stream it ends on, rejection sampling returns the first accepted word's remainder and consumes exactly the words up to it |
| Draws.Shuffle | internal/maze/draw.go:40-49 | The in-place shuffle permutes the array and leaves it, and the stream, where the specified shuffle does |
| Draws.ShuffleIsByDraws | internal/maze/draw.go:40-49 | A shuffle's result depends on the stream only through the values it draws |
| Draws.ShuffleOneToOne | internal/maze/draw.go:40-49 | Different draws give different orders |
| Draws.ShuffleOnto | internal/maze/draw.go:40-49 | Every order is given by some draws |
| Draws.ShuffledIsItsDraws | internal/maze/draw.go:40-49 | The shuffle of n items makes n−1 bounded draws, of bounds n down to 2, and consumes their words alone; for distinct items two shuffles give one order exactly when they draw the same values in turn |
| Draws.EveryOrderIsShuffled | internal/maze/draw.go:40-49 | Every order of distinct items is the shuffle of some fair stream, whatever words it begins with; with the two rows above, all orders are equally likely |
| Draws.WeighedIsPositive | internal/maze/draw.go:51-65 | The index drawn is one whose running sum passes the drawn value and whose predecessors' do not, and its weight is positive |
| Draws.WeightedPick | internal/maze/draw.go:51-65 | Picks a positive weight whenever there is one, by whose stretch of the running uint64 sums holds the drawn value, even when the sums wrap, to zero included; among zeros the last |
| Draws.BiasedNewest | internal/maze/draw.go:67-76 | A zero threshold never takes the newest entry and one of 2³² always does |
| Graphs.TreeGrows | internal/maze/algorithms.go:91-121 | Joining a new cell to a tree by one edge leaves a tree over one cell more |
| Graphs.AcyclicWithOneMoreEdge | internal/maze/algorithms.go:124-149 | An edge between unlinked cells keeps a forest acyclic |
| Graphs.LinkedWithOneMoreEdge | internal/maze/algorithms.go:124-149 | What an added edge links, exactly |
| ChunkGraphs.NewChunkGraph | internal/maze/chunkgraph.go:26-33 | Cell list and index are inverse, in the lattice's own order |
| ChunkGraphs.NeighborsAreAdjacent | internal/maze/chunkgraph.go:56-70 | Two cells are neighbours in the graph exactly when they are on the lattice, symmetrically and never with themselves |
| ChunkGraphs.InteriorFaces | internal/maze/chunkgraph.go:82-99 | Lists every interior face exactly once, in cell then direction order |
| ChunkGraphs.FacesAreEdges | internal/maze/chunkgraph.go:72-99 | Interior faces and graph edges correspond one to one |
| ChunkGraphs.HexagonLinked | internal/maze/chunkgraph.go:9-33 | Every cell of a chunk reaches every other inside the chunk |
| Spanning.BuildBacktracker | internal/maze/algorithms.go:84-121 | Ends on every fair stream with exactly the tree the stream determines, a spanning tree of the connected non-island cells |
| Spanning.BuildGrowingTree | internal/maze/algorithms.go:195-241 | For every threshold: ends on every fair stream with exactly the tree the stream determines, a spanning tree |
| Spanning.BuildFrontierPrim | internal/maze/algorithms.go:151-193 | Ends on every fair stream with exactly the tree the stream determines, a spanning tree |
| Spanning.StepKeeps | internal/maze/algorithms.go:84-241 | Every step of each growing algorithm keeps a tree and a list outside which nothing is left to offer, and brings the run nearer its end |
| Spanning.TreeSpans | internal/maze/algorithms.go:84-241 | What each growing algorithm opens, as a function of the stream, is a spanning tree of the connected land on any stream whatever |
| Spanning.NewestKeepsTrail | internal/maze/algorithms.go:84-121 | At every step of the backtracker, and of the growing tree when its coin is certain, the cells listed are a trail of open faces from the first cell to the one being carved from |
| Spanning.GrowingTreeAtItsEnds | internal/maze/algorithms.go:195-241 | At threshold 2³² a step of the growing tree is the backtracker's, one word of the stream later; at 0 it takes a randomly drawn listed cell, and every listed cell is some stream's choice, as in the frontier |
| Spanning.AnyCellIsPicked | internal/maze/algorithms.go:84-121 | Every cell of a list is some stream's choice |
| Spanning.GrownSpans | internal/maze/algorithms.go:91-121 | A tree whose every cell is exhausted has reached all of the connected land |
| Kruskal.RelabelMatches | internal/maze/algorithms.go:124-149 | After relabel-on-merge, labels still coincide exactly with connectivity |
| Kruskal.ForestComplete | internal/maze/algorithms.go:124-149 | Once every land face is joined, the forest links exactly what the land's own faces link |
| Kruskal.ForestSpans | internal/maze/algorithms.go:123-149 | The forest Kruskal makes of any stream links exactly what the land's faces link, for any islands, and is a spanning tree when the land is connected |
| Kruskal.OpenedExactlyWhenSeparate | internal/maze/algorithms.go:124-149 | A face is opened exactly when the faces offered before it do not already link the two cells it is between |
| Kruskal.AnyOrderIsOffered | internal/maze/algorithms.go:124-131 | Whatever order of the land's faces is wanted, some fair stream offers them in it |
| Kruskal.Relabel | internal/maze/algorithms.go:137-145 | The in-place loop rewrites exactly the one label |
| Kruskal.BuildKruskal | internal/maze/algorithms.go:123-149 | Ends on every fair stream with exactly that forest, its marks telling which cells are linked |
| Wilson.WalkSteps | internal/maze/algorithms.go:279-298 | Overwriting the recorded step of the cell being left keeps last exits strictly increasing along the record |
| Wilson.ReplayLeadsIn | internal/maze/algorithms.go:300-309 | The replayed record is a simple path from the walk's start that ends in the old tree |
| Wilson.CarvePath | internal/maze/algorithms.go:300-309 | Carving such a path grows the tree by exactly the path's new cells |
| Wilson.ReplayGrows | internal/maze/algorithms.go:300-309 | Replaying the record of a walk that has come to the tree leaves a larger tree with the walk's start in it |
| Wilson.Replay | internal/maze/algorithms.go:300-309 | The replay loop ends on every record whatever, with the faces and the cells the record's own steps lead through |
| Wilson.RandomWalk | internal/maze/algorithms.go:279-298 | The walk and the steps it records are the stream's own; it stops on first reaching the tree, and gives up only on a spent budget |
| Wilson.WalkGrows | internal/maze/algorithms.go:264-319 | Each walk that arrives leaves a larger tree and costs its own steps |
| Wilson.WilsonSpans | internal/maze/algorithms.go:243-320 | Whatever is built, on any stream, is a spanning tree of the connected land |
| Wilson.WilsonEndsExactlyWhenWalksArrive | internal/maze/algorithms.go:243-320 | Some number of steps is enough, and all larger ones give the same tree, if and only if every walk of the run the stream gives reaches the tree |
| Wilson.BuildWilson | internal/maze/algorithms.go:243-320 | Gives exactly what the stream's own sequence of walks gives within the budget, a spanning tree; and on a stream with a walk that never arrives it never ends |
| EndlessWalk.ZeroStreamNeverEnds | internal/maze/algorithms.go:264-298 | On the all-zero stream a chunk of any radius from 2 on, without islands, has a walk that never ends: it goes back and forth between the last two cells of the top row |
| EndlessWalk.GenerateNeedNotEnd | internal/maze/generate.go:45-62 | For every radius New accepts, its faces countable in 64 bits, there are fair streams and valid parameters with which no chunk of any type is ever generated, in any budget |
| Params.PortalBoundsValid | internal/maze/params.go:74-81 | Validated shares leave every border a non-empty count range that fits as non-touching positions |
| Params.ValidExactly | internal/maze/params.go:45-93 | What is accepted, with every rounding resolved: the lower portal share positive, the upper one no more than the non-touching faces, the island share no more than a gate chunk's inner cells |
| Params.IslandTargetIsNearest | internal/maze/island.go:9-15 | The island target is the whole number nearest the share of the cells, a tie going up |
| Params.CeilShareIsLeast | internal/maze/portal.go:38-48 | A border's portal bound is the least whole number no smaller than the share of its faces |
| Params.BiasThresholdIsGreatest | internal/maze/params.go:132-145 | The bias threshold is the greatest whole number no greater than the bias of 2³² |
| Islands.ConnectedOverInduced | internal/maze/island.go:69-90 | The stack flood fill answers exactly whether the non-island cells are connected inside the chunk |
| Islands.IslandsOfAreOk | internal/maze/island.go:17-67 | The islands any stream gives avoid the border and a gate's centre, never exceed the target, and leave the land connected |
| Islands.SelectIslands | internal/maze/island.go:17-67 | Exactly the islands the guard keeps in the shuffled order |
| Islands.IslandsLeftOut | internal/maze/island.go:17-27 | A candidate is left out only if the target was reached or its removal would have cut the land in two at its turn |
| Islands.NoIslandSpared | internal/maze/island.go:17-67 | Any cell strictly inside the chunk, other than a gate's centre, is an island unless the target is reached or, of the islands the draw took, some left it holding the land together |
| Islands.AnyOrderIsTried | internal/maze/island.go:17-67 | Whatever order of the candidates is wanted, some fair stream has them tried in it |
| Islands.WithExtraOpens | internal/maze/cycles.go:5-38 | The first faces of the shuffled closed ones are exactly min(target, closed land faces) more of the land's, on any stream |
| Islands.AnyExtrasOpen | internal/maze/cycles.go:5-38 | Whatever order of the closed faces is wanted, some fair stream opens the first target of them |
| Islands.ExtraTargetIsNearest | internal/maze/cycles.go:14-22 | The extra target is the whole number nearest the share of the tree's faces, a tie going up |
| Islands.AddExtraPassages | internal/maze/cycles.go:5-38 | Opens exactly those faces, as many as the share asks for, and touches nothing else |
| Islands.StructureSpans | internal/maze/algorithms.go:66-82 | Whichever algorithm is drawn, what it builds on any stream is a spanning tree of the land; and all but Wilson's always build one |
| Islands.BuildSpanningStructure | internal/maze/algorithms.go:66-82 | Builds exactly what the drawn algorithm makes of the stream; runs out of its budget only with Wilson's walk, and does when one of its walks never arrives |
| Islands.WeightlessNeverDrawn | internal/maze/algorithm.go:61-69 | An algorithm of weight zero is never drawn, so with no weight on Wilson's walk every generation ends |
| Islands.WeightDrawsItsAlgorithm | internal/maze/algorithm.go:14-69 | Weights are in the canonical order of the algorithms: one without weight is never drawn, and one that alone has weight always is |
| Islands.EachBuildsItsOwn | internal/maze/algorithms.go:66-82 | Each algorithm of that order builds its own structure |
| Islands.InteriorFromIsOk | internal/maze/generate.go:56-62 | The interior any four streams give: all land mutually reachable, islands sealed off, exactly (land−1)+min(extra, remaining) open faces; and only Wilson's walk can leave it unmade |
| Islands.InteriorEndsExactly | internal/maze/generate.go:56-62 | Some budget makes the interior if and only if Wilson's walk is not drawn or every walk of its run arrives |
| Islands.BuildInterior | internal/maze/generate.go:56-62 | The passes give exactly the interior the four streams determine |
| Portals.CandidatesFromEitherSide | internal/maze/portal.go:11-36 | Both chunks of a border enumerate the identical list |
| Portals.CandidatesAreTheBorder | internal/maze/portal.go:11-36 | The candidates are exactly the faces between the two chunks, each once, touching exactly when consecutive |
| Portals.BorderCandidates | internal/maze/portal.go:20-36 | The direction search and translation give that list |
| Portals.SpreadIsBijection | internal/maze/portal.go:70-92 | The rank map carries count-subsets of l−count+1 slots one to one onto non-touching placements in l, and back |
| Portals.PositionsArePlacement | internal/maze/portal.go:76-92 | Every stream gives exactly count increasing positions in [0, l) with gaps of at least 2 |
| Portals.NonConsecutivePositions | internal/maze/portal.go:76-92 | Shuffle, take, sort and add ranks: the placement the stream determines |
| Portals.SelectPortals | internal/maze/portal.go:50-68 | The portal set is a function of the border's stream, its candidates and the bounds alone |
| Portals.PortalsAreApart | internal/maze/portal.go:50-68 | Between lo and hi portals, all faces of that border, no two of them sharing a vertex |
| Portals.EveryPlacementIsDrawn | internal/maze/portal.go:50-92 | Every choice the bounds allow is some fair stream's: any number of portals from lo to hi, at any positions no two of which are consecutive |
| Portals.PortalsFromEitherSide | internal/maze/seed.go:112-119 | Both sides of a border draw the same portals |
| Maps.ISqrt | internal/maze/map.go:57-72 | Newton's iteration ends at the exact integer square root for every n ≥ 0 |
| Maps.RadiusForCellCount | internal/maze/map.go:74-95 | Inverts 3r²+3r+1 over int32 radii and rejects every other count |
| Maps.NewMap | internal/maze/map.go:97-140 | Accepts exactly the parts of some map and gives that map back; each refusal names the first check that fails |
| Maps.MapDetermined | internal/maze/map.go:16-27 | A map's chunk, type, version and faces leave no choice of anything else |
| Maps.Faces | internal/maze/map.go:48-55 | Answers exactly inside the radius, with that cell's states |
| ChunkMaps.StandsForIsOneToOne | internal/world/chunkmap.go:10-36 | Blobs without high bits and face lists correspond one to one |
| ChunkMaps.StoredByte | internal/world/chunkmap.go:10-36 | A cell's stored byte is one for a passage to the first direction, two to the second, and so on, doubling |
| ChunkMaps.Encode | internal/world/chunkmap.go:15-36 | One byte per cell in local-cell order, bit d set exactly for a passage, high bits clear |
| ChunkMaps.Decode | internal/world/chunkmap.go:38-69 | Accepts exactly the rows some map of that radius is stored as, and gives that map; a foreign length is refused first |
| ChunkMaps.StoredRowIsTheMap | internal/world/chunkmap.go:15-69 | Only the map itself is stored as its row, and only the row's own bytes stand for its map |
| ChunkMaps.StoreThenRead | internal/world/chunkmap.go:15-69 | decode(encode(m)) is m for every map |
| ChunkMaps.ReadThenStore | internal/world/chunkmap.go:15-69 | encode(decode(b)) is b for every accepted blob |
| Generates.New | internal/maze/generate.go:19-26 | Accepts exactly valid parameters, and then every border has a count range that fits |
| Generates.ResolveNeighborMaps | internal/maze/generate.go:115-146 | Accepts exactly adjacent, distinct maps of the same radius that are not the chunk's own; each refusal names a failing map |
| Generates.InteriorIsDetermined | internal/maze/generate.go:28-62 | Keys, parameters, chunk and type leave one interior, whatever the budget, and it is a sound one |
| Generates.InteriorExistsExactly | internal/maze/generate.go:56-62 | A chunk has an interior if and only if its run's walks arrive where Wilson's algorithm is drawn; with no weight on Wilson's it always has |
| Generates.BorderPortalsFromEitherSide | internal/maze/generate.go:64-79 | The portal rule gives one set whichever chunk asks |
| Generates.PassesDrawFromTheirOwnStreams | internal/maze/generate.go:56-76 | The islands depend on the chunk's island stream alone, the algorithm on its algorithm stream, the whole interior on the chunk's four, a border's portals on the border's |
| Generates.FilledIsWellFormed | internal/maze/generate.go:81-112 | The face pass never disagrees with itself inside the chunk |
| Generates.AgreesWithNeighbor | internal/maze/generate.go:94-106 | A map generated against a neighbour's map agrees with it on every shared face, whoever made the neighbour |
| Generates.AloneMapsAgree | internal/maze/generate.go:64-112 | Two neighbouring chunks generated alone agree across their border, whatever their types |
| Generates.BordersAreGuaranteed | internal/maze/generate.go:64-112 | Of the map itself: into every neighbour chunk whose map was not given, the passages number at least the lower share of the border's faces and less than the upper share plus one, at least one, and no two share a vertex, whatever the interior and the other neighbours |
| Generates.PassagesFromEitherSide | internal/maze/generate.go:94-106 | Two agreeing maps show the same faces as passages between them |
| Generates.SequentialIsAlone | internal/maze/generate.go:34-45 | Filling a chunk against neighbours whose borders are the portal rule's own is filling it with no neighbours |
| Generates.AloneIsUnique | internal/maze/generate.go:8-12 | Keys, parameters, chunk and type leave one map made alone, whatever the budgets |
| Generates.AloneIsGuaranteed | internal/maze/generate.go:64-112 | A map made alone keeps that promise on all six borders |
| Generates.NeighborsMadeAloneDoNotMatter | internal/maze/generate.go:34-45 | What Generate gives against neighbours it made alone is what it gives with none: the same map or the same spent budget |
| Generates.NeighborOrderDoesNotMatter | internal/maze/generate.go:43-45 | What Generate gives does not depend on the order of the neighbours: the same map, the same spent budget, or a refusal either way |
| Generates.FilledIsDetermined | internal/maze/generate.go:81-112 | One set of interior edges and border decisions leaves one map |
| Generates.FilledInterior | internal/maze/generate.go:81-92 | The map's interior passages are exactly the open edges, and every island is walled on all six sides |
| Generates.GeneratedIsSound | internal/maze/generate.go:45-113 | Every generated map is well formed and shows a sound interior: connected land, walled islands, the right number of passages |
| Generates.FillFaces | internal/maze/generate.go:81-112 | The cell-by-cell loop with its cache of derived borders fills what the rules say |
| Generates.Generate | internal/maze/generate.go:45-113 | Refuses exactly the unknown type and unacceptable neighbours; otherwise gives the chunk's own interior, a sound one, filled against the neighbours, with the promised number of non-touching passages on every border no given map decides; runs out of its budget only with Wilson's walk |
| Worlds.StepKeepsInv | internal/world/chunk.go:119-234 | Every step of every concurrent call keeps the stored rows in agreement and immutable |
| Worlds.RunKeepsInv | internal/world/chunk.go:80-234 | So does every run, with any interleaving, failures and unheard commits |
| Worlds.RowsAreImmutable | internal/world/chunk.go:33-39 | A stored row never changes or disappears over a run |
| Worlds.WorldIsConsistent | internal/world/chunk.go:80-234 | In every reachable world neighbouring stored chunks have one radius and agree on every shared face even from different generators; inside each the land is connected and the islands walled; a chunk is of the gate type exactly when it is some chat's gate, with its own spiral index; no chat has two gates; no insert meets a stored row; every answer is the stored row's |
| Worlds.GatesAreSpaced | internal/world/activate.go:94-126 | Gates placed with spacing k or more stay pairwise at least k+1 apart, over any run of explorations and activations |
| Worlds.WorldIsBuiltAlone | internal/world/chunk.go:152-199 | With one generator, every stored map is the one Generate gives of that chunk and type with no neighbours |
| Worlds.CreationOrderDoesNotMatter | internal/world/chunk.go:152-199 | Two worlds built by one generator, in any orders and with any failures, store the same map, interior and borders, for a chunk they both hold with one type |
| Worlds.WorldIsJoined | internal/world/chunk.go:152-199 | In every world built by one generator each stored chunk has the promised passages on all six borders, and two stored neighbours show the same ones |
| Walks.WorldIsWalkable | internal/maze/generate.go:56-112 | In every such world one can walk, each step through a passage, from any cell with a passage to any other of any chunk that stored chunks join to it |
| Walks.OnlyIslandsHaveNone | internal/maze/island.go:17-27 | Every cell of a generated map has a passage, but for inner ones no more than the island target |
| MazeStores.Maze.ReadChunk | internal/world/chunk.go:48-66 | Finds exactly the stored chunks and reads exactly those of the handle's radius |
| MazeStores.Maze.ReadNeighbors | internal/world/chunk.go:68-82 | Every stored neighbour in direction order, failing exactly when one has another radius |
| MazeStores.Maze.GenerateInsertAndAppend | internal/world/chunk.go:159-199 | Succeeds exactly when no stored neighbour has another radius and the interior is made within the budget; then one row more, in agreement with all its neighbours, otherwise the table as it was; and a table of maps made alone stays one |
| MazeStores.Maze.EnsureChunkAt | internal/world/chunk.go:84-107 | Gives the stored map of the one chunk holding the cell, or creates just that chunk, failing exactly when the stored one has another radius or the missing one cannot be created |
| MazeStores.Maze.Activate | internal/world/activate.go:82-127 | A chat with a gate gets it back and nothing changes; without one it gets the earliest admissible chunk, exactly when the spacing is not negative and that chunk can be created |
| MazeStores.MazesAgree | internal/world/chunk.go:152-199 | Two mazes of one generator, however each came to be, store the same map for a chunk and type both have |
| Windows.GapMeansAtMost | internal/tg/limit.go:12-17 | Keeping count-th neighbours a window apart is exactly keeping every half-open window's count |
| Windows.PaceImpliesBound | internal/tg/limit.go:342-362 | The pacing window alone already implies the rate's bound |
| Windows.OnlyTouchingWindows | internal/tg/limit.go:58-97 | Only the windows an insertion touches need checking |
| Windows.BecomesFeasibleAtExpiry | internal/tg/limit.go:94-138 | An infeasible instant becomes feasible only at some grant's expiry |
| Windows.NothingBetweenExpiries | internal/tg/limit.go:94-138 | Between expiries nothing becomes feasible |
| Windows.FeasibleAfterAllExpire | internal/tg/limit.go:94-138 | Once every window has expired, any later instant is feasible |
| Windows.ForgottenDoNotConstrain | internal/tg/limit.go:160-183 | Deciding over the kept grants keeps the complete history legal |
| Schedules.EvictedLegal | internal/tg/limit.go:160-183 | Eviction keeps the complete history and what later decisions may rely on |
| Schedules.CommittedLegal | internal/tg/limit.go:140-158 | A commit at an admitted instant keeps the complete history legal |
| Schedules.StepKeepsSane | internal/tg/limit.go:311-340 | Whatever order calls come in, the grants kept break no window |
| Schedules.RunKeepsWindows | internal/tg/limit.go:298-340 | Over any run of timely calls, mixing grants, refusals and evictions, every key's complete history breaks no window |
| Schedules.NoWindowEverBroken | internal/tg/limit.go:298-340 | From a fresh limiter no half-open interval of length per holds more than count grants, for any key and window, and a chat's instants never decrease |
| RateRuns.PaceWindowsAre | internal/tg/limit.go:342-362 | The windows made of a rate ask, of sorted instants, exactly that no interval of length per holds more than count and that consecutive ones are per/count apart |
| RateRuns.RatesAreKept | internal/tg/limit.go:231-340 | Over every run late by at most one unit, told from the calls and the configured rates alone: each class's instants keep its rate and its even pace, and each chat's of a class are in order and keep the chat's rate, its pace and its cap; unknown chats count as one |
| RateRuns.GrantsAreEarliestAllowed | internal/tg/limit.go:298-340 | In every such run a call is granted the earliest instant from its own now on that the calls granted before it leave within every configured rate, and is refused exactly when that instant is past its deadline |
| Limiters.Schedule.Holds | internal/tg/limit.go:58-97 | The local check answers exactly whether the inserted list keeps every window |
| Limiters.Schedule.Earliest | internal/tg/limit.go:94-138 | The least instant from the candidate (or the newest grant) on that keeps every window |
| Limiters.Schedule.Commit | internal/tg/limit.go:140-158 | Inserts in order, or nothing for an unbounded key |
| Limiters.Schedule.Evict | internal/tg/limit.go:160-183 | Drops exactly the grants older than the longest window |
| Limiters.AcquireFixedPoint | internal/tg/limit.go:263-296 | A converged answer is the least instant every schedule admits; not converging takes as many distinct candidate instants as passes |
| Limiters.Limiter.ChatScheduleLocked | internal/tg/limit.go:231-261 | Builds a chat's schedule on first use, with the windows of its rate and its cap, only where one of them bounds it, changing no key's value |
| Limiters.Limiter.Acquire | internal/tg/limit.go:298-340 | One call, at any clock, is one step of the runs RateRuns.RatesAreKept and RateRuns.GrantsAreEarliestAllowed are about: grants the least joint instant to all its keys, or commits to none of them |
| ClockHypothesis.WindowsKeptExactlyWhenBarelyLate | internal/tg/caller.go:69-72 | No run ever breaks a window if and only if no call reaches the limiter more than one clock unit late |
| ClockHypothesis.TwoLateBreaks | internal/tg/limit.go:311-340 | For every window length, a run whose one late call is two units late puts two grants in a window of one |
| Ledgers.PostKeepsBooks | internal/store/post.go:56-215 | A post keeps each kind at zero, over all postings and within every entry, and each controlled balance equal to its postings and non-negative |
| Effects.AmountsAreHundredThousandths | internal/store/post.go:24-32 | The amounts accepted are exactly the non-zero whole multiples of 0.00001 below 10²⁵ in size |
| Effects.PostMovesExactly | internal/store/post.go:180-215 | A post writes the batch's own postings, in the caller's order, after everything there was, and moves each controlled balance by what the batch posts to it |
| Effects.AcceptedExactlyWhenBooksStayInOrder | internal/store/post.go:56-215 | A batch with a fresh basis is accepted exactly when the books would still be in order with it |
| Ledgers.OpeningKeepsBooks | internal/store/migrations/00001_ledger_core.sql:37-52 | Opening an account with its zero balance row keeps the books |
| Chains.ConstraintsAdmitExtensions | internal/store/migrations/00007_item_machine.sql:83-122 | The table's constraints admit exactly a first movement out of World or one onward from the item's last |
| Chains.InsertKeepsChains | internal/store/migrations/00007_item_machine.sql:83-122 | Whatever is inserted in whatever order, each item's movements stay one chain from World |
| Chains.HeadIsLast | internal/store/migrations/00007_item_machine.sql:131-142 | An item's one row without a successor is the end of its chain |
| Chains.MovementShiftsUsed | internal/store/migrations/00007_item_machine.sql:178-212 | A movement takes one from what its source holds and gives one to its destination, a mint included |
| ItemMoves.MoveConflictsExactlyWhenStale | internal/store/move.go:234-258 | A move's rows go in exactly when no named item has moved since its head was read |
| Effects.MovePlacesItems | internal/store/move.go:216-258 | After a move the i-th movement's item is at that movement's destination, and every other item where it was |
| Effects.MoveNamesItems | internal/store/move.go:216-232 | A named item keeps its id; a minted one gets a new id, in the movements' order; no id twice |
| Effects.RowsAscend | internal/store/move.go:234-258 | Rows go in under ascending row ids, in ascending item id, all under the move's entry |
| ItemMoves.RowsFlowAsMovements | internal/store/move.go:234-258 | Rows written in item order move between holders what the movements, in the caller's order, say |
| ItemMoves.LegsAddFlow | internal/store/move.go:203-214 | The capacity legs add a move's net to used slots and take it from free ones |
| ItemMoves.MoveKeepsStore | internal/store/move.go:86-271 | A move keeps the books, the chains, the identities and the holders in order |
| ItemMoves.MoveKeepsReconciled | internal/store/move.go:37-51 | A move keeps every holder's used slots equal to the items it holds |
| ItemMoves.MoveKeepsCapacity | internal/store/move.go:203-214 | A holder's free and used slots together are unchanged by a move |
| ItemMoves.UsedSlotsNeverOverdraw | internal/store/move.go:46-55 | While the machines agree, a move never overdraws a source's used slots |
| StoreRuns.StepKeepsInv | internal/store/move.go:86-271 | Every committed post, move, account opening and rolled-back transaction keeps the store and every plan read |
| StoreRuns.OperationsAreCommitted | internal/store/basis.go:43-61 | In every reachable state the recorded player operations are exactly those an entry has been committed on |
| StoreRuns.OperationCommitsOnce | internal/store/basis.go:43-61 | In any run at most one entry, of a post or of a move, is committed on a player operation |
| StoreRuns.BooksAlwaysBalance | internal/store/post.go:56-215 | In every reachable state: zero sums, balances equal to postings and non-negative, one chain per item |
| StoreRuns.UsedSlotsAreItemsHeld | internal/store/migrations/00007_item_machine.sql:178-212 | If callers spare the used-slots accounts, a backpack's used balance is exactly its item count in every reachable state |
| StoreOps.SumBatch | internal/store/post.go:148-160 | The loop's maps hold each account's and each kind's sum |
| StoreOps.Database.OpenEntry | internal/store/post.go:93-179 | Phases a to d succeed exactly on well-formed, known, zero-sum, fresh batches, and write nothing on refusal |
| StoreOps.Database.SettleEntry | internal/store/post.go:180-214 | Phases e and f succeed exactly when every changed balance admits its change, and then all are applied |
| StoreOps.Database.Post | internal/store/post.go:77-215 | Succeeds exactly on postable batches with exactly the specified effect; the untouched errors leave the store as it was |
| StoreOps.Database.PostInTransaction | internal/store/post.go:41-56 | A caller's transaction applies the whole post or nothing |
| StoreOps.Database.PlanMove | internal/store/move.go:87-201 | Phases a and b: each refusal names what is wrong; a plan names every item's head and every holder's accounts |
| StoreOps.MisplannedHasNoPlan | internal/store/move.go:87-201 | Whatever phase a or b refuses has no plan at all |
| StoreOps.Database.InsertMovements | internal/store/move.go:234-258 | The rows go in, in ascending item id, exactly when all the constraints admit them |
| StoreOps.Database.WriteMove | internal/store/move.go:203-271 | Against any later store: succeeds exactly when the move is still possible, with exactly the specified effect; a conflict means an item moved on |
| StoreOps.Database.MoveInTransaction | internal/store/move.go:31-51 | A caller's transaction applies the whole move or nothing, and alone never conflicts; every refusal names a fault of the movements or of the batch |
| Ingests.AttemptOk | internal/ingest/attempt.go:61-123 | One attempt, whatever its luck, settles nothing but its update and moves the offset only with it |
| Ingests.BatchKeepsCover | internal/ingest/loop.go:207-213 | The offset never goes back, nothing issued is passed over, and updates after the first unsettled one are untouched |
| Ingests.RunLosesNothing | internal/ingest/loop.go:160-216 | In every run, with any failures and even unheard commits, every issued update below the offset is settled, and idempotent handlers' effects are in at most once |
| Ingests.ProcessOnce | internal/ingest/loop.go:284-303 | With truthful commits an update is settled exactly one way or nothing changes at all |
| Ingests.RunSettlesAsAttempted | internal/ingest/attempt.go:17-123 | Over every run, with every attempt logged: Handled only by an attempt whose handler was done and whose commit landed, Duplicate only by one answered AlreadyPosted or whose effects were in, GivenUp only after exactly the configured attempts, none of which heard a settlement, Unrouted exactly for malformed or unrouted updates; and each attempt heard a settlement exactly if one of its own landed and said so |
| Ingests.FailedAttemptSettlesNothing | internal/ingest/attempt.go:112-121 | An attempt that erred, panicked or did not begin leaves what is stored as it was |
| Ingests.RunSettlesOnce | internal/ingest/loop.go:160-216 | With truthful commits every issued update below the offset is settled exactly one way, effects exactly for the handled and dead rows exactly for the given up |
| Ingests.UnheardCommitSettlesTwice | internal/ingest/attempt.go:85-98 | For every number of attempts, a run of one poll whose commits land unheard leaves one update both handled and given up |
| Ingests.SettlesOnceExactlyWhenHeard | internal/ingest/attempt.go:85-98 | Of the ways a transaction may end, every run settles each update exactly one way if and only if landing unheard is not among them |
| IngestLoops.Loop.AdvanceOffset | internal/ingest/offset.go:28-45 | The guarded update never moves the offset backwards |
| IngestLoops.Loop.AttemptOnce | internal/ingest/attempt.go:61-123 | The transaction code is the specified attempt, logged; erring, panicking or not beginning it leaves everything stored as it was, and it reports a settlement exactly if one of its own landed and said so |
| IngestLoops.Loop.RunAttempts | internal/ingest/attempt.go:17-45 | The retry loop is the specified one: at most the configured attempts, then the give-up |
| IngestLoops.Loop.PollOnce | internal/ingest/loop.go:160-216 | A failed fetch changes nothing; otherwise the batch in order up to the first unsettled update |
| Cadences.EveryIsTheNextOccurrence | internal/scheduler/cadence.go:12-32 | Of all whole-period occurrences after the previous one, the earliest still to come |
| Cadences.EveryIsNextAfter | internal/scheduler/cadence.go:12-32 | It is the earliest instant after the given one that is one or more whole periods after the previous occurrence |
| Cadences.ToleranceSpansThreshold | internal/scheduler/liveness.go:182-197 | That many missed heartbeats span the threshold and one fewer do not |
| Schedulers.CommitKeepsInv | internal/scheduler/execute.go:255-327 | An inline settlement, heard or not, moves the row past every claim |
| Schedulers.DrainKeepsInv | internal/scheduler/settle.go:83-154 | A deferred failure applies only where nothing has settled since its claim, and once |
| Schedulers.CorrectKeepsInv | internal/scheduler/reconcile.go:21-68 | A timely correction, at whatever cadence its worker declares, lands after every claim made so far |
| Schedulers.TimelyRunsAreSafe | internal/scheduler/settle.go:83-154 | In every timely run, by workers that may declare different cadences: no return to a claimed instant, each deferred failure at most once and never on a row settled since, failure counts below, at or free of the limit by kind |
| Schedulers.RunsNeverReturnExactlyWhenTimely | internal/scheduler/reconcile.go:37-68 | No run ever returns to a claimed instant if and only if corrections run within less than the shortest declared period of their read |
| Schedulers.LateCorrectionReturns | internal/scheduler/reconcile.go:37-68 | For every shortest period and tuning, a correction that late can put the row back where it was claimed |
| Schedulers.LateCorrectionCountsAgainstSuccess | internal/scheduler/settle.go:83-154 | And, where polls are shorter than the period, let a deferred failure count against an occurrence that succeeded |
| SchedulerOps.Worker.DiscoverDue | internal/scheduler/claim.go:12-48 | The earliest due unlocked rows, at most the limit, in order, none passed over |
| SchedulerOps.Worker.Reclaim | internal/scheduler/claim.go:50-86 | Claims exactly a row still pending, due and unlocked |
| SchedulerOps.SettledCounts | internal/scheduler/settle.go:166-264 | Field by field: success deletes a one-shot and clears a recurrence's count; failure adds one, backs a one-shot off or makes it dead exactly at the limit; a recurrence comes round at the earliest whole period after the settlement; an unregistered row keeps its count |
| SchedulerOps.Worker.SettleFailed | internal/scheduler/settle.go:221-264 | Writes the specified failed row for one-shots and recurrences |
| SchedulerOps.Worker.SettleDoneOrNoop | internal/scheduler/settle.go:200-219 | Removes a one-shot, reschedules a recurrence with its count cleared |
| SchedulerOps.Worker.ExecuteOne | internal/scheduler/execute.go:91-327 | Of the table's fields and the handler's result: where the settlement lands, success deletes a one-shot or clears a recurrence's count, anything else counts one more failure, dead exactly at the limit, and a recurrence moves whole periods on, past the settlement; elsewhere the row stays as it was; no other row changes; and exactly the attempts whose settlement was not heard to land are deferred |
| SchedulerOps.Worker.DrainOne | internal/scheduler/settle.go:96-130 | Counts one more failure of the deferred attempt exactly where the row still matches and is free; keeps it for later exactly where it is locked; otherwise drops it |
| SchedulerOps.Worker.DrainPending | internal/scheduler/settle.go:49-81 | Every pending settlement is applied, kept or dropped by that rule, and no other row is touched |
| SchedulerOps.Worker.Reconcile | internal/scheduler/reconcile.go:37-68 | Afterwards every recurrence has exactly one pending row, no further ahead than its cadence or the next poll unless locked; nothing else is written than such rows added at, or brought back to, one period from the instant read |
| SchedulerOps.Worker.AbsorbDowntime | internal/scheduler/liveness.go:113-160 | Shifts exactly the overdue pending rows, by exactly the gap, only over the threshold, and counts them |
| SchedulerOps.StepsWriteAsOperations | internal/scheduler/settle.go:83-264 | The interleaved protocol writes to a row exactly what the worker's own operations write |

## Left out

- Wilson.BuildWilson: takes a step budget the source does not have, because a walk need not end on every stream; a budget that is enough exists exactly when the source's loop ends.
- Generates.Generate: takes the same budget for the Wilson case.
- Worlds.RunKeepsInv: every handle has a generator New accepts, over a radius whose faces can be counted in 64 bits.
- Draws.Shuffle: like every pass that draws more than once, assumes the stream never runs out of words below 2^63; Draws.BoundedDraw only that it has one the draw accepts, without which the source loops for ever.
- Islands.SelectIslands: like every structure algorithm, assumes a chunk whose faces can be counted in 64 bits, as the source's own conversions do.
- The 32-bit coordinate seam and Duration overflow: disclaimed by the source.
- RateRuns.RatesAreKept: like every law of a run, takes rates whose period is not negative and calls at most one clock unit late, which is as late as the windows are kept (ClockHypothesis.WindowsKeptExactlyWhenBarelyLate); evenness of pace is per/count exactly, the source's rounded-up step.
- Worlds.WorldIsJoined: worlds whose every process has one generator; what holds across generators is Worlds.WorldIsConsistent. The same goes for Walks.WorldIsWalkable.
- SHA-256 key derivation and ChaCha8: a keyed stream is an arbitrary word sequence; only the canonical order of a border's two chunks is modelled.
- Decimal parsing and YAML configuration: shares are validated reals.
- PostgreSQL itself: a table is a sequence or map, a transaction's writes one step that lands whole or not at all, and only the constraints the migrations name are used.
- Overlap inside one transaction's write phase: row locks and unique indexes are held to its end, so the model writes at commit.
- MazeStores.Maze.EnsureChunkAt: covers the body of a call that holds the lock; the interleavings are in Worlds.
- The chunk_created event, CreateBudget's clock, discovery and presence records.
- Accounts are opened one at a time in StoreRuns; owner creation and the seeded catalogue are not modelled.
- StoreOps.Database.Post: a basis is a player operation, an event or another document; the documents' own columns are left out.
- Schedulers.TimelyRunsAreSafe: workers may declare different cadences for a recurrence, or not declare it, but not another kind; run_at is an integer, so sub-microsecond truncation is left out.
- SchedulerOps.Worker.AbsorbDowntime: takes the gap as measured; a liveness row never written measures none.
- Retry delays are any positive value up to the ceiling; the floating-point ramp is left out.
- The savepoint inside a handler's transaction and the layers that end a breached backend: a breach is the lock outliving the attempt.
- IngestLoops.Loop.PollOnce: what getUpdates returns and whether each transaction begins, writes and commits are parameters; stopping, tickers and observations are left out.
- The Telegram HTTP caller, its retries and error texts, health and metrics, process wiring, contracts, chat onboarding, and the lint tooling.
