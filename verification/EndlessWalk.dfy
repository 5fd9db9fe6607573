/** Wilson's walks need not end: on the all-zero stream they never do. */
module EndlessWalk {
  import opened GoInt
  import opened HexGrid
  import opened Lattices
  import opened LocalCells
  import opened Draws
  import opened Graphs
  import opened ChunkGraphs
  import opened Spanning
  import opened Wilson
  import opened Params
  import opened Islands
  import opened Maps
  import opened Generates

  function Zero(i: nat): Word {
    0
  }

  ghost predicate AllZero(words: Words) {
    forall i: nat :: words(i) == 0
  }

  lemma ZeroIsFair(words: Words)
    requires AllZero(words)
    ensures Fair(words)
  {
    forall p: nat ensures LowFrom(words, p) { assert words(p) < TWO_POW_63; }
  }

  /** A draw of zero is the first value. */
  lemma ZeroDraws(words: Words, p: nat, n: nat)
    requires AllZero(words) && n <= MAX_UINT64
    ensures Draw(words, p, n).0 == 0
  {
    if 2 <= n {
      LimitFacts(n);
      DrawIs(words, p, n, p);
      ZeroRest(n);
    }
  }

  lemma ZeroRest(n: nat)
    requires 0 < n
    ensures 0 % n == 0
  {
  }

  lemma ZeroPicks(words: Words, p: nat, cells: seq<nat>)
    requires AllZero(words) && 0 < |cells| <= MAX_UINT64
    ensures Picked(words, p, cells).0 == cells[0]
  {
    hide Draw;
    ZeroDraws(words, p, |cells|);
  }

  /** The canonical order begins with the northernmost row, from west to east. */
  lemma {:induction false} TopRow(R: nat, row: int, i: nat)
    requires 0 - R < row <= R + 1 && i <= R
    ensures i < |Rows(R, row)| && Rows(R, row)[i] == Coord(i, 0 - R)
    decreases row + R
  {
    if row == 1 - R {
      assert Rows(R, 0 - R) == [];
      assert Rows(R, row) == Row(R, 0 - R);
      assert Row(R, 0 - R) == RowFrom(0, R, 0 - R);
    } else {
      TopRow(R, row - 1, i);
    }
  }

  /** The cells a top-row cell's first neighbours are. */
  lemma TopRowCells(g: ChunkGraph, i: nat)
    requires IsChunkGraph(g) && 2 <= g.radius && i <= g.radius
    ensures i < |g.cells| && g.cells[i] == Coord(i, 0 - g.radius) && Coord(i, 0 - g.radius) in g.index && g.index[Coord(i, 0 - g.radius)] == i
  {
    TopRow(g.radius, g.radius + 1, i);
  }

  /** Every cell of the top row but the last has its eastern neighbour first; the last has its western. */
  lemma TopRowNeighbor(g: ChunkGraph, i: nat)
    requires IsChunkGraph(g) && 2 <= g.radius && i <= g.radius
    ensures i < |g.cells| && Around(g, {}, i) != []
    ensures Around(g, {}, i)[0] == if i < g.radius then i + 1 else g.radius - 1
  {
    var R := g.radius;
    TopRowCells(g, i);
    TopRowCells(g, if i < R then i + 1 else R - 1);
    if i < R { FirstNeighbor(g, i, 0, i + 1); } else { LastOfTopRow(g); }
    hide IsChunkGraph, NeighborsFrom;
    NoneDropped(Neighbors(g, i));
  }

  /** A direction with a neighbour begins the list; one without leaves it to the next. */
  lemma FirstNeighbor(g: ChunkGraph, i: nat, d: Direction, n: nat)
    requires i < |g.cells| && Neighbor(g.cells[i], d) in g.index && g.index[Neighbor(g.cells[i], d)] == n
    ensures NeighborsFrom(g, i, d) != [] && NeighborsFrom(g, i, d)[0] == n
  {
    hide Neighbor;
  }

  lemma NextNeighbor(g: ChunkGraph, i: nat, d: Direction)
    requires i < |g.cells| && Neighbor(g.cells[i], d) !in g.index
    ensures NeighborsFrom(g, i, d) == NeighborsFrom(g, i, d + 1)
  {
    hide Neighbor;
  }

  lemma OffTheEdge(g: ChunkGraph, d: Direction)
    requires IsChunkGraph(g) && d < 3
    ensures Neighbor(Coord(g.radius, 0 - g.radius), d) !in g.index
  {
    CellsAreTheHexagon(g.radius);
    var n := Neighbor(Coord(g.radius, 0 - g.radius), d);
    assert Distance(n, ORIGIN) > g.radius;
    assert n !in g.cells;
  }

  lemma LastOfTopRow(g: ChunkGraph)
    requires IsChunkGraph(g) && 2 <= g.radius && g.radius < |g.cells|
    requires g.cells[g.radius] == Coord(g.radius, 0 - g.radius)
    requires Coord(g.radius - 1, 0 - g.radius) in g.index && g.index[Coord(g.radius - 1, 0 - g.radius)] == g.radius - 1
    ensures Neighbors(g, g.radius) != [] && Neighbors(g, g.radius)[0] == g.radius - 1
  {
    var R: int, c := g.radius, g.cells[g.radius];
    OffTheEdge(g, 0);
    OffTheEdge(g, 1);
    OffTheEdge(g, 2);
    assert Neighbor(c, 3) == Coord(R - 1, 0 - R);
    hide Neighbor, IsChunkGraph, NeighborsFrom;
    NextNeighbor(g, R, 0);
    NextNeighbor(g, R, 1);
    NextNeighbor(g, R, 2);
    FirstNeighbor(g, R, 3, R - 1);
  }

  lemma {:induction false} NoneDropped(cells: seq<nat>)
    ensures Kept(cells, {}) == cells
    decreases |cells|
  {
    if cells != [] {
      var less, last := cells[..|cells| - 1], cells[|cells| - 1];
      assert cells == less + [last];
      NoneDropped(less);
      hide Kept;
      KeptMore(less, last, {});
    }
  }

  /** The walk from the top row's second cell goes east to the end of the row, and then back and forth between its last two cells. */
  lemma {:induction false} WalkStaysOut(w: Walk, k: nat)
    requires IsChunkGraph(w.graph) && 2 <= w.graph.radius && w.islands == {} && AllZero(w.words) && w.start == 1
    ensures 1 <= WalkAt(w, k).0 <= w.graph.radius
  {
    hide *;
    if k == 0 {
      WalkBegins(w);
    } else {
      WalkStaysOut(w, k - 1);
      StepStaysOut(w.graph, w.words, WalkAt(w, k - 1).0, WalkAt(w, k - 1).1);
      WalkGoesOn(w, k - 1);
    }
  }

  lemma StepStaysOut(g: ChunkGraph, words: Words, c: nat, q: nat)
    requires IsChunkGraph(g) && 2 <= g.radius && AllZero(words) && 1 <= c <= g.radius
    ensures Around(g, {}, c) != [] && 1 <= Picked(words, q, Around(g, {}, c)).0 <= g.radius
  {
    TopRowNeighbor(g, c);
    AroundAre(g, {}, c);
    hide Picked, Around, Neighbors;
    ZeroPicks(words, q, Around(g, {}, c));
  }

  /** On the all-zero stream a chunk without islands has a walk that never ends, whatever its radius from 2 on. */
  lemma ZeroStreamNeverEnds(g: ChunkGraph, words: Words)
    requires IsChunkGraph(g) && 2 <= g.radius && |g.cells| <= MAX_UINT64 && AllZero(words)
    ensures !EveryWalkArrives(g, {}, words, 0)
  {
    var land := LandCells(g, {});
    ZeroSetsOut(g, words, land);
    RunBegins(g, {}, words, 0);
    hide *;
    var q := Picked(words, 0, land).1;
    OneMoreWalk(g, {}, words, 0, 0);
    var was := AfterWalks(g, {}, words, 0, 0);
    WalkLeads(g, {}, words, was);
    var w := Walk(g, {}, words, q, 1);
    NeverHits(w);
    assert AfterWalks(g, {}, words, 0, 1).Stuck?;
    StuckIsStuck(g, words);
  }

  lemma StuckIsStuck(g: ChunkGraph, words: Words)
    requires AfterWalks(g, {}, words, 0, 1).Stuck? && LandCells(g, {}) != []
    ensures !EveryWalkArrives(g, {}, words, 0)
  {
    hide AfterWalks, LandCells;
  }

  lemma NeverHits(w: Walk)
    requires IsChunkGraph(w.graph) && 2 <= w.graph.radius && w.islands == {} && AllZero(w.words) && w.start == 1
    ensures !Arrives(w, {0})
  {
    hide IsChunkGraph, WalkAt;
    forall k: nat
      ensures !HitsAt(w, {0}, k)
    {
      WalkStaysOut(w, k);
    }
  }

  /** The tree starts as the first cell, and the walk from the second. */
  lemma ZeroSetsOut(g: ChunkGraph, words: Words, land: seq<nat>)
    requires IsChunkGraph(g) && 2 <= g.radius && |g.cells| <= MAX_UINT64 && AllZero(words) && land == LandCells(g, {})
    ensures land != [] && Picked(words, 0, land).0 == 0
    ensures Remaining(g, {}, {0}) != [] && Remaining(g, {}, {0})[0] == 1
  {
    TopRowCells(g, 1);
    AllLand(g, |g.cells|);
    hide LandBelow, Kept, IsChunkGraph, AllZero, Picked;
    ZeroPicks(words, 0, land);
    FirstLeft(land);
  }

  lemma {:induction false} AllLand(g: ChunkGraph, n: nat)
    ensures LandBelow({}, n) == seq(n, k => k)
  {
    if n > 0 { AllLand(g, n - 1); }
  }

  /** With the first cell in the tree, the second is the first left. */
  lemma FirstLeft(land: seq<nat>)
    requires 2 <= |land| && forall i :: 0 <= i < |land| ==> land[i] == i
    ensures Kept(land, {0}) != [] && Kept(land, {0})[0] == 1
  {
    FirstLeftOf(land, |land|);
    assert land[..|land|] == land;
  }

  lemma {:induction false} FirstLeftOf(land: seq<nat>, n: nat)
    requires 2 <= n <= |land| && forall i :: 0 <= i < |land| ==> land[i] == i
    ensures Kept(land[..n], {0}) != [] && Kept(land[..n], {0})[0] == 1
    decreases n
  {
    hide Kept;
    assert land[..n] == land[..n - 1] + [land[n - 1]];
    KeptMore(land[..n - 1], land[n - 1], {0});
    if n == 2 {
      assert land[..1] == [] + [0];
      KeptMore([], 0, {0});
      assert |Kept([], {0})| <= 0;
    } else {
      FirstLeftOf(land, n - 1);
    }
  }

  /** Parameters that always draw Wilson's walk and no islands. */
  function WilsonOnly(radius: int): Params {
    Params(radius, [0, 0, 0, 0, 1], 0.0, 0.0, 0.0, 0.5, 0.5)
  }

  function ZeroKeys(): Keys {
    Keys(ch => Zero, ch => Zero, ch => Zero, ch => Zero, (a, b) => Zero)
  }

  function WilsonGenerator(radius: nat): Generator {
    Generator(ZeroKeys(), WilsonOnly(radius), radius + 1, radius + 1)
  }

  lemma HalfShare(radius: nat)
    ensures CeilShare(0.5, 2 * radius + 1) == radius + 1
  {
    var x := 0.5 * (2 * radius + 1) as real;
    assert x == radius as real + 0.5;
    CeilRealIsCeiling(x);
  }

  lemma NoIslandsWanted(radius: nat)
    ensures IslandTarget(WilsonOnly(radius)) == 0
  {
    assert 0.0 * CellCount(radius) as real == 0.0;
  }

  lemma OnlyLastWeight()
    ensures Accumulated([0, 0, 0, 0, 1], 5) == 1
  {
    var weights: seq<Word> := [0, 0, 0, 0, 1];
    AccumulatedZero(weights);
    AccumulatedStep(weights, 0);
    AccumulatedStep(weights, 1);
    AccumulatedStep(weights, 2);
    AccumulatedStep(weights, 3);
    AccumulatedStep(weights, 4);
  }

  lemma WilsonOnlyIsValid(radius: nat)
    requires MIN_RADIUS <= radius
    ensures Valid(WilsonOnly(radius))
  {
    HalfShare(radius);
    NoIslandsWanted(radius);
    hide CeilShare, IslandTarget, Accumulated;
    OnlyLastWeight();
  }

  lemma WilsonGeneratorIsReady(radius: nat)
    requires MIN_RADIUS <= radius <= MAX_INT32 && 6 * CellCount(radius) <= MAX_UINT64
    ensures Ready(WilsonGenerator(radius))
  {
    WilsonOnlyIsValid(radius);
    HalfShare(radius);
    hide CeilShare, Valid, Fair;
    ZeroIsFair(Zero);
  }

  lemma WilsonIsDrawn(radius: nat, ch: Chunk)
    requires MIN_RADIUS <= radius <= MAX_INT32 && 6 * CellCount(radius) <= MAX_UINT64
    ensures DrawnAlgorithm(WilsonGenerator(radius), ch) == WilsonWalk
  {
    var gen := WilsonGenerator(radius);
    WilsonOnlyIsValid(radius);
    hide Valid, Weighed;
    WeighedIsPositive(Zero, 0, gen.params.weights);
  }

  /**
   Generate need not end. For every radius New accepts there are keys, all of
   whose streams are fair, and valid parameters with which no chunk of any type
   has an interior in any budget.
   */
  lemma GenerateNeedNotEnd(radius: nat, ch: Chunk, typ: ChunkType) returns (gen: Generator)
    requires MIN_RADIUS <= radius <= MAX_INT32 && 6 * CellCount(radius) <= MAX_UINT64
    ensures Ready(gen) && gen.params.radius == radius
    ensures forall interior :: !HasInterior(gen, ch, typ, interior)
    ensures forall neighbors, budget: nat, res :: IsOutcome(gen, ch, typ, neighbors, budget, res) ==> !res.Generated?
  {
    gen := WilsonGenerator(radius);
    WilsonGeneratorIsReady(radius);
    WilsonIsDrawn(radius, ch);
    NoIslandsWanted(radius);
    var g := GraphOf(radius);
    CellsAreTheHexagon(radius);
    ZeroStreamNeverEnds(g, Zero);
    hide IslandTarget, Ready, EveryWalkArrives, AlgorithmDrawn, AllAcceptable, InteriorOf;
    InteriorExistsExactly(gen, ch, typ);
    forall budget: nat
      ensures InteriorOf(gen, ch, typ, budget).NotMade?
    {
      MadeIsInterior(gen, ch, typ, budget);
    }
  }
}
