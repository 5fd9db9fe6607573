/** The spanning-structure algorithms. Each is proved for every stream of draws. */
module Spanning {
  import opened Draws
  import opened SortedSeq
  import opened Graphs
  import opened ChunkGraphs

  /** The chunk is small enough to be counted in 64 bits. */
  predicate Countable(g: ChunkGraph) {
    6 * |g.cells| <= MAX_UINT64
  }

  lemma CountableCells(g: ChunkGraph)
    requires Countable(g)
    ensures 6 * |g.cells| <= MAX_UINT64
  {
  }

  ghost function Land(g: ChunkGraph, islands: set<int>): (vs: set<int>)
    ensures forall v :: v in vs <==> 0 <= v < |g.cells| && v !in islands
  {
    AllCells(g) - islands
  }

  ghost function LandEdges(g: ChunkGraph, islands: set<int>): EdgeSet {
    GraphEdges(g, Land(g, islands))
  }

  /** The non-island cells are joined to one another inside the chunk. */
  ghost predicate LandConnected(g: ChunkGraph, islands: set<int>) {
    AllLinked(LandEdges(g, islands), Land(g, islands))
  }

  /** open is a spanning tree of the non-island cells, over the chunk's own interior faces. */
  ghost predicate Spans(g: ChunkGraph, islands: set<int>, open: EdgeSet) {
    && open <= LandEdges(g, islands)
    && if Land(g, islands) == {} then open == {} else SpanningTree(open, Land(g, islands))
  }

  /** A tree over some of the non-island cells. */
  ghost predicate Growing(g: ChunkGraph, islands: set<int>, open: EdgeSet, visited: set<int>) {
    visited <= Land(g, islands) && open <= LandEdges(g, islands) && SpanningTree(open, visited)
  }

  lemma GrowStarts(g: ChunkGraph, islands: set<int>, start: int)
    requires start in Land(g, islands)
    ensures Growing(g, islands, {}, {start})
    ensures ClosedBut(g, islands, {start}, [start])
  {
    TreeOfOne(start);
  }

  lemma GrowStep(g: ChunkGraph, islands: set<int>, open: EdgeSet, visited: set<int>, c: int, n: int)
    requires IsChunkGraph(g) && Growing(g, islands, open, visited)
    requires c in visited && n in Land(g, islands) && n !in visited && n in Neighbors(g, c)
    ensures Growing(g, islands, open + {NewEdgeKey(c, n)}, visited + {n})
  {
    hide Neighbors, SpanningTree;
    TreeGrows(open, visited, c, n);
    GraphEdgesHas(g, Land(g, islands), c, n);
  }

  /** Every non-island neighbour of c is in vs. */
  ghost predicate Closed(g: ChunkGraph, islands: set<int>, c: int, vs: set<int>) {
    0 <= c < |g.cells| && forall n :: n in Neighbors(g, c) && n !in islands ==> n in vs
  }

  /** Every visited cell not listed is closed. */
  ghost predicate ClosedBut(g: ChunkGraph, islands: set<int>, visited: set<int>, listed: seq<nat>) {
    && (forall c :: c in listed ==> c in visited)
    && (forall c :: c in visited && c !in listed ==> Closed(g, islands, c, visited))
  }

  /** Visiting one more cell, and listing it, keeps the rest closed. */
  lemma ListOneMore(g: ChunkGraph, islands: set<int>, visited: set<int>, listed: seq<nat>, n: nat)
    requires ClosedBut(g, islands, visited, listed)
    ensures ClosedBut(g, islands, visited + {n}, listed + [n])
  {
    forall c | c in visited + {n} && c !in listed + [n]
      ensures Closed(g, islands, c, visited + {n})
    {
      assert c in visited && c !in listed && Closed(g, islands, c, visited);
    }
  }

  /** An exhausted cell can leave the list. */
  lemma ListOneLess(g: ChunkGraph, islands: set<int>, visited: set<int>, listed: seq<nat>, less: seq<nat>, cell: nat)
    requires ClosedBut(g, islands, visited, listed) && Closed(g, islands, cell, visited)
    requires forall c :: c in less ==> c in listed
    requires forall c :: c in listed && c !in less ==> c == cell
    ensures ClosedBut(g, islands, visited, less)
  {
  }

  /** A grown tree closed under adjacency has reached every cell. */
  lemma GrownSpans(g: ChunkGraph, islands: set<int>, open: EdgeSet, visited: set<int>)
    requires IsChunkGraph(g) && Growing(g, islands, open, visited) && LandConnected(g, islands)
    requires ClosedBut(g, islands, visited, [])
    ensures Spans(g, islands, open)
  {
    hide Neighbors;
    assert |visited| >= 1;
    var u :| u in visited;
    var e := LandEdges(g, islands);
    forall x, y | x in visited && Has(e, x, y)
      ensures y in visited
    {
      GraphEdgesHas(g, Land(g, islands), x, y);
      assert Closed(g, islands, x, visited);
    }
    ClosedIsAll(e, Land(g, islands), visited, u);
  }

  // ---------- Lists of cells ----------

  /** The non-island cells below n, in index order. */
  function LandBelow(islands: set<int>, n: nat): (r: seq<nat>)
    ensures |r| <= n && forall v: int :: v in r <==> 0 <= v < n && v !in islands
  {
    if n == 0 then [] else LandBelow(islands, n - 1) + if n - 1 in islands then [] else [n - 1]
  }

  function LandCells(g: ChunkGraph, islands: set<int>): seq<nat> {
    LandBelow(islands, |g.cells|)
  }

  method NonIslandCells(g: ChunkGraph, islands: set<int>) returns (out: seq<nat>)
    ensures out == LandCells(g, islands)
    ensures forall v :: v in out <==> v in Land(g, islands)
    ensures |out| <= |g.cells|
    ensures forall i, j :: 0 <= i < j < |out| ==> out[i] < out[j]
  {
    out := [];
    for idx := 0 to |g.cells|
      invariant out == LandBelow(islands, idx)
    {
      if idx !in islands {
        out := out + [idx];
      }
    }
    LandAscends(islands, |g.cells|);
  }

  lemma {:induction false} LandAscends(islands: set<int>, n: nat)
    ensures forall i, j :: 0 <= i < j < |LandBelow(islands, n)| ==> LandBelow(islands, n)[i] < LandBelow(islands, n)[j]
  {
    if n > 0 {
      LandAscends(islands, n - 1);
      var less := LandBelow(islands, n - 1);
      assert forall i :: 0 <= i < |less| ==> less[i] in less;
    }
  }

  /** The entries of cells outside a set, in order. */
  function Kept(cells: seq<nat>, drop: set<int>): (r: seq<nat>)
    ensures |r| <= |cells| && forall v :: v in r <==> v in cells && v !in drop
  {
    if cells == [] then []
    else
      var less, last := cells[..|cells| - 1], cells[|cells| - 1];
      assert cells == less + [last];
      Kept(less, drop) + if last in drop then [] else [last]
  }

  lemma KeptMore(cells: seq<nat>, c: nat, drop: set<int>)
    ensures Kept(cells + [c], drop) == Kept(cells, drop) + if c in drop then [] else [c]
  {
    assert (cells + [c])[..|cells|] == cells;
  }

  method Without(cells: seq<nat>, drop: set<int>) returns (out: seq<nat>)
    ensures out == Kept(cells, drop)
  {
    out := [];
    for i := 0 to |cells|
      invariant out == Kept(cells[..i], drop)
    {
      assert cells[..i + 1] == cells[..i] + [cells[i]];
      KeptMore(cells[..i], cells[i], drop);
      if cells[i] !in drop {
        out := out + [cells[i]];
      }
    }
    assert cells[..|cells|] == cells;
  }

  /** A cell's non-island neighbours, in direction order. */
  function Around(g: ChunkGraph, islands: set<int>, cell: nat): seq<nat> {
    if cell < |g.cells| then Kept(Neighbors(g, cell), islands) else []
  }

  lemma AroundAre(g: ChunkGraph, islands: set<int>, cell: nat)
    requires IsChunkGraph(g) && cell < |g.cells|
    ensures forall n :: n in Around(g, islands, cell) <==> n in Neighbors(g, cell) && n !in islands
    ensures forall n :: n in Around(g, islands, cell) ==> n in Land(g, islands)
    ensures |Around(g, islands, cell)| <= 6
  {
    NeighborsInRange(g, cell, 0);
    AtMostSix(g, cell, 0);
    hide IsChunkGraph, NeighborsFrom;
  }

  method NonIslandNeighbors(g: ChunkGraph, islands: set<int>, idx: nat) returns (out: seq<nat>)
    requires IsChunkGraph(g) && idx < |g.cells|
    ensures out == Around(g, islands, idx)
    ensures forall n :: n in out <==> n in Neighbors(g, idx) && n !in islands
    ensures forall n :: n in out ==> n in Land(g, islands)
    ensures |out| <= 6
  {
    AroundAre(g, islands, idx);
    hide IsChunkGraph, NeighborsFrom;
    var all := Neighbors(g, idx);
    out := Without(all, islands);
  }

  lemma {:induction false} AtMostSix(g: ChunkGraph, idx: nat, d: nat)
    requires idx < |g.cells| && d <= 6
    ensures |NeighborsFrom(g, idx, d)| <= 6 - d
    decreases 6 - d
  {
    if d < 6 { AtMostSix(g, idx, d + 1); }
  }

  /** The cell the stream draws from a list at position p, and where it leaves the stream. */
  ghost function Picked(words: Words, p: nat, cells: seq<nat>): (r: (nat, nat))
    ensures cells != [] ==> r.0 in cells
  {
    if cells == [] then (0, p)
    else
      DrawRange(words, p, |cells|);
      (cells[Draw(words, p, |cells|).0], Draw(words, p, |cells|).1)
  }

  method PickOne(s: Stream, cells: seq<nat>) returns (cell: nat)
    requires Fair(s.words) && 0 < |cells| <= MAX_UINT64
    modifies s
    ensures cell in cells && (cell, s.pos) == Picked(s.words, old(s.pos), cells)
  {
    hide Draw, Fair;
    DrawRange(s.words, s.pos, |cells|);
    var i := BoundedDraw(s, |cells|);
    cell := cells[i];
  }

  /** Every listed cell is some stream's choice. */
  lemma AnyCellIsPicked(cells: seq<nat>, i: nat, p: nat)
    requires i < |cells| <= MAX_UINT64
    ensures Picked(Always(i), p, cells).0 == cells[i]
  {
    hide Draw;
    if |cells| > 1 { SmallValueDrawn(Always(i), p, |cells|); } else { DrawRange(Always(i), p, |cells|); }
  }

  lemma Shrinks(vs: set<int>, visited: set<int>, n: int)
    requires n in vs && n !in visited
    ensures |vs - (visited + {n})| < |vs - visited|
  {
    assert vs - visited == (vs - (visited + {n})) + {n};
  }

  /** The last entry moved to the i-th place. */
  function SwapOut(list: seq<nat>, i: nat): seq<nat>
    requires i < |list|
  {
    list[i := list[|list| - 1]][..|list| - 1]
  }

  lemma LastOut(list: seq<nat>)
    requires list != []
    ensures SwapOut(list, |list| - 1) == list[..|list| - 1]
  {
  }

  /** Removing an entry so removes just that entry. */
  lemma SwapRemoved(was: seq<nat>, i: nat)
    requires i < |was|
    ensures var now := SwapOut(was, i);
            && |now| == |was| - 1
            && (forall c :: c in now ==> c in was)
            && (forall c :: c in was && c !in now ==> c == was[i])
            && ((forall x, y :: 0 <= x < y < |was| ==> was[x] != was[y]) ==>
                  was[i] !in now && forall x, y :: 0 <= x < y < |now| ==> now[x] != now[y])
  {
    var now := SwapOut(was, i);
    assert forall x :: 0 <= x < |now| && x != i ==> now[x] == was[x];
    assert i < |now| ==> now[i] == was[|was| - 1];
    forall c | c in was && c !in now
      ensures c == was[i]
    {
      var k :| 0 <= k < |was| && was[k] == c;
      assert k < |now| ==> now[k] in now;
      assert i < |now| ==> now[i] in now;
    }
  }

  // ---------- The growing algorithms, as functions of the stream ----------

  /** Which listed cell a step takes: the newest; the newest or a random one, by a biased coin; or a random frontier cell. */
  datatype Style = DepthFirst | Biased(threshold: nat) | Frontier

  /** How far a run has got: the stream's position, the cells reached, the cells listed, and the faces opened. */
  datatype Run = Run(pos: nat, tree: set<int>, listed: seq<nat>, open: EdgeSet)

  /** The index a step takes out of n listed cells, and where it leaves the stream. */
  ghost function Turn(style: Style, words: Words, p: nat, n: nat): (r: (nat, nat))
    requires 0 < n
    ensures r.0 < n
  {
    match style
    case DepthFirst => (n - 1, p)
    case Biased(threshold) =>
      DrawRange(words, p + 1, n);
      if words(p) < threshold * TWO_POW_32 then (n - 1, p + 1) else Draw(words, p + 1, n)
    case Frontier =>
      DrawRange(words, p, n);
      Draw(words, p, n)
  }

  /** frontier with those of the cells around added that are neither in the tree nor listed yet. */
  function AddAll(frontier: seq<nat>, around: seq<nat>, tree: set<int>): seq<nat> {
    if around == [] then frontier
    else
      var less, n := AddAll(frontier, around[..|around| - 1], tree), around[|around| - 1];
      if n in tree || n in less then less else less + [n]
  }

  lemma AddOneMore(frontier: seq<nat>, around: seq<nat>, n: nat, tree: set<int>)
    ensures AddAll(frontier, around + [n], tree) ==
            if n in tree || n in AddAll(frontier, around, tree) then AddAll(frontier, around, tree) else AddAll(frontier, around, tree) + [n]
  {
    assert (around + [n])[..|around|] == around;
  }

  /** Of the cells around one, those in the tree. */
  ghost function InTree(g: ChunkGraph, islands: set<int>, cell: nat, tree: set<int>): seq<nat> {
    Kept(Around(g, islands, cell), Land(g, islands) - tree)
  }

  ghost function Started(style: Style, g: ChunkGraph, islands: set<int>, words: Words, p: nat): Run {
    var (first, q) := Picked(words, p, LandCells(g, islands));
    Run(q, {first}, if style.Frontier? then AddAll([], Around(g, islands, first), {first}) else [first], {})
  }

  /** One step: the cell taken is carved on from, or dropped when nothing around it is new; a frontier cell is joined to the tree. */
  ghost function After(style: Style, g: ChunkGraph, islands: set<int>, words: Words, t: Run): Run
    requires t.listed != []
  {
    var (i, q) := Turn(style, words, t.pos, |t.listed|);
    var cell := t.listed[i];
    if style.Frontier? then
      var (partner, q') := Picked(words, q, InTree(g, islands, cell, t.tree));
      var tree := t.tree + {cell};
      Run(q', tree, AddAll(SwapOut(t.listed, i), Around(g, islands, cell), tree), t.open + {NewEdgeKey(cell, partner)})
    else
      var unseen := Kept(Around(g, islands, cell), t.tree);
      if unseen == [] then Run(q, t.tree, SwapOut(t.listed, i), t.open)
      else
        var (next, q') := Picked(words, q, unseen);
        Run(q', t.tree + {next}, t.listed + [next], t.open + {NewEdgeKey(cell, next)})
  }

  /** The faces open once nothing is listed any more, within a number of steps. */
  ghost function RunOn(style: Style, g: ChunkGraph, islands: set<int>, words: Words, t: Run, steps: nat): EdgeSet
    decreases steps
  {
    hide *;
    if t.listed == [] || steps == 0 then t.open else RunOn(style, g, islands, words, After(style, g, islands, words, t), steps - 1)
  }

  /** A cell is listed once and dropped once. */
  function StepsFor(g: ChunkGraph): nat {
    2 * |g.cells|
  }

  /** What an algorithm of the family opens, as a function of the stream. */
  ghost function TreeOf(style: Style, g: ChunkGraph, islands: set<int>, words: Words, p: nat): EdgeSet {
    if LandCells(g, islands) == [] then {}
    else RunOn(style, g, islands, words, Started(style, g, islands, words, p), StepsFor(g))
  }

  lemma RunGoesOn(style: Style, g: ChunkGraph, islands: set<int>, words: Words, t: Run, steps: nat)
    requires t.listed != [] && 0 < steps
    ensures RunOn(style, g, islands, words, t, steps) == RunOn(style, g, islands, words, After(style, g, islands, words, t), steps - 1)
  {
  }

  lemma RunEnds(style: Style, g: ChunkGraph, islands: set<int>, words: Words, t: Run, steps: nat)
    requires t.listed == []
    ensures RunOn(style, g, islands, words, t, steps) == t.open
  {
  }

  lemma TreeIsRun(style: Style, g: ChunkGraph, islands: set<int>, words: Words, p: nat)
    ensures LandCells(g, islands) == [] ==> TreeOf(style, g, islands, words, p) == {}
    ensures LandCells(g, islands) != [] ==>
              TreeOf(style, g, islands, words, p) == RunOn(style, g, islands, words, Started(style, g, islands, words, p), StepsFor(g))
  {
  }

  // ---------- What every run keeps ----------

  /** The frontier lists, without repetition, non-tree cells next to the tree. */
  ghost predicate IsFrontier(g: ChunkGraph, islands: set<int>, tree: set<int>, frontier: seq<nat>) {
    && (forall x, y :: 0 <= x < y < |frontier| ==> frontier[x] != frontier[y])
    && forall c :: c in frontier ==> c !in tree && c in Land(g, islands) && NextTo(g, c, tree)
  }

  ghost predicate NextTo(g: ChunkGraph, c: int, tree: set<int>) {
    0 <= c < |g.cells| && exists n :: n in Neighbors(g, c) && n in tree
  }

  ghost function Listed(list: seq<nat>): (s: set<int>)
    ensures forall c: int :: c in s <==> c in list
  {
    set c: nat | c in list :: c as int
  }

  /** Every non-island neighbour of the tree is in the tree or on the frontier. */
  ghost predicate FrontierComplete(g: ChunkGraph, islands: set<int>, tree: set<int>, frontier: seq<nat>) {
    forall c :: c in tree ==> Closed(g, islands, c, tree + Listed(frontier))
  }

  /** The run's invariant: a tree so far; and only listed cells have anything left to offer. */
  ghost predicate Carving(style: Style, g: ChunkGraph, islands: set<int>, t: Run) {
    && Growing(g, islands, t.open, t.tree)
    && if style.Frontier? then IsFrontier(g, islands, t.tree, t.listed) && FrontierComplete(g, islands, t.tree, t.listed)
       else ClosedBut(g, islands, t.tree, t.listed) && |t.listed| <= |t.tree|
  }

  /** No more steps than this are left. */
  ghost function Left(style: Style, g: ChunkGraph, islands: set<int>, t: Run): nat {
    if style.Frontier? then |Land(g, islands) - t.tree| else 2 * |Land(g, islands) - t.tree| + |t.listed|
  }

  lemma GrowingWithin(g: ChunkGraph, islands: set<int>, open: EdgeSet, visited: set<int>)
    requires Growing(g, islands, open, visited)
    ensures visited <= Land(g, islands)
  {
  }

  lemma ListedAreVisited(g: ChunkGraph, islands: set<int>, visited: set<int>, listed: seq<nat>, c: nat)
    requires ClosedBut(g, islands, visited, listed) && c in listed
    ensures c in visited
  {
  }

  /** A listed cell is the land's own. */
  lemma ListedOnLand(style: Style, g: ChunkGraph, islands: set<int>, t: Run, i: nat)
    requires Carving(style, g, islands, t) && i < |t.listed|
    ensures t.listed[i] in Land(g, islands) && t.listed[i] < |g.cells|
    ensures !style.Frontier? ==> t.listed[i] in t.tree
    ensures style.Frontier? ==> t.listed[i] !in t.tree && NextTo(g, t.listed[i], t.tree)
  {
    var c := t.listed[i];
    assert c in t.listed;
    if !style.Frontier? {
      ListedAreVisited(g, islands, t.tree, t.listed, c);
      GrowingWithin(g, islands, t.open, t.tree);
    }
  }

  lemma ListedBounded(style: Style, g: ChunkGraph, islands: set<int>, t: Run)
    requires Carving(style, g, islands, t)
    ensures |t.listed| <= |g.cells|
  {
    hide Growing, ClosedBut, FrontierComplete, NextTo;
    GrowingWithin(g, islands, t.open, t.tree);
    if style.Frontier? {
      DistinctCount(t.listed, Listed(t.listed));
      SubsetSize(Listed(t.listed), AllCells(g));
    } else {
      SubsetSize(t.tree, AllCells(g));
    }
  }

  lemma {:induction false} DistinctCount(list: seq<nat>, cells: set<int>)
    requires forall c: int :: c in list <==> c in cells
    requires forall x, y :: 0 <= x < y < |list| ==> list[x] != list[y]
    ensures |list| == |cells|
    decreases |list|
  {
    if list == [] {
      forall c: int ensures c !in cells { assert c !in list; }
    } else {
      var rest := list[1..];
      assert list == [list[0]] + rest;
      forall c: int ensures c in rest <==> c in cells - {list[0]} {
        if c == list[0] { assert c !in rest; } else { assert c in rest <==> c in list; }
      }
      DistinctCount(rest, cells - {list[0]});
    }
  }

  lemma CarvingStarts(style: Style, g: ChunkGraph, islands: set<int>, words: Words, p: nat)
    requires IsChunkGraph(g) && LandCells(g, islands) != []
    ensures Carving(style, g, islands, Started(style, g, islands, words, p))
    ensures Left(style, g, islands, Started(style, g, islands, words, p)) <= StepsFor(g)
  {
    hide IsChunkGraph, Growing, ClosedBut, Picked, Around, AddAll, IsFrontier, FrontierComplete;
    var (start, q) := Picked(words, p, LandCells(g, islands));
    var land := Land(g, islands);
    assert start in land;
    GrowStarts(g, islands, start);
    Shrinks(land, {}, start);
    assert land - {} == land && {} + {start as int} == {start};
    SubsetSize(land, AllCells(g));
    if style.Frontier? {
      FirstFrontier(g, islands, start);
    }
  }

  lemma FirstFrontier(g: ChunkGraph, islands: set<int>, start: nat)
    requires IsChunkGraph(g) && start in Land(g, islands)
    ensures var frontier := AddAll([], Around(g, islands, start), {start});
            IsFrontier(g, islands, {start}, frontier) && FrontierComplete(g, islands, {start}, frontier)
  {
    hide IsChunkGraph, IsFrontier, Neighbors, AddAll, Around;
    var around, frontier := Around(g, islands, start), AddAll([], Around(g, islands, start), {start});
    NothingListed(g, islands, {start});
    AddedAreFrontier(g, islands, {start}, [], start, around);
    AroundAre(g, islands, start);
    assert Closed(g, islands, start, {start as int} + Listed(frontier));
  }

  lemma NothingListed(g: ChunkGraph, islands: set<int>, tree: set<int>)
    ensures IsFrontier(g, islands, tree, [])
  {
  }

  /** Adding the cells around a tree cell keeps the frontier one, and leaves each of them in the tree or on it. */
  lemma {:induction false} AddedAreFrontier(g: ChunkGraph, islands: set<int>, tree: set<int>, frontier: seq<nat>, cell: nat, around: seq<nat>)
    requires IsChunkGraph(g) && cell in tree && cell < |g.cells| && IsFrontier(g, islands, tree, frontier)
    requires forall n :: n in around ==> n in Around(g, islands, cell)
    ensures IsFrontier(g, islands, tree, AddAll(frontier, around, tree))
    ensures forall c :: c in frontier ==> c in AddAll(frontier, around, tree)
    ensures forall n :: n in around ==> n in tree || n in AddAll(frontier, around, tree)
    decreases |around|
  {
    hide IsChunkGraph, Neighbors, Around, IsFrontier;
    if around != [] {
      var less, n := around[..|around| - 1], around[|around| - 1];
      assert around == less + [n];
      AddedAreFrontier(g, islands, tree, frontier, cell, less);
      var before := AddAll(frontier, less, tree);
      if n !in tree && n !in before { FrontierGains(g, islands, tree, before, cell, n); }
    }
  }

  lemma FrontierGains(g: ChunkGraph, islands: set<int>, tree: set<int>, frontier: seq<nat>, cell: nat, n: nat)
    requires IsChunkGraph(g) && cell < |g.cells| && cell in tree && n in Around(g, islands, cell)
    requires IsFrontier(g, islands, tree, frontier) && n !in tree && n !in frontier
    ensures IsFrontier(g, islands, tree, frontier + [n])
  {
    hide Neighbors, IsChunkGraph, Around;
    AroundAre(g, islands, cell);
    NeighborsAreAdjacent(g, cell, n);
    assert NextTo(g, n, tree);
    assert forall x :: 0 <= x < |frontier| ==> frontier[x] in frontier;
  }

  /** Every step keeps the invariant and gets nearer the end. */
  lemma StepKeeps(style: Style, g: ChunkGraph, islands: set<int>, words: Words, t: Run)
    requires IsChunkGraph(g) && Carving(style, g, islands, t) && t.listed != []
    ensures Carving(style, g, islands, After(style, g, islands, words, t))
    ensures Left(style, g, islands, After(style, g, islands, words, t)) < Left(style, g, islands, t)
  {
    var (i, q) := Turn(style, words, t.pos, |t.listed|);
    if style.Frontier? {
      JoinKeeps(style, g, islands, words, t, i, q);
    } else if Kept(Around(g, islands, t.listed[i]), t.tree) == [] {
      DropKeeps(style, g, islands, words, t, i, q);
    } else {
      CarveKeeps(style, g, islands, words, t, i, q);
    }
  }

  lemma DropKeeps(style: Style, g: ChunkGraph, islands: set<int>, words: Words, t: Run, i: nat, q: nat)
    requires IsChunkGraph(g) && Carving(style, g, islands, t) && !style.Frontier? && t.listed != []
    requires (i, q) == Turn(style, words, t.pos, |t.listed|) && Kept(Around(g, islands, t.listed[i]), t.tree) == []
    ensures After(style, g, islands, words, t) == Run(q, t.tree, SwapOut(t.listed, i), t.open)
    ensures Carving(style, g, islands, After(style, g, islands, words, t))
    ensures Left(style, g, islands, After(style, g, islands, words, t)) < Left(style, g, islands, t)
  {
    hide IsChunkGraph, Growing, ClosedBut, Turn, Around, Neighbors, SwapOut;
    var cell := t.listed[i];
    ListedOnLand(style, g, islands, t, i);
    SwapRemoved(t.listed, i);
    NothingFresh(g, islands, cell, t.tree);
    ListOneLess(g, islands, t.tree, t.listed, SwapOut(t.listed, i), cell);
  }

  lemma NothingFresh(g: ChunkGraph, islands: set<int>, cell: nat, tree: set<int>)
    requires IsChunkGraph(g) && cell < |g.cells| && Kept(Around(g, islands, cell), tree) == []
    ensures Closed(g, islands, cell, tree)
  {
    hide IsChunkGraph, Neighbors, Around;
    AroundAre(g, islands, cell);
    forall n | n in Neighbors(g, cell) && n !in islands
      ensures n in tree
    {
      assert n in Around(g, islands, cell);
      assert n !in Kept(Around(g, islands, cell), tree);
    }
  }

  lemma CarveKeeps(style: Style, g: ChunkGraph, islands: set<int>, words: Words, t: Run, i: nat, q: nat)
    requires IsChunkGraph(g) && Carving(style, g, islands, t) && !style.Frontier? && t.listed != []
    requires (i, q) == Turn(style, words, t.pos, |t.listed|) && Kept(Around(g, islands, t.listed[i]), t.tree) != []
    ensures var (next, q') := Picked(words, q, Kept(Around(g, islands, t.listed[i]), t.tree));
            After(style, g, islands, words, t) == Run(q', t.tree + {next}, t.listed + [next], t.open + {NewEdgeKey(t.listed[i], next)})
    ensures Carving(style, g, islands, After(style, g, islands, words, t))
    ensures Left(style, g, islands, After(style, g, islands, words, t)) < Left(style, g, islands, t)
  {
    hide IsChunkGraph, Growing, ClosedBut, Turn, Around, Neighbors, Picked;
    var cell := t.listed[i];
    ListedOnLand(style, g, islands, t, i);
    AroundAre(g, islands, cell);
    var (next, q') := Picked(words, q, Kept(Around(g, islands, cell), t.tree));
    GrowStep(g, islands, t.open, t.tree, cell, next);
    ListOneMore(g, islands, t.tree, t.listed, next);
    Shrinks(Land(g, islands), t.tree, next);
  }

  lemma JoinKeeps(style: Style, g: ChunkGraph, islands: set<int>, words: Words, t: Run, i: nat, q: nat)
    requires IsChunkGraph(g) && Carving(style, g, islands, t) && style.Frontier? && t.listed != []
    requires (i, q) == Turn(style, words, t.pos, |t.listed|)
    ensures Carving(style, g, islands, After(style, g, islands, words, t))
    ensures Left(style, g, islands, After(style, g, islands, words, t)) < Left(style, g, islands, t)
  {
    hide IsChunkGraph, Growing, Turn, Around, Neighbors, Picked, SwapOut, InTree, IsFrontier, FrontierComplete, AddAll;
    var cell := t.listed[i];
    ListedOnLand(style, g, islands, t, i);
    GrowingWithin(g, islands, t.open, t.tree);
    TreeNeighbors(g, islands, cell, t.tree);
    var (partner, q') := Picked(words, q, InTree(g, islands, cell, t.tree));
    JoinGrows(g, islands, t.open, t.tree, cell, partner);
    FrontierLoses(g, islands, t.tree, t.listed, i);
    var tree, fewer, around := t.tree + {cell}, SwapOut(t.listed, i), Around(g, islands, cell);
    AddedAreFrontier(g, islands, tree, fewer, cell, around);
    AroundAre(g, islands, cell);
    FrontierStaysComplete(g, islands, t.tree, cell, t.listed, fewer, AddAll(fewer, around, tree));
    Shrinks(Land(g, islands), t.tree, cell);
  }

  /** A frontier cell has a neighbour in the tree. */
  lemma TreeNeighbors(g: ChunkGraph, islands: set<int>, cell: nat, tree: set<int>)
    requires IsChunkGraph(g) && NextTo(g, cell, tree) && tree <= Land(g, islands)
    ensures InTree(g, islands, cell, tree) != [] && |InTree(g, islands, cell, tree)| <= 6
    ensures forall n :: n in InTree(g, islands, cell, tree) ==> n in Neighbors(g, cell) && n in tree
  {
    hide Neighbors, IsChunkGraph, Around;
    AroundAre(g, islands, cell);
    var n :| n in Neighbors(g, cell) && n in tree;
    assert n in InTree(g, islands, cell, tree);
  }

  lemma JoinGrows(g: ChunkGraph, islands: set<int>, open: EdgeSet, inTree: set<int>, cell: int, partner: int)
    requires IsChunkGraph(g) && Growing(g, islands, open, inTree) && inTree <= Land(g, islands)
    requires cell in Land(g, islands) && cell !in inTree && partner in inTree && partner in Neighbors(g, cell)
    ensures Growing(g, islands, open + {NewEdgeKey(cell, partner)}, inTree + {cell})
  {
    hide Neighbors, IsChunkGraph, Growing;
    NeighborsAreAdjacent(g, cell, partner);
    GrowStep(g, islands, open, inTree, partner, cell);
    assert NewEdgeKey(cell, partner) == NewEdgeKey(partner, cell);
  }

  lemma FrontierLoses(g: ChunkGraph, islands: set<int>, tree: set<int>, frontier: seq<nat>, i: nat)
    requires IsFrontier(g, islands, tree, frontier) && i < |frontier|
    ensures IsFrontier(g, islands, tree + {frontier[i]}, SwapOut(frontier, i))
    ensures forall c :: c in frontier && c != frontier[i] ==> c in SwapOut(frontier, i)
  {
    hide SwapOut;
    SwapRemoved(frontier, i);
    forall c | c in frontier
      ensures NextTo(g, c, tree + {frontier[i]})
    {
      assert NextTo(g, c, tree);
    }
  }

  lemma FrontierStaysComplete(g: ChunkGraph, islands: set<int>, tree: set<int>, cell: nat, frontier: seq<nat>, fewer: seq<nat>, after: seq<nat>)
    requires cell < |g.cells| && FrontierComplete(g, islands, tree, frontier)
    requires forall c :: c in frontier && c != cell ==> c in fewer
    requires forall c :: c in fewer ==> c in after
    requires forall n :: n in Around(g, islands, cell) ==> n in tree + {cell} || n in after
    requires forall n :: n in Around(g, islands, cell) <==> n in Neighbors(g, cell) && n !in islands
    ensures FrontierComplete(g, islands, tree + {cell}, after)
  {
    hide Neighbors, Around;
    forall c | c in tree + {cell}
      ensures Closed(g, islands, c, tree + {cell} + Listed(after))
    {
      if c != cell { assert Closed(g, islands, c, tree + Listed(frontier)); }
    }
  }

  /** With nothing listed the tree has reached every cell. */
  lemma CarvingEnds(style: Style, g: ChunkGraph, islands: set<int>, t: Run)
    requires IsChunkGraph(g) && LandConnected(g, islands) && Carving(style, g, islands, t) && t.listed == []
    ensures Spans(g, islands, t.open)
  {
    hide IsChunkGraph, LandConnected, Growing, Spans, IsFrontier, Closed;
    if style.Frontier? {
      assert t.tree + Listed([]) == t.tree;
      assert ClosedBut(g, islands, t.tree, []);
    }
    GrownSpans(g, islands, t.open, t.tree);
  }

  lemma {:induction false} RunSpans(style: Style, g: ChunkGraph, islands: set<int>, words: Words, t: Run, steps: nat)
    requires IsChunkGraph(g) && LandConnected(g, islands)
    requires Carving(style, g, islands, t) && Left(style, g, islands, t) <= steps
    ensures Spans(g, islands, RunOn(style, g, islands, words, t, steps))
    decreases steps
  {
    hide *;
    if t.listed == [] {
      RunEnds(style, g, islands, words, t, steps);
      CarvingEnds(style, g, islands, t);
    } else {
      StepKeeps(style, g, islands, words, t);
      RunGoesOn(style, g, islands, words, t, steps);
      RunSpans(style, g, islands, words, After(style, g, islands, words, t), steps - 1);
    }
  }

  lemma NoLand(g: ChunkGraph, islands: set<int>)
    requires LandCells(g, islands) == []
    ensures Land(g, islands) == {} && Spans(g, islands, {})
  {
    assert forall v :: v in Land(g, islands) ==> v in LandCells(g, islands);
  }

  /** On any stream whatever each of these algorithms opens a spanning tree of a connected land. */
  lemma TreeSpans(style: Style, g: ChunkGraph, islands: set<int>, words: Words, p: nat)
    requires IsChunkGraph(g) && LandConnected(g, islands)
    ensures Spans(g, islands, TreeOf(style, g, islands, words, p))
  {
    hide *;
    TreeIsRun(style, g, islands, words, p);
    if LandCells(g, islands) == [] {
      NoLand(g, islands);
    } else {
      CarvingStarts(style, g, islands, words, p);
      RunSpans(style, g, islands, words, Started(style, g, islands, words, p), StepsFor(g));
    }
  }

  // ---------- How the growing algorithms differ ----------

  /** The run after a number of steps. */
  ghost function RunAfter(style: Style, g: ChunkGraph, islands: set<int>, words: Words, t: Run, n: nat): Run
    decreases n
  {
    hide *;
    if n == 0 || t.listed == [] then t else RunAfter(style, g, islands, words, After(style, g, islands, words, t), n - 1)
  }

  /** Each listed cell is joined to the one listed before it. */
  ghost predicate IsTrail(t: Run) {
    forall k :: 0 < k < |t.listed| ==> Has(t.open, t.listed[k - 1], t.listed[k])
  }

  /** Always the newest listed cell: the backtracker, or the growing tree at the threshold of a certain coin. */
  ghost predicate AlwaysNewest(style: Style) {
    style.DepthFirst? || (style.Biased? && 4294967296 <= style.threshold)
  }

  lemma TrailStep(style: Style, g: ChunkGraph, islands: set<int>, words: Words, t: Run)
    requires AlwaysNewest(style) && t.listed != [] && IsTrail(t)
    ensures IsTrail(After(style, g, islands, words, t))
  {
    hide Picked, Kept, Around;
    var n := |t.listed|;
    assert Turn(style, words, t.pos, n).0 == n - 1;
    LastOut(t.listed);
  }

  /**
   Depth first: at every step of the backtracker, and of the growing tree when its
   coin is certain, the cells listed are a trail of open faces from the first cell
   to the one being carved from.
   */
  lemma {:induction false} NewestKeepsTrail(style: Style, g: ChunkGraph, islands: set<int>, words: Words, t: Run, n: nat)
    requires AlwaysNewest(style) && IsTrail(t)
    ensures IsTrail(RunAfter(style, g, islands, words, t, n))
    decreases n
  {
    hide IsTrail, After;
    if n > 0 && t.listed != [] {
      TrailStep(style, g, islands, words, t);
      NewestKeepsTrail(style, g, islands, words, After(style, g, islands, words, t), n - 1);
    }
  }

  lemma StartIsTrail(style: Style, g: ChunkGraph, islands: set<int>, words: Words, p: nat)
    requires !style.Frontier?
    ensures IsTrail(Started(style, g, islands, words, p))
  {
    hide Picked;
  }

  /**
   The family's two ends: with a certain coin the growing tree's step is the
   backtracker's, one word of the stream later; with an impossible one it takes a
   random listed cell, whichever was listed last, and every listed cell is some
   stream's choice.
   */
  lemma GrowingTreeAtItsEnds(g: ChunkGraph, islands: set<int>, words: Words, t: Run, i: nat)
    requires t.listed != [] && |t.listed| <= MAX_UINT64 && i < |t.listed|
    ensures After(Biased(4294967296), g, islands, words, t) == After(DepthFirst, g, islands, words, t.(pos := t.pos + 1))
    ensures Turn(Biased(0), words, t.pos, |t.listed|) == Draw(words, t.pos + 1, |t.listed|)
    ensures Turn(Biased(0), Always(i), t.pos, |t.listed|).0 == i && Turn(Frontier, Always(i), t.pos, |t.listed|).0 == i
  {
    hide Picked, Kept, Around, Draw;
    var n := |t.listed|;
    assert Turn(Biased(4294967296), words, t.pos, n) == (n - 1, t.pos + 1) by { CertainCoin(words, t.pos, n); }
    if 1 < n {
      SmallValueDrawn(Always(i), t.pos, n);
      SmallValueDrawn(Always(i), t.pos + 1, n);
    } else {
      DrawRange(Always(i), t.pos, n);
      DrawRange(Always(i), t.pos + 1, n);
    }
  }

  lemma CertainCoin(words: Words, p: nat, n: nat)
    requires 0 < n
    ensures Turn(Biased(4294967296), words, p, n) == (n - 1, p + 1)
  {
    hide Draw;
  }

  // ---------- The algorithms ----------

  /** The non-island neighbours of cell not yet visited. */
  method Unvisited(g: ChunkGraph, islands: set<int>, cell: nat, visited: set<int>) returns (out: seq<nat>)
    requires IsChunkGraph(g) && cell < |g.cells|
    ensures out == Kept(Around(g, islands, cell), visited) && |out| <= 6
  {
    var around := NonIslandNeighbors(g, islands, cell);
    out := Without(around, visited);
  }

  /** buildBacktracker: depth-first carving over an explicit stack. */
  method BuildBacktracker(g: ChunkGraph, islands: set<int>, s: Stream) returns (open: EdgeSet)
    requires IsChunkGraph(g) && Countable(g) && LandConnected(g, islands) && Fair(s.words)
    modifies s
    ensures open == TreeOf(DepthFirst, g, islands, s.words, old(s.pos))
    ensures Spans(g, islands, open)
  {
    hide *;
    CountableCells(g);
    TreeSpans(DepthFirst, g, islands, s.words, s.pos);
    TreeIsRun(DepthFirst, g, islands, s.words, s.pos);
    ghost var tree := TreeOf(DepthFirst, g, islands, s.words, s.pos);
    open := {};
    var nonIsland := NonIslandCells(g, islands);
    if |nonIsland| == 0 {
      return;
    }
    ghost var t, steps := Started(DepthFirst, g, islands, s.words, s.pos), StepsFor(g);
    CarvingStarts(DepthFirst, g, islands, s.words, s.pos);
    StartedListed(DepthFirst, g, islands, s.words, s.pos);
    var start := PickOne(s, nonIsland);
    var visited: set<int> := {start};
    var stack: seq<nat> := [start];
    while |stack| > 0
      invariant t == Run(s.pos, visited, stack, open)
      invariant Carving(DepthFirst, g, islands, t) && Left(DepthFirst, g, islands, t) <= steps
      invariant RunOn(DepthFirst, g, islands, s.words, t, steps) == tree
      decreases steps
    {
      ghost var i := |stack| - 1;
      NewestTurn(s.words, s.pos, |stack|);
      ListedOnLand(DepthFirst, g, islands, t, i);
      StepKeeps(DepthFirst, g, islands, s.words, t);
      RunGoesOn(DepthFirst, g, islands, s.words, t, steps);
      var cur := stack[|stack| - 1];
      var unvisited := Unvisited(g, islands, cur, visited);
      t, steps := After(DepthFirst, g, islands, s.words, t), steps - 1;
      if |unvisited| == 0 {
        DropKeeps(DepthFirst, g, islands, s.words, Run(s.pos, visited, stack, open), i, s.pos);
        LastOut(stack);
        stack := stack[..|stack| - 1];
      } else {
        CarveKeeps(DepthFirst, g, islands, s.words, Run(s.pos, visited, stack, open), i, s.pos);
        var next := PickOne(s, unvisited);
        visited := visited + {next};
        open := open + {NewEdgeKey(cur, next)};
        stack := stack + [next];
      }
    }
    RunEnds(DepthFirst, g, islands, s.words, t, steps);
  }

  lemma NewestTurn(words: Words, p: nat, n: nat)
    requires 0 < n
    ensures Turn(DepthFirst, words, p, n) == (n - 1, p)
  {
  }

  lemma StartedListed(style: Style, g: ChunkGraph, islands: set<int>, words: Words, p: nat)
    ensures var (first, q) := Picked(words, p, LandCells(g, islands));
            Started(style, g, islands, words, p) ==
            Run(q, {first}, if style.Frontier? then AddAll([], Around(g, islands, first), {first}) else [first], {})
  {
  }

  /** buildGrowingTree: carves from the newest or a random active cell. */
  method BuildGrowingTree(g: ChunkGraph, islands: set<int>, s: Stream, biasThresh: nat) returns (open: EdgeSet)
    requires IsChunkGraph(g) && Countable(g) && LandConnected(g, islands) && Fair(s.words)
    modifies s
    ensures open == TreeOf(Biased(biasThresh), g, islands, s.words, old(s.pos))
    ensures Spans(g, islands, open)
  {
    hide *;
    CountableCells(g);
    ghost var style := Biased(biasThresh);
    TreeSpans(style, g, islands, s.words, s.pos);
    TreeIsRun(style, g, islands, s.words, s.pos);
    ghost var tree := TreeOf(style, g, islands, s.words, s.pos);
    open := {};
    var nonIsland := NonIslandCells(g, islands);
    if |nonIsland| == 0 {
      return;
    }
    ghost var t, steps := Started(style, g, islands, s.words, s.pos), StepsFor(g);
    CarvingStarts(style, g, islands, s.words, s.pos);
    StartedListed(style, g, islands, s.words, s.pos);
    var start := PickOne(s, nonIsland);
    var visited: set<int> := {start};
    var active: seq<nat> := [start];
    while |active| > 0
      invariant t == Run(s.pos, visited, active, open)
      invariant Carving(style, g, islands, t) && Left(style, g, islands, t) <= steps
      invariant RunOn(style, g, islands, s.words, t, steps) == tree
      decreases steps
    {
      StepKeeps(style, g, islands, s.words, t);
      RunGoesOn(style, g, islands, s.words, t, steps);
      ListedBounded(style, g, islands, t);
      t, steps := After(style, g, islands, s.words, t), steps - 1;
      ghost var before := Run(s.pos, visited, active, open);
      var idx := ChooseActive(s, biasThresh, |active|);
      ListedOnLand(style, g, islands, before, idx);
      var cell := active[idx];
      var candidates := Unvisited(g, islands, cell, visited);
      if |candidates| == 0 {
        DropKeeps(style, g, islands, s.words, before, idx, s.pos);
        SwapOutIs(active, idx);
        active := active[idx := active[|active| - 1]];
        active := active[..|active| - 1];
      } else {
        CarveKeeps(style, g, islands, s.words, before, idx, s.pos);
        var next := PickOne(s, candidates);
        visited := visited + {next};
        open := open + {NewEdgeKey(cell, next)};
        active := active + [next];
      }
    }
    RunEnds(style, g, islands, s.words, t, steps);
  }

  lemma SwapOutIs(list: seq<nat>, i: nat)
    requires i < |list|
    ensures SwapOut(list, i) == list[i := list[|list| - 1]][..|list| - 1]
  {
  }

  /** The newest active cell's index, or a random one's, by the biased coin. */
  method ChooseActive(s: Stream, biasThresh: nat, n: nat) returns (idx: nat)
    requires 0 < n <= MAX_UINT64 && Fair(s.words)
    modifies s
    ensures idx < n && (idx, s.pos) == Turn(Biased(biasThresh), s.words, old(s.pos), n)
  {
    hide Fair, Draw;
    var newest := BiasedNewest(s, biasThresh);
    if newest {
      idx := n - 1;
    } else {
      idx := BoundedDraw(s, n);
    }
  }

  /** buildFrontierPrim: joins random frontier cells to the tree. */
  method BuildFrontierPrim(g: ChunkGraph, islands: set<int>, s: Stream) returns (open: EdgeSet)
    requires IsChunkGraph(g) && Countable(g) && LandConnected(g, islands) && Fair(s.words)
    modifies s
    ensures open == TreeOf(Frontier, g, islands, s.words, old(s.pos))
    ensures Spans(g, islands, open)
  {
    hide *;
    CountableCells(g);
    TreeSpans(Frontier, g, islands, s.words, s.pos);
    TreeIsRun(Frontier, g, islands, s.words, s.pos);
    ghost var grown := TreeOf(Frontier, g, islands, s.words, s.pos);
    open := {};
    var nonIsland := NonIslandCells(g, islands);
    if |nonIsland| == 0 {
      return;
    }
    ghost var t, steps := Started(Frontier, g, islands, s.words, s.pos), StepsFor(g);
    CarvingStarts(Frontier, g, islands, s.words, s.pos);
    StartedListed(Frontier, g, islands, s.words, s.pos);
    var start := PickOne(s, nonIsland);
    LandInRange(g, islands, start);
    var inTree: set<int> := {start};
    var frontier, frontierSet := AddFrontier(g, islands, start, inTree, [], {});
    while |frontier| > 0
      invariant t == Run(s.pos, inTree, frontier, open) && forall c: int :: c in frontierSet <==> c in frontier
      invariant Carving(Frontier, g, islands, t) && Left(Frontier, g, islands, t) <= steps
      invariant RunOn(Frontier, g, islands, s.words, t, steps) == grown
      decreases steps
    {
      StepKeeps(Frontier, g, islands, s.words, t);
      RunGoesOn(Frontier, g, islands, s.words, t, steps);
      ListedBounded(Frontier, g, islands, t);
      FrontierAfter(g, islands, s.words, t);
      ghost var before := t;
      t, steps := After(Frontier, g, islands, s.words, t), steps - 1;
      var i := BoundedDraw(s, |frontier|);
      ListedOnLand(Frontier, g, islands, before, i);
      FrontierDistinct(Frontier, g, islands, before, i);
      TreeOnLand(Frontier, g, islands, before);
      var cell := frontier[i];
      SwapOutIs(frontier, i);
      frontier := frontier[i := frontier[|frontier| - 1]];
      frontier := frontier[..|frontier| - 1];
      frontierSet := frontierSet - {cell};
      var treeNeighbors := FindTreeNeighbors(g, islands, cell, inTree);
      var partner := PickOne(s, treeNeighbors);
      open := open + {NewEdgeKey(cell, partner)};
      inTree := inTree + {cell};
      frontier, frontierSet := AddFrontier(g, islands, cell, inTree, frontier, frontierSet);
    }
    RunEnds(Frontier, g, islands, s.words, t, steps);
  }

  lemma LandInRange(g: ChunkGraph, islands: set<int>, c: int)
    requires c in Land(g, islands)
    ensures 0 <= c < |g.cells|
  {
  }

  lemma TreeOnLand(style: Style, g: ChunkGraph, islands: set<int>, t: Run)
    requires Carving(style, g, islands, t)
    ensures t.tree <= Land(g, islands)
  {
    GrowingWithin(g, islands, t.open, t.tree);
  }

  lemma FrontierDistinct(style: Style, g: ChunkGraph, islands: set<int>, t: Run, i: nat)
    requires Carving(style, g, islands, t) && style.Frontier? && i < |t.listed|
    ensures forall c: int :: c in SwapOut(t.listed, i) <==> c in t.listed && c != t.listed[i]
  {
    SwapRemoved(t.listed, i);
  }

  lemma FrontierAfter(g: ChunkGraph, islands: set<int>, words: Words, t: Run)
    requires t.listed != []
    ensures var (i, q) := Draw(words, t.pos, |t.listed|);
            && 0 <= i < |t.listed|
            && var cell := t.listed[i];
               var (partner, q') := Picked(words, q, InTree(g, islands, cell, t.tree));
               After(Frontier, g, islands, words, t) ==
               Run(q', t.tree + {cell}, AddAll(SwapOut(t.listed, i), Around(g, islands, cell), t.tree + {cell}), t.open + {NewEdgeKey(cell, partner)})
  {
    DrawRange(words, t.pos, |t.listed|);
  }

  /** Puts cell's unseen non-island neighbours on the frontier. */
  method AddFrontier(g: ChunkGraph, islands: set<int>, cell: nat, inTree: set<int>, frontier0: seq<nat>, frontierSet0: set<int>)
    returns (frontier: seq<nat>, frontierSet: set<int>)
    requires IsChunkGraph(g) && cell < |g.cells| && forall c: int :: c in frontierSet0 <==> c in frontier0
    ensures frontier == AddAll(frontier0, Around(g, islands, cell), inTree)
    ensures forall c: int :: c in frontierSet <==> c in frontier
  {
    hide Neighbors, IsChunkGraph, Around;
    frontier, frontierSet := frontier0, frontierSet0;
    var around := NonIslandNeighbors(g, islands, cell);
    for i := 0 to |around|
      invariant frontier == AddAll(frontier0, around[..i], inTree)
      invariant forall c: int :: c in frontierSet <==> c in frontier
    {
      var n := around[i];
      assert around[..i + 1] == around[..i] + [n];
      AddOneMore(frontier0, around[..i], n, inTree);
      if n !in inTree && n !in frontierSet {
        frontierSet := frontierSet + {n};
        frontier := frontier + [n];
      }
    }
    assert around[..|around|] == around;
  }

  /** The neighbours of a frontier cell that are in the tree; there is one. */
  method FindTreeNeighbors(g: ChunkGraph, islands: set<int>, cell: nat, inTree: set<int>) returns (found: seq<nat>)
    requires IsChunkGraph(g) && NextTo(g, cell, inTree) && inTree <= Land(g, islands) && cell < |g.cells|
    ensures found == InTree(g, islands, cell, inTree) && 0 < |found| <= 6
  {
    TreeNeighbors(g, islands, cell, inTree);
    InTreeIs(g, islands, cell, inTree);
    hide *;
    var around := NonIslandNeighbors(g, islands, cell);
    found := Within(around, inTree, Land(g, islands) - inTree);
  }

  /** The entries in a set, in order; drop holds the others. */
  method Within(cells: seq<nat>, keep: set<int>, ghost drop: set<int>) returns (out: seq<nat>)
    requires forall c :: c in cells ==> (c in keep <==> c !in drop)
    ensures out == Kept(cells, drop)
  {
    out := [];
    for i := 0 to |cells|
      invariant out == Kept(cells[..i], drop)
    {
      assert cells[..i + 1] == cells[..i] + [cells[i]];
      KeptMore(cells[..i], cells[i], drop);
      if cells[i] in keep {
        out := out + [cells[i]];
      }
    }
    assert cells[..|cells|] == cells;
  }

  lemma InTreeIs(g: ChunkGraph, islands: set<int>, cell: nat, tree: set<int>)
    ensures InTree(g, islands, cell, tree) == Kept(Around(g, islands, cell), Land(g, islands) - tree)
  {
  }
}
