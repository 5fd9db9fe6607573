/** Island selection behind a connectivity guard, and the interior's extra passages. */
module Islands {
  import opened GoInt
  import opened HexGrid
  import opened Lattices
  import opened LocalCells
  import opened Draws
  import opened SortedSeq
  import opened Graphs
  import opened ChunkGraphs
  import opened Spanning
  import opened Kruskal
  import opened Wilson
  import opened Params

  /** What the guard's flood fill has found so far. */
  ghost predicate Flooded(g: ChunkGraph, islands: set<int>, start: int, visited: set<int>) {
    && visited <= Land(g, islands) && start in visited
    && forall v :: v in visited ==> Linked(LandEdges(g, islands), start, v)
  }

  lemma FloodStep(g: ChunkGraph, islands: set<int>, start: int, visited: set<int>, cur: int, n: int)
    requires IsChunkGraph(g) && Flooded(g, islands, start, visited)
    requires cur in visited && n in Neighbors(g, cur) && n in Land(g, islands)
    ensures Flooded(g, islands, start, visited + {n})
  {
    hide Neighbors, IsChunkGraph;
    var e := LandEdges(g, islands);
    GraphEdgesHas(g, Land(g, islands), cur, n);
    LinkedByEdge(e, cur, n);
    LinkedThrough(e, start, cur, n);
  }

  /** The fill has reached as many cells as there are exactly when the land is connected. */
  lemma FloodDecides(g: ChunkGraph, islands: set<int>, start: int, visited: set<int>)
    requires IsChunkGraph(g) && islands <= AllCells(g)
    requires Flooded(g, islands, start, visited) && ClosedBut(g, islands, visited, [])
    ensures |visited| == |g.cells| - |islands| <==> LandConnected(g, islands)
  {
    hide Neighbors, IsChunkGraph;
    var land, e := Land(g, islands), LandEdges(g, islands);
    assert AllCells(g) == land + islands;
    if |visited| == |land| {
      SameSizeSubset(visited, land);
      forall u, v | u in land && v in land
        ensures Linked(e, u, v)
      {
        LinkedBack(e, start, u);
        LinkedThrough(e, u, start, v);
      }
    }
    if LandConnected(g, islands) {
      forall x, y | x in visited && Has(e, x, y)
        ensures y in visited
      {
        GraphEdgesHas(g, land, x, y);
        assert Closed(g, islands, x, visited);
      }
      ClosedIsAll(e, land, visited, start);
    }
  }

  lemma SameSizeSubset(a: set<int>, b: set<int>)
    requires a <= b && |a| == |b|
    ensures a == b
  {
    assert b == a + (b - a);
  }

  /** connectedOverInduced: a stack-based flood fill over interior adjacency. */
  method ConnectedOverInduced(g: ChunkGraph, islands: set<int>, start: nat) returns (connected: bool)
    requires IsChunkGraph(g) && islands <= AllCells(g) && start in Land(g, islands)
    ensures connected <==> LandConnected(g, islands)
  {
    hide Neighbors, IsChunkGraph, LandConnected, Flooded, ClosedBut;
    var visited: set<int> := {start};
    var stack: seq<nat> := [start];
    FloodStarts(g, islands, start);
    ghost var land := Land(g, islands);
    while |stack| > 0
      invariant visited <= land && Flooded(g, islands, start, visited)
      invariant ClosedBut(g, islands, visited, stack)
      decreases |land - visited|, |stack|
    {
      var cur := stack[|stack| - 1];
      ListedAreVisited(g, islands, visited, stack, cur);
      ghost var before := visited;
      visited, stack := FloodFrom(g, islands, start, cur, visited, stack);
      SubsetSize(land - visited, land - before);
      if |visited| == |before| { SameSizeSubset(before, visited); } else { SubsetSize(before, visited); FewerLeft(land, before, visited); }
    }
    FloodDecides(g, islands, start, visited);
    connected := |visited| == |g.cells| - |islands|;
  }

  lemma FewerLeft(land: set<int>, before: set<int>, after: set<int>)
    requires before <= after <= land && |before| < |after|
    ensures |land - after| < |land - before|
  {
    assert land == before + (land - before) == after + (land - after);
  }

  lemma FloodStarts(g: ChunkGraph, islands: set<int>, start: nat)
    requires start in Land(g, islands)
    ensures Flooded(g, islands, start, {start}) && ClosedBut(g, islands, {start}, [start])
  {
    LinkedSelf(LandEdges(g, islands), start);
  }

  /** Mid-expansion of cur: the fill's invariants, with cur still owed its neighbours from the i-th on. */
  ghost predicate Expanding(g: ChunkGraph, islands: set<int>, start: int, visited: set<int>, stack: seq<nat>, cur: nat, i: nat) {
    && cur < |g.cells| && i <= |Neighbors(g, cur)|
    && Flooded(g, islands, start, visited) && ClosedBut(g, islands, visited, [cur] + stack)
    && forall k :: 0 <= k < i && Neighbors(g, cur)[k] !in islands ==> Neighbors(g, cur)[k] in visited
  }

  /** Takes cur off the stack and pushes its unvisited non-island neighbours. */
  method FloodFrom(g: ChunkGraph, islands: set<int>, ghost start: nat, cur: nat, visited0: set<int>, stack0: seq<nat>)
    returns (visited: set<int>, stack: seq<nat>)
    requires IsChunkGraph(g) && Flooded(g, islands, start, visited0) && ClosedBut(g, islands, visited0, stack0)
    requires 0 < |stack0| && cur == stack0[|stack0| - 1] && cur < |g.cells|
    ensures Flooded(g, islands, start, visited) && ClosedBut(g, islands, visited, stack)
    ensures visited0 <= visited <= Land(g, islands)
    ensures visited == visited0 ==> |stack| < |stack0|
  {
    hide *;
    visited, stack := visited0, stack0[..|stack0| - 1];
    var around := Neighbors(g, cur);
    ExpandStarts(g, islands, start, visited, stack0, stack, cur);
    for i := 0 to |around|
      invariant visited0 <= visited
      invariant Expanding(g, islands, start, visited, stack, cur, i)
      invariant visited == visited0 ==> |stack| < |stack0|
    {
      var n := around[i];
      if n in islands || n in visited {
        ExpandSkip(g, islands, start, visited, stack, cur, i);
        continue;
      }
      ExpandPush(g, islands, start, visited, stack, cur, i);
      visited := visited + {n};
      stack := stack + [n];
    }
    ExpandEnds(g, islands, start, visited, stack, cur);
  }

  lemma ExpandStarts(g: ChunkGraph, islands: set<int>, start: int, visited: set<int>, stack0: seq<nat>, stack: seq<nat>, cur: nat)
    requires cur < |g.cells| && Flooded(g, islands, start, visited) && ClosedBut(g, islands, visited, stack0)
    requires 0 < |stack0| && cur == stack0[|stack0| - 1] && stack == stack0[..|stack0| - 1]
    ensures Expanding(g, islands, start, visited, stack, cur, 0)
  {
    hide Neighbors, Flooded;
    assert stack0 == stack + [cur];
  }

  lemma ExpandSkip(g: ChunkGraph, islands: set<int>, start: int, visited: set<int>, stack: seq<nat>, cur: nat, i: nat)
    requires Expanding(g, islands, start, visited, stack, cur, i) && i < |Neighbors(g, cur)|
    requires Neighbors(g, cur)[i] in islands || Neighbors(g, cur)[i] in visited
    ensures Expanding(g, islands, start, visited, stack, cur, i + 1)
  {
    hide Neighbors, Flooded, ClosedBut;
  }

  lemma NeighborAt(g: ChunkGraph, cur: nat, i: nat)
    requires IsChunkGraph(g) && cur < |g.cells| && i < |Neighbors(g, cur)|
    ensures Neighbors(g, cur)[i] in Neighbors(g, cur) && Neighbors(g, cur)[i] < |g.cells|
  {
    NeighborsInRange(g, cur, 0);
    assert Neighbors(g, cur)[i] in Neighbors(g, cur);
  }

  lemma ExpandPush(g: ChunkGraph, islands: set<int>, start: int, visited: set<int>, stack: seq<nat>, cur: nat, i: nat)
    requires IsChunkGraph(g) && Expanding(g, islands, start, visited, stack, cur, i) && i < |Neighbors(g, cur)|
    requires Neighbors(g, cur)[i] !in islands
    ensures Expanding(g, islands, start, visited + {Neighbors(g, cur)[i]}, stack + [Neighbors(g, cur)[i]], cur, i + 1)
  {
    hide Neighbors, IsChunkGraph, Flooded, ClosedBut;
    var n := Neighbors(g, cur)[i];
    NeighborAt(g, cur, i);
    assert n in Land(g, islands);
    ListedAreVisited(g, islands, visited, [cur] + stack, cur);
    FloodStep(g, islands, start, visited, cur, n);
    ListOneMore(g, islands, visited, [cur] + stack, n);
    assert ([cur] + stack) + [n] == [cur] + (stack + [n]);
  }

  lemma ExpandEnds(g: ChunkGraph, islands: set<int>, start: int, visited: set<int>, stack: seq<nat>, cur: nat)
    requires cur < |g.cells| && IsChunkGraph(g) && Expanding(g, islands, start, visited, stack, cur, |Neighbors(g, cur)|)
    ensures Flooded(g, islands, start, visited) && ClosedBut(g, islands, visited, stack)
    ensures visited <= Land(g, islands)
  {
    FloodedWithin(g, islands, start, visited);
    hide Neighbors, IsChunkGraph, Flooded, ClosedBut;
    assert Closed(g, islands, cur, visited);
    ListOneLess(g, islands, visited, [cur] + stack, stack, cur);
  }

  lemma FloodedWithin(g: ChunkGraph, islands: set<int>, start: nat, visited: set<int>)
    requires Flooded(g, islands, start, visited)
    ensures visited <= Land(g, islands)
  {
  }

  /** The cells the island draw may take: off the border, and off a gate chunk's centre. */
  predicate MayBeIsland(g: ChunkGraph, typ: ChunkType, idx: int) {
    0 <= idx < |g.cells| && !IsBorderCell(g, idx) && !(typ.Gate? && g.cells[idx] == ORIGIN)
  }

  /** What every island set is. */
  ghost predicate IslandsOk(g: ChunkGraph, typ: ChunkType, target: int, islands: set<int>) {
    && (forall v :: v in islands ==> MayBeIsland(g, typ, v))
    && (islands != {} ==> |islands| <= target)
    && LandConnected(g, islands)
  }

  /** The cells below n that may be islands, in index order. */
  function CandidatesBelow(g: ChunkGraph, typ: ChunkType, n: nat): (r: seq<nat>)
    ensures |r| <= n
  {
    if n == 0 then [] else CandidatesBelow(g, typ, n - 1) + if MayBeIsland(g, typ, n - 1) then [n - 1] else []
  }

  lemma {:induction false} CandidatesAre(g: ChunkGraph, typ: ChunkType, n: nat, c: int)
    ensures c in CandidatesBelow(g, typ, n) <==> 0 <= c < n && MayBeIsland(g, typ, c)
  {
    hide MayBeIsland;
    if n > 0 { CandidatesAre(g, typ, n - 1, c); }
  }

  /** The candidates before the i-th that are kept: each in turn, while short of the target, if the land stays connected without it. */
  ghost function KeptIslands(g: ChunkGraph, order: seq<nat>, target: int, i: nat): (r: set<int>)
    requires i <= |order|
    ensures forall c :: c in r ==> c in order
  {
    if i == 0 then {}
    else
      var before := KeptIslands(g, order, target, i - 1);
      if |before| < target && LandConnected(g, before + {order[i - 1]}) then before + {order[i - 1]} else before
  }

  /** Once the target is reached nothing more is kept. */
  lemma {:induction false} KeptAtTarget(g: ChunkGraph, order: seq<nat>, target: int, i: nat, j: nat)
    requires i <= j <= |order| && target <= |KeptIslands(g, order, target, i)|
    ensures KeptIslands(g, order, target, j) == KeptIslands(g, order, target, i)
    decreases j
  {
    hide *;
    if i < j {
      KeptAtTarget(g, order, target, i, j - 1);
      OneMoreTried(g, order, target, j - 1);
    }
  }

  /**
   What the draw leaves: never above the target; and a candidate left out, unless
   the target was reached, is one whose removal would have cut the land in two.
   */
  lemma {:induction false} IslandsLeftOut(g: ChunkGraph, order: seq<nat>, target: int, k: nat)
    requires 0 <= target && k < |order| && order[k] !in KeptIslands(g, order, target, |order|)
    ensures |KeptIslands(g, order, target, |order|)| <= target
    ensures |KeptIslands(g, order, target, |order|)| == target || !LandConnected(g, KeptIslands(g, order, target, k) + {order[k]})
  {
    hide LandConnected;
    OneMoreTried(g, order, target, k);
    hide KeptIslands;
    KeptBounded(g, order, target, |order|);
    KeptGrows(g, order, target, k + 1, |order|);
    if |KeptIslands(g, order, target, k)| >= target {
      KeptAtTarget(g, order, target, k, |order|);
    }
  }

  lemma {:induction false} KeptBounded(g: ChunkGraph, order: seq<nat>, target: int, i: nat)
    requires 0 <= target && i <= |order|
    ensures |KeptIslands(g, order, target, i)| <= target
  {
    if i > 0 { KeptBounded(g, order, target, i - 1); }
  }

  lemma {:induction false} KeptGrows(g: ChunkGraph, order: seq<nat>, target: int, i: nat, j: nat)
    requires i <= j <= |order|
    ensures KeptIslands(g, order, target, i) <= KeptIslands(g, order, target, j)
    decreases j
  {
    if i < j { KeptGrows(g, order, target, i, j - 1); }
  }

  lemma NoCandidates(g: ChunkGraph, typ: ChunkType)
    ensures CandidatesBelow(g, typ, 0) == []
  {
  }

  /** The index of the centre cell. */
  method CentreOf(g: ChunkGraph) returns (centre: nat)
    requires IsChunkGraph(g)
    ensures forall idx :: 0 <= idx < |g.cells| ==> (g.cells[idx] == ORIGIN <==> idx == centre)
  {
    CellsAreTheHexagon(g.radius);
    assert ORIGIN in g.cells;
    centre := g.index[ORIGIN];
  }

  /** The chunk's cells that may be islands, and its first border cell. */
  method Candidates(g: ChunkGraph, typ: ChunkType) returns (candidates: seq<nat>, firstBorder: int)
    requires IsChunkGraph(g)
    ensures candidates == CandidatesBelow(g, typ, |g.cells|)
    ensures 0 <= firstBorder < |g.cells| && IsBorderCell(g, firstBorder)
  {
    hide *;
    var centre := CentreOf(g);
    candidates, firstBorder := [], -1;
    NoCandidates(g, typ);
    for idx := 0 to |g.cells|
      invariant candidates == CandidatesBelow(g, typ, idx)
      invariant -1 <= firstBorder < idx && (firstBorder >= 0 ==> IsBorderCell(g, firstBorder))
      invariant firstBorder < 0 ==> forall k :: 0 <= k < idx ==> !IsBorderCell(g, k)
    {
      MayBeIslandAt(g, typ, centre, idx);
      CandidatesMore(g, typ, idx);
      if IsBorderCell(g, idx) {
        if firstBorder < 0 { firstBorder := idx; }
      } else if !(typ.Gate? && idx == centre) {
        candidates := candidates + [idx];
      }
    }
    CornerIsBorder(g);
  }

  lemma CandidatesMore(g: ChunkGraph, typ: ChunkType, idx: nat)
    ensures CandidatesBelow(g, typ, idx + 1) == CandidatesBelow(g, typ, idx) + if MayBeIsland(g, typ, idx) then [idx] else []
  {
  }

  lemma MayBeIslandAt(g: ChunkGraph, typ: ChunkType, centre: nat, idx: nat)
    requires idx < |g.cells| && (g.cells[idx] == ORIGIN <==> idx == centre)
    ensures MayBeIsland(g, typ, idx) <==> !IsBorderCell(g, idx) && !(typ.Gate? && idx == centre)
  {
  }

  lemma CornerIsBorder(g: ChunkGraph)
    requires IsChunkGraph(g)
    ensures exists k :: 0 <= k < |g.cells| && IsBorderCell(g, k)
  {
    CellsAreTheHexagon(g.radius);
    var corner := Coord(g.radius, 0);
    assert corner in g.cells;
    assert IsBorderCell(g, g.index[corner]);
  }

  /** The shuffled candidates, in the order the draw tries them. */
  ghost function TrialOrder(g: ChunkGraph, typ: ChunkType, words: Words, p: nat): seq<nat> {
    Shuffled(words, p, CandidatesBelow(g, typ, |g.cells|)).0
  }

  /** The islands a stream gives. */
  ghost function IslandsOf(g: ChunkGraph, typ: ChunkType, target: int, words: Words, p: nat): set<int> {
    if target <= 0 then {} else KeptIslands(g, TrialOrder(g, typ, words, p), target, |TrialOrder(g, typ, words, p)|)
  }

  lemma {:induction false} KeptAreOk(g: ChunkGraph, typ: ChunkType, order: seq<nat>, target: int, i: nat)
    requires IsChunkGraph(g) && i <= |order| && forall c :: c in order ==> MayBeIsland(g, typ, c)
    ensures IslandsOk(g, typ, target, KeptIslands(g, order, target, i))
  {
    hide IsChunkGraph, MayBeIsland, LandConnected;
    if i == 0 {
      NoIslandsConnected(g);
    } else {
      KeptAreOk(g, typ, order, target, i - 1);
      assert order[i - 1] in order;
    }
  }

  lemma TrialsMayBe(g: ChunkGraph, typ: ChunkType, words: Words, p: nat)
    ensures forall c :: c in TrialOrder(g, typ, words, p) ==> 0 <= c < |g.cells| && MayBeIsland(g, typ, c)
  {
    hide MayBeIsland, ShuffleFrom, CandidatesBelow;
    var listed := CandidatesBelow(g, typ, |g.cells|);
    ShufflePermutes(words, p, listed, |listed| - 1);
    SameElements(TrialOrder(g, typ, words, p), listed);
    forall c | c in TrialOrder(g, typ, words, p)
      ensures 0 <= c < |g.cells| && MayBeIsland(g, typ, c)
    {
      CandidatesAre(g, typ, |g.cells|, c);
    }
  }

  /** Whatever the stream: islands off the border, within the target, and a connected land around them. */
  lemma IslandsOfAreOk(g: ChunkGraph, typ: ChunkType, target: int, words: Words, p: nat)
    requires IsChunkGraph(g)
    ensures IslandsOk(g, typ, target, IslandsOf(g, typ, target, words, p))
  {
    hide IsChunkGraph, MayBeIsland, LandConnected, KeptIslands, TrialOrder;
    if target <= 0 {
      NoIslandsConnected(g);
    } else {
      TrialsMayBe(g, typ, words, p);
      var order := TrialOrder(g, typ, words, p);
      KeptAreOk(g, typ, order, target, |order|);
    }
  }

  /**
   Nothing that could be an island is spared without cause: any cell strictly
   inside the chunk, other than a gate's centre, is one, unless the target is
   reached, or the islands tried before it already left it holding the land
   together.
   */
  lemma NoIslandSpared(g: ChunkGraph, typ: ChunkType, target: int, words: Words, p: nat, v: nat)
    requires IsChunkGraph(g) && 0 < target && v < |g.cells|
    requires Distance(g.cells[v], Coord(0, 0)) < g.radius && (typ.Gate? ==> g.cells[v] != Coord(0, 0))
    ensures var islands := IslandsOf(g, typ, target, words, p);
            v in islands || |islands| == target || exists before :: before <= islands && Needed(g, before, v)
  {
    var order := TrialOrder(g, typ, words, p);
    InsideMayBe(g, typ, v);
    Tried(g, typ, words, p, v);
    hide *;
    IslandsAre(g, typ, target, words, p);
    if v !in IslandsOf(g, typ, target, words, p) {
      var k :| 0 <= k < |order| && order[k] == v;
      IslandsLeftOut(g, order, target, k);
      KeptGrows(g, order, target, k, |order|);
      TrialsMayBe(g, typ, words, p);
      KeptAreOk(g, typ, order, target, k);
      WasNeeded(g, typ, target, KeptIslands(g, order, target, k), v);
    }
  }

  /** Without v, and with the other islands given, the land is connected; without v it is not. */
  ghost predicate Needed(g: ChunkGraph, islands: set<int>, v: int) {
    LandConnected(g, islands) && !LandConnected(g, islands + {v})
  }

  lemma WasNeeded(g: ChunkGraph, typ: ChunkType, target: int, islands: set<int>, v: int)
    requires IslandsOk(g, typ, target, islands)
    ensures !LandConnected(g, islands + {v}) ==> Needed(g, islands, v)
  {
    hide LandConnected, MayBeIsland;
  }

  lemma InsideMayBe(g: ChunkGraph, typ: ChunkType, v: nat)
    requires v < |g.cells| && Distance(g.cells[v], Coord(0, 0)) < g.radius && (typ.Gate? ==> g.cells[v] != Coord(0, 0))
    ensures MayBeIsland(g, typ, v)
  {
  }

  /** Every cell that may be an island is tried. */
  lemma Tried(g: ChunkGraph, typ: ChunkType, words: Words, p: nat, v: nat)
    requires v < |g.cells| && MayBeIsland(g, typ, v)
    ensures v in TrialOrder(g, typ, words, p)
  {
    hide MayBeIsland, ShuffleFrom, CandidatesBelow;
    var listed := CandidatesBelow(g, typ, |g.cells|);
    CandidatesAre(g, typ, |g.cells|, v);
    ShufflePermutes(words, p, listed, |listed| - 1);
    SameElements(TrialOrder(g, typ, words, p), listed);
  }

  /** Whatever order of the candidates is wanted, some fair stream has them tried in it. */
  lemma AnyOrderIsTried(g: ChunkGraph, typ: ChunkType, target: int, order: seq<nat>) returns (words: Words)
    requires IsChunkGraph(g) && Countable(g) && 0 < target && multiset(order) == multiset(CandidatesBelow(g, typ, |g.cells|))
    ensures Fair(words) && IslandsOf(g, typ, target, words, 0) == KeptIslands(g, order, target, |order|)
  {
    CandidatesAscend(g, typ, |g.cells|);
    CountableCells(g);
    hide IsChunkGraph, MayBeIsland, CandidatesBelow, Shuffled, Fair, KeptIslands;
    words := EveryOrderIsShuffled([], CandidatesBelow(g, typ, |g.cells|), order);
  }

  lemma {:induction false} CandidatesAscend(g: ChunkGraph, typ: ChunkType, n: nat)
    ensures var listed := CandidatesBelow(g, typ, n);
            (forall i :: 0 <= i < |listed| ==> listed[i] < n) && Distinct(listed)
  {
    hide MayBeIsland;
    if n > 0 { CandidatesAscend(g, typ, n - 1); }
  }

  /** selectIslands: each shuffled candidate is kept only if the land stays connected. */
  method SelectIslands(g: ChunkGraph, s: Stream, target: int, typ: ChunkType) returns (islands: set<int>)
    requires IsChunkGraph(g) && Countable(g) && Fair(s.words)
    modifies s
    ensures islands == IslandsOf(g, typ, target, s.words, old(s.pos))
    ensures IslandsOk(g, typ, target, islands)
  {
    IslandsOfAreOk(g, typ, target, s.words, s.pos);
    TrialsMayBe(g, typ, s.words, s.pos);
    IslandsAre(g, typ, target, s.words, s.pos);
    CountableCells(g);
    hide *;
    islands := {};
    if target <= 0 {
      return;
    }
    var listed, firstBorder := Candidates(g, typ);
    var candidates := new nat[|listed|](i requires 0 <= i < |listed| => listed[i]);
    assert candidates[..] == listed;
    Shuffle(s, candidates);
    assert candidates[..] == TrialOrder(g, typ, s.words, old(s.pos));
    islands := KeepWhileConnected(g, candidates[..], target, typ, firstBorder);
  }

  lemma IslandsAre(g: ChunkGraph, typ: ChunkType, target: int, words: Words, p: nat)
    ensures TrialOrder(g, typ, words, p) == Shuffled(words, p, CandidatesBelow(g, typ, |g.cells|)).0
    ensures target <= 0 ==> IslandsOf(g, typ, target, words, p) == {}
    ensures target > 0 ==> var order := TrialOrder(g, typ, words, p); IslandsOf(g, typ, target, words, p) == KeptIslands(g, order, target, |order|)
  {
  }

  /** The trial of each candidate in turn, behind the connectivity guard. */
  method KeepWhileConnected(g: ChunkGraph, candidates: seq<nat>, target: int, typ: ChunkType, firstBorder: nat) returns (islands: set<int>)
    requires IsChunkGraph(g) && firstBorder < |g.cells| && IsBorderCell(g, firstBorder)
    requires forall c :: c in candidates ==> MayBeIsland(g, typ, c)
    ensures islands == KeptIslands(g, candidates, target, |candidates|)
  {
    BorderNeverIsland(g, typ, firstBorder);
    hide *;
    islands := {};
    NoneKept(g, candidates, target);
    for i := 0 to |candidates|
      invariant islands == KeptIslands(g, candidates, target, i)
    {
      OneMoreTried(g, candidates, target, i);
      if |islands| >= target {
        AllTried(g, candidates, target, i);
        return;
      }
      var c := candidates[i];
      assert c in candidates;
      forall v | v in islands + {c} ensures MayBeIsland(g, typ, v) { assert v in candidates; }
      IslandsInRange(g, typ, islands + {c});
      OnLand(g, islands + {c}, firstBorder);
      var connected := ConnectedOverInduced(g, islands + {c}, firstBorder);
      if connected {
        islands := islands + {c};
      }
    }
  }

  lemma OnLand(g: ChunkGraph, islands: set<int>, v: int)
    requires 0 <= v < |g.cells| && v !in islands
    ensures v in Land(g, islands)
  {
  }

  lemma NoneKept(g: ChunkGraph, order: seq<nat>, target: int)
    ensures KeptIslands(g, order, target, 0) == {}
  {
  }

  lemma OneMoreTried(g: ChunkGraph, order: seq<nat>, target: int, i: nat)
    requires i < |order|
    ensures var before := KeptIslands(g, order, target, i);
            KeptIslands(g, order, target, i + 1) ==
            if |before| < target && LandConnected(g, before + {order[i]}) then before + {order[i]} else before
  {
  }

  lemma AllTried(g: ChunkGraph, order: seq<nat>, target: int, i: nat)
    requires i <= |order| && target <= |KeptIslands(g, order, target, i)|
    ensures KeptIslands(g, order, target, |order|) == KeptIslands(g, order, target, i)
  {
    KeptAtTarget(g, order, target, i, |order|);
  }

  lemma IslandsInRange(g: ChunkGraph, typ: ChunkType, islands: set<int>)
    requires forall v :: v in islands ==> MayBeIsland(g, typ, v)
    ensures islands <= AllCells(g)
  {
  }

  lemma BorderNeverIsland(g: ChunkGraph, typ: ChunkType, idx: nat)
    requires idx < |g.cells| && IsBorderCell(g, idx)
    ensures !MayBeIsland(g, typ, idx)
  {
  }

  lemma NoIslandsConnected(g: ChunkGraph)
    requires IsChunkGraph(g)
    ensures LandConnected(g, {})
  {
    HexagonLinked(g);
    assert Land(g, {}) == AllCells(g);
  }

  // ---------- Extra passages ----------

  /** How many passages a share adds to a tree over n cells. */
  function ExtraTarget(n: nat, share: real): int {
    if n <= 1 then 0 else ShareOf(share, n - 1)
  }

  function ShareOf(share: real, n: nat): int {
    RoundHalfUp(share * n as real)
  }

  /** Of the whole numbers, the one nearest the share of the tree's n - 1 faces, a tie going up. */
  lemma ExtraTargetIsNearest(n: nat, share: real)
    requires 1 <= n
    ensures share * (n - 1) as real - 0.5 < ExtraTarget(n, share) as real <= share * (n - 1) as real + 0.5
  {
    if n == 1 { assert share * 0 as real == 0.0; }
  }

  function AtLeastZero(x: int): nat {
    if x < 0 then 0 else x
  }

  /** open' is open with min(target, closed land faces) more of the land's faces. */
  ghost predicate ExtraOpened(g: ChunkGraph, islands: set<int>, open: EdgeSet, target: int, open': EdgeSet) {
    && open <= open' <= LandEdges(g, islands)
    && |open'| == |open| + Min(AtLeastZero(target), |LandEdges(g, islands)| - |open|)
  }

  lemma NothingExtra(g: ChunkGraph, islands: set<int>, open: EdgeSet, target: int)
    requires open <= LandEdges(g, islands) && target <= 0
    ensures ExtraOpened(g, islands, open, target, open)
  {
    assert LandEdges(g, islands) == open + (LandEdges(g, islands) - open);
  }

  ghost function KeysOf(faces: seq<InteriorFace>): EdgeSet {
    set f | f in faces :: KeyOf(f)
  }

  ghost predicate DistinctFaces(g: ChunkGraph, faces: seq<InteriorFace>) {
    && (forall f :: f in faces ==> IsInteriorFace(g, f))
    && forall i, j :: 0 <= i < j < |faces| ==> faces[i] != faces[j]
  }

  lemma {:induction false} KeyCount(g: ChunkGraph, faces: seq<InteriorFace>)
    requires IsChunkGraph(g) && DistinctFaces(g, faces)
    ensures |KeysOf(faces)| == |faces|
    decreases |faces|
  {
    hide IsChunkGraph, IsInteriorFace, KeyOf;
    if faces == [] {
      assert KeysOf(faces) == {};
    } else {
      var last, rest := faces[|faces| - 1], faces[..|faces| - 1];
      assert faces == rest + [last];
      KeyCount(g, rest);
      assert KeysOf(faces) == KeysOf(rest) + {KeyOf(last)};
      if KeyOf(last) in KeysOf(rest) {
        var f :| f in rest && KeyOf(f) == KeyOf(last);
        FacesAreEdges(g, f, last);
        assert false;
      }
    }
  }

  lemma ClosedFacesAre(g: ChunkGraph, islands: set<int>, open: EdgeSet, closed: seq<InteriorFace>)
    requires IsChunkGraph(g)
    requires forall f :: f in closed <==> IsInteriorFace(g, f) && f.a !in islands && f.b !in islands && KeyOf(f) !in open
    ensures KeysOf(closed) == LandEdges(g, islands) - open
  {
    hide IsChunkGraph, Neighbors;
    var land := Land(g, islands);
    forall k | k in KeysOf(closed)
      ensures k in LandEdges(g, islands) - open
    {
      var f :| f in closed && KeyOf(f) == k;
      FacesAreEdges(g, f, f);
      GraphEdgesHas(g, land, f.a, f.b);
    }
    forall k | k in LandEdges(g, islands) - open
      ensures k in KeysOf(closed)
    {
      var a, b :| a in land && b in land && b in Neighbors(g, a) && NewEdgeKey(a, b) == k;
      var f := FaceOfEdge(g, a, b);
      assert f in closed;
    }
  }

  lemma LandCount(g: ChunkGraph, islands: set<int>)
    requires islands <= AllCells(g)
    ensures |Land(g, islands)| == |g.cells| - |islands|
  {
    assert AllCells(g) == Land(g, islands) + islands;
  }

  lemma FirstKeys(g: ChunkGraph, islands: set<int>, open0: EdgeSet, order: seq<InteriorFace>, n: nat, open: EdgeSet, target: int)
    requires IsChunkGraph(g) && DistinctFaces(g, order) && KeysOf(order) == LandEdges(g, islands) - open0
    requires open0 <= LandEdges(g, islands) && 0 < target && n == (if |order| < target then |order| else target)
    requires open == open0 + KeysOf(order[..n])
    ensures ExtraOpened(g, islands, open0, target, open)
  {
    hide IsChunkGraph, LandEdges, DistinctFaces, KeysOf;
    KeyCount(g, order);
    FirstDistinct(g, order, n);
    KeyCount(g, order[..n]);
    FirstAmong(order, n);
    SizesAdd(LandEdges(g, islands), open0, KeysOf(order), KeysOf(order[..n]));
  }

  lemma FirstDistinct(g: ChunkGraph, order: seq<InteriorFace>, n: nat)
    requires DistinctFaces(g, order) && n <= |order|
    ensures DistinctFaces(g, order[..n])
  {
    hide IsInteriorFace;
  }

  lemma FirstAmong(order: seq<InteriorFace>, n: nat)
    requires n <= |order|
    ensures KeysOf(order[..n]) <= KeysOf(order)
  {
    hide KeyOf;
  }

  lemma SizesAdd(all: EdgeSet, open: EdgeSet, rest: EdgeSet, chosen: EdgeSet)
    requires open <= all && rest == all - open && chosen <= rest
    ensures open + chosen <= all && |all| == |open| + |rest| && |open + chosen| == |open| + |chosen|
  {
    assert all == open + rest;
  }

  /** Those of the faces that are not open, in order. */
  function StillClosed(faces: seq<InteriorFace>, open: EdgeSet): (r: seq<InteriorFace>)
    ensures |r| <= |faces| && forall f :: f in r <==> f in faces && KeyOf(f) !in open
  {
    if faces == [] then []
    else
      var less, last := faces[..|faces| - 1], faces[|faces| - 1];
      assert faces == less + [last];
      StillClosed(less, open) + if KeyOf(last) in open then [] else [last]
  }

  lemma StillClosedMore(faces: seq<InteriorFace>, f: InteriorFace, open: EdgeSet)
    ensures StillClosed([], open) == []
    ensures StillClosed(faces + [f], open) == StillClosed(faces, open) + if KeyOf(f) in open then [] else [f]
  {
    assert (faces + [f])[..|faces|] == faces;
  }

  lemma {:induction false} StillClosedDiffer(faces: seq<InteriorFace>, open: EdgeSet)
    requires forall i, j :: 0 <= i < j < |faces| ==> faces[i] != faces[j]
    ensures forall i, j :: 0 <= i < j < |StillClosed(faces, open)| ==> StillClosed(faces, open)[i] != StillClosed(faces, open)[j]
    decreases |faces|
  {
    if faces != [] {
      var less, last := faces[..|faces| - 1], faces[|faces| - 1];
      StillClosedDiffer(less, open);
      var kept := StillClosed(less, open);
      forall i | 0 <= i < |kept| ensures kept[i] != last { assert kept[i] in kept && kept[i] in less; }
    }
  }

  ghost function ClosedFaceList(g: ChunkGraph, islands: set<int>, open: EdgeSet): seq<InteriorFace> {
    StillClosed(LandFaceList(g, islands), open)
  }

  lemma ClosedListAre(g: ChunkGraph, islands: set<int>, open: EdgeSet)
    requires IsChunkGraph(g)
    ensures var closed := ClosedFaceList(g, islands, open);
            && DistinctFaces(g, closed) && |closed| <= 6 * |g.cells|
            && KeysOf(closed) == LandEdges(g, islands) - open
  {
    LandFacesAre(g, islands);
    OrderedDiffer(LandFaceList(g, islands));
    hide IsChunkGraph, IsInteriorFace, LandFaceList, LandEdges, InFaceOrder, KeyOf;
    StillClosedDiffer(LandFaceList(g, islands), open);
    ClosedFacesAre(g, islands, open, ClosedFaceList(g, islands, open));
  }

  /** The order the closed faces are opened in. */
  ghost function ExtraOrder(g: ChunkGraph, islands: set<int>, open: EdgeSet, words: Words, p: nat): seq<InteriorFace> {
    Shuffled(words, p, ClosedFaceList(g, islands, open)).0
  }

  function AtMost(n: nat, target: nat): nat {
    if n < target then n else target
  }

  /** open with the first target of the faces, as far as they last. */
  ghost function FirstOpened(order: seq<InteriorFace>, target: nat, open: EdgeSet): EdgeSet {
    open + KeysOf(order[..AtMost(|order|, target)])
  }

  /** open with a target of the shuffled closed faces. */
  ghost function WithExtra(g: ChunkGraph, islands: set<int>, open: EdgeSet, target: int, words: Words, p: nat): EdgeSet {
    if target <= 0 then open else FirstOpened(ExtraOrder(g, islands, open, words, p), target, open)
  }

  lemma ExtraOrderIs(g: ChunkGraph, islands: set<int>, open: EdgeSet, words: Words, p: nat)
    requires IsChunkGraph(g)
    ensures var order := ExtraOrder(g, islands, open, words, p);
            && DistinctFaces(g, order) && |order| == |ClosedFaceList(g, islands, open)|
            && KeysOf(order) == LandEdges(g, islands) - open
  {
    ClosedListAre(g, islands, open);
    hide *;
    ExtraIs(g, islands, open, 0, words, p);
    var listed, order := ClosedFaceList(g, islands, open), ExtraOrder(g, islands, open, words, p);
    ShufflePermutes(words, p, listed, |listed| - 1);
    ShuffledIs(words, p, listed);
    SameKeys(g, order, listed);
  }

  lemma SameKeys(g: ChunkGraph, order: seq<InteriorFace>, listed: seq<InteriorFace>)
    requires multiset(order) == multiset(listed) && DistinctFaces(g, listed)
    ensures DistinctFaces(g, order) && |order| == |listed| && KeysOf(order) == KeysOf(listed)
  {
    hide IsInteriorFace, KeyOf;
    SameElements(order, listed);
    StillDistinct(order, listed);
  }

  /** Whatever the stream, exactly min(target, closed land faces) more faces open. */
  lemma WithExtraOpens(g: ChunkGraph, islands: set<int>, open: EdgeSet, target: int, words: Words, p: nat)
    requires IsChunkGraph(g) && open <= LandEdges(g, islands)
    ensures ExtraOpened(g, islands, open, target, WithExtra(g, islands, open, target, words, p))
  {
    hide IsChunkGraph, IsInteriorFace, LandEdges, ExtraOrder, KeysOf, ExtraOpened, DistinctFaces;
    if target <= 0 {
      NothingExtra(g, islands, open, target);
    } else {
      ExtraOrderIs(g, islands, open, words, p);
      var order := ExtraOrder(g, islands, open, words, p);
      FirstKeys(g, islands, open, order, AtMost(|order|, target), WithExtra(g, islands, open, target, words, p), target);
    }
  }

  /** Whatever order of the closed faces is wanted, some fair stream opens the first target of them. */
  lemma AnyExtrasOpen(g: ChunkGraph, islands: set<int>, open: EdgeSet, target: nat, order: seq<InteriorFace>) returns (words: Words)
    requires IsChunkGraph(g) && Countable(g) && 0 < target && multiset(order) == multiset(ClosedFaceList(g, islands, open))
    ensures Fair(words)
    ensures WithExtra(g, islands, open, target, words, 0) == open + set f | f in order[..if |order| < target then |order| else target] :: KeyOf(f)
  {
    ClosedListAre(g, islands, open);
    CountableCells(g);
    hide IsChunkGraph, IsInteriorFace, ClosedFaceList, Shuffled, Fair, LandEdges, KeyOf;
    words := EveryOrderIsShuffled([], ClosedFaceList(g, islands, open), order);
  }

  /** addExtraPassages. */
  method AddExtraPassages(g: ChunkGraph, islands: set<int>, open0: EdgeSet, s: Stream, share: real) returns (open: EdgeSet)
    requires IsChunkGraph(g) && Countable(g) && Fair(s.words)
    requires islands <= AllCells(g) && open0 <= LandEdges(g, islands)
    modifies s
    ensures open == WithExtra(g, islands, open0, ExtraTarget(|Land(g, islands)|, share), s.words, old(s.pos))
    ensures ExtraOpened(g, islands, open0, ExtraTarget(|Land(g, islands)|, share), open)
  {
    ghost var p := s.pos;
    var target := ExtraCount(g, islands, share);
    WithExtraOpens(g, islands, open0, target, s.words, p);
    ExtraIs(g, islands, open0, target, s.words, p);
    hide *;
    open := open0;
    if target <= 0 {
      return;
    }
    var candidates := ShuffleClosed(g, islands, open0, s);
    open := OpenFirst(candidates, target, open0);
  }

  /** How many passages to add. */
  method ExtraCount(g: ChunkGraph, islands: set<int>, share: real) returns (target: int)
    requires islands <= AllCells(g)
    ensures target == ExtraTarget(|Land(g, islands)|, share)
  {
    hide ShareOf;
    LandCount(g, islands);
    var nonIslandCount := |g.cells| - |islands|;
    if nonIslandCount <= 1 {
      return 0;
    }
    return ShareOf(share, nonIslandCount - 1);
  }

  /** The closed land faces, shuffled. */
  method ShuffleClosed(g: ChunkGraph, islands: set<int>, open: EdgeSet, s: Stream) returns (order: seq<InteriorFace>)
    requires IsChunkGraph(g) && Countable(g) && Fair(s.words)
    modifies s
    ensures order == ExtraOrder(g, islands, open, s.words, old(s.pos))
  {
    ExtraIs(g, islands, open, 0, s.words, s.pos);
    hide *;
    var listed := ClosedFaces(g, islands, open);
    var candidates := new InteriorFace[|listed|](i requires 0 <= i < |listed| => listed[i]);
    assert candidates[..] == listed;
    Shuffle(s, candidates);
    order := candidates[..];
  }

  lemma ExtraIs(g: ChunkGraph, islands: set<int>, open: EdgeSet, target: int, words: Words, p: nat)
    ensures ExtraOrder(g, islands, open, words, p) == Shuffled(words, p, ClosedFaceList(g, islands, open)).0
    ensures target <= 0 ==> WithExtra(g, islands, open, target, words, p) == open
    ensures target > 0 ==> WithExtra(g, islands, open, target, words, p) == FirstOpened(ExtraOrder(g, islands, open, words, p), target, open)
  {
    hide ClosedFaceList, KeysOf;
  }

  method OpenFirst(faces: seq<InteriorFace>, target: nat, open0: EdgeSet) returns (open: EdgeSet)
    ensures open == FirstOpened(faces, target, open0)
  {
    hide KeysOf;
    var n := target;
    if |faces| < n {
      n := |faces|;
    }
    open := open0;
    NoKeys();
    for i := 0 to n
      invariant open == open0 + KeysOf(faces[..i])
    {
      assert faces[..i + 1] == faces[..i] + [faces[i]];
      OneMoreKey(faces[..i], faces[i]);
      open := open + {NewEdgeKey(faces[i].a, faces[i].b)};
    }
  }

  lemma NoKeys()
    ensures KeysOf([]) == {}
  {
  }

  lemma OneMoreKey(faces: seq<InteriorFace>, f: InteriorFace)
    ensures KeysOf(faces + [f]) == KeysOf(faces) + {KeyOf(f)}
  {
  }

  /** The land faces not yet open. */
  method ClosedFaces(g: ChunkGraph, islands: set<int>, open: EdgeSet) returns (closed: seq<InteriorFace>)
    requires IsChunkGraph(g) && Countable(g)
    ensures closed == ClosedFaceList(g, islands, open) && |closed| <= MAX_UINT64
  {
    hide IsChunkGraph, IsInteriorFace, StillClosed, LandFaceList;
    var all := LandFaces(g, islands);
    closed := [];
    for i := 0 to |all|
      invariant closed == StillClosed(all[..i], open)
    {
      assert all[..i + 1] == all[..i] + [all[i]];
      StillClosedMore(all[..i], all[i], open);
      if !Has(open, all[i].a, all[i].b) {
        closed := closed + [all[i]];
      }
    }
    StillClosedMore([], InteriorFace(0, 0, 0), open);
    assert all[..|all|] == all;
  }

  // ---------- The whole interior ----------

  datatype Algorithm = Backtracker | KruskalMerge | Prim | GrowingTree | WilsonWalk

  function AlgorithmAt(i: int): Algorithm {
    match i
    case 1 => KruskalMerge
    case 2 => Prim
    case 3 => GrowingTree
    case 4 => WilsonWalk
    case _ => Backtracker
  }

  /** What a drawn algorithm builds, as a function of the stream. */
  ghost function StructureOf(g: ChunkGraph, islands: set<int>, algo: Algorithm, words: Words, p: nat, biasThresh: nat, budget: nat): Result {
    match algo
    case KruskalMerge => Built(ForestOf(g, islands, words, p).open)
    case Prim => Built(TreeOf(Frontier, g, islands, words, p))
    case GrowingTree => Built(TreeOf(Biased(biasThresh), g, islands, words, p))
    case WilsonWalk => WilsonOf(g, islands, words, p, budget)
    case Backtracker => Built(TreeOf(DepthFirst, g, islands, words, p))
  }

  /** Whichever algorithm is drawn, what it builds on any stream is a spanning tree of the land. */
  lemma StructureSpans(g: ChunkGraph, islands: set<int>, algo: Algorithm, words: Words, p: nat, biasThresh: nat, budget: nat)
    requires IsChunkGraph(g) && LandConnected(g, islands)
    ensures var res := StructureOf(g, islands, algo, words, p, biasThresh, budget); res.Built? ==> Spans(g, islands, res.open)
    ensures algo != WilsonWalk ==> StructureOf(g, islands, algo, words, p, biasThresh, budget).Built?
  {
    hide IsChunkGraph, LandConnected, Spans, ForestOf, TreeOf, WilsonOf, IsForest, LandEdges, Linked;
    match algo
    case KruskalMerge => ForestSpans(g, islands, words, p);
    case Prim => TreeSpans(Frontier, g, islands, words, p);
    case GrowingTree => TreeSpans(Biased(biasThresh), g, islands, words, p);
    case WilsonWalk => if WilsonOf(g, islands, words, p, budget).Built? { WilsonSpans(g, islands, words, p, budget); }
    case Backtracker => TreeSpans(DepthFirst, g, islands, words, p);
  }

  /** A larger budget never gives another structure. */
  lemma StructureInAnyBudget(g: ChunkGraph, islands: set<int>, algo: Algorithm, words: Words, p: nat, biasThresh: nat, b: nat, b': nat)
    requires StructureOf(g, islands, algo, words, p, biasThresh, b).Built? && StructureOf(g, islands, algo, words, p, biasThresh, b').Built?
    ensures StructureOf(g, islands, algo, words, p, biasThresh, b) == StructureOf(g, islands, algo, words, p, biasThresh, b')
  {
    hide ForestOf, TreeOf, AllWalks, LandCells;
  }

  /** buildSpanningStructure. */
  method BuildSpanningStructure(g: ChunkGraph, islands: set<int>, algo: Algorithm, s: Stream, biasThresh: nat, budget: nat) returns (res: Result)
    requires IsChunkGraph(g) && Countable(g) && LandConnected(g, islands) && Fair(s.words)
    modifies s
    ensures res == StructureOf(g, islands, algo, s.words, old(s.pos), biasThresh, budget)
    ensures res.Built? ==> Spans(g, islands, res.open)
    ensures algo != WilsonWalk ==> res.Built?
    ensures algo == WilsonWalk && !EveryWalkArrives(g, islands, s.words, old(s.pos)) ==> res.OutOfBudget?
  {
    hide EveryWalkArrives, Spans, LandConnected, IsChunkGraph, IsForest, ForestOf, TreeOf, WilsonOf, LandEdges, Linked;
    match algo
    case KruskalMerge =>
      var open;
      ghost var marks;
      open, marks := BuildKruskal(g, islands, s);
      res := Built(open);
    case Prim =>
      var open := BuildFrontierPrim(g, islands, s);
      res := Built(open);
    case GrowingTree =>
      var open := BuildGrowingTree(g, islands, s, biasThresh);
      res := Built(open);
    case WilsonWalk =>
      res := BuildWilson(g, islands, s, budget);
    case Backtracker =>
      var open := BuildBacktracker(g, islands, s);
      res := Built(open);
  }

  datatype Interior = Interior(islands: set<int>, open: EdgeSet)

  datatype InteriorResult = Made(interior: Interior) | NotMade

  /** One chunk's streams, a fresh one for each pass. */
  datatype Streams = Streams(island: Words, algorithm: Words, structure: Words, cycle: Words)

  /**
   What every generated interior is: islands off the border (and off a gate's
   centre), no more than the target; every other cell reachable from every
   other through open faces; no open face on an island; and exactly a spanning
   tree's worth of open faces plus the extra target, as far as faces last.
   */
  ghost predicate InteriorOk(p: Params, typ: ChunkType, g: ChunkGraph, i: Interior)
    requires 0 <= p.radius
  {
    var land, edges := Land(g, i.islands), LandEdges(g, i.islands);
    && IslandsOk(g, typ, IslandTarget(p), i.islands)
    && i.open <= edges && AllLinked(i.open, land)
    && land != {}
    && |i.open| == (|land| - 1) + Min(AtLeastZero(ExtraTarget(|land|, p.extraShare)), |edges| - (|land| - 1))
  }

  ghost function IslandsDrawn(p: Params, typ: ChunkType, g: ChunkGraph, s: Streams): set<int>
    requires 0 <= p.radius
  {
    IslandsOf(g, typ, IslandTarget(p), s.island, 0)
  }

  ghost function AlgorithmDrawn(p: Params, s: Streams): Algorithm {
    AlgorithmAt(Weighed(s.algorithm, 0, p.weights))
  }

  ghost function StructureDrawn(p: Params, typ: ChunkType, g: ChunkGraph, s: Streams, biasThresh: nat, budget: nat): Result
    requires 0 <= p.radius
  {
    StructureOf(g, IslandsDrawn(p, typ, g, s), AlgorithmDrawn(p, s), s.structure, 0, biasThresh, budget)
  }

  /** The interior a chunk's streams give. */
  ghost function InteriorFrom(p: Params, typ: ChunkType, g: ChunkGraph, s: Streams, biasThresh: nat, budget: nat): InteriorResult
    requires 0 <= p.radius
  {
    var islands, built := IslandsDrawn(p, typ, g, s), StructureDrawn(p, typ, g, s, biasThresh, budget);
    if built.OutOfBudget? then NotMade
    else Made(Interior(islands, WithExtra(g, islands, built.open, ExtraTarget(|Land(g, islands)|, p.extraShare), s.cycle, 0)))
  }

  /** A larger budget never gives another interior. */
  lemma InteriorInAnyBudget(p: Params, typ: ChunkType, g: ChunkGraph, s: Streams, biasThresh: nat, b: nat, b': nat)
    requires 0 <= p.radius && InteriorFrom(p, typ, g, s, biasThresh, b).Made? && InteriorFrom(p, typ, g, s, biasThresh, b').Made?
    ensures InteriorFrom(p, typ, g, s, biasThresh, b) == InteriorFrom(p, typ, g, s, biasThresh, b')
  {
    hide StructureOf, IslandsDrawn, AlgorithmDrawn, WithExtra, ExtraTarget;
    StructureInAnyBudget(g, IslandsDrawn(p, typ, g, s), AlgorithmDrawn(p, s), s.structure, 0, biasThresh, b, b');
  }

  /** Every interior made, on any streams whatever, is a sound one; and only Wilson's walks can leave one unmade. */
  lemma InteriorFromIsOk(p: Params, typ: ChunkType, g: ChunkGraph, s: Streams, biasThresh: nat, budget: nat)
    requires 0 <= p.radius && IsChunkGraph(g)
    ensures var res := InteriorFrom(p, typ, g, s, biasThresh, budget); res.Made? ==> InteriorOk(p, typ, g, res.interior)
    ensures AlgorithmDrawn(p, s) != WilsonWalk ==> InteriorFrom(p, typ, g, s, biasThresh, budget).Made?
  {
    hide IsChunkGraph, LandConnected, Spans, LandEdges, ExtraOpened, MayBeIsland, RoundHalfUp, StructureOf, AlgorithmDrawn, WithExtra, IslandsOf, InteriorOk;
    var islands, built := IslandsDrawn(p, typ, g, s), StructureDrawn(p, typ, g, s, biasThresh, budget);
    IslandsOfAreOk(g, typ, IslandTarget(p), s.island, 0);
    StructureSpans(g, islands, AlgorithmDrawn(p, s), s.structure, 0, biasThresh, budget);
    if built.Built? {
      SpansIn(g, islands, built.open);
      var target := ExtraTarget(|Land(g, islands)|, p.extraShare);
      WithExtraOpens(g, islands, built.open, target, s.cycle, 0);
      InteriorAssembled(p, typ, g, islands, built.open, WithExtra(g, islands, built.open, target, s.cycle, 0));
    }
  }

  /** An algorithm of weight zero is never drawn. */
  lemma WeightlessNeverDrawn(p: Params, s: Streams, algo: nat)
    requires Valid(p) && algo < ALGORITHMS && p.weights[algo] == 0
    ensures AlgorithmDrawn(p, s) != AlgorithmAt(algo)
  {
    SomeWeight(p);
    WeighedIsPositive(s.algorithm, 0, p.weights);
  }

  /** The algorithms, in the order of their weights. */
  function Algorithms(): seq<Algorithm> {
    [Backtracker, KruskalMerge, Prim, GrowingTree, WilsonWalk]
  }

  /** An algorithm's weight draws it: only an algorithm with a weight is drawn, so one that alone has a weight always is. */
  lemma WeightDrawsItsAlgorithm(p: Params, s: Streams, algo: nat)
    requires Valid(p) && algo < |Algorithms()|
    ensures p.weights[algo] == 0 ==> AlgorithmDrawn(p, s) != Algorithms()[algo]
    ensures p.weights[algo] != 0 && (forall i :: 0 <= i < |Algorithms()| && i != algo ==> p.weights[i] == 0) ==> AlgorithmDrawn(p, s) == Algorithms()[algo]
  {
    SomeWeight(p);
    WeighedIsPositive(s.algorithm, 0, p.weights);
    hide Weighed, Accumulated;
    DrawnIs(p, s);
  }

  lemma DrawnIs(p: Params, s: Streams)
    ensures var pick := Weighed(s.algorithm, 0, p.weights); 0 <= pick < |Algorithms()| ==> AlgorithmDrawn(p, s) == Algorithms()[pick]
  {
    hide Weighed;
  }

  /** What each algorithm builds is its own: the newest-first, random or frontier tree, the merged forest, or the walks. */
  lemma EachBuildsItsOwn(g: ChunkGraph, islands: set<int>, words: Words, p: nat, biasThresh: nat, budget: nat)
    ensures var structures := [Built(TreeOf(DepthFirst, g, islands, words, p)), Built(ForestOf(g, islands, words, p).open),
                               Built(TreeOf(Frontier, g, islands, words, p)), Built(TreeOf(Biased(biasThresh), g, islands, words, p)),
                               WilsonOf(g, islands, words, p, budget)];
            && |structures| == |Algorithms()|
            && forall i :: 0 <= i < |Algorithms()| ==> StructureOf(g, islands, Algorithms()[i], words, p, biasThresh, budget) == structures[i]
  {
    hide ForestOf, TreeOf, WilsonOf;
  }

  lemma SomeWeight(p: Params)
    requires Valid(p)
    ensures |p.weights| == ALGORITHMS && exists i :: 0 <= i < |p.weights| && p.weights[i] != 0
  {
    if forall i :: 0 <= i < |p.weights| ==> p.weights[i] == 0 { AllZeroSum(p.weights, |p.weights|); }
  }

  lemma {:induction false} AllZeroSum(weights: seq<Word>, i: nat)
    requires i <= |weights| && forall k :: 0 <= k < |weights| ==> weights[k] == 0
    ensures Accumulated(weights, i) == 0
  {
    if i > 0 {
      AllZeroSum(weights, i - 1);
      AccumulatedStep(weights, i - 1);
    }
  }

  /** The walks of the run these streams give reach the tree, if it is Wilson's. */
  ghost predicate InteriorEnds(p: Params, typ: ChunkType, g: ChunkGraph, s: Streams)
    requires 0 <= p.radius
  {
    AlgorithmDrawn(p, s) == WilsonWalk ==> EveryWalkArrives(g, IslandsDrawn(p, typ, g, s), s.structure, 0)
  }

  /** Some budget makes the interior exactly when no walk of the run goes on for ever. */
  lemma InteriorEndsExactly(p: Params, typ: ChunkType, g: ChunkGraph, s: Streams, biasThresh: nat)
    requires 0 <= p.radius && IsChunkGraph(g)
    ensures (exists budget: nat :: InteriorFrom(p, typ, g, s, biasThresh, budget).Made?) <==> InteriorEnds(p, typ, g, s)
  {
    hide IsChunkGraph, EveryWalkArrives, IslandsOf, LandConnected, WithExtra, WilsonOf, AlgorithmDrawn, MayBeIsland;
    var islands := IslandsDrawn(p, typ, g, s);
    IslandsOfAreOk(g, typ, IslandTarget(p), s.island, 0);
    if AlgorithmDrawn(p, s) == WilsonWalk {
      WilsonEndsExactlyWhenWalksArrive(g, islands, s.structure, 0);
      forall budget: nat
        ensures InteriorFrom(p, typ, g, s, biasThresh, budget).Made? <==> WilsonOf(g, islands, s.structure, 0, budget).Built?
      {
        assert StructureDrawn(p, typ, g, s, biasThresh, budget) == WilsonOf(g, islands, s.structure, 0, budget);
      }
    } else {
      StructureSpans(g, islands, AlgorithmDrawn(p, s), s.structure, 0, biasThresh, 0);
      assert InteriorFrom(p, typ, g, s, biasThresh, 0).Made?;
    }
  }

  /** Generate's interior passes, each on its own stream. */
  method BuildInterior(p: Params, typ: ChunkType, g: ChunkGraph, streams: Streams, biasThresh: nat, budget: nat) returns (res: InteriorResult)
    requires Valid(p) && IsChunkGraph(g) && g.radius == p.radius && Countable(g)
    requires Fair(streams.island) && Fair(streams.algorithm) && Fair(streams.structure) && Fair(streams.cycle)
    ensures res == InteriorFrom(p, typ, g, streams, biasThresh, budget)
    ensures res.Made? ==> InteriorOk(p, typ, g, res.interior)
    ensures res.NotMade? ==> AlgorithmDrawn(p, streams) == WilsonWalk
  {
    InteriorFromIsOk(p, typ, g, streams, biasThresh, budget);
    InteriorIsBuilt(p, typ, g, streams, biasThresh, budget);
    hide *;
    var island := new Stream(streams.island);
    var islands := SelectIslands(g, island, IslandTarget(p), typ);
    IslandsParts(g, typ, IslandTarget(p), islands);
    var algorithm := new Stream(streams.algorithm);
    var pick := WeightedPick(algorithm, p.weights);
    var structure := new Stream(streams.structure);
    var built := BuildSpanningStructure(g, islands, AlgorithmAt(pick), structure, biasThresh, budget);
    if built.OutOfBudget? {
      return NotMade;
    }
    SpansIn(g, islands, built.open);
    var cycle := new Stream(streams.cycle);
    var open := AddExtraPassages(g, islands, built.open, cycle, p.extraShare);
    return Made(Interior(islands, open));
  }

  lemma InteriorIsBuilt(p: Params, typ: ChunkType, g: ChunkGraph, s: Streams, biasThresh: nat, budget: nat)
    requires Valid(p)
    ensures 0 <= p.radius
    ensures var islands, algo := IslandsOf(g, typ, IslandTarget(p), s.island, 0), AlgorithmAt(Weighed(s.algorithm, 0, p.weights));
            var built := StructureOf(g, islands, algo, s.structure, 0, biasThresh, budget);
            && AlgorithmDrawn(p, s) == algo
            && InteriorFrom(p, typ, g, s, biasThresh, budget) ==
               if built.OutOfBudget? then NotMade
               else Made(Interior(islands, WithExtra(g, islands, built.open, ExtraTarget(|Land(g, islands)|, p.extraShare), s.cycle, 0)))
  {
    hide Weighed, StructureOf, WithExtra, IslandsOf, ExtraTarget, IslandTarget, Land;
  }

  lemma IslandsParts(g: ChunkGraph, typ: ChunkType, target: int, islands: set<int>)
    requires IslandsOk(g, typ, target, islands)
    ensures islands <= AllCells(g) && LandConnected(g, islands)
  {
    hide MayBeIsland, LandConnected;
    IslandsInRange(g, typ, islands);
  }

  lemma SpansIn(g: ChunkGraph, islands: set<int>, open: EdgeSet)
    requires Spans(g, islands, open)
    ensures open <= LandEdges(g, islands)
  {
  }

  lemma InteriorAssembled(p: Params, typ: ChunkType, g: ChunkGraph, islands: set<int>, tree: EdgeSet, open: EdgeSet)
    requires 0 <= p.radius && IsChunkGraph(g)
    requires IslandsOk(g, typ, IslandTarget(p), islands) && Spans(g, islands, tree)
    requires ExtraOpened(g, islands, tree, ExtraTarget(|Land(g, islands)|, p.extraShare), open)
    ensures InteriorOk(p, typ, g, Interior(islands, open))
  {
    hide IsChunkGraph, LandConnected, RoundHalfUp, MayBeIsland;
    var land := Land(g, islands);
    CornerIsBorder(g);
    var k :| 0 <= k < |g.cells| && IsBorderCell(g, k);
    BorderNeverIsland(g, typ, k);
    assert k in land;
    forall u, v | u in land && v in land
      ensures Linked(open, u, v)
    {
      LinkedInMore(tree, open, u, v);
    }
  }
}
