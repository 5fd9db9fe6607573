/** Wilson's loop-erased random walks. */
module Wilson {
  import opened GoInt
  import opened SortedSeq
  import opened Draws
  import opened Graphs
  import opened ChunkGraphs
  import opened Spanning

  /** A walk goes on for ever on some streams, so its steps are budgeted; running out is the one other outcome. */
  datatype Result = Built(open: EdgeSet) | OutOfBudget

  /**
   What a walk that has taken m steps has recorded. lastExit tells when each
   cell was last left; the recorded step of a cell leads to where the walk
   stands now, or to a cell that was last left later still.
   */
  ghost predicate Recorded(g: ChunkGraph, islands: set<int>, inTree: set<int>, start: int,
                       nextStep: map<int, nat>, lastExit: map<int, nat>, m: nat, cur: int)
  {
    && nextStep.Keys == lastExit.Keys
    && cur in Land(g, islands) && (start == cur || start in nextStep)
    && forall c :: c in nextStep ==> RecordedStep(g, islands, inTree, nextStep, lastExit, m, cur, c)
  }

  ghost predicate RecordedStep(g: ChunkGraph, islands: set<int>, inTree: set<int>,
                               nextStep: map<int, nat>, lastExit: map<int, nat>, m: nat, cur: int, c: int)
    requires c in nextStep && nextStep.Keys == lastExit.Keys
  {
    var n := nextStep[c];
    && c in Land(g, islands) && c !in inTree && n in Land(g, islands) && n in Neighbors(g, c)
    && lastExit[c] < m
    && (n == cur || (n in nextStep && lastExit[c] < lastExit[n]))
  }

  lemma WalkStarts(g: ChunkGraph, islands: set<int>, inTree: set<int>, start: int)
    requires start in Land(g, islands)
    ensures Recorded(g, islands, inTree, start, map[], map[], 0, start)
  {
  }

  /** Overwriting the recorded step of the cell being left keeps the record consistent: this is what erases a loop. */
  lemma WalkSteps(g: ChunkGraph, islands: set<int>, inTree: set<int>, start: int,
                  nextStep: map<int, nat>, lastExit: map<int, nat>, m: nat, cur: int, nxt: nat)
    requires Recorded(g, islands, inTree, start, nextStep, lastExit, m, cur)
    requires cur !in inTree && nxt in Neighbors(g, cur) && nxt in Land(g, islands)
    ensures Recorded(g, islands, inTree, start, nextStep[cur := nxt], lastExit[cur := m], m + 1, nxt)
  {
    hide Neighbors;
    var nextStep', lastExit' := nextStep[cur := nxt], lastExit[cur := m];
    forall c | c in nextStep'
      ensures RecordedStep(g, islands, inTree, nextStep', lastExit', m + 1, nxt, c)
    {
      if c != cur { assert RecordedStep(g, islands, inTree, nextStep, lastExit, m, cur, c); }
    }
  }

  /** The edges along a path. */
  function PathEdges(p: seq<nat>): EdgeSet {
    if |p| <= 1 then {} else PathEdges(p[1..]) + {NewEdgeKey(p[0], p[1])}
  }

  lemma {:induction false} PathEdgesAppend(p: seq<nat>, n: nat)
    requires 0 < |p|
    ensures PathEdges(p + [n]) == PathEdges(p) + {NewEdgeKey(p[|p| - 1], n)}
  {
    if |p| > 1 {
      PathEdgesAppend(p[1..], n);
      assert (p + [n])[1..] == p[1..] + [n];
    } else {
      assert (p + [n])[1..] == [n];
    }
  }

  ghost function CellsOf(p: seq<nat>): set<int> {
    set c | c in p
  }

  /** A simple path outside the tree whose end is in it. */
  ghost predicate LeadsIn(g: ChunkGraph, islands: set<int>, inTree: set<int>, p: seq<nat>) {
    && 0 < |p| && p[|p| - 1] in inTree
    && (forall i :: 0 <= i < |p| - 1 ==> p[i] in Land(g, islands) && p[i] !in inTree && p[i + 1] in Neighbors(g, p[i]))
    && (forall i, j :: 0 <= i < j < |p| - 1 ==> p[i] != p[j])
  }

  /** Carving such a path into a tree leaves a tree, grown by exactly the path's new cells. */
  lemma {:induction false} CarvePath(g: ChunkGraph, islands: set<int>, open: EdgeSet, inTree: set<int>, p: seq<nat>)
    requires IsChunkGraph(g) && Growing(g, islands, open, inTree) && LeadsIn(g, islands, inTree, p)
    ensures Growing(g, islands, open + PathEdges(p), inTree + CellsOf(p[..|p| - 1]))
    decreases |p|
  {
    hide Neighbors, IsChunkGraph, Growing;
    if |p| == 1 {
      assert open + PathEdges(p) == open;
      assert inTree + CellsOf(p[..0]) == inTree;
    } else {
      var rest := p[1..];
      PathGoesOn(g, islands, inTree, p);
      CarvePath(g, islands, open, inTree, rest);
      var tree := inTree + CellsOf(rest[..|rest| - 1]);
      TreeAlongPath(inTree, p);
      PathEdgesFirst(p);
      hide *;
      GrowingWithin(g, islands, open + PathEdges(rest), tree);
      JoinGrows(g, islands, open + PathEdges(rest), tree, p[0], p[1]);
      assert (open + PathEdges(rest)) + {NewEdgeKey(p[0], p[1])} == open + PathEdges(p);
    }
  }

  lemma PathEdgesFirst(p: seq<nat>)
    requires 1 < |p|
    ensures PathEdges(p) == PathEdges(p[1..]) + {NewEdgeKey(p[0], p[1])}
  {
  }

  lemma PathGoesOn(g: ChunkGraph, islands: set<int>, inTree: set<int>, p: seq<nat>)
    requires LeadsIn(g, islands, inTree, p) && 1 < |p|
    ensures LeadsIn(g, islands, inTree, p[1..])
    ensures p[0] in Land(g, islands) && p[0] !in inTree && p[1] in Neighbors(g, p[0])
  {
    hide Neighbors;
  }

  /** The tree with a path's later cells has the path's second cell and not its first. */
  lemma TreeAlongPath(inTree: set<int>, p: seq<nat>)
    requires 1 < |p| && p[|p| - 1] in inTree && p[0] !in inTree
    requires forall i, j :: 0 <= i < j < |p| - 1 ==> p[i] != p[j]
    ensures var rest := p[1..]; var tree := inTree + CellsOf(rest[..|rest| - 1]);
            p[1] in tree && p[0] !in tree && tree + {p[0] as int} == inTree + CellsOf(p[..|p| - 1])
  {
    var rest := p[1..];
    if |rest| > 1 { assert rest[..|rest| - 1][0] == p[1]; }
    forall i | 0 <= i < |rest| - 1 ensures rest[i] != p[0] { assert rest[i] == p[i + 1]; }
    assert p[..|p| - 1] == [p[0]] + rest[..|rest| - 1];
  }

  /** The part of the record replayed so far: a simple path, last exits strictly increasing along it. */
  ghost predicate Ordered(nextStep: map<int, nat>, lastExit: map<int, nat>, p: seq<nat>)
    requires nextStep.Keys == lastExit.Keys
  {
    && 0 < |p|
    && (forall i :: 0 <= i < |p| - 1 ==> p[i] in nextStep && nextStep[p[i]] == p[i + 1])
    && (forall i, j :: 0 <= i < j < |p| && p[i] in nextStep && p[j] in nextStep ==> lastExit[p[i]] < lastExit[p[j]])
  }

  /** The recorded step from the replay's end extends it. */
  lemma ReplayExtends(g: ChunkGraph, islands: set<int>, tree0: set<int>, start: int,
                      nextStep: map<int, nat>, lastExit: map<int, nat>, m: nat, cur: int, p: seq<nat>)
    requires Recorded(g, islands, tree0, start, nextStep, lastExit, m, cur) && cur in tree0
    requires Ordered(nextStep, lastExit, p) && p[|p| - 1] in nextStep
    ensures Ordered(nextStep, lastExit, p + [nextStep[p[|p| - 1]]])
  {
    var c := p[|p| - 1];
    LaterExit(g, islands, tree0, start, nextStep, lastExit, m, cur, c);
    OrderExtends(nextStep, lastExit, p, nextStep[c]);
  }

  /** A recorded step leads to a cell left later, or out of the record. */
  lemma LaterExit(g: ChunkGraph, islands: set<int>, tree0: set<int>, start: int,
                  nextStep: map<int, nat>, lastExit: map<int, nat>, m: nat, cur: int, c: int)
    requires Recorded(g, islands, tree0, start, nextStep, lastExit, m, cur) && cur in tree0 && c in nextStep
    ensures var n := nextStep[c];
            && c in Land(g, islands) && c !in tree0 && n in Neighbors(g, c) && lastExit[c] < m
            && if n in nextStep then lastExit[c] < lastExit[n] else n == cur
  {
    hide Neighbors;
    var n := nextStep[c];
    assert RecordedStep(g, islands, tree0, nextStep, lastExit, m, cur, c);
    if n in nextStep { assert RecordedStep(g, islands, tree0, nextStep, lastExit, m, cur, n); }
  }

  lemma OrderExtends(nextStep: map<int, nat>, lastExit: map<int, nat>, p: seq<nat>, n: nat)
    requires nextStep.Keys == lastExit.Keys && Ordered(nextStep, lastExit, p)
    requires p[|p| - 1] in nextStep && nextStep[p[|p| - 1]] == n
    requires n in nextStep ==> lastExit[p[|p| - 1]] < lastExit[n]
    ensures Ordered(nextStep, lastExit, p + [n])
  {
    var q := p + [n];
    forall i, j | 0 <= i < j < |q| && q[i] in nextStep && q[j] in nextStep
      ensures lastExit[q[i]] < lastExit[q[j]]
    {
      if j == |p| && i < |p| - 1 { assert lastExit[p[i]] < lastExit[p[|p| - 1]]; }
    }
  }

  /** A replay that has come to the tree is a simple path into it. */
  lemma ReplayLeadsIn(g: ChunkGraph, islands: set<int>, tree0: set<int>, start: int,
                      nextStep: map<int, nat>, lastExit: map<int, nat>, m: nat, cur: int, p: seq<nat>)
    requires Recorded(g, islands, tree0, start, nextStep, lastExit, m, cur) && cur in tree0
    requires nextStep.Keys == lastExit.Keys && Ordered(nextStep, lastExit, p)
    requires p[|p| - 1] in tree0 + CellsOf(p[..|p| - 1])
    ensures LeadsIn(g, islands, tree0, p)
  {
    hide Neighbors, Recorded;
    var last := |p| - 1;
    forall i | 0 <= i < last
      ensures p[i] in Land(g, islands) && p[i] !in tree0 && p[i + 1] in Neighbors(g, p[i]) && p[i] != p[last]
    {
      LaterExit(g, islands, tree0, start, nextStep, lastExit, m, cur, p[i]);
      assert p[last] in nextStep ==> lastExit[p[i]] < lastExit[p[last]];
    }
  }

  lemma ReplayStarts(nextStep: map<int, nat>, lastExit: map<int, nat>, start: nat)
    requires nextStep.Keys == lastExit.Keys
    ensures Ordered(nextStep, lastExit, [start]) && PathEdges([start]) == {}
  {
  }

  lemma CurRecorded(g: ChunkGraph, islands: set<int>, tree0: set<int>, start: int,
                    nextStep: map<int, nat>, lastExit: map<int, nat>, m: nat, cur: int)
    requires Recorded(g, islands, tree0, start, nextStep, lastExit, m, cur)
    ensures start == cur || start in nextStep
  {
  }

  // ---------- The walks of a run, as functions of the stream ----------

  /** The random walk from a cell, with the stream at a position. */
  datatype Walk = Walk(graph: ChunkGraph, islands: set<int>, words: Words, pos: nat, start: nat)

  /** Where the walk stands after k steps, and where the stream does. */
  ghost function WalkAt(w: Walk, k: nat): (nat, nat) {
    if k == 0 then (w.start, w.pos)
    else
      var (c, q) := WalkAt(w, k - 1);
      if Around(w.graph, w.islands, c) == [] then (c, q) else Picked(w.words, q, Around(w.graph, w.islands, c))
  }

  /** The latest step recorded from each cell, after k steps: an earlier one is overwritten. */
  ghost function StepsTaken(w: Walk, k: nat): map<int, nat> {
    if k == 0 then map[] else StepsTaken(w, k - 1)[WalkAt(w, k - 1).0 := WalkAt(w, k).0]
  }

  /** When each cell was last left. */
  ghost function LastExits(w: Walk, k: nat): map<int, nat> {
    if k == 0 then map[] else LastExits(w, k - 1)[WalkAt(w, k - 1).0 := k - 1]
  }

  /** For the first k steps the walk stays out of the tree. */
  ghost predicate Apart(w: Walk, tree: set<int>, k: nat) {
    forall i: nat :: i < k ==> WalkAt(w, i).0 !in tree
  }

  /** The walk first stands in the tree after exactly k steps. */
  ghost predicate HitsAt(w: Walk, tree: set<int>, k: nat) {
    WalkAt(w, k).0 in tree && Apart(w, tree, k)
  }

  ghost predicate Arrives(w: Walk, tree: set<int>) {
    exists k: nat :: HitsAt(w, tree, k)
  }

  /** The tree, once the steps recorded from c on are replayed into it. */
  ghost function ReplayFrom(nextStep: map<int, nat>, c: nat, open: EdgeSet, tree: set<int>): (EdgeSet, set<int>)
    decreases nextStep.Keys - tree
  {
    if c in tree then (open, tree)
    else if c !in nextStep then (open, tree + {c})
    else
      assert nextStep.Keys - (tree + {c}) < nextStep.Keys - tree;
      ReplayFrom(nextStep, nextStep[c], open + {NewEdgeKey(c, nextStep[c])}, tree + {c})
  }

  /** How far a run has got: the faces opened, the cells reached, the stream's position and the steps spent; or in a walk that never ends. */
  datatype Progress = Progress(open: EdgeSet, tree: set<int>, pos: nat, spent: nat) | Stuck

  /** The land's cells not in the tree yet, in index order. */
  ghost function Remaining(g: ChunkGraph, islands: set<int>, tree: set<int>): seq<nat> {
    Kept(LandCells(g, islands), tree)
  }

  /** The run after one more walk, from the first cell not in the tree yet. */
  ghost function OneWalkOn(g: ChunkGraph, islands: set<int>, words: Words, was: Progress): Progress
    requires was.Progress?
  {
    var rest := Remaining(g, islands, was.tree);
    if rest == [] then was
    else
      var w := Walk(g, islands, words, was.pos, rest[0]);
      if !Arrives(w, was.tree) then Stuck
      else
        var k: nat :| HitsAt(w, was.tree, k);
        var (open, tree) := ReplayFrom(StepsTaken(w, k), w.start, was.open, was.tree);
        Progress(open, tree, WalkAt(w, k).1, was.spent + k)
  }

  /** The run after j walks. */
  ghost function AfterWalks(g: ChunkGraph, islands: set<int>, words: Words, p: nat, j: nat): Progress {
    if j == 0 then
      var (first, q) := Picked(words, p, LandCells(g, islands));
      Progress({}, {first}, q, 0)
    else
      var was := AfterWalks(g, islands, words, p, j - 1);
      if was.Stuck? then Stuck else OneWalkOn(g, islands, words, was)
  }

  /** Where all the walks lead. Each reaches a new cell, so there are fewer than there are cells. */
  ghost function AllWalks(g: ChunkGraph, islands: set<int>, words: Words, p: nat): Progress {
    AfterWalks(g, islands, words, p, |g.cells|)
  }

  /** What buildWilson gives within a budget of steps. */
  ghost function WilsonOf(g: ChunkGraph, islands: set<int>, words: Words, p: nat, budget: nat): Result {
    if LandCells(g, islands) == [] then Built({})
    else
      var end := AllWalks(g, islands, words, p);
      if end.Progress? && end.spent <= budget then Built(end.open) else OutOfBudget
  }

  /** Every walk the run takes reaches the tree. */
  ghost predicate EveryWalkArrives(g: ChunkGraph, islands: set<int>, words: Words, p: nat) {
    LandCells(g, islands) == [] || forall j: nat :: AfterWalks(g, islands, words, p, j).Progress?
  }

  // ---------- One walk ----------

  lemma WalkBegins(w: Walk)
    ensures WalkAt(w, 0) == (w.start, w.pos) && StepsTaken(w, 0) == map[] && LastExits(w, 0) == map[]
  {
  }

  lemma WalkGoesOn(w: Walk, k: nat)
    requires Around(w.graph, w.islands, WalkAt(w, k).0) != []
    ensures WalkAt(w, k + 1) == Picked(w.words, WalkAt(w, k).1, Around(w.graph, w.islands, WalkAt(w, k).0))
    ensures StepsTaken(w, k + 1) == StepsTaken(w, k)[WalkAt(w, k).0 := WalkAt(w, k + 1).0]
    ensures LastExits(w, k + 1) == LastExits(w, k)[WalkAt(w, k).0 := k]
  {
    hide Around, Picked;
  }

  lemma HitsOnce(w: Walk, tree: set<int>, k: nat, k': nat)
    requires HitsAt(w, tree, k) && HitsAt(w, tree, k')
    ensures k == k'
  {
  }

  /** A walk apart from the tree always has somewhere to go, and stays on the land. */
  lemma WalkStep(w: Walk, tree: set<int>, k: nat)
    requires IsChunkGraph(w.graph) && LandConnected(w.graph, w.islands)
    requires tree <= Land(w.graph, w.islands) && tree != {} && WalkAt(w, k).0 in Land(w.graph, w.islands) && WalkAt(w, k).0 !in tree
    ensures 0 < |Around(w.graph, w.islands, WalkAt(w, k).0)| <= 6
    ensures WalkAt(w, k + 1) == Picked(w.words, WalkAt(w, k).1, Around(w.graph, w.islands, WalkAt(w, k).0))
    ensures WalkAt(w, k + 1).0 in Land(w.graph, w.islands)
    ensures WalkAt(w, k + 1).0 in Neighbors(w.graph, WalkAt(w, k).0)
  {
    hide IsChunkGraph, LandConnected, WalkAt, Around, Neighbors, Picked;
    var at := WalkAt(w, k).0;
    SomeNeighbor(w.graph, w.islands, tree, at);
    AroundAre(w.graph, w.islands, at);
    var n :| n in Neighbors(w.graph, at) && n !in w.islands;
    assert n in Around(w.graph, w.islands, at);
    WalkGoesOn(w, k);
    assert WalkAt(w, k + 1).0 in Around(w.graph, w.islands, at) by { PickedFrom(w.words, WalkAt(w, k).1, Around(w.graph, w.islands, at)); }
  }

  lemma PickedFrom(words: Words, p: nat, cells: seq<nat>)
    requires cells != []
    ensures Picked(words, p, cells).0 in cells
  {
  }

  /** In a connected land a cell apart from the tree is not isolated. */
  lemma SomeNeighbor(g: ChunkGraph, islands: set<int>, inTree: set<int>, at: int)
    requires IsChunkGraph(g) && LandConnected(g, islands)
    requires at in Land(g, islands) && inTree <= Land(g, islands) && inTree != {} && at !in inTree
    ensures exists n :: n in Neighbors(g, at) && n !in islands
  {
    hide Neighbors, IsChunkGraph;
    var t :| t in inTree;
    var e := LandEdges(g, islands);
    assert Linked(e, at, t);
    var p :| IsPath(e, p, at, t);
    assert |p| > 1;
    assert Has(e, p[0], p[1]);
    GraphEdgesHas(g, Land(g, islands), p[0], p[1]);
  }

  /** Up to its arrival a walk's record is consistent. */
  lemma {:induction false} WalkRecords(w: Walk, tree: set<int>, k: nat)
    requires IsChunkGraph(w.graph) && LandConnected(w.graph, w.islands)
    requires w.start in Land(w.graph, w.islands) && tree <= Land(w.graph, w.islands) && tree != {}
    requires Apart(w, tree, k)
    ensures StepsTaken(w, k).Keys == LastExits(w, k).Keys && WalkAt(w, k).0 in Land(w.graph, w.islands)
    ensures Recorded(w.graph, w.islands, tree, w.start, StepsTaken(w, k), LastExits(w, k), k, WalkAt(w, k).0)
  {
    hide *;
    if k == 0 {
      WalkBegins(w);
      WalkStarts(w.graph, w.islands, tree, w.start);
    } else {
      ApartOneLess(w, tree, k);
      WalkRecords(w, tree, k - 1);
      WalkStep(w, tree, k - 1);
      WalkGoesOn(w, k - 1);
      WalkSteps(w.graph, w.islands, tree, w.start, StepsTaken(w, k - 1), LastExits(w, k - 1), k - 1, WalkAt(w, k - 1).0, WalkAt(w, k).0);
    }
  }

  lemma ApartOneLess(w: Walk, tree: set<int>, k: nat)
    requires 0 < k && Apart(w, tree, k)
    ensures Apart(w, tree, k - 1) && WalkAt(w, k - 1).0 !in tree
  {
    hide WalkAt;
  }

  lemma ApartOneMore(w: Walk, tree: set<int>, k: nat)
    ensures Apart(w, tree, 0)
    ensures Apart(w, tree, k) && WalkAt(w, k).0 !in tree ==> Apart(w, tree, k + 1)
    ensures Apart(w, tree, k) && WalkAt(w, k).0 in tree ==> HitsAt(w, tree, k)
  {
    hide WalkAt;
  }

  lemma ReplayStep(nextStep: map<int, nat>, c: nat, open: EdgeSet, tree: set<int>)
    ensures c in tree ==> ReplayFrom(nextStep, c, open, tree) == (open, tree)
    ensures c !in tree && c !in nextStep ==> ReplayFrom(nextStep, c, open, tree) == (open, tree + {c})
    ensures c !in tree && c in nextStep ==>
              ReplayFrom(nextStep, c, open, tree) == ReplayFrom(nextStep, nextStep[c], open + {NewEdgeKey(c, nextStep[c])}, tree + {c})
  {
  }

  /** Replaying a walk that has come to the tree leaves a larger tree with the walk's start in it. */
  lemma ReplayGrows(g: ChunkGraph, islands: set<int>, open0: EdgeSet, tree0: set<int>, start: nat,
                    nextStep: map<int, nat>, lastExit: map<int, nat>, m: nat, cur: int)
    requires IsChunkGraph(g) && Growing(g, islands, open0, tree0)
    requires nextStep.Keys == lastExit.Keys
    requires Recorded(g, islands, tree0, start, nextStep, lastExit, m, cur) && cur in tree0 && start !in tree0
    ensures var (open, tree) := ReplayFrom(nextStep, start, open0, tree0);
            Growing(g, islands, open, tree) && tree0 + {start} <= tree
  {
    hide *;
    var open, tree := open0, tree0;
    var c: nat, p: seq<nat> := start, [start];
    ReplayStarts(nextStep, lastExit, start);
    CurRecorded(g, islands, tree0, start, nextStep, lastExit, m, cur);
    assert p[..|p| - 1] == [];
    CellsMore([], start);
    while c !in tree
      invariant 0 < |p| && p[0] == start && c == p[|p| - 1]
      invariant Ordered(nextStep, lastExit, p)
      invariant c == cur || c in nextStep
      invariant open == open0 + PathEdges(p)
      invariant tree == tree0 + CellsOf(p[..|p| - 1])
      invariant ReplayFrom(nextStep, c, open, tree) == ReplayFrom(nextStep, start, open0, tree0)
      decreases if c in nextStep then m - lastExit[c] else 0
    {
      ReplayStep(nextStep, c, open, tree);
      LaterExit(g, islands, tree0, start, nextStep, lastExit, m, cur, c);
      var nc := nextStep[c];
      ReplayExtends(g, islands, tree0, start, nextStep, lastExit, m, cur, p);
      PathEdgesAppend(p, nc);
      assert (p + [nc])[..|p + [nc]| - 1] == p[..|p| - 1] + [c];
      CellsMore(p[..|p| - 1], c);
      open, tree, p, c := open + {NewEdgeKey(c, nc)}, tree + {c}, p + [nc], nc;
    }
    ReplayStep(nextStep, c, open, tree);
    ReplayLeadsIn(g, islands, tree0, start, nextStep, lastExit, m, cur, p);
    CarvePath(g, islands, open0, tree0, p);
    assert p[..|p| - 1][0] == start;
    CellsHave(p[..|p| - 1], start);
  }

  lemma CellsMore(p: seq<nat>, c: nat)
    ensures CellsOf([]) == {} && CellsOf(p + [c]) == CellsOf(p) + {c}
  {
  }

  lemma CellsHave(p: seq<nat>, c: nat)
    requires c in p
    ensures c in CellsOf(p)
  {
  }

  // ---------- All the walks ----------

  lemma RunBegins(g: ChunkGraph, islands: set<int>, words: Words, p: nat)
    ensures var (first, q) := Picked(words, p, LandCells(g, islands)); AfterWalks(g, islands, words, p, 0) == Progress({}, {first}, q, 0)
  {
  }

  lemma OneMoreWalk(g: ChunkGraph, islands: set<int>, words: Words, p: nat, j: nat)
    ensures AfterWalks(g, islands, words, p, j).Stuck? ==> AfterWalks(g, islands, words, p, j + 1).Stuck?
    ensures AfterWalks(g, islands, words, p, j).Progress? ==>
              AfterWalks(g, islands, words, p, j + 1) == OneWalkOn(g, islands, words, AfterWalks(g, islands, words, p, j))
  {
  }

  /** What one walk makes of the run. */
  lemma WalkLeads(g: ChunkGraph, islands: set<int>, words: Words, was: Progress)
    requires was.Progress?
    ensures var rest := Remaining(g, islands, was.tree);
            && (rest == [] ==> OneWalkOn(g, islands, words, was) == was)
            && (rest != [] ==>
                  var w := Walk(g, islands, words, was.pos, rest[0]);
                  && (!Arrives(w, was.tree) ==> OneWalkOn(g, islands, words, was).Stuck?)
                  && forall k: nat :: HitsAt(w, was.tree, k) ==>
                       var (open, tree) := ReplayFrom(StepsTaken(w, k), w.start, was.open, was.tree);
                       OneWalkOn(g, islands, words, was) == Progress(open, tree, WalkAt(w, k).1, was.spent + k))
  {
    hide HitsAt, ReplayFrom, StepsTaken, WalkAt, Remaining;
    var rest := Remaining(g, islands, was.tree);
    if rest != [] {
      var w := Walk(g, islands, words, was.pos, rest[0]);
      forall k: nat, k': nat | HitsAt(w, was.tree, k) && HitsAt(w, was.tree, k')
        ensures k == k'
      {
        HitsOnce(w, was.tree, k, k');
      }
    }
  }

  lemma RemainingAre(g: ChunkGraph, islands: set<int>, tree: set<int>)
    ensures forall c :: c in Remaining(g, islands, tree) ==> c in Land(g, islands) && c !in tree
    ensures Remaining(g, islands, tree) == [] <==> Land(g, islands) <= tree
  {
    hide Kept;
    forall c | c in Land(g, islands) && c !in tree
      ensures c in Remaining(g, islands, tree)
    {
      assert c in LandCells(g, islands);
    }
    if Remaining(g, islands, tree) != [] { assert Remaining(g, islands, tree)[0] in Remaining(g, islands, tree); }
  }

  /** A tree over some of the land. */
  ghost predicate Rooted(g: ChunkGraph, islands: set<int>, was: Progress) {
    was.Progress? && Growing(g, islands, was.open, was.tree) && was.tree != {} && was.tree <= Land(g, islands)
  }

  /** A walk that arrives leaves a larger tree, having cost its steps. */
  lemma WalkGrows(g: ChunkGraph, islands: set<int>, words: Words, was: Progress)
    requires IsChunkGraph(g) && LandConnected(g, islands) && Rooted(g, islands, was)
    ensures var next := OneWalkOn(g, islands, words, was);
            next.Progress? ==>
              && Rooted(g, islands, next) && was.spent <= next.spent && was.tree <= next.tree
              && (Remaining(g, islands, was.tree) != [] ==> |Land(g, islands) - next.tree| < |Land(g, islands) - was.tree|)
  {
    hide IsChunkGraph, LandConnected, Growing, OneWalkOn, HitsAt, ReplayFrom, StepsTaken, LastExits, WalkAt, Remaining, Recorded;
    WalkLeads(g, islands, words, was);
    RemainingAre(g, islands, was.tree);
    var rest := Remaining(g, islands, was.tree);
    if rest != [] && OneWalkOn(g, islands, words, was).Progress? {
      var w := Walk(g, islands, words, was.pos, rest[0]);
      var k: nat :| HitsAt(w, was.tree, k);
      assert rest[0] in rest;
      ArrivalGrows(g, islands, w, was, k);
    }
  }

  lemma ArrivalGrows(g: ChunkGraph, islands: set<int>, w: Walk, was: Progress, k: nat)
    requires IsChunkGraph(g) && LandConnected(g, islands) && Rooted(g, islands, was)
    requires w.graph == g && w.islands == islands && w.start in Land(g, islands) && w.start !in was.tree && HitsAt(w, was.tree, k)
    ensures var (open, tree) := ReplayFrom(StepsTaken(w, k), w.start, was.open, was.tree);
            && Growing(g, islands, open, tree) && tree != {} && was.tree <= tree <= Land(g, islands)
            && |Land(g, islands) - tree| < |Land(g, islands) - was.tree|
  {
    hide IsChunkGraph, LandConnected, Growing, ReplayFrom, StepsTaken, LastExits, WalkAt, Recorded;
    WalkRecords(w, was.tree, k);
    ReplayGrows(g, islands, was.open, was.tree, w.start, StepsTaken(w, k), LastExits(w, k), k, WalkAt(w, k).0);
    var (open, tree) := ReplayFrom(StepsTaken(w, k), w.start, was.open, was.tree);
    Grew(g, islands, open, tree, was.tree, w.start);
  }

  lemma Grew(g: ChunkGraph, islands: set<int>, open: EdgeSet, inTree: set<int>, before: set<int>, start: int)
    requires Growing(g, islands, open, inTree) && before + {start} <= inTree && start !in before && start in Land(g, islands)
    ensures inTree <= Land(g, islands) && |Land(g, islands) - inTree| < |Land(g, islands) - before|
  {
    Shrinks(Land(g, islands), before, start);
    SubsetSize(Land(g, islands) - inTree, Land(g, islands) - (before + {start}));
  }

  /** After j walks the tree has grown j times, unless it has reached everything. */
  lemma {:induction false} WalksKeep(g: ChunkGraph, islands: set<int>, words: Words, p: nat, j: nat)
    requires IsChunkGraph(g) && LandConnected(g, islands) && LandCells(g, islands) != []
    requires AfterWalks(g, islands, words, p, j).Progress?
    ensures var now := AfterWalks(g, islands, words, p, j);
            && Rooted(g, islands, now)
            && (Remaining(g, islands, now.tree) == [] || j + |Land(g, islands) - now.tree| < |g.cells|)
  {
    hide *;
    if j == 0 {
      FirstCell(g, islands, words, p);
    } else {
      OneMoreWalk(g, islands, words, p, j - 1);
      WalksKeep(g, islands, words, p, j - 1);
      var was := AfterWalks(g, islands, words, p, j - 1);
      WalkGrows(g, islands, words, was);
      WalkLeads(g, islands, words, was);
    }
  }

  lemma FirstCell(g: ChunkGraph, islands: set<int>, words: Words, p: nat)
    requires IsChunkGraph(g) && LandCells(g, islands) != []
    ensures var now := AfterWalks(g, islands, words, p, 0);
            now.Progress? && Rooted(g, islands, now) && |Land(g, islands) - now.tree| < |g.cells|
  {
    hide IsChunkGraph, Picked, Growing;
    RunBegins(g, islands, words, p);
    var (first, q) := Picked(words, p, LandCells(g, islands));
    PickedFrom(words, p, LandCells(g, islands));
    var land := Land(g, islands);
    assert first in land;
    GrowStarts(g, islands, first);
    Shrinks(land, {}, first);
    assert land - {} == land && {} + {first as int} == {first};
    SubsetSize(land, AllCells(g));
  }

  /** Later walks only add to what is spent, and one that never ends leaves no later ones. */
  lemma {:induction false} WalksGoOn(g: ChunkGraph, islands: set<int>, words: Words, p: nat, j: nat, j': nat)
    requires IsChunkGraph(g) && LandConnected(g, islands) && LandCells(g, islands) != [] && j <= j'
    requires AfterWalks(g, islands, words, p, j').Progress?
    ensures AfterWalks(g, islands, words, p, j).Progress?
    ensures AfterWalks(g, islands, words, p, j).spent <= AfterWalks(g, islands, words, p, j').spent
    decreases j'
  {
    hide *;
    if j < j' {
      OneMoreWalk(g, islands, words, p, j' - 1);
      WalksGoOn(g, islands, words, p, j, j' - 1);
      WalksKeep(g, islands, words, p, j' - 1);
      WalkGrows(g, islands, words, AfterWalks(g, islands, words, p, j' - 1));
    }
  }

  /** Once every cell is reached nothing changes any more. */
  lemma {:induction false} DoneStays(g: ChunkGraph, islands: set<int>, words: Words, p: nat, j: nat, j': nat)
    requires AfterWalks(g, islands, words, p, j).Progress? && Remaining(g, islands, AfterWalks(g, islands, words, p, j).tree) == [] && j <= j'
    ensures AfterWalks(g, islands, words, p, j') == AfterWalks(g, islands, words, p, j)
    decreases j'
  {
    hide *;
    if j < j' {
      DoneStays(g, islands, words, p, j, j' - 1);
      OneMoreWalk(g, islands, words, p, j' - 1);
      WalkLeads(g, islands, words, AfterWalks(g, islands, words, p, j));
    }
  }

  /** If all the walks arrive they leave a spanning tree. */
  lemma AllWalksSpan(g: ChunkGraph, islands: set<int>, words: Words, p: nat)
    requires IsChunkGraph(g) && LandConnected(g, islands) && LandCells(g, islands) != [] && AllWalks(g, islands, words, p).Progress?
    ensures Remaining(g, islands, AllWalks(g, islands, words, p).tree) == []
    ensures Spans(g, islands, AllWalks(g, islands, words, p).open)
  {
    hide IsChunkGraph, LandConnected, AfterWalks, Growing, Spans, Remaining;
    WalksKeep(g, islands, words, p, |g.cells|);
    var end := AllWalks(g, islands, words, p);
    RemainingAre(g, islands, end.tree);
    assert end.tree == Land(g, islands);
    GrownToLand(g, islands, end.open, end.tree);
  }

  lemma GrownToLand(g: ChunkGraph, islands: set<int>, open: EdgeSet, inTree: set<int>)
    requires Growing(g, islands, open, inTree) && inTree == Land(g, islands)
    ensures Spans(g, islands, open)
  {
  }

  /** Whatever is built is a spanning tree of the land. */
  lemma WilsonSpans(g: ChunkGraph, islands: set<int>, words: Words, p: nat, budget: nat)
    requires IsChunkGraph(g) && LandConnected(g, islands) && WilsonOf(g, islands, words, p, budget).Built?
    ensures Spans(g, islands, WilsonOf(g, islands, words, p, budget).open)
  {
    hide IsChunkGraph, LandConnected, Spans, AllWalks, LandCells;
    if LandCells(g, islands) == [] { NoLand(g, islands); } else { AllWalksSpan(g, islands, words, p); }
  }

  /**
   When buildWilson ends: some budget lets it end, and every larger one then
   gives the same tree, exactly when each of the walks the stream gives it
   reaches the tree.
   */
  lemma WilsonEndsExactlyWhenWalksArrive(g: ChunkGraph, islands: set<int>, words: Words, p: nat)
    requires IsChunkGraph(g) && LandConnected(g, islands)
    ensures (exists budget: nat :: WilsonOf(g, islands, words, p, budget).Built?) <==> EveryWalkArrives(g, islands, words, p)
    ensures forall b: nat, b': nat :: b <= b' && WilsonOf(g, islands, words, p, b).Built? ==>
              WilsonOf(g, islands, words, p, b') == WilsonOf(g, islands, words, p, b)
  {
    hide IsChunkGraph, LandConnected, LandCells, AfterWalks, Remaining;
    if LandCells(g, islands) == [] {
      assert WilsonOf(g, islands, words, p, 0).Built?;
    } else {
      var end := AllWalks(g, islands, words, p);
      if end.Progress? {
        assert WilsonOf(g, islands, words, p, end.spent).Built?;
        AllWalksSpan(g, islands, words, p);
        forall j: nat
          ensures AfterWalks(g, islands, words, p, j).Progress?
        {
          if j <= |g.cells| { WalksGoOn(g, islands, words, p, j, |g.cells|); } else { DoneStays(g, islands, words, p, |g.cells|, j); }
        }
      }
    }
  }

  // ---------- The algorithm ----------

  /** One random walk from start, until it reaches the tree. */
  method RandomWalk(g: ChunkGraph, islands: set<int>, s: Stream, inTree: set<int>, start: nat, budget: nat)
    returns (arrived: bool, nextStep: map<int, nat>, ghost m: nat, left: nat)
    requires IsChunkGraph(g) && Countable(g) && Fair(s.words) && LandConnected(g, islands)
    requires start in Land(g, islands) && inTree <= Land(g, islands) && inTree != {}
    modifies s
    ensures left == budget - m
    ensures var w := Walk(g, islands, s.words, old(s.pos), start);
            && nextStep == StepsTaken(w, m) && s.pos == WalkAt(w, m).1
            && (arrived ==> HitsAt(w, inTree, m))
            && (!arrived ==> m == budget && Apart(w, inTree, m + 1))
  {
    hide *;
    CountableCells(g);
    ghost var w := Walk(g, islands, s.words, s.pos, start);
    WalkBegins(w);
    ApartOneMore(w, inTree, 0);
    nextStep, m, left := map[], 0, budget;
    var cur := start;
    while cur !in inTree
      invariant left == budget - m && cur in Land(g, islands)
      invariant nextStep == StepsTaken(w, m) && (cur, s.pos) == WalkAt(w, m)
      invariant Apart(w, inTree, m)
      decreases left
    {
      ApartOneMore(w, inTree, m);
      if left == 0 {
        return false, nextStep, m, left;
      }
      left := left - 1;
      LandInRange(g, islands, cur);
      var neighbors := NonIslandNeighbors(g, islands, cur);
      WalkStep(w, inTree, m);
      WalkGoesOn(w, m);
      var nxt := PickOne(s, neighbors);
      nextStep, m := nextStep[cur := nxt], m + 1;
      cur := nxt;
    }
    ApartOneMore(w, inTree, m);
    arrived := true;
  }

  /** Replays the recorded steps from the walk's start, carving them into the tree. */
  method Replay(nextStep: map<int, nat>, start: nat, open0: EdgeSet, tree0: set<int>) returns (open: EdgeSet, inTree: set<int>)
    ensures (open, inTree) == ReplayFrom(nextStep, start, open0, tree0)
  {
    open, inTree := open0, tree0;
    var c := start;
    while c !in inTree
      invariant ReplayFrom(nextStep, c, open, inTree) == ReplayFrom(nextStep, start, open0, tree0)
      decreases nextStep.Keys - inTree
    {
      ReplayStep(nextStep, c, open, inTree);
      inTree := inTree + {c};
      if c !in nextStep {
        break;
      }
      assert nextStep.Keys - inTree < nextStep.Keys - (inTree - {c});
      var nc := nextStep[c];
      open := open + {NewEdgeKey(c, nc)};
      c := nc;
    }
  }

  /** The first listed cell outside the tree, or -1. */
  method FirstOutside(remaining: seq<nat>, inTree: set<int>) returns (startIdx: int)
    ensures -1 <= startIdx < |remaining|
    ensures startIdx >= 0 ==> remaining[startIdx] !in inTree && forall k :: 0 <= k < startIdx ==> remaining[k] in inTree
    ensures startIdx < 0 ==> forall c :: c in remaining ==> c in inTree
  {
    for i := 0 to |remaining|
      invariant forall k :: 0 <= k < i ==> remaining[k] in inTree
    {
      if remaining[i] !in inTree {
        return i;
      }
    }
    return -1;
  }

  /** One walk from a cell outside the tree, carved into it. */
  method AddWalk(g: ChunkGraph, islands: set<int>, s: Stream, open0: EdgeSet, inTree0: set<int>, walkStart: nat, budget: nat,
                 ghost p: nat, ghost j: nat, ghost was: Progress, ghost total: nat)
    returns (arrived: bool, open: EdgeSet, inTree: set<int>, left: nat)
    requires IsChunkGraph(g) && Countable(g) && LandConnected(g, islands) && Fair(s.words)
    requires Underway(g, islands, s.words, p, j, was) && budget <= total && was == Progress(open0, inTree0, s.pos, total - budget)
    requires Remaining(g, islands, inTree0) != [] && walkStart == Remaining(g, islands, inTree0)[0]
    modifies s
    ensures !arrived ==> WilsonOf(g, islands, s.words, p, total).OutOfBudget?
    ensures arrived ==> left <= budget && AfterWalks(g, islands, s.words, p, j + 1) == Progress(open, inTree, s.pos, total - left)
    ensures arrived ==> Underway(g, islands, s.words, p, j + 1, AfterWalks(g, islands, s.words, p, j + 1))
    ensures arrived ==> inTree0 <= inTree && |Land(g, islands) - inTree| < |Land(g, islands) - inTree0|
  {
    hide *;
    open, inTree := open0, inTree0;
    RootedOnLand(g, islands, s.words, p, j, was);
    RemainingAre(g, islands, inTree0);
    assert walkStart in Remaining(g, islands, inTree0);
    ghost var w := Walk(g, islands, s.words, s.pos, walkStart);
    var nextStep;
    ghost var m;
    arrived, nextStep, m, left := RandomWalk(g, islands, s, inTree0, walkStart, budget);
    if !arrived {
      WalkTooLong(g, islands, s.words, p, j, was, w, budget, total);
      return;
    }
    WalkDone(g, islands, s.words, p, j, was, w, m);
    open, inTree := Replay(nextStep, walkStart, open0, inTree0);
  }

  /** buildWilson, within a budget of steps. */
  method BuildWilson(g: ChunkGraph, islands: set<int>, s: Stream, budget: nat) returns (res: Result)
    requires IsChunkGraph(g) && Countable(g) && LandConnected(g, islands) && Fair(s.words)
    modifies s
    ensures res == WilsonOf(g, islands, s.words, old(s.pos), budget)
    ensures res.Built? ==> Spans(g, islands, res.open)
    ensures !EveryWalkArrives(g, islands, s.words, old(s.pos)) ==> res.OutOfBudget?
  {
    hide *;
    CountableCells(g);
    ghost var words, p := s.words, s.pos;
    if WilsonOf(g, islands, words, p, budget).Built? { WilsonSpans(g, islands, words, p, budget); }
    WilsonEndsExactlyWhenWalksArrive(g, islands, words, p);
    var open: EdgeSet := {};
    var nonIsland := NonIslandCells(g, islands);
    if |nonIsland| == 0 {
      NothingToBuild(g, islands, words, p, budget);
      return Built(open);
    }
    RunBegins(g, islands, words, p);
    SetsOut(g, islands, words, p);
    var first := PickOne(s, nonIsland);
    var inTree: set<int> := {first};
    var remaining := Without(nonIsland, inTree);
    RemainingIs(g, islands, inTree);
    var left: nat := budget;
    ghost var j: nat, was := 0, AfterWalks(g, islands, words, p, 0);
    while |remaining| > 0
      invariant left <= budget && was == Progress(open, inTree, s.pos, budget - left)
      invariant Underway(g, islands, words, p, j, was) && remaining == Remaining(g, islands, inTree)
      decreases |Land(g, islands) - inTree|
    {
      RemainingAre(g, islands, inTree);
      assert remaining[0] in remaining && remaining[0] !in inTree;
      var startIdx := FirstOutside(remaining, inTree);
      if startIdx < 0 {
        break;
      }
      ghost var before := inTree;
      var arrived;
      arrived, open, inTree, left := AddWalk(g, islands, s, open, inTree, remaining[startIdx], left, p, j, was, budget);
      if !arrived {
        return OutOfBudget;
      }
      StillRemaining(g, islands, before, inTree);
      remaining := Without(remaining, inTree);
      j, was := j + 1, AfterWalks(g, islands, words, p, j + 1);
    }
    WilsonIs(g, islands, words, p, j, was, budget);
    return Built(open);
  }

  /** After j walks, with every walk so far within the land's count of cells. */
  ghost predicate Underway(g: ChunkGraph, islands: set<int>, words: Words, p: nat, j: nat, was: Progress) {
    && was.Progress? && was == AfterWalks(g, islands, words, p, j) && LandCells(g, islands) != []
    && (Remaining(g, islands, was.tree) == [] || j + |Land(g, islands) - was.tree| < |g.cells|) && j <= |g.cells|
  }

  lemma SetsOut(g: ChunkGraph, islands: set<int>, words: Words, p: nat)
    requires IsChunkGraph(g) && LandConnected(g, islands) && LandCells(g, islands) != []
    ensures Underway(g, islands, words, p, 0, AfterWalks(g, islands, words, p, 0))
  {
    hide IsChunkGraph, LandConnected, AfterWalks, Remaining, Growing;
    FirstCell(g, islands, words, p);
  }

  lemma NothingToBuild(g: ChunkGraph, islands: set<int>, words: Words, p: nat, budget: nat)
    requires LandCells(g, islands) == []
    ensures WilsonOf(g, islands, words, p, budget) == Built({})
  {
  }

  lemma RootedOnLand(g: ChunkGraph, islands: set<int>, words: Words, p: nat, j: nat, was: Progress)
    requires IsChunkGraph(g) && LandConnected(g, islands) && Underway(g, islands, words, p, j, was)
    ensures was.Progress? && was.tree != {} && was.tree <= Land(g, islands)
  {
    hide IsChunkGraph, LandConnected, LandCells, AfterWalks, Remaining, Growing;
    WalksKeep(g, islands, words, p, j);
  }

  /** A walk that arrives brings the run one walk further. */
  lemma WalkDone(g: ChunkGraph, islands: set<int>, words: Words, p: nat, j: nat, was: Progress, w: Walk, m: nat)
    requires IsChunkGraph(g) && LandConnected(g, islands) && Underway(g, islands, words, p, j, was)
    requires Remaining(g, islands, was.tree) != [] && w == Walk(g, islands, words, was.pos, Remaining(g, islands, was.tree)[0])
    requires HitsAt(w, was.tree, m)
    ensures var (open, tree) := ReplayFrom(StepsTaken(w, m), w.start, was.open, was.tree);
            && AfterWalks(g, islands, words, p, j + 1) == Progress(open, tree, WalkAt(w, m).1, was.spent + m)
            && was.tree <= tree && |Land(g, islands) - tree| < |Land(g, islands) - was.tree|
    ensures Underway(g, islands, words, p, j + 1, AfterWalks(g, islands, words, p, j + 1))
  {
    hide IsChunkGraph, LandConnected, LandCells, AfterWalks, Remaining, Growing, ReplayFrom, StepsTaken, WalkAt, HitsAt, OneWalkOn;
    WalksKeep(g, islands, words, p, j);
    OneMoreWalk(g, islands, words, p, j);
    WalkLeads(g, islands, words, was);
    WalkGrows(g, islands, words, was);
  }

  lemma RemainingIs(g: ChunkGraph, islands: set<int>, tree: set<int>)
    ensures Remaining(g, islands, tree) == Kept(LandCells(g, islands), tree)
  {
  }

  lemma StillRemaining(g: ChunkGraph, islands: set<int>, tree: set<int>, tree': set<int>)
    requires tree <= tree'
    ensures Kept(Remaining(g, islands, tree), tree') == Remaining(g, islands, tree')
  {
    KeptTwice(LandCells(g, islands), tree, tree');
  }

  lemma {:induction false} KeptTwice(cells: seq<nat>, drop: set<int>, drop': set<int>)
    requires drop <= drop'
    ensures Kept(Kept(cells, drop), drop') == Kept(cells, drop')
    decreases |cells|
  {
    if cells != [] {
      hide Kept;
      var less, last := cells[..|cells| - 1], cells[|cells| - 1];
      assert cells == less + [last];
      KeptTwice(less, drop, drop');
      KeptMore(less, last, drop);
      KeptMore(less, last, drop');
      KeptMore(Kept(less, drop), last, drop');
      if last in drop { assert Kept(less, drop) + [] == Kept(less, drop); }
    }
  }

  /** A walk that has not arrived when the budget is spent makes the whole run cost more, or never end. */
  lemma WalkTooLong(g: ChunkGraph, islands: set<int>, words: Words, p: nat, j: nat, was: Progress, w: Walk, had: nat, budget: nat)
    requires IsChunkGraph(g) && LandConnected(g, islands) && Underway(g, islands, words, p, j, was)
    requires Remaining(g, islands, was.tree) != [] && w == Walk(g, islands, words, was.pos, Remaining(g, islands, was.tree)[0])
    requires had <= budget && was.spent == budget - had && Apart(w, was.tree, had + 1)
    ensures WilsonOf(g, islands, words, p, budget).OutOfBudget?
  {
    hide IsChunkGraph, LandConnected, LandCells, AfterWalks, Remaining, WalkAt, OneWalkOn, ReplayFrom, StepsTaken;
    if AllWalks(g, islands, words, p).Progress? {
      WalksGoOn(g, islands, words, p, j + 1, |g.cells|);
      OneMoreWalk(g, islands, words, p, j);
      WalkLeads(g, islands, words, was);
      var k: nat :| HitsAt(w, was.tree, k);
      assert k > had;
    }
  }

  /** Once nothing remains, the run so far is the whole run. */
  lemma WilsonIs(g: ChunkGraph, islands: set<int>, words: Words, p: nat, j: nat, was: Progress, budget: nat)
    requires Underway(g, islands, words, p, j, was) && was.spent <= budget && Remaining(g, islands, was.tree) == []
    ensures WilsonOf(g, islands, words, p, budget) == Built(was.open)
  {
    hide LandCells, AfterWalks, Remaining;
    DoneStays(g, islands, words, p, j, |g.cells|);
  }
}
