/** Kruskal over shuffled interior faces, with component marks relabelled on every merge. */
module Kruskal {
  import opened Draws
  import opened SortedSeq
  import opened Graphs
  import opened ChunkGraphs
  import opened Spanning

  /** Two cells carry one mark exactly when open links them. */
  ghost predicate LabelsMatch(mark: seq<int>, open: EdgeSet) {
    forall u, v :: 0 <= u < |mark| && 0 <= v < |mark| ==> (mark[u] == mark[v] <==> Linked(open, u, v))
  }

  ghost function LabelsOf(mark: seq<int>, vs: set<int>): set<int>
    requires forall v :: v in vs ==> 0 <= v < |mark|
  {
    set v | v in vs :: mark[v]
  }

  /** open is a forest over the land with as many trees as there are marks. */
  ghost predicate IsForest(g: ChunkGraph, islands: set<int>, open: EdgeSet, mark: seq<int>) {
    && |mark| == |g.cells| && LabelsMatch(mark, open)
    && open <= LandEdges(g, islands) && Acyclic(open)
    && |open| + |LabelsOf(mark, Land(g, islands))| == |Land(g, islands)|
  }

  function Relabelled(mark: seq<int>, was: int, now: int): (r: seq<int>)
    ensures |r| == |mark| && forall i :: 0 <= i < |mark| ==> r[i] == if mark[i] == was then now else mark[i]
  {
    seq(|mark|, i requires 0 <= i < |mark| => if mark[i] == was then now else mark[i])
  }

  lemma RelabelMatches(mark: seq<int>, open: EdgeSet, a: nat, b: nat)
    requires LabelsMatch(mark, open) && a < |mark| && b < |mark|
    ensures LabelsMatch(Relabelled(mark, mark[a], mark[b]), open + {NewEdgeKey(a, b)})
  {
    var r := Relabelled(mark, mark[a], mark[b]);
    forall u, v | 0 <= u < |mark| && 0 <= v < |mark|
      ensures r[u] == r[v] <==> Linked(open + {NewEdgeKey(a, b)}, u, v)
    {
      LinkedWithOneMoreEdge(open, a, b, u, v);
      assert mark[u] == mark[v] <==> Linked(open, u, v);
      assert mark[u] == mark[a] <==> Linked(open, u, a);
      assert mark[u] == mark[b] <==> Linked(open, u, b);
      assert mark[b] == mark[v] <==> Linked(open, b, v);
      assert mark[a] == mark[v] <==> Linked(open, a, v);
    }
  }

  lemma RelabelCounts(mark: seq<int>, vs: set<int>, a: nat, b: nat)
    requires forall v :: v in vs ==> 0 <= v < |mark|
    requires a in vs && b in vs && mark[a] != mark[b]
    ensures |LabelsOf(Relabelled(mark, mark[a], mark[b]), vs)| == |LabelsOf(mark, vs)| - 1
  {
    var r := Relabelled(mark, mark[a], mark[b]);
    assert mark[a] in LabelsOf(mark, vs);
    forall x
      ensures x in LabelsOf(r, vs) <==> x in LabelsOf(mark, vs) - {mark[a]}
    {
      if x in LabelsOf(mark, vs) && x != mark[a] {
        var v :| v in vs && mark[v] == x;
        assert r[v] == x;
      }
      if x in LabelsOf(r, vs) {
        var v :| v in vs && r[v] == x;
        assert x == mark[b] || x == mark[v];
      }
    }
    assert LabelsOf(r, vs) == LabelsOf(mark, vs) - {mark[a]};
  }

  lemma ForestStarts(g: ChunkGraph, islands: set<int>, mark: seq<int>)
    requires |mark| == |g.cells| && forall i :: 0 <= i < |mark| ==> mark[i] == i
    ensures IsForest(g, islands, {}, mark)
  {
    var vs := Land(g, islands);
    assert LabelsOf(mark, vs) == vs by {
      forall v | v in vs ensures v in LabelsOf(mark, vs) { assert mark[v] == v; }
    }
    forall u, v | 0 <= u < |mark| && 0 <= v < |mark|
      ensures mark[u] == mark[v] <==> Linked({}, u, v)
    {
      LinkedSelf({}, u);
      if Linked({}, u, v) {
        var p :| IsPath({}, p, u, v);
        PathStaysWithin({}, {u}, p, u, v);
      }
    }
  }

  lemma ForestMerges(g: ChunkGraph, islands: set<int>, open: EdgeSet, mark: seq<int>, f: InteriorFace)
    requires IsChunkGraph(g) && IsForest(g, islands, open, mark)
    requires IsInteriorFace(g, f) && f.a !in islands && f.b !in islands && mark[f.a] != mark[f.b]
    ensures IsForest(g, islands, open + {KeyOf(f)}, Relabelled(mark, mark[f.a], mark[f.b]))
  {
    hide IsChunkGraph, Neighbors;
    RelabelMatches(mark, open, f.a, f.b);
    RelabelCounts(mark, Land(g, islands), f.a, f.b);
    AcyclicWithOneMoreEdge(open, f.a, f.b);
    FacesAreEdges(g, f, f);
    GraphEdgesHas(g, Land(g, islands), f.a, f.b);
  }

  /** When every edge of e is linked in e', so is every path. */
  lemma {:induction false} PathRefines(e: EdgeSet, e': EdgeSet, p: seq<int>, u: int, v: int)
    requires IsPath(e, p, u, v)
    requires forall x, y :: Has(e, x, y) ==> Linked(e', x, y)
    ensures Linked(e', u, v)
    decreases |p|
  {
    if |p| == 1 {
      LinkedSelf(e', u);
    } else {
      assert Has(e, p[0], p[1]);
      assert IsPath(e, p[1..], p[1], v);
      PathRefines(e, e', p[1..], p[1], v);
      LinkedThrough(e', u, p[1], v);
    }
  }

  /** Once every land face has been offered, the forest links all that the land's own faces link. */
  lemma ForestComplete(g: ChunkGraph, islands: set<int>, open: EdgeSet, mark: seq<int>)
    requires IsChunkGraph(g) && IsForest(g, islands, open, mark)
    requires forall f :: IsInteriorFace(g, f) && f.a !in islands && f.b !in islands ==> mark[f.a] == mark[f.b]
    ensures forall u, v :: Linked(LandEdges(g, islands), u, v) <==> Linked(open, u, v)
  {
    hide IsChunkGraph, Neighbors;
    var e := LandEdges(g, islands);
    forall x, y | Has(e, x, y)
      ensures Linked(open, x, y)
    {
      GraphEdgesHas(g, Land(g, islands), x, y);
      var f := FaceOfEdge(g, x, y);
      assert mark[f.a] == mark[f.b];
      assert Linked(open, f.a, f.b);
      LinkedBack(open, f.a, f.b);
    }
    forall u, v
      ensures Linked(e, u, v) <==> Linked(open, u, v)
    {
      if Linked(e, u, v) {
        var p :| IsPath(e, p, u, v);
        PathRefines(e, open, p, u, v);
      } else if Linked(open, u, v) {
        LinkedInMore(open, e, u, v);
      }
    }
  }

  lemma OneTree(g: ChunkGraph, islands: set<int>, open: EdgeSet, mark: seq<int>)
    requires IsChunkGraph(g) && IsForest(g, islands, open, mark) && LandConnected(g, islands)
    requires forall u, v :: Linked(LandEdges(g, islands), u, v) <==> Linked(open, u, v)
    ensures Spans(g, islands, open)
  {
    hide IsChunkGraph, Neighbors;
    var vs := Land(g, islands);
    GraphEdgesHas(g, vs, 0, 0);
    if vs == {} {
      assert open == {};
    } else {
      var u :| u in vs;
      forall v | v in vs
        ensures mark[v] == mark[u]
      {
        assert Linked(open, u, v);
      }
      assert LabelsOf(mark, vs) == {mark[u]};
    }
  }

  // ---------- The algorithm, as a function of the stream ----------

  /** Those of the faces that have no island on either side, in order. */
  function LandOnly(faces: seq<InteriorFace>, islands: set<int>): (r: seq<InteriorFace>)
    ensures |r| <= |faces| && forall f :: f in r <==> f in faces && f.a !in islands && f.b !in islands
  {
    if faces == [] then []
    else
      var less, last := faces[..|faces| - 1], faces[|faces| - 1];
      assert faces == less + [last];
      LandOnly(less, islands) + if last.a in islands || last.b in islands then [] else [last]
  }

  lemma LandOnlyMore(faces: seq<InteriorFace>, f: InteriorFace, islands: set<int>)
    ensures LandOnly([], islands) == []
    ensures LandOnly(faces + [f], islands) == LandOnly(faces, islands) + if f.a in islands || f.b in islands then [] else [f]
  {
    assert (faces + [f])[..|faces|] == faces;
  }

  lemma {:induction false} LandOnlyInOrder(faces: seq<InteriorFace>, islands: set<int>)
    requires InFaceOrder(faces)
    ensures InFaceOrder(LandOnly(faces, islands))
    decreases |faces|
  {
    if faces != [] {
      var less, last := faces[..|faces| - 1], faces[|faces| - 1];
      LandOnlyInOrder(less, islands);
      var kept := LandOnly(less, islands);
      forall i | 0 <= i < |kept|
        ensures FaceBefore(kept[i], last)
      {
        assert kept[i] in kept && kept[i] in less;
        var k :| 0 <= k < |less| && less[k] == kept[i];
        assert less[k] == faces[k];
      }
    }
  }

  function LandFaceList(g: ChunkGraph, islands: set<int>): seq<InteriorFace> {
    LandOnly(FacesBelow(g, |g.cells|), islands)
  }

  /** The land's faces: each once, and fewer than can be counted in 64 bits. */
  lemma LandFacesAre(g: ChunkGraph, islands: set<int>)
    requires IsChunkGraph(g)
    ensures forall f :: f in LandFaceList(g, islands) <==> IsInteriorFace(g, f) && f.a !in islands && f.b !in islands
    ensures InFaceOrder(LandFaceList(g, islands))
    ensures |LandFaceList(g, islands)| <= 6 * |g.cells|
  {
    FacesBelowAre(g, |g.cells|);
    LandOnlyInOrder(FacesBelow(g, |g.cells|), islands);
    hide IsChunkGraph, IsInteriorFace, InFaceOrder, FacesBelow;
    forall f | IsInteriorFace(g, f) ensures f.a < |g.cells| { FaceStartsInside(g, f); }
  }

  lemma OrderedDiffer(faces: seq<InteriorFace>)
    requires InFaceOrder(faces)
    ensures forall i, j :: 0 <= i < j < |faces| ==> faces[i] != faces[j]
  {
    forall i, j | 0 <= i < j < |faces| ensures faces[i] != faces[j] { assert FaceBefore(faces[i], faces[j]); }
  }

  datatype Forest = Forest(marks: seq<int>, open: EdgeSet)

  predicate InRange(mark: seq<int>, f: InteriorFace) {
    f.a < |mark| && f.b < |mark|
  }

  /** A face between differently marked cells is opened, and the one mark becomes the other. */
  function Merged(forest: Forest, f: InteriorFace): Forest {
    var mark := forest.marks;
    if !InRange(mark, f) || mark[f.a] == mark[f.b] then forest
    else Forest(Relabelled(mark, mark[f.a], mark[f.b]), forest.open + {KeyOf(f)})
  }

  /** The forest over n cells after the first i faces. */
  function MergedAll(n: nat, faces: seq<InteriorFace>, i: nat): Forest
    requires i <= |faces|
  {
    if i == 0 then Forest(seq(n, k => k), {}) else Merged(MergedAll(n, faces, i - 1), faces[i - 1])
  }

  lemma MergedMore(n: nat, faces: seq<InteriorFace>, i: nat)
    requires i < |faces|
    ensures MergedAll(n, faces, i + 1) == Merged(MergedAll(n, faces, i), faces[i])
  {
  }

  lemma NoneMerged(n: nat, faces: seq<InteriorFace>)
    ensures MergedAll(n, faces, 0) == Forest(seq(n, k => k), {})
  {
  }

  /** The order buildKruskal offers the land's faces in. */
  ghost function OfferOrder(g: ChunkGraph, islands: set<int>, words: Words, p: nat): seq<InteriorFace> {
    Shuffled(words, p, LandFaceList(g, islands)).0
  }

  ghost function ForestOf(g: ChunkGraph, islands: set<int>, words: Words, p: nat): Forest {
    var order := OfferOrder(g, islands, words, p);
    MergedAll(|g.cells|, order, |order|)
  }

  lemma SameElements<T>(s: seq<T>, s': seq<T>)
    requires multiset(s) == multiset(s')
    ensures forall x :: x in s <==> x in s'
  {
    forall x ensures x in s <==> x in s' { assert x in s <==> x in multiset(s); assert x in s' <==> x in multiset(s'); }
  }

  lemma OfferedAre(g: ChunkGraph, islands: set<int>, words: Words, p: nat)
    requires IsChunkGraph(g)
    ensures forall f :: f in OfferOrder(g, islands, words, p) <==> IsInteriorFace(g, f) && f.a !in islands && f.b !in islands
  {
    LandFacesAre(g, islands);
    hide IsChunkGraph, IsInteriorFace, LandFaceList, ShuffleFrom;
    var listed := LandFaceList(g, islands);
    ShufflePermutes(words, p, listed, |listed| - 1);
    SameElements(OfferOrder(g, islands, words, p), listed);
  }

  /** What the merging keeps: a forest, and every face offered so far inside one of its trees. */
  ghost predicate Merging(g: ChunkGraph, islands: set<int>, faces: seq<InteriorFace>, forest: Forest, i: nat)
    requires i <= |faces|
  {
    && IsForest(g, islands, forest.open, forest.marks)
    && forall k :: 0 <= k < i ==> InRange(forest.marks, faces[k]) && forest.marks[faces[k].a] == forest.marks[faces[k].b]
  }

  lemma MergeStep(g: ChunkGraph, islands: set<int>, faces: seq<InteriorFace>, forest: Forest, i: nat)
    requires IsChunkGraph(g) && i < |faces| && Merging(g, islands, faces, forest, i)
    requires IsInteriorFace(g, faces[i]) && faces[i].a !in islands && faces[i].b !in islands
    ensures Merging(g, islands, faces, Merged(forest, faces[i]), i + 1)
  {
    hide IsChunkGraph, LabelsMatch, LabelsOf, LandEdges, Acyclic, IsInteriorFace;
    var f := faces[i];
    FaceStartsInside(g, f);
    MarksCount(g, islands, forest);
    hide IsForest;
    if forest.marks[f.a] != forest.marks[f.b] { ForestMerges(g, islands, forest.open, forest.marks, f); }
  }

  lemma MarksCount(g: ChunkGraph, islands: set<int>, forest: Forest)
    requires IsForest(g, islands, forest.open, forest.marks)
    ensures |forest.marks| == |g.cells|
  {
  }

  lemma {:induction false} MergingKept(g: ChunkGraph, islands: set<int>, faces: seq<InteriorFace>, i: nat)
    requires IsChunkGraph(g) && i <= |faces|
    requires forall f :: f in faces ==> IsInteriorFace(g, f) && f.a !in islands && f.b !in islands
    ensures Merging(g, islands, faces, MergedAll(|g.cells|, faces, i), i)
  {
    hide IsChunkGraph, IsInteriorFace, IsForest, Merged;
    if i == 0 {
      ForestStarts(g, islands, seq(|g.cells|, k => k));
    } else {
      MergingKept(g, islands, faces, i - 1);
      MergeStep(g, islands, faces, MergedAll(|g.cells|, faces, i - 1), i - 1);
    }
  }

  /**
   On any stream whatever and for any islands at all: a forest that links exactly
   what the land's faces link, its marks telling which cells are linked; a
   spanning tree when the land is connected.
   */
  lemma ForestSpans(g: ChunkGraph, islands: set<int>, words: Words, p: nat)
    requires IsChunkGraph(g)
    ensures var forest := ForestOf(g, islands, words, p);
            && IsForest(g, islands, forest.open, forest.marks)
            && (forall u, v :: Linked(LandEdges(g, islands), u, v) <==> Linked(forest.open, u, v))
            && (LandConnected(g, islands) ==> Spans(g, islands, forest.open))
  {
    var order, forest := OfferOrder(g, islands, words, p), ForestOf(g, islands, words, p);
    OfferedAre(g, islands, words, p);
    hide IsChunkGraph, IsInteriorFace, IsForest, LandConnected, Spans, LandEdges, Linked, OfferOrder, MergedAll;
    MergingKept(g, islands, order, |order|);
    forall f | IsInteriorFace(g, f) && f.a !in islands && f.b !in islands
      ensures InRange(forest.marks, f) && forest.marks[f.a] == forest.marks[f.b]
    {
      assert f in order;
      var k :| 0 <= k < |order| && order[k] == f;
    }
    ForestComplete(g, islands, forest.open, forest.marks);
    if LandConnected(g, islands) { OneTree(g, islands, forest.open, forest.marks); }
  }

  // ---------- Which faces are opened ----------

  /** The faces offered before the k-th. */
  ghost function OfferedBefore(order: seq<InteriorFace>, k: nat): EdgeSet
    requires k <= |order|
  {
    set f | f in order[..k] :: KeyOf(f)
  }

  lemma {:induction false} MergedWithin(n: nat, faces: seq<InteriorFace>, k: nat)
    requires k <= |faces|
    ensures MergedAll(n, faces, k).open <= OfferedBefore(faces, k)
  {
    hide KeyOf, Relabelled;
    if k > 0 {
      MergedWithin(n, faces, k - 1);
      assert faces[..k] == faces[..k - 1] + [faces[k - 1]];
    }
  }

  ghost predicate KeysDiffer(faces: seq<InteriorFace>) {
    forall i, j :: 0 <= i < j < |faces| ==> KeyOf(faces[i]) != KeyOf(faces[j])
  }

  /** A face is opened at its own turn or never. */
  lemma {:induction false} OpenedAtItsTurn(n: nat, faces: seq<InteriorFace>, k: nat, i: nat)
    requires KeysDiffer(faces) && k < |faces| && i <= |faces|
    ensures KeyOf(faces[k]) in MergedAll(n, faces, i).open <==>
            k < i && var marks := MergedAll(n, faces, k).marks; InRange(marks, faces[k]) && marks[faces[k].a] != marks[faces[k].b]
    decreases i
  {
    hide KeyOf, Relabelled;
    if i > 0 { OpenedAtItsTurn(n, faces, k, i - 1); }
  }

  /** What has been offered is linked by what has been opened. */
  lemma OfferedAreLinked(g: ChunkGraph, islands: set<int>, faces: seq<InteriorFace>, forest: Forest, k: nat, u: int, v: int)
    requires IsChunkGraph(g) && k <= |faces| && Merging(g, islands, faces, forest, k)
    requires forall f :: f in faces ==> IsInteriorFace(g, f)
    requires forest.open <= OfferedBefore(faces, k)
    ensures Linked(OfferedBefore(faces, k), u, v) <==> Linked(forest.open, u, v)
  {
    hide IsChunkGraph, IsInteriorFace, Acyclic, LandEdges, LabelsOf;
    var e := OfferedBefore(faces, k);
    forall x, y | Has(e, x, y)
      ensures Linked(forest.open, x, y)
    {
      var f :| f in faces[..k] && KeyOf(f) == NewEdgeKey(x, y);
      var j :| 0 <= j < k && faces[j] == f;
      assert forest.marks[f.a] == forest.marks[f.b];
      FaceStartsInside(g, f);
      assert Linked(forest.open, f.a, f.b);
      LinkedBack(forest.open, f.a, f.b);
    }
    hide Linked, OfferedBefore, Merging, LabelsMatch;
    if Linked(e, u, v) {
      LinkedRefines(e, forest.open, u, v);
    } else if Linked(forest.open, u, v) {
      LinkedInMore(forest.open, e, u, v);
    }
  }

  lemma LinkedRefines(e: EdgeSet, e': EdgeSet, u: int, v: int)
    requires Linked(e, u, v) && forall x, y :: Has(e, x, y) ==> Linked(e', x, y)
    ensures Linked(e', u, v)
  {
    var p :| IsPath(e, p, u, v);
    PathRefines(e, e', p, u, v);
  }

  /** The land's faces are offered each once, in the shuffled order. */
  lemma OfferedOnce(g: ChunkGraph, islands: set<int>, words: Words, p: nat)
    requires IsChunkGraph(g)
    ensures KeysDiffer(OfferOrder(g, islands, words, p))
  {
    OfferedAre(g, islands, words, p);
    LandFacesAre(g, islands);
    hide IsChunkGraph, IsInteriorFace, LandFaceList, ShuffleFrom, KeyOf;
    var listed, order := LandFaceList(g, islands), OfferOrder(g, islands, words, p);
    OrderedDiffer(listed);
    ShufflePermutes(words, p, listed, |listed| - 1);
    StillDistinct(order, listed);
    forall i, j | 0 <= i < j < |order|
      ensures KeyOf(order[i]) != KeyOf(order[j])
    {
      assert order[i] in order && order[j] in order;
      FacesAreEdges(g, order[i], order[j]);
    }
  }

  /** Whatever order of the land's faces is wanted, some fair stream offers them in it. */
  lemma AnyOrderIsOffered(g: ChunkGraph, islands: set<int>, order: seq<InteriorFace>) returns (words: Words)
    requires IsChunkGraph(g) && Countable(g) && multiset(order) == multiset(LandFaceList(g, islands))
    ensures Fair(words) && OfferOrder(g, islands, words, 0) == order
  {
    LandFacesAre(g, islands);
    OrderedDiffer(LandFaceList(g, islands));
    CountableCells(g);
    hide IsChunkGraph, IsInteriorFace, LandFaceList, Shuffled, Fair, InFaceOrder;
    words := EveryOrderIsShuffled([], LandFaceList(g, islands), order);
  }

  /** A face is opened exactly when the faces offered before it do not already link the two cells it is between. */
  lemma OpenedExactlyWhenSeparate(g: ChunkGraph, islands: set<int>, words: Words, p: nat, k: nat)
    requires IsChunkGraph(g) && k < |OfferOrder(g, islands, words, p)|
    ensures var order := OfferOrder(g, islands, words, p);
            KeyOf(order[k]) in ForestOf(g, islands, words, p).open <==> !Linked(OfferedBefore(order, k), order[k].a, order[k].b)
  {
    var order := OfferOrder(g, islands, words, p);
    OfferedAre(g, islands, words, p);
    OfferedOnce(g, islands, words, p);
    OpenedAtItsTurn(|g.cells|, order, k, |order|);
    MergingKept(g, islands, order, k);
    MergedWithin(|g.cells|, order, k);
    var f, forest := order[k], MergedAll(|g.cells|, order, k);
    assert f in order;
    OfferedAreLinked(g, islands, order, forest, k, f.a, f.b);
    FaceStartsInside(g, f);
    MarksTell(g, islands, order, forest, k, f.a, f.b);
    hide *;
    ForestIs(g, islands, words, p);
  }

  lemma ForestIs(g: ChunkGraph, islands: set<int>, words: Words, p: nat)
    ensures var order := OfferOrder(g, islands, words, p); ForestOf(g, islands, words, p) == MergedAll(|g.cells|, order, |order|)
  {
    hide OfferOrder, MergedAll;
  }

  lemma MarksTell(g: ChunkGraph, islands: set<int>, faces: seq<InteriorFace>, forest: Forest, k: nat, u: nat, v: nat)
    requires k <= |faces| && Merging(g, islands, faces, forest, k) && u < |g.cells| && v < |g.cells|
    ensures |forest.marks| == |g.cells| && (forest.marks[u] == forest.marks[v] <==> Linked(forest.open, u, v))
  {
    hide Linked, Acyclic, LandEdges, LabelsOf;
  }

  // ---------- The algorithm ----------

  /** nonIslandInteriorFaces. */
  method LandFaces(g: ChunkGraph, islands: set<int>) returns (out: seq<InteriorFace>)
    requires IsChunkGraph(g) && Countable(g)
    ensures out == LandFaceList(g, islands)
    ensures forall f :: f in out <==> IsInteriorFace(g, f) && f.a !in islands && f.b !in islands
    ensures forall i, j :: 0 <= i < j < |out| ==> out[i] != out[j]
    ensures |out| <= MAX_UINT64
  {
    LandFacesAre(g, islands);
    OrderedDiffer(LandFaceList(g, islands));
    LandListIs(g, islands);
    CountableCells(g);
    hide *;
    var all := InteriorFaces(g);
    out := DropIslandFaces(all, islands);
  }

  lemma LandListIs(g: ChunkGraph, islands: set<int>)
    ensures LandFaceList(g, islands) == LandOnly(FacesBelow(g, |g.cells|), islands)
  {
  }

  method DropIslandFaces(all: seq<InteriorFace>, islands: set<int>) returns (out: seq<InteriorFace>)
    ensures out == LandOnly(all, islands)
  {
    hide LandOnly;
    out := [];
    for i := 0 to |all|
      invariant out == LandOnly(all[..i], islands)
    {
      assert all[..i + 1] == all[..i] + [all[i]];
      LandOnlyMore(all[..i], all[i], islands);
      if all[i].a !in islands && all[i].b !in islands {
        out := out + [all[i]];
      }
    }
    LandOnlyMore([], InteriorFace(0, 0, 0), islands);
    assert all[..|all|] == all;
  }

  method Relabel(mark: array<int>, was: int, now: int)
    modifies mark
    ensures mark[..] == Relabelled(old(mark[..]), was, now)
  {
    for i := 0 to mark.Length
      invariant forall k :: 0 <= k < i ==> mark[k] == if old(mark[k]) == was then now else old(mark[k])
      invariant forall k :: i <= k < mark.Length ==> mark[k] == old(mark[k])
    {
      if mark[i] == was {
        mark[i] := now;
      }
    }
  }

  /** The merging pass over the shuffled faces. */
  method MergeFaces(n: nat, faces: seq<InteriorFace>) returns (open: EdgeSet, mark: array<int>)
    requires forall f :: f in faces ==> f.a < n && f.b < n
    ensures fresh(mark) && Forest(mark[..], open) == MergedAll(n, faces, |faces|)
  {
    hide MergedAll;
    open := {};
    mark := new int[n](i => i);
    NoneMerged(n, faces);
    assert mark[..] == seq(n, k => k);
    for i := 0 to |faces|
      invariant mark.Length == n && fresh(mark)
      invariant Forest(mark[..], open) == MergedAll(n, faces, i)
    {
      var f := faces[i];
      assert f in faces;
      MergedMore(n, faces, i);
      if mark[f.a] != mark[f.b] {
        open := open + {KeyOf(f)};
        var was, now := mark[f.a], mark[f.b];
        Relabel(mark, was, now);
      }
    }
  }

  /** buildKruskal, for any islands at all. */
  method BuildKruskal(g: ChunkGraph, islands: set<int>, s: Stream) returns (open: EdgeSet, ghost marks: seq<int>)
    requires IsChunkGraph(g) && Countable(g) && Fair(s.words)
    modifies s
    ensures Forest(marks, open) == ForestOf(g, islands, s.words, old(s.pos))
    ensures IsForest(g, islands, open, marks)
    ensures forall u, v :: Linked(LandEdges(g, islands), u, v) <==> Linked(open, u, v)
    ensures LandConnected(g, islands) ==> Spans(g, islands, open)
  {
    ForestSpans(g, islands, s.words, s.pos);
    OfferedInRange(g, islands, s.words, s.pos);
    OrderIs(g, islands, s.words, s.pos);
    hide *;
    ghost var order := OfferOrder(g, islands, s.words, s.pos);
    var faces := ShuffleFaces(g, islands, s);
    var mark;
    open, mark := MergeFaces(|g.cells|, faces);
    marks := mark[..];
  }

  /** The land's faces, shuffled. */
  method ShuffleFaces(g: ChunkGraph, islands: set<int>, s: Stream) returns (order: seq<InteriorFace>)
    requires IsChunkGraph(g) && Countable(g) && Fair(s.words)
    modifies s
    ensures order == OfferOrder(g, islands, s.words, old(s.pos))
  {
    OrderIs(g, islands, s.words, s.pos);
    hide *;
    var listed := LandFaces(g, islands);
    var faces := new InteriorFace[|listed|](i requires 0 <= i < |listed| => listed[i]);
    assert faces[..] == listed;
    Shuffle(s, faces);
    order := faces[..];
  }

  lemma OfferedInRange(g: ChunkGraph, islands: set<int>, words: Words, p: nat)
    requires IsChunkGraph(g)
    ensures forall f :: f in OfferOrder(g, islands, words, p) ==> f.a < |g.cells| && f.b < |g.cells|
  {
    OfferedAre(g, islands, words, p);
    hide IsChunkGraph, IsInteriorFace, OfferOrder;
    forall f | f in OfferOrder(g, islands, words, p)
      ensures f.a < |g.cells| && f.b < |g.cells|
    {
      FaceStartsInside(g, f);
    }
  }

  lemma OrderIs(g: ChunkGraph, islands: set<int>, words: Words, p: nat)
    ensures OfferOrder(g, islands, words, p) == Shuffled(words, p, LandFaceList(g, islands)).0
    ensures var order := OfferOrder(g, islands, words, p); ForestOf(g, islands, words, p) == MergedAll(|g.cells|, order, |order|)
  {
  }
}
