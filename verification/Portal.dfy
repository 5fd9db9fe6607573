/** The guaranteed passages through the border between two neighbouring chunks. */
module Portals {
  import opened GoInt
  import opened HexGrid
  import opened Lattices
  import opened Borders
  import opened Draws
  import opened SortedSeq
  import opened Params

  predicate ChunkLess(a: Chunk, b: Chunk) {
    if a.q != b.q then a.q < b.q else a.r < b.r
  }

  function Lesser(a: Chunk, b: Chunk): Chunk {
    if ChunkLess(b, a) then b else a
  }

  function Greater(a: Chunk, b: Chunk): Chunk {
    if ChunkLess(b, a) then a else b
  }

  lemma OrderFromEitherSide(a: Chunk, b: Chunk)
    ensures Lesser(a, b) == Lesser(b, a) && Greater(a, b) == Greater(b, a)
    ensures {Lesser(a, b), Greater(a, b)} == {a, b}
  {
  }

  predicate ChunksAdjacent(a: Chunk, b: Chunk) {
    exists d: Direction :: ChunkNeighbor(a, d) == b
  }

  lemma ChunksAdjacentBack(a: Chunk, b: Chunk)
    requires ChunksAdjacent(a, b)
    ensures ChunksAdjacent(b, a) && a != b
  {
    var d: Direction :| ChunkNeighbor(a, d) == b;
    assert ChunkNeighbor(b, Opposite(d)) == a;
  }

  /** The first direction from d on in which b lies from a, or the first direction of all. */
  function DirectionFrom(a: Chunk, b: Chunk, d: nat): (r: Direction)
    requires d <= 6
    decreases 6 - d
  {
    if d == 6 then DIR_E else if ChunkNeighbor(a, d) == b then d else DirectionFrom(a, b, d + 1)
  }

  lemma {:induction false} DirectionFound(a: Chunk, b: Chunk, d: nat, e: Direction)
    requires d <= e && ChunkNeighbor(a, e) == b
    ensures DirectionFrom(a, b, d) == e
    decreases e - d
  {
    DirectionsApart(a, d, e);
    if d < e { DirectionFound(a, b, d + 1, e); }
  }

  lemma DirectionsApart(a: Chunk, d: Direction, e: Direction)
    ensures ChunkNeighbor(a, d) == ChunkNeighbor(a, e) <==> d == e
  {
  }

  /** The border's faces in path order, seen from the lesser chunk. */
  function CandidateFaces(R: nat, a: Chunk, b: Chunk): (fs: seq<Face>)
    ensures |fs| == 2 * R + 1
  {
    var local := Border(R, DirectionFrom(Lesser(a, b), Greater(a, b), 0));
    var centre := Center(R, Lesser(a, b));
    seq(|local|, i requires 0 <= i < |local| => Translate(local[i], centre))
  }

  lemma CandidatesFromEitherSide(R: nat, a: Chunk, b: Chunk)
    ensures CandidateFaces(R, a, b) == CandidateFaces(R, b, a)
  {
    OrderFromEitherSide(a, b);
  }

  /** Side d of cell c leads from chunk a into chunk b. */
  predicate Leads(R: nat, a: Chunk, b: Chunk, c: Coord, d: Direction) {
    Holds(R, a, c) && Holds(R, b, Neighbor(c, d))
  }

  /** Face f lies between chunks a and b. */
  ghost predicate Between(R: nat, a: Chunk, b: Chunk, f: Face) {
    exists c: Coord, d: Direction :: Leads(R, a, b, c, d) && FaceOf(c, d) == f
  }

  lemma BetweenBack(R: nat, a: Chunk, b: Chunk, f: Face)
    requires Between(R, a, b, f)
    ensures Between(R, b, a, f)
  {
    var c, d :| Leads(R, a, b, c, d) && FaceOf(c, d) == f;
    OppositeReturns(c, d);
    FaceNamesOneBoundary(c, d, Neighbor(c, d), Opposite(d));
    assert Leads(R, b, a, Neighbor(c, d), Opposite(d));
  }

  lemma LeadsIsCrossing(R: nat, a: Chunk, e: Direction, c: Coord, d: Direction)
    ensures Leads(R, a, ChunkNeighbor(a, e), c, d) <==> Crosses(R, e, Local(R, a, c), d)
  {
    hide Hex, Center, Shift, Inside, Delta;
    var delta := ChunkNeighbor(ORIGIN_CHUNK, e);
    CentreSum(R, a.q, a.r, delta.q, delta.r);
    ShiftIsOffset(R, e);
    var centre, centre', n := Center(R, a), Center(R, ChunkNeighbor(a, e)), Neighbor(c, d);
    assert centre' == Plus(centre, Shift(R, e));
    InsideIsHeld(R, c, centre);
    InsideIsHeld(R, n, centre');
    var m := Neighbor(Local(R, a, c), d);
    assert Coord(m.q - Shift(R, e).q, m.r - Shift(R, e).r) == Coord(n.q - centre'.q, n.r - centre'.r);
  }

  /**
   Whichever chunk asks, the candidates are exactly the faces between the two
   chunks, each once; and two of them touch exactly when they are consecutive.
   */
  lemma CandidatesAreTheBorder(R: nat, a: Chunk, b: Chunk)
    requires ChunksAdjacent(a, b)
    ensures forall f :: f in CandidateFaces(R, a, b) <==> Between(R, a, b, f)
    ensures forall i, j :: 0 <= i < j < 2 * R + 1 ==> CandidateFaces(R, a, b)[i] != CandidateFaces(R, a, b)[j]
    ensures forall i, j :: 0 <= i < j < 2 * R + 1 ==>
              (ShareVertex(CandidateFaces(R, a, b)[i], CandidateFaces(R, a, b)[j]) <==> j == i + 1)
  {
    hide Between, Border, ShareVertex, Leads;
    ChunksAdjacentBack(a, b);
    var l, g := Lesser(a, b), Greater(a, b);
    var e: Direction :| ChunkNeighbor(l, e) == g;
    DirectionFound(l, g, 0, e);
    var centre := Center(R, l);
    forall i, j | 0 <= i < j < 2 * R + 1
      ensures CandidateFaces(R, a, b)[i] != CandidateFaces(R, a, b)[j]
      ensures ShareVertex(CandidateFaces(R, a, b)[i], CandidateFaces(R, a, b)[j]) <==> j == i + 1
    {
      BorderDistinct(R, e, i, j);
      OnlyConsecutiveTouch(R, e, i, j);
      TouchTranslates(Border(R, e)[i], Border(R, e)[j], centre);
    }
    forall f | f in CandidateFaces(R, a, b)
      ensures Between(R, a, b, f)
    {
      var i :| 0 <= i < 2 * R + 1 && CandidateFaces(R, a, b)[i] == f;
      CandidateIsBetween(R, l, e, i);
      if l == b { BetweenBack(R, l, g, f); }
    }
    forall f | Between(R, a, b, f)
      ensures f in CandidateFaces(R, a, b)
    {
      if l == b { BetweenBack(R, a, b, f); }
      var i := BetweenIsCandidate(R, l, e, f);
      assert CandidateFaces(R, a, b)[i] == f;
    }
  }

  lemma TouchTranslates(f: Face, g: Face, v: Coord)
    ensures ShareVertex(Translate(f, v), Translate(g, v)) <==> ShareVertex(f, g)
    ensures Translate(f, v) == Translate(g, v) <==> f == g
  {
    hide ShareVertex;
    var back := Coord(0 - v.q, 0 - v.r);
    assert Translate(Translate(f, v), back) == f && Translate(Translate(g, v), back) == g;
    if ShareVertex(f, g) { VertexTranslates(f, g, v); }
    if ShareVertex(Translate(f, v), Translate(g, v)) { VertexTranslates(Translate(f, v), Translate(g, v), back); }
  }

  lemma CandidateIsBetween(R: nat, l: Chunk, e: Direction, i: nat)
    requires i < 2 * R + 1
    ensures Between(R, l, ChunkNeighbor(l, e), Translate(Border(R, e)[i], Center(R, l)))
  {
    hide Border, Leads, Crosses, Center;
    BorderFaceCrosses(R, e, i);
    var c, d :| Crosses(R, e, c, d) && FaceOf(c, d) == Border(R, e)[i];
    var centre := Center(R, l);
    FaceOfTranslates(c, d, centre);
    assert Local(R, l, Plus(c, centre)) == c;
    LeadsIsCrossing(R, l, e, Plus(c, centre), d);
  }

  lemma BetweenIsCandidate(R: nat, l: Chunk, e: Direction, f: Face) returns (i: nat)
    requires Between(R, l, ChunkNeighbor(l, e), f)
    ensures i < 2 * R + 1 && Translate(Border(R, e)[i], Center(R, l)) == f
  {
    hide Border, Leads, Crosses, Center;
    var c, d :| Leads(R, l, ChunkNeighbor(l, e), c, d) && FaceOf(c, d) == f;
    var centre := Center(R, l);
    var local := Local(R, l, c);
    LeadsIsCrossing(R, l, e, c, d);
    CrossingOnBorder(R, e, local, d);
    FaceOfTranslates(local, d, centre);
    assert Plus(local, centre) == c;
    i :| 0 <= i < 2 * R + 1 && Border(R, e)[i] == FaceOf(local, d);
  }

  /** borderCandidates. */
  method BorderCandidates(R: nat, a: Chunk, b: Chunk) returns (candidates: seq<Face>)
    ensures candidates == CandidateFaces(R, a, b)
  {
    var lesser, greater := Lesser(a, b), Greater(a, b);
    var dir: Direction := DIR_E;
    for d := 0 to 6
      invariant dir == DIR_E
      invariant DirectionFrom(lesser, greater, 0) == DirectionFrom(lesser, greater, d)
    {
      if ChunkNeighbor(lesser, d) == greater {
        dir := d;
        break;
      }
    }
    assert dir == DirectionFrom(lesser, greater, 0);
    var centre := Center(R, lesser);
    var local := ListBorder(R, dir);
    candidates := [];
    for i := 0 to |local|
      invariant candidates == CandidateFaces(R, a, b)[..i]
    {
      candidates := candidates + [Face(Coord(centre.q + local[i].cell.q, centre.r + local[i].cell.r), local[i].dir)];
    }
  }

  // ---------- Non-consecutive positions ----------

  /** Increasing positions below n: a subset of them, listed. */
  ghost predicate Subset(n: int, s: seq<int>) {
    && (forall i :: 0 <= i < |s| ==> 0 <= s[i] < n)
    && forall i, j :: 0 <= i < j < |s| ==> s[i] < s[j]
  }

  /** Increasing positions below l, no two of them consecutive. */
  ghost predicate Placement(l: int, p: seq<int>) {
    && (forall i :: 0 <= i < |p| ==> 0 <= p[i] < l)
    && forall i, j :: 0 <= i < j < |p| ==> p[i] + 2 <= p[j]
  }

  /** Adds each position's own rank. */
  function Spread(s: seq<int>): (p: seq<int>) {
    seq(|s|, i requires 0 <= i < |s| => s[i] + i)
  }

  function Squeeze(p: seq<int>): (s: seq<int>) {
    seq(|p|, i requires 0 <= i < |p| => p[i] - i)
  }

  lemma {:induction false} SubsetRoom(n: int, s: seq<int>, i: nat, j: nat)
    requires Subset(n, s) && i <= j < |s|
    ensures s[i] + (j - i) <= s[j]
    decreases j - i
  {
    if i < j { SubsetRoom(n, s, i, j - 1); }
  }

  lemma {:induction false} PlacementRoom(l: int, p: seq<int>, i: nat, j: nat)
    requires Placement(l, p) && i <= j < |p|
    ensures p[i] + 2 * (j - i) <= p[j]
    decreases j - i
  {
    if i < j { PlacementRoom(l, p, i, j - 1); }
  }

  /** The rank map carries the subsets of l - count + 1 slots onto the non-touching placements in l, and back. */
  lemma SpreadIsBijection(l: int, s: seq<int>, p: seq<int>)
    ensures Subset(l - |s| + 1, s) ==> Placement(l, Spread(s)) && Squeeze(Spread(s)) == s
    ensures Placement(l, p) ==> Subset(l - |p| + 1, Squeeze(p)) && Spread(Squeeze(p)) == p
  {
    if Subset(l - |s| + 1, s) {
      forall i | 0 <= i < |s| ensures s[i] + i < l { SubsetRoom(l - |s| + 1, s, i, |s| - 1); }
      assert Squeeze(Spread(s)) == s;
    }
    if Placement(l, p) {
      forall i | 0 <= i < |p|
        ensures i <= p[i] && p[i] - i < l - |p| + 1
      {
        PlacementRoom(l, p, 0, i);
        PlacementRoom(l, p, i, |p| - 1);
      }
      forall i, j | 0 <= i < j < |p|
        ensures p[i] - i < p[j] - j
      {
        PlacementRoom(l, p, i, j);
      }
      assert Spread(Squeeze(p)) == p;
    }
  }

  function Ranks(n: nat): (r: seq<int>)
    ensures |r| == n && forall i :: 0 <= i < n ==> r[i] == i
  {
    seq(n, i => i)
  }

  /** The positions the stream draws from position p on. */
  ghost function Positions(words: Words, p: nat, l: nat, count: nat): (r: seq<int>)
    requires Fair(words) && count <= l - count + 1 && l < MAX_UINT64
    ensures |r| == count
  {
    if count == 0 then []
    else
      var ranks := Ranks(l - count + 1);
      ShuffleLength(words, p, ranks, |ranks| - 1);
      var chosen := Shuffled(words, p, ranks).0[..count];
      SortSorts(chosen);
      Spread(Sort(chosen))
  }

  lemma ShuffleLength<T>(words: Words, p: nat, items: seq<T>, i: int)
    requires Fair(words) && i < |items| && |items| <= MAX_UINT64
    ensures |ShuffleFrom(words, p, items, i).0| == |items|
  {
    ShufflePermutes(words, p, items, i);
    SameLength(ShuffleFrom(words, p, items, i).0, items);
  }

  lemma SameLength<T>(a: seq<T>, b: seq<T>)
    requires multiset(a) == multiset(b)
    ensures |a| == |b|
  {
    assert |multiset(a)| == |a| && |multiset(b)| == |b|;
  }

  /** Every draw is a placement of exactly count positions. */
  lemma PositionsArePlacement(words: Words, p: nat, l: nat, count: nat)
    requires Fair(words) && count <= l - count + 1 && l < MAX_UINT64
    ensures Placement(l, Positions(words, p, l, count))
  {
    hide *;
    var positions := Positions(words, p, l, count);
    if count == 0 {
      NonePlaced(l, positions);
    } else {
      PositionsAre(words, p, l, count);
      var shuffled, n := Shuffled(words, p, Ranks(l - count + 1)).0, l - count + 1;
      ChosenAreSubset(shuffled, n, count);
      var chosen := Sort(shuffled[..count]);
      SpreadIsPlacement(l, n, chosen);
    }
  }

  lemma SpreadIsPlacement(l: int, n: int, chosen: seq<int>)
    requires n == l - |chosen| + 1 && Subset(n, chosen)
    ensures Placement(l, Spread(chosen))
  {
    hide *;
    SpreadIsBijection(l, chosen, chosen);
  }

  lemma NonePlaced(l: nat, none: seq<int>)
    requires none == []
    ensures Placement(l, none)
  {
  }

  lemma PositionsAre(words: Words, p: nat, l: nat, count: nat)
    requires Fair(words) && 0 < count <= l - count + 1 && l < MAX_UINT64
    ensures var shuffled := Shuffled(words, p, Ranks(l - count + 1)).0;
            && multiset(shuffled) == multiset(Ranks(l - count + 1)) && count <= |shuffled|
            && Positions(words, p, l, count) == Spread(Sort(shuffled[..count]))
  {
    hide ShuffleFrom, Sort, Spread, Fair;
    var ranks := Ranks(l - count + 1);
    ShuffleLength(words, p, ranks, |ranks| - 1);
    ShufflePermutes(words, p, ranks, |ranks| - 1);
  }

  lemma ChosenAreSubset(shuffled: seq<int>, n: nat, count: nat)
    requires multiset(shuffled) == multiset(Ranks(n)) && count <= |shuffled|
    ensures Subset(n, Sort(shuffled[..count])) && |Sort(shuffled[..count])| == count
  {
    hide Sort;
    RanksShuffled(shuffled, n);
    var chosen := shuffled[..count];
    SortSorts(chosen);
    SortedDistinct(Sort(chosen), chosen);
    forall i | 0 <= i < count
      ensures 0 <= Sort(chosen)[i] < n
    {
      assert Sort(chosen)[i] in chosen;
    }
  }

  lemma RanksShuffled(s: seq<int>, n: nat)
    requires multiset(s) == multiset(Ranks(n))
    ensures forall i :: 0 <= i < |s| ==> 0 <= s[i] < n
    ensures forall i, j :: 0 <= i < j < |s| ==> s[i] != s[j]
  {
    forall i | 0 <= i < |s|
      ensures 0 <= s[i] < n
    {
      assert s[i] in multiset(s);
      assert s[i] in multiset(Ranks(n));
    }
    StillDistinct(s, Ranks(n));
  }

  lemma SortedDistinct(sorted: seq<int>, s: seq<int>)
    requires Sorted(sorted) && multiset(sorted) == multiset(s)
    requires forall i, j :: 0 <= i < j < |s| ==> s[i] != s[j]
    ensures forall i, j :: 0 <= i < j < |sorted| ==> sorted[i] < sorted[j]
  {
    StillDistinct(sorted, s);
  }

  /** nonConsecutivePositions. */
  method NonConsecutivePositions(s: Stream, l: nat, count: int) returns (chosen: seq<int>)
    requires Fair(s.words) && count <= l - count + 1 && l < MAX_UINT64
    modifies s
    ensures chosen == Positions(s.words, old(s.pos), l, if count < 0 then 0 else count)
    ensures Placement(l, chosen)
  {
    hide Shuffled, ShuffleFrom;
    PositionsArePlacement(s.words, s.pos, l, if count < 0 then 0 else count);
    if count <= 0 {
      return [];
    }
    var slots := l - count + 1;
    var pool := new int[slots];
    for i := 0 to slots
      invariant s.pos == old(s.pos)
      invariant forall k :: 0 <= k < i ==> pool[k] == k
    {
      pool[i] := i;
    }
    assert pool[..] == Ranks(slots);
    Shuffle(s, pool);
    assert pool[..] == Shuffled(s.words, old(s.pos), Ranks(slots)).0;
    assert pool[..count] == pool[..][..count];
    SortSorts(pool[..count]);
    chosen := SpreadOut(Sort(pool[..count]));
  }

  /** Shifts each chosen slot by its rank. */
  method SpreadOut(sorted: seq<int>) returns (chosen: seq<int>)
    ensures chosen == Spread(sorted)
  {
    chosen := sorted;
    for i := 0 to |chosen|
      invariant |chosen| == |sorted|
      invariant forall k :: 0 <= k < i ==> chosen[k] == sorted[k] + k
      invariant forall k :: i <= k < |sorted| ==> chosen[k] == sorted[k]
    {
      chosen := chosen[i := chosen[i] + i];
    }
  }

  // ---------- A border's portals ----------

  ghost function Picked(candidates: seq<Face>, positions: seq<int>): set<Face>
    requires forall i :: 0 <= i < |positions| ==> 0 <= positions[i] < |candidates|
  {
    set i | 0 <= i < |positions| :: candidates[positions[i]]
  }

  /** How many portals the stream draws for a border of l faces. */
  ghost function PortalCount(words: Words, p: nat, lo: nat, hi: nat): (r: (nat, nat))
    requires Fair(words) && lo <= hi && hi - lo < MAX_UINT64
    ensures lo <= r.0 <= hi
  {
    DrawRange(words, p, hi - lo + 1);
    (lo + Draw(words, p, hi - lo + 1).0, Draw(words, p, hi - lo + 1).1)
  }

  /** The bounds a validated share pair gives a border of l faces. */
  ghost predicate BoundsOk(lo: int, hi: int, l: nat) {
    0 <= lo <= hi <= l - hi + 1 && l < MAX_UINT64
  }

  /** The portals a border's stream gives: a function of the stream, the candidate list and the bounds alone. */
  ghost function PortalsOf(words: Words, candidates: seq<Face>, lo: nat, hi: nat): set<Face>
    requires Fair(words) && BoundsOk(lo, hi, |candidates|)
  {
    if candidates == [] then {}
    else
      var (count, p) := PortalCount(words, 0, lo, hi);
      PositionsArePlacement(words, p, |candidates|, count);
      Picked(candidates, Positions(words, p, |candidates|, count))
  }

  /** selectPortals, on a fresh stream. */
  method SelectPortals(candidates: seq<Face>, s: Stream, lower: real, upper: real) returns (portals: set<Face>)
    requires Fair(s.words) && s.pos == 0
    requires BoundsOk(CeilShare(lower, |candidates|), CeilShare(upper, |candidates|), |candidates|)
    modifies s
    ensures portals == PortalsOf(s.words, candidates, CeilShare(lower, |candidates|), CeilShare(upper, |candidates|))
  {
    hide Positions, Draw, CeilShare;
    portals := {};
    var l := |candidates|;
    if l == 0 {
      return;
    }
    var lo, hi := CeilShare(lower, l), CeilShare(upper, l);
    var drawn := BoundedDraw(s, hi - lo + 1);
    var count := lo + drawn;
    ghost var p := s.pos;
    assert PortalCount(s.words, 0, lo, hi) == (count, p);
    var positions := NonConsecutivePositions(s, l, count);
    for i := 0 to |positions|
      invariant portals == Picked(candidates, positions[..i])
    {
      PickedMore(candidates, positions, i);
      portals := portals + {candidates[positions[i]]};
    }
    assert positions[..|positions|] == positions;
  }

  lemma PickedMore(candidates: seq<Face>, positions: seq<int>, i: nat)
    requires forall k :: 0 <= k < |positions| ==> 0 <= positions[k] < |candidates|
    requires i < |positions|
    ensures Picked(candidates, positions[..i + 1]) == Picked(candidates, positions[..i]) + {candidates[positions[i]]}
  {
    var more, less := positions[..i + 1], positions[..i];
    assert forall k :: 0 <= k < i ==> more[k] == less[k];
    forall f | f in Picked(candidates, more)
      ensures f in Picked(candidates, less) + {candidates[positions[i]]}
    {
      var k :| 0 <= k < |more| && candidates[more[k]] == f;
      if k < i { assert candidates[less[k]] == f; }
    }
    forall f | f in Picked(candidates, less) + {candidates[positions[i]]}
      ensures f in Picked(candidates, more)
    {
      if f in Picked(candidates, less) {
        var k :| 0 <= k < |less| && candidates[less[k]] == f;
        assert candidates[more[k]] == f;
      } else {
        assert candidates[more[i]] == f;
      }
    }
  }

  lemma {:induction false} PickedCount(candidates: seq<Face>, positions: seq<int>)
    requires Placement(|candidates|, positions)
    requires forall i, j :: 0 <= i < j < |candidates| ==> candidates[i] != candidates[j]
    ensures |Picked(candidates, positions)| == |positions|
    decreases |positions|
  {
    if positions != [] {
      var k := |positions| - 1;
      PickedCount(candidates, positions[..k]);
      PickedMore(candidates, positions, k);
      assert positions[..k + 1] == positions;
    } else {
      assert Picked(candidates, positions) == {};
    }
  }

  /** Every border gets between lo and hi portals, all of them faces between its two chunks, no two of them touching. */
  lemma PortalsAreApart(words: Words, R: nat, a: Chunk, b: Chunk, lo: nat, hi: nat)
    requires Fair(words) && BoundsOk(lo, hi, 2 * R + 1) && ChunksAdjacent(a, b)
    ensures var portals := PortalsOf(words, CandidateFaces(R, a, b), lo, hi);
            && lo <= |portals| <= hi
            && (forall f :: f in portals ==> Between(R, a, b, f))
            && forall f, g :: f in portals && g in portals ==> !ShareVertex(f, g)
  {
    hide CandidateFaces, Between, ShareVertex, Positions;
    var candidates := CandidateFaces(R, a, b);
    CandidatesAreTheBorder(R, a, b);
    var (count, p) := PortalCount(words, 0, lo, hi);
    PositionsArePlacement(words, p, |candidates|, count);
    var positions := Positions(words, p, |candidates|, count);
    PickedCount(candidates, positions);
    forall f, g | f in Picked(candidates, positions) && g in Picked(candidates, positions)
      ensures !ShareVertex(f, g)
    {
      var i :| 0 <= i < |positions| && candidates[positions[i]] == f;
      var j :| 0 <= j < |positions| && candidates[positions[j]] == g;
      if i < j {
        assert positions[i] + 2 <= positions[j];
      } else if j < i {
        assert positions[j] + 2 <= positions[i];
        if ShareVertex(f, g) { ShareVertexBack(f, g); }
      } else {
        NeverTouchesItself(f);
      }
    }
  }

  lemma NeverTouchesItself(f: Face)
    ensures !ShareVertex(f, f)
  {
  }

  // ---------- Every allowed choice of portals can be drawn ----------

  /** The numbers below n that are not listed, ascending. */
  function Rest(n: nat, chosen: seq<int>): (r: seq<int>) {
    if n == 0 then [] else Rest(n - 1, chosen) + if n - 1 in chosen then [] else [n - 1]
  }

  lemma {:induction false} RestCounts(n: nat, chosen: seq<int>, x: int)
    ensures multiset(Rest(n, chosen))[x] == if 0 <= x < n && x !in chosen then 1 else 0
  {
    hide *;
    if n == 0 {
      NoRest(chosen);
    } else {
      var less, y := Rest(n - 1, chosen), n - 1;
      RestCounts(y, chosen, x);
      RestMore(y, chosen);
      OneMoreCounts(less, y, x);
    }
  }

  lemma NoRest(chosen: seq<int>)
    ensures Rest(0, chosen) == []
  {
  }

  lemma {:induction false} RankCounts(n: nat, x: int)
    ensures multiset(Ranks(n))[x] == if 0 <= x < n then 1 else 0
  {
    if n > 0 {
      RankCounts(n - 1, x);
      assert Ranks(n) == Ranks(n - 1) + [n - 1];
      hide Ranks;
      OneMoreCounts(Ranks(n - 1), n - 1, x);
    }
  }

  lemma RestMore(n: nat, chosen: seq<int>)
    ensures Rest(n + 1, chosen) == if n in chosen then Rest(n, chosen) else Rest(n, chosen) + [n]
  {
    assert Rest(n, chosen) + [] == Rest(n, chosen);
  }

  lemma OneMoreCounts(s: seq<int>, y: int, x: int)
    ensures multiset(s + [y])[x] == multiset(s)[x] + if x == y then 1 else 0
  {
  }

  lemma {:induction false} SubsetCounts(n: nat, chosen: seq<int>, x: int)
    requires Subset(n, chosen)
    ensures multiset(chosen)[x] == if x in chosen then 1 else 0
    ensures x in chosen ==> 0 <= x < n
    decreases |chosen|
  {
    if chosen != [] {
      var less, last := chosen[..|chosen| - 1], chosen[|chosen| - 1];
      assert chosen == less + [last];
      SubsetCounts(n, less, x);
    }
  }

  /** A subset listed first, and then the rest, is an order of all the ranks. */
  lemma ChosenFirst(n: nat, chosen: seq<int>)
    requires Subset(n, chosen)
    ensures multiset(chosen + Rest(n, chosen)) == multiset(Ranks(n))
  {
    hide Subset, Ranks, Rest;
    forall x
      ensures multiset(chosen + Rest(n, chosen))[x] == multiset(Ranks(n))[x]
    {
      RestCounts(n, chosen, x);
      RankCounts(n, x);
      SubsetCounts(n, chosen, x);
    }
  }

  lemma SortOfSubset(n: int, s: seq<int>)
    requires Subset(n, s)
    ensures Sort(s) == s
  {
    SortSorts(s);
    hide Sort;
    SortedUnique(Sort(s), s);
  }

  /** The portal rule's choice on a stream that first draws the count and then shuffles the chosen ranks to the front. */
  lemma DrawnAre(words: Words, candidates: seq<Face>, lo: nat, hi: nat, p: nat, chosen: seq<int>)
    requires Fair(words) && BoundsOk(lo, hi, |candidates|) && candidates != [] && lo <= |chosen| <= hi
    requires PortalCount(words, 0, lo, hi) == (|chosen|, p)
    requires var n := |candidates| - |chosen| + 1; Subset(n, chosen) && Shuffled(words, p, Ranks(n)).0 == chosen + Rest(n, chosen)
    ensures Placement(|candidates|, Spread(chosen)) && PortalsOf(words, candidates, lo, hi) == Picked(candidates, Spread(chosen))
  {
    hide *;
    var n := |candidates| - |chosen| + 1;
    BoundsAre(lo, hi, |candidates|);
    SpreadIsBijection(|candidates|, chosen, []);
    ByPositions(words, candidates, lo, hi, |chosen|, p);
    if chosen == [] {
      NoPositions(words, p, |candidates|);
    } else {
      PositionsAre(words, p, |candidates|, |chosen|);
      assert (chosen + Rest(n, chosen))[..|chosen|] == chosen;
      SortOfSubset(n, chosen);
    }
    assert Positions(words, p, |candidates|, |chosen|) == Spread(chosen) by { if chosen == [] { NothingSpread(chosen); } }
  }

  lemma BoundsAre(lo: int, hi: int, l: nat)
    requires BoundsOk(lo, hi, l)
    ensures 0 <= lo <= hi <= l - hi + 1 && l < MAX_UINT64
  {
  }

  lemma ByPositions(words: Words, candidates: seq<Face>, lo: nat, hi: nat, count: nat, p: nat)
    requires Fair(words) && BoundsOk(lo, hi, |candidates|) && candidates != [] && PortalCount(words, 0, lo, hi) == (count, p)
    ensures count <= |candidates| - count + 1 && Placement(|candidates|, Positions(words, p, |candidates|, count))
    ensures PortalsOf(words, candidates, lo, hi) == Picked(candidates, Positions(words, p, |candidates|, count))
  {
    hide Picked, Positions, Placement;
    PositionsArePlacement(words, p, |candidates|, count);
  }

  lemma NoPositions(words: Words, p: nat, l: nat)
    requires Fair(words) && l < MAX_UINT64
    ensures Positions(words, p, l, 0) == []
  {
  }

  lemma NothingSpread(none: seq<int>)
    requires none == []
    ensures Spread(none) == []
  {
  }

  /**
   Every choice the bounds allow is some fair stream's: any number of portals from
   lo to hi, at any positions no two of which are consecutive.
   */
  lemma EveryPlacementIsDrawn(candidates: seq<Face>, lo: nat, hi: nat, positions: seq<int>) returns (words: Words)
    requires BoundsOk(lo, hi, |candidates|) && candidates != [] && lo <= |positions| <= hi && Placement(|candidates|, positions)
    ensures Fair(words) && PortalsOf(words, candidates, lo, hi) == Picked(candidates, positions)
  {
    hide PortalsOf, Shuffled, Fair, Draw, Rest, Picked, Ranks, Distinct;
    var chosen, n := Squeeze(positions), |candidates| - |positions| + 1;
    SpreadIsBijection(|candidates|, [], positions);
    ChosenFirst(n, chosen);
    RanksDistinct(n);
    var head: seq<Word> := if lo == hi then [] else [|positions| - lo];
    words := EveryOrderIsShuffled(head, Ranks(n), chosen + Rest(n, chosen));
    if lo < hi { SmallValueDrawn(words, 0, hi - lo + 1); } else { NoDraw(words, hi - lo + 1); }
    DrawnAre(words, candidates, lo, hi, |head|, chosen);
  }

  lemma NoDraw(words: Words, n: nat)
    requires n <= 1
    ensures Draw(words, 0, n) == (0, 0)
  {
  }

  lemma RanksDistinct(n: nat)
    ensures |Ranks(n)| == n && Distinct(Ranks(n))
  {
  }

  /** Both sides of a border draw the same portals from its one stream. */
  lemma PortalsFromEitherSide(words: Words, R: nat, a: Chunk, b: Chunk, lo: nat, hi: nat)
    requires Fair(words) && BoundsOk(lo, hi, 2 * R + 1)
    ensures PortalsOf(words, CandidateFaces(R, a, b), lo, hi) == PortalsOf(words, CandidateFaces(R, b, a), lo, hi)
  {
    CandidatesFromEitherSide(R, a, b);
  }
}
