/** How many cells a cell lies from the nearest gate chunk's centre. */
module Depth {
  import opened GoInt
  import opened HexGrid
  import opened Lattices
  import opened Spirals

  /** A snapshot of a world's gate chunks over chunks of one radius. */
  datatype GateSet = GateSet(R: nat, members: set<Chunk>)

  datatype NewSetResult = Built(gates: GateSet) | NegativeRadius

  datatype Nearest = Nearest(depth: nat) | NoGate

  /** d is the least distance from cell to the centre of any member. */
  ghost predicate IsDepth(s: GateSet, cell: Coord, d: int) {
    && (exists g :: g in s.members && Distance(cell, Center(s.R, g)) == d)
    && forall g :: g in s.members ==> d <= Distance(cell, Center(s.R, g))
  }

  /** The depth found among the members within a number of rings of chunk c0. */
  ghost predicate IsDepthWithin(s: GateSet, cell: Coord, c0: Chunk, rings: int, found: bool, d: int) {
    && (found <==> exists g :: g in s.members && ChunkDistance(c0, g) < rings)
    && (found ==> exists g :: g in s.members && Distance(cell, Center(s.R, g)) == d)
    && (forall g :: g in s.members && ChunkDistance(c0, g) < rings ==> d <= Distance(cell, Center(s.R, g)))
  }

  function LowerBound(R: nat, ring: nat): int {
    CeilDiv(ring * CellCount(R), 2 * R + 1) - R
  }

  /** The stop rule is sound: no cell of chunk c0 is nearer than LowerBound(ring) to a chunk centre ring steps away or more. */
  lemma StopRuleSound(R: nat, cell: Coord, ch: Chunk, ring: nat)
    requires ring <= ChunkDistance(ChunkOf(R, cell), ch)
    ensures LowerBound(R, ring) <= Distance(cell, Center(R, ch))
  {
    var c0 := ChunkOf(R, cell);
    hide Hex, Center, CellCount, CeilDiv, ChunkOf;
    var n, m := CellCount(R), 2 * R + 1;
    var steps, apart := ChunkDistance(ch, c0), Distance(Center(R, ch), Center(R, c0));
    ChunkDistanceSymmetric(c0, ch);
    CentresSpread(R, ch, c0);
    CandidatesCover(R, cell);
    DistanceSymmetric(cell, Center(R, ch));
    Triangle(Center(R, ch), cell, Center(R, c0));
    CeilingBelow(n, m, ring, steps, apart);
  }

  lemma CentresSpread(R: nat, a: Chunk, b: Chunk)
    ensures CellCount(R) * ChunkDistance(a, b) <= (2 * R + 1) * Distance(Center(R, a), Center(R, b))
  {
    hide Hex, Center, CellCount;
    CentreSum(R, b.q, b.r, a.q - b.q, a.r - b.r);
    CentreSpread(R, a.q - b.q, a.r - b.r);
  }

  lemma CeilingBelow(n: nat, m: nat, ring: nat, steps: nat, apart: nat)
    requires 0 < m && ring <= steps && n * steps <= m * apart
    ensures CeilDiv(ring * n, m) <= apart
  {
    MulMonotone(ring, steps, n);
    var q := CeilDiv(ring * n, m);
    CeilDivIsCeiling(ring * n, m);
    if apart < q { MulMonotone(apart, q - 1, m); }
  }

  /** A ring at which the bound has passed the given depth. */
  function RingsFor(R: nat, depth: nat): nat {
    (depth + R) * (2 * R + 1)
  }

  /** The bound never decreases, and passes every depth. */
  lemma LowerBoundGrows(R: nat, ring: nat, depth: nat)
    ensures LowerBound(R, ring) <= LowerBound(R, ring + 1)
    ensures RingsFor(R, depth) <= ring ==> depth <= LowerBound(R, ring)
  {
    CeilingGrows(CellCount(R), 2 * R + 1, ring);
    if RingsFor(R, depth) <= ring {
      CeilingPasses(CellCount(R), 2 * R + 1, ring, depth + R);
    }
  }

  lemma CeilingGrows(n: nat, m: nat, ring: nat)
    requires 0 < m
    ensures CeilDiv(ring * n, m) <= CeilDiv((ring + 1) * n, m)
  {
    var q, q' := CeilDiv(ring * n, m), CeilDiv((ring + 1) * n, m);
    CeilDivIsCeiling(ring * n, m);
    CeilDivIsCeiling((ring + 1) * n, m);
    MulMonotone(ring, ring + 1, n);
    if q' < q { MulMonotone(q', q - 1, m); }
  }

  lemma CeilingPasses(n: nat, m: nat, ring: nat, v: nat)
    requires 0 < m && 1 <= n && v * m <= ring
    ensures v <= CeilDiv(ring * n, m)
  {
    var q := CeilDiv(ring * n, m);
    CeilDivIsCeiling(ring * n, m);
    MulMonotone(1, n, ring);
    if q < v { MulMonotone(q + 1, v, m); }
  }

  method NewSet(radius: int, gates: seq<Chunk>) returns (res: NewSetResult)
    ensures res.NegativeRadius? <==> radius < 0
    ensures res.Built? ==> res.gates.R == radius && forall g :: g in res.gates.members <==> g in gates
  {
    if radius < 0 {
      return NegativeRadius;
    }
    var members: set<Chunk> := {};
    for i := 0 to |gates|
      invariant forall g :: g in members <==> g in gates[..i]
    {
      members := members + {gates[i]};
    }
    assert gates[..|gates|] == gates;
    return Built(GateSet(radius, members));
  }

  /** The chunks n steps from centre, each once. */
  method RingChunksAround(centre: Chunk, n: nat) returns (out: seq<Chunk>)
    ensures forall ch :: ch in out <==> ChunkDistance(centre, ch) == n
  {
    if n == 0 {
      forall ch ensures ChunkDistance(centre, ch) == 0 <==> ch == centre { ChunkDistanceSymmetric(centre, ch); }
      return [centre];
    }
    out := [];
    for p := 0 to SIDES * n
      invariant |out| == p
      invariant forall k :: 0 <= k < p ==> out[k] == Around(centre, RingChunk(n, k))
    {
      out := out + [Around(centre, RingChunk(n, p))];
    }
    forall ch
      ensures ch in out <==> ChunkDistance(centre, ch) == n
    {
      RingAroundHas(centre, n, out, ch);
    }
  }

  function Around(centre: Chunk, off: Chunk): Chunk {
    Chunk(centre.q + off.q, centre.r + off.r)
  }

  lemma RingAroundHas(centre: Chunk, n: nat, out: seq<Chunk>, ch: Chunk)
    requires n >= 1 && |out| == SIDES * n
    requires forall k :: 0 <= k < |out| ==> out[k] == Around(centre, RingChunk(n, k))
    ensures ch in out <==> ChunkDistance(centre, ch) == n
  {
    hide RingChunk, RingStart, SpiralIndex, Hex;
    var off := Chunk(ch.q - centre.q, ch.r - centre.r);
    assert ChunkDistance(centre, ch) == ChunkDistance(ORIGIN_CHUNK, off);
    if ch in out {
      var k :| 0 <= k < |out| && out[k] == ch;
      RingWalk(n, k);
      assert off == RingChunk(n, k);
    }
    if ChunkDistance(centre, ch) == n {
      ChunkDistanceSymmetric(ORIGIN_CHUNK, off);
      RingWalkOnto(off);
      RingStartNext(n);
      assert out[SpiralIndex(off) - RingStart(n)] == ch;
    }
  }

  lemma RingVisited(s: GateSet, cell: Coord, c0: Chunk, ring: nat, found: bool, depth: nat)
    requires c0 == ChunkOf(s.R, cell) && IsDepthWithin(s, cell, c0, ring, found, depth)
    ensures found && depth <= LowerBound(s.R, ring) ==> IsDepth(s, cell, depth)
  {
    hide LowerBound, Distance, ChunkDistance, Center, ChunkOf;
    if found && depth <= LowerBound(s.R, ring) {
      forall g | g in s.members
        ensures depth <= Distance(cell, Center(s.R, g))
      {
        if ring <= ChunkDistance(c0, g) { StopRuleSound(s.R, cell, g, ring); }
      }
    }
  }

  /** One ring of the search. */
  method VisitRing(s: GateSet, cell: Coord, c0: Chunk, ring: nat, found0: bool, depth0: nat) returns (found: bool, depth: nat)
    requires c0 == ChunkOf(s.R, cell) && IsDepthWithin(s, cell, c0, ring, found0, depth0)
    ensures IsDepthWithin(s, cell, c0, ring + 1, found, depth)
    ensures found ==> (found0 && depth == depth0) || LowerBound(s.R, ring) <= depth
  {
    hide LowerBound, Distance, ChunkDistance, Center, ChunkOf;
    found, depth := found0, depth0;
    var chunks := RingChunksAround(c0, ring);
    for i := 0 to |chunks|
      invariant found <==> found0 || exists j :: 0 <= j < i && chunks[j] in s.members
      invariant found ==> (found0 && depth == depth0) ||
                          exists j :: 0 <= j < i && chunks[j] in s.members && Distance(cell, Center(s.R, chunks[j])) == depth
      invariant found0 ==> depth <= depth0
      invariant forall j :: 0 <= j < i && chunks[j] in s.members ==> depth <= Distance(cell, Center(s.R, chunks[j]))
    {
      var ch := chunks[i];
      if ch in s.members {
        var d := Distance(cell, Center(s.R, ch));
        if !found || d < depth {
          depth, found := d, true;
        }
      }
    }
    forall g | g in s.members && ChunkDistance(c0, g) < ring + 1
      ensures found && depth <= Distance(cell, Center(s.R, g))
    {
      if ChunkDistance(c0, g) == ring {
        assert g in chunks;
      }
    }
    if found && !found0 {
      var j :| 0 <= j < |chunks| && chunks[j] in s.members;
      assert chunks[j] in chunks;
    }
    if found && !(found0 && depth == depth0) {
      var j :| 0 <= j < |chunks| && chunks[j] in s.members && Distance(cell, Center(s.R, chunks[j])) == depth;
      assert chunks[j] in chunks;
      StopRuleSound(s.R, cell, chunks[j], ring);
    }
  }

  /** A ring by which the search is over: it has passed some gate, and the bound that gate's distance. */
  ghost function Far(s: GateSet, cell: Coord, c0: Chunk, g: Chunk): nat {
    ChunkDistance(c0, g) + RingsFor(s.R, Distance(cell, Center(s.R, g))) + 1
  }

  lemma NotPastFar(s: GateSet, cell: Coord, c0: Chunk, g: Chunk, ring: nat, found: bool, depth: nat)
    requires g in s.members && IsDepthWithin(s, cell, c0, ring, found, depth)
    requires !(found && depth <= LowerBound(s.R, ring))
    ensures ring < Far(s, cell, c0, g)
  {
    LowerBoundGrows(s.R, ring, Distance(cell, Center(s.R, g)));
  }

  /**
   depthSearch: widens ring by ring until no farther chunk centre can be
   nearer. It terminates, and its answer is exact; the last ring it visits is
   the last one whose bound is still below the depth.
   */
  method DepthSearch(s: GateSet, cell: Coord) returns (res: Nearest, lastRing: int)
    ensures res.NoGate? <==> s.members == {}
    ensures res.NoGate? ==> lastRing == -1
    ensures res.Nearest? ==> IsDepth(s, cell, res.depth)
    ensures res.Nearest? ==> 0 <= lastRing && LowerBound(s.R, lastRing) <= res.depth <= LowerBound(s.R, lastRing + 1)
  {
    hide LowerBound, Distance, ChunkDistance, Center, ChunkOf, Far;
    lastRing := -1;
    if s.members == {} {
      return NoGate, lastRing;
    }
    var c0, _ := Locate(s.R, cell);
    ghost var g0 :| g0 in s.members;
    ghost var far := Far(s, cell, c0, g0);
    var ring: nat, found, depth: nat := 0, false, 0;
    while !(found && depth <= LowerBound(s.R, ring))
      invariant lastRing == ring - 1 && ring <= far
      invariant IsDepthWithin(s, cell, c0, ring, found, depth)
      invariant found ==> ring > 0 && LowerBound(s.R, ring - 1) <= depth
      decreases far - ring
    {
      NotPastFar(s, cell, c0, g0, ring, found, depth);
      found, depth := VisitRing(s, cell, c0, ring, found, depth);
      lastRing := ring;
      ring := ring + 1;
    }
    RingVisited(s, cell, c0, ring, found, depth);
    return Nearest(depth), lastRing;
  }
}
