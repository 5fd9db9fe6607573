/** The next chunk gate placement uses. */
module NextGate {
  import opened HexGrid
  import opened GoInt
  import opened Spirals

  datatype NextResult = Placed(ch: Chunk) | NegativeK

  /** ch is not yet created and keeps distance at least k+1 from every gate. */
  ghost predicate Admissible(ch: Chunk, created: seq<Chunk>, gates: seq<Chunk>, k: int) {
    ch !in created && Spaced(ch, gates, k)
  }

  ghost predicate Spaced(ch: Chunk, gates: seq<Chunk>, k: int) {
    forall g :: g in gates ==> k + 1 <= ChunkDistance(ch, g)
  }

  /** Of all chunks in the spiral's order, ch is the first admissible one. */
  ghost predicate Earliest(ch: Chunk, created: seq<Chunk>, gates: seq<Chunk>, k: int) {
    && Admissible(ch, created, gates, k)
    && forall i: nat :: i < SpiralIndex(ch) ==> !Admissible(SpiralAt(i), created, gates, k)
  }

  lemma FirstFoundIsEarliest(i: nat, created: seq<Chunk>, gates: seq<Chunk>, k: int)
    requires Admissible(SpiralAt(i), created, gates, k)
    requires forall j: nat :: j < i ==> !Admissible(SpiralAt(j), created, gates, k)
    ensures Earliest(SpiralAt(i), created, gates, k)
  {
    SpiralBijection(i, ORIGIN_CHUNK);
  }

  /** The next gate's chunk depends only on which chunks are created and which are gates. */
  lemma EarliestIsUnique(ch: Chunk, created: seq<Chunk>, gates: seq<Chunk>, ch': Chunk, created': seq<Chunk>, gates': seq<Chunk>, k: int)
    requires Earliest(ch, created, gates, k) && Earliest(ch', created', gates', k)
    requires (forall c :: c in created <==> c in created') && forall c :: c in gates <==> c in gates'
    ensures ch == ch'
  {
    hide SpiralAt, SpiralIndex, Hex;
    SpiralBijection(0, ch);
    SpiralBijection(0, ch');
    assert Admissible(SpiralAt(SpiralIndex(ch')), created, gates, k);
    assert Admissible(SpiralAt(SpiralIndex(ch)), created', gates', k);
  }

  method FarEnough(ch: Chunk, gates: seq<Chunk>, k: int) returns (far: bool)
    ensures far <==> Spaced(ch, gates, k)
  {
    for i := 0 to |gates|
      invariant forall j :: 0 <= j < i ==> k + 1 <= ChunkDistance(ch, gates[j])
    {
      if ChunkDistance(ch, gates[i]) < k + 1 {
        assert gates[i] in gates;
        return false;
      }
    }
    return true;
  }

  method Farthest(chunks: seq<Chunk>, start: nat) returns (m: nat)
    ensures start <= m && forall ch :: ch in chunks ==> ChunkDistance(ORIGIN_CHUNK, ch) <= m
  {
    m := start;
    for i := 0 to |chunks|
      invariant start <= m && forall j :: 0 <= j < i ==> ChunkDistance(ORIGIN_CHUNK, chunks[j]) <= m
    {
      var d := ChunkDistance(ORIGIN_CHUNK, chunks[i]);
      if d > m { m := d; }
    }
  }

  lemma RingChunkZero(n: int, h: int)
    requires 1 <= n && h == n / 2
    ensures RingChunk(n, 0) == Chunk(n, -h)
  {
    FloorModWraps(0 + h, SIDES * n);
    assert 0 <= h < n && DIR_E * n + h == h;
    SidePosition(n, DIR_E, h);
    SideForms(n, h);
  }

  lemma RingFirstChunk(n: nat, ch: Chunk)
    requires 1 <= n && ch == Chunk(n, -(n / 2))
    ensures ch == SpiralAt(RingStart(n)) && ChunkDistance(ORIGIN_CHUNK, ch) == n
  {
    RingChunkZero(n, n / 2);
    RingInSpiral(n, 0);
  }

  /** The closed-form fallback chunk is the first of the ring beyond the scan, and is always admissible. */
  lemma FarChunkAdmissible(created: seq<Chunk>, gates: seq<Chunk>, k: nat, m: nat, ch: Chunk)
    requires forall c :: c in created || c in gates ==> ChunkDistance(ORIGIN_CHUNK, c) <= m
    requires ChunkDistance(ORIGIN_CHUNK, ch) == m + k + 1
    ensures Admissible(ch, created, gates, k)
  {
    forall g | g in gates
      ensures k + 1 <= ChunkDistance(ch, g)
    {
      ChunkTriangle(ORIGIN_CHUNK, g, ch);
      ChunkDistanceSymmetric(ch, g);
    }
  }

  lemma FallbackIsEarliest(created: seq<Chunk>, gates: seq<Chunk>, k: nat, m: nat, scanCount: nat, res: Chunk)
    requires forall ch :: ch in created || ch in gates ==> ChunkDistance(ORIGIN_CHUNK, ch) <= m
    requires scanCount == RingStart(m + k + 1) && res == Chunk(m + k + 1, -((m + k + 1) / 2))
    requires forall j: nat :: j < scanCount ==> !Admissible(SpiralAt(j), created, gates, k)
    ensures Earliest(res, created, gates, k)
  {
    RingFirstChunk(m + k + 1, res);
    FarChunkAdmissible(created, gates, k, m, res);
    FirstFoundIsEarliest(scanCount, created, gates, k);
  }

  datatype Found = Found(ch: Chunk) | NotFound

  /** Walks the first scanCount chunks of the spiral. */
  method Scan(created: seq<Chunk>, createdSet: set<Chunk>, gates: seq<Chunk>, k: nat, scanCount: nat) returns (res: Found)
    requires forall ch :: ch in createdSet <==> ch in created
    ensures res.Found? ==> Earliest(res.ch, created, gates, k)
    ensures res.NotFound? ==> forall j: nat :: j < scanCount ==> !Admissible(SpiralAt(j), created, gates, k)
  {
    hide RingStart, SpiralAt, SpiralIndex, ChunkDistance;
    var walk := new SpiralWalk();
    var i: nat := 0;
    while i < scanCount
      invariant walk.Valid() && walk.yielded == i
      invariant i <= scanCount
      invariant forall j: nat :: j < i ==> !Admissible(SpiralAt(j), created, gates, k)
      decreases scanCount - i
    {
      var ch := walk.Yield();
      var far := FarEnough(ch, gates, k);
      if ch !in createdSet && far {
        FirstFoundIsEarliest(i, created, gates, k);
        return Found(ch);
      }
      i := i + 1;
    }
    return NotFound;
  }

  /** Next: the earliest admissible chunk of the whole infinite spiral. */
  method Next(created: seq<Chunk>, gates: seq<Chunk>, k: int) returns (res: NextResult)
    ensures res.NegativeK? <==> k < 0
    ensures res.Placed? ==> Earliest(res.ch, created, gates, k)
    ensures res.Placed? ==> res.ch !in created && forall g :: g in gates ==> k < ChunkDistance(res.ch, g)
    ensures res.Placed? ==> forall i: nat :: i < SpiralIndex(res.ch) ==>
              SpiralAt(i) in created || exists g :: g in gates && ChunkDistance(SpiralAt(i), g) <= k
  {
    if k < 0 {
      return NegativeK;
    }
    var m := Farthest(created, 0);
    m := Farthest(gates, m);
    var bound := m + k;

    var createdSet: set<Chunk> := {};
    for j := 0 to |created|
      invariant forall ch :: ch in createdSet <==> ch in created[..j]
    {
      createdSet := createdSet + {created[j]};
    }
    assert created[..|created|] == created;

    var scanCount := 1 + 3 * bound * (bound + 1);
    assert scanCount == RingStart(bound + 1) by { RingStartNext(bound); }
    assert 0 <= scanCount;
    var found := Scan(created, createdSet, gates, k, scanCount);
    if found.Found? {
      return Placed(found.ch);
    }
    var fallbackRing := bound + 1;
    var ch := Chunk(fallbackRing, -(fallbackRing / 2));
    FallbackIsEarliest(created, gates, k, m, scanCount, ch);
    return Placed(ch);
  }
}
