/** The gate-placement order: the centre chunk, then every ring of chunks in turn, without end. */
module Spirals {
  import opened GoInt
  import opened HexGrid

  const SIDES := 6

  /** The chunk t steps along side d of ring n: from the corner in direction d, walking in direction d+2. */
  function SidePoint(n: int, d: Direction, t: int): Chunk {
    var corner, step := Delta(d), Delta((d + 2) % SIDES);
    Chunk(n * corner.q + t * step.q, n * corner.r + t * step.r)
  }

  /** Position p of the walk round ring n. */
  function RingChunk(n: int, p: int): Chunk
    requires n >= 1
  {
    var e := FloorMod(p + n / 2, SIDES * n);
    FloorModIsResidue(p + n / 2, SIDES * n);
    SideDivision(n, e);
    SidePoint(n, e / n, e % n)
  }

  lemma SideDivision(n: int, e: int)
    requires n >= 1 && 0 <= e < SIDES * n
    ensures 0 <= e / n < SIDES && 0 <= e % n < n && e == (e / n) * n + e % n
  {
  }

  /** The index at which ring n begins. */
  function RingStart(n: nat): (i: nat) {
    if n == 0 then 0 else
    MulMonotone(0, n - 1, n);
    1 + 3 * n * (n - 1)
  }

  lemma RingStartNext(n: nat)
    ensures RingStart(n + 1) == RingStart(n) + if n == 0 then 1 else SIDES * n
    ensures RingStart(n + 1) == 1 + 3 * n * (n + 1)
    ensures n <= RingStart(n)
  {
    if n > 0 { MulMonotone(1, n, n); assert n <= n * n; assert 3 * n * (n - 1) == 3 * (n * n) - 3 * n; }
  }

  lemma {:induction false} RingStartMonotone(m: nat, n: nat)
    requires m < n
    ensures RingStart(m + 1) <= RingStart(n)
  {
    if m + 1 < n {
      RingStartMonotone(m, n - 1);
      RingStartNext(n - 1);
    }
  }

  /** The ring that holds index i, searched for from ring n upward. */
  function RingFrom(i: nat, n: nat): (m: nat)
    requires RingStart(n) <= i
    ensures RingStart(m) <= i < RingStart(m + 1)
    decreases i - RingStart(n)
  {
    RingStartNext(n);
    if i < RingStart(n + 1) then n else RingFrom(i, n + 1)
  }

  /** The chunk at position i of the spiral. */
  function SpiralAt(i: nat): Chunk {
    var n := RingFrom(i, 0);
    if n == 0 then ORIGIN_CHUNK else RingChunk(n, i - RingStart(n))
  }

  /** The side of ring n that ch lies on, and how far along it. */
  function SideOf(n: int, ch: Chunk): (Direction, int) {
    var q, r := ch.q, ch.r;
    var s := -q - r;
    if q == n && r > -n then (DIR_E, -r)
    else if r == -n && q > 0 then (DIR_NE, n - q)
    else if s == n && q > -n then (DIR_NW, -q)
    else if q == -n && r < n then (DIR_W, r)
    else if r == n && q < 0 then (DIR_SW, q + n)
    else (DIR_SE, q)
  }

  function SpiralIndex(ch: Chunk): nat {
    var n := ChunkDistance(ORIGIN_CHUNK, ch);
    if n == 0 then 0
    else
      var (d, t) := SideOf(n, ch);
      FloorModIsResidue(d * n + t - n / 2, SIDES * n);
      RingStart(n) + FloorMod(d * n + t - n / 2, SIDES * n)
  }

  lemma SidePointOnRing(n: int, d: Direction, t: int)
    requires 0 <= t < n
    ensures ChunkDistance(ORIGIN_CHUNK, SidePoint(n, d, t)) == n
    ensures SideOf(n, SidePoint(n, d, t)) == (d, t)
  {
    hide SidePoint;
    SideForms(n, t);
  }

  lemma SideForms(n: int, t: int)
    ensures SidePoint(n, DIR_E, t) == Chunk(n, -t) && SidePoint(n, DIR_NE, t) == Chunk(n - t, -n)
    ensures SidePoint(n, DIR_NW, t) == Chunk(-t, t - n) && SidePoint(n, DIR_W, t) == Chunk(-n, t)
    ensures SidePoint(n, DIR_SW, t) == Chunk(t - n, n) && SidePoint(n, DIR_SE, t) == Chunk(t, n - t)
  {
  }

  lemma SideOfRingChunk(ch: Chunk)
    requires ch != ORIGIN_CHUNK
    ensures var n := ChunkDistance(ORIGIN_CHUNK, ch);
            var (d, t) := SideOf(n, ch);
            n >= 1 && 0 <= t < n && SidePoint(n, d, t) == ch
  {
    hide SidePoint;
    var n := ChunkDistance(ORIGIN_CHUNK, ch);
    HexIsMax(-ch.q, -ch.r);
    SideForms(n, SideOf(n, ch).1);
  }

  lemma SidePosition(n: int, d: Direction, t: int)
    requires 0 <= t < n
    ensures var e := d * n + t; 0 <= e < SIDES * n && e / n == d && e % n == t
  {
    var e := d * n + t;
    MulMonotone(0, d, n);
    MulMonotone(d, SIDES - 1, n);
    SideDivision(n, e);
    QuotientUnique(e, n, d, e / n);
  }

  /** Along ring n, walk positions and chunks at distance n correspond one to one. */
  lemma RingWalk(n: int, p: int)
    requires n >= 1 && 0 <= p < SIDES * n
    ensures ChunkDistance(ORIGIN_CHUNK, RingChunk(n, p)) == n
    ensures SpiralIndex(RingChunk(n, p)) == RingStart(n) + p
  {
    var e := FloorMod(p + n / 2, SIDES * n);
    FloorModIsResidue(p + n / 2, SIDES * n);
    SideDivision(n, e);
    var d: Direction, t := e / n, e % n;
    SidePointOnRing(n, d, t);
    FloorModWraps(p + n / 2, SIDES * n);
    FloorModWraps(e - n / 2, SIDES * n);
  }

  lemma RingWalkOnto(ch: Chunk)
    requires ch != ORIGIN_CHUNK
    ensures var n := ChunkDistance(ORIGIN_CHUNK, ch);
            n >= 1 && RingStart(n) <= SpiralIndex(ch) < RingStart(n + 1) && RingChunk(n, SpiralIndex(ch) - RingStart(n)) == ch
  {
    hide SideOf, SidePoint, FloorMod, Hex;
    var n := ChunkDistance(ORIGIN_CHUNK, ch);
    SideOfRingChunk(ch);
    var (d, t) := SideOf(n, ch);
    SidePosition(n, d, t);
    var e := d * n + t;
    var p := FloorMod(e - n / 2, SIDES * n);
    FloorModWraps(e - n / 2, SIDES * n);
    FloorModWraps(p + n / 2, SIDES * n);
    RingStartNext(n);
  }

  lemma RingAt(n: int, d: Direction, t: int)
    requires n >= 1 && 0 <= t < n
    ensures RingChunk(n, d * n + t - n / 2) == SidePoint(n, d, t)
  {
    SidePosition(n, d, t);
    var e := d * n + t;
    FloorModWraps(e, SIDES * n);
    hide SidePoint;
  }

  /** A whole turn further round is the same chunk. */
  lemma RingTurns(n: int, p: int)
    requires n >= 1 && 0 <= p + n / 2 < SIDES * n
    ensures RingChunk(n, p + SIDES * n) == RingChunk(n, p)
  {
    FloorModWraps(p + n / 2, SIDES * n);
    FloorModWraps(p + SIDES * n + n / 2, SIDES * n);
    hide SidePoint, FloorMod;
  }

  /**
   The walk round ring n, coordinate by coordinate: it starts mid-side at
   (n, -floor(n/2)), goes up that side, round the other five in direction order,
   and closes where it began.
   */
  lemma RingWalkInFull(n: int, t: int)
    requires n >= 1 && 0 <= t < n
    ensures var h := n / 2;
            && (t < n - h ==> RingChunk(n, t) == Chunk(n, -(h + t)))
            && RingChunk(n, n - h + t) == Chunk(n - t, -n)
            && RingChunk(n, 2 * n - h + t) == Chunk(-t, t - n)
            && RingChunk(n, 3 * n - h + t) == Chunk(-n, t)
            && RingChunk(n, 4 * n - h + t) == Chunk(t - n, n)
            && RingChunk(n, 5 * n - h + t) == Chunk(t, n - t)
            && (t < h ==> RingChunk(n, 6 * n - h + t) == Chunk(n, -t))
  {
    hide *;
    HalfIs(n);
    RingAt(n, DIR_NE, t);
    RingAt(n, DIR_NW, t);
    RingAt(n, DIR_W, t);
    RingAt(n, DIR_SW, t);
    RingAt(n, DIR_SE, t);
    SideForms(n, t);
    if t < n - n / 2 { UpFirstSide(n, n / 2 + t); }
    if t < n / 2 { CloseRing(n, t); }
  }

  lemma HalfIs(n: int)
    requires n >= 1
    ensures 0 <= n / 2 && DIR_NE == 1 && DIR_NW == 2 && DIR_W == 3 && DIR_SW == 4 && DIR_SE == 5
  {
  }

  lemma UpFirstSide(n: int, t: int)
    requires n >= 1 && 0 <= t < n
    ensures RingChunk(n, t - n / 2) == Chunk(n, -t)
  {
    hide RingChunk, SidePoint;
    RingAt(n, DIR_E, t);
    SideForms(n, t);
  }

  lemma CloseRing(n: int, t: int)
    requires n >= 1 && 0 <= t < n
    ensures RingChunk(n, 6 * n - n / 2 + t) == Chunk(n, -t)
  {
    hide RingChunk;
    UpFirstSide(n, t);
    RingTurns(n, t - n / 2);
  }

  lemma RingFromUnique(i: nat, n: nat)
    requires RingStart(n) <= i < RingStart(n + 1)
    ensures RingFrom(i, 0) == n
  {
    var m := RingFrom(i, 0);
    if m < n { RingStartMonotone(m, n); } else if n < m { RingStartMonotone(n, m); }
  }

  /** Ring n occupies the indices from RingStart(n), in walk order. */
  lemma RingInSpiral(n: nat, p: nat)
    requires 1 <= n && p < SIDES * n
    ensures SpiralAt(RingStart(n) + p) == RingChunk(n, p)
    ensures ChunkDistance(ORIGIN_CHUNK, RingChunk(n, p)) == n
  {
    hide RingStart, RingChunk, Hex;
    RingStartNext(n);
    RingFromUnique(RingStart(n) + p, n);
    RingWalk(n, p);
  }

  /** The spiral lists every chunk exactly once, ring after ring, and SpiralIndex tells where. */
  lemma SpiralBijection(i: nat, ch: Chunk)
    ensures SpiralIndex(SpiralAt(i)) == i
    ensures SpiralAt(SpiralIndex(ch)) == ch
    ensures ChunkDistance(ORIGIN_CHUNK, SpiralAt(i)) == RingFrom(i, 0)
  {
    hide RingStart, RingChunk, SideOf, SidePoint, FloorMod;
    IndexOfSpiral(i);
    if ch == ORIGIN_CHUNK {
      RingStartNext(0);
      ChunkDistanceSymmetric(ch, ch);
      RingFromUnique(0, 0);
    } else {
      RingWalkOnto(ch);
      RingFromUnique(SpiralIndex(ch), ChunkDistance(ORIGIN_CHUNK, ch));
    }
  }

  lemma IndexOfSpiral(i: nat)
    ensures SpiralIndex(SpiralAt(i)) == i
    ensures ChunkDistance(ORIGIN_CHUNK, SpiralAt(i)) == RingFrom(i, 0)
  {
    hide RingChunk, SideOf, SidePoint, FloorMod;
    var n := RingFrom(i, 0);
    RingStartNext(n);
    if n > 0 { RingWalk(n, i - RingStart(n)); }
  }

  /** Chunks on nearer rings come first. */
  lemma SpiralByRings(i: nat, n: nat)
    ensures i < RingStart(n + 1) <==> ChunkDistance(ORIGIN_CHUNK, SpiralAt(i)) <= n
  {
    SpiralBijection(i, ORIGIN_CHUNK);
    var m := RingFrom(i, 0);
    if m <= n { RingStartMonotone(m, n + 1); } else { RingStartMonotone(n, m); }
  }

  /** The generator: its state is the ring and the walk position it will yield next. */
  class SpiralWalk {
    var n: nat
    var p: nat
    ghost var yielded: nat

    ghost predicate Valid()
      reads this
    {
      && yielded == RingStart(n) + p
      && (if n == 0 then p == 0 else p < SIDES * n)
    }

    constructor ()
      ensures Valid() && yielded == 0
    {
      n, p, yielded := 0, 0, 0;
    }

    method Yield() returns (ch: Chunk)
      requires Valid()
      modifies this
      ensures Valid() && yielded == old(yielded) + 1
      ensures ch == SpiralAt(old(yielded))
    {
      RingStartNext(n);
      RingFromUnique(yielded, n);
      if n == 0 {
        ch := ORIGIN_CHUNK;
        n, p := 1, 0;
      } else {
        ch := RingChunk(n, p);
        p := p + 1;
        if p == SIDES * n {
          n, p := n + 1, 0;
        }
      }
      yielded := yielded + 1;
    }
  }
}
