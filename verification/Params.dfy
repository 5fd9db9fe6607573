/** The generator's validated inputs. Shares are exact decimals, here reals. */
module Params {
  import opened HexGrid
  import opened Lattices
  import opened Draws

  const MIN_RADIUS := 6
  const ALGORITHMS := 5

  datatype Params = Params(radius: int, weights: seq<Word>, islandShare: real, extraShare: real, bias: real,
                           portalLower: real, portalUpper: real)

  datatype ChunkType = Unset | Fabric | Gate

  function RoundHalfUp(x: real): int {
    (x + 0.5).Floor
  }

  function CeilReal(x: real): int {
    -((-x).Floor)
  }

  /** The share of a border of l faces, rounded up. */
  function CeilShare(share: real, l: nat): int {
    CeilReal(share * l as real)
  }

  predicate IsShare(v: real) {
    0.0 <= v <= 1.0
  }

  function NonBorderCells(radius: nat): nat {
    if radius == 0 then 0 else CellCount(radius - 1)
  }

  function GateCapacity(radius: nat): nat {
    if NonBorderCells(radius) == 0 then 0 else NonBorderCells(radius) - 1
  }

  function IslandTarget(p: Params): int
    requires 0 <= p.radius
  {
    RoundHalfUp(p.islandShare * CellCount(p.radius) as real)
  }

  function TotalWeight(weights: seq<Word>): Word {
    Accumulated(weights, |weights|)
  }

  /** The growing-tree bias as a threshold of a 32-bit draw. */
  function BiasThreshold(bias: real): (t: nat)
    requires IsShare(bias)
    ensures t <= TWO_POW_32 && (bias == 0.0 ==> t == 0) && (bias == 1.0 ==> t == TWO_POW_32)
  {
    (bias * TWO_POW_32 as real).Floor
  }

  /** What New accepts. */
  predicate Valid(p: Params) {
    && MIN_RADIUS <= p.radius
    && |p.weights| == ALGORITHMS && TotalWeight(p.weights) != 0
    && IsShare(p.islandShare) && IsShare(p.extraShare) && IsShare(p.bias) && IsShare(p.portalLower) && IsShare(p.portalUpper)
    && p.portalLower <= p.portalUpper
    && 1 <= CeilShare(p.portalLower, 2 * p.radius + 1)
    && CeilShare(p.portalUpper, 2 * p.radius + 1) <= p.radius + 1
    && IslandTarget(p) <= GateCapacity(p.radius)
  }

  lemma CeilRealIsCeiling(x: real)
    ensures (CeilReal(x) - 1) as real < x <= CeilReal(x) as real
  {
  }

  /** Of the whole numbers, the one nearest the island share of the cells, a tie going up. */
  lemma IslandTargetIsNearest(p: Params)
    requires 0 <= p.radius
    ensures var share := p.islandShare * CellCount(p.radius) as real;
            share - 0.5 < IslandTarget(p) as real <= share + 0.5
  {
    hide CellCount;
  }

  /** The least whole number no smaller than the share of a border. */
  lemma CeilShareIsLeast(share: real, l: nat)
    ensures share * l as real <= CeilShare(share, l) as real < share * l as real + 1.0
  {
    CeilRealIsCeiling(share * l as real);
  }

  /** The greatest whole threshold no greater than the bias of 2^32. */
  lemma BiasThresholdIsGreatest(bias: real)
    requires IsShare(bias)
    ensures BiasThreshold(bias) as real <= bias * 4294967296.0 < BiasThreshold(bias) as real + 1.0
  {
  }

  lemma SomePortal(share: real, l: nat)
    requires 1 <= l
    ensures 1 <= CeilShare(share, l) <==> 0.0 < share
  {
    CeilShareIsLeast(share, l);
    hide CeilShare;
    PositiveShare(share, l as real);
  }

  lemma PortalsAtMost(share: real, l: nat, k: int)
    ensures CeilShare(share, l) <= k <==> share * l as real <= k as real
  {
    CeilShareIsLeast(share, l);
    hide CeilShare;
  }

  lemma GateCapacityIs(R: int)
    requires MIN_RADIUS <= R
    ensures GateCapacity(R) == 3 * R * R - 3 * R && CellCount(R) == 3 * R * R + 3 * R + 1
  {
    assert (R - 1) * (R - 1) == R * R - 2 * R + 1;
  }

  lemma PositiveShare(a: real, k: real)
    requires 0.0 < k
    ensures 0.0 < a * k <==> 0.0 < a
  {
  }

  /**
   What is accepted, with the roundings resolved: some weight counts; every share
   is within [0, 1], the portal shares in order; the lower one is positive, so no
   border is sealed; the upper one asks for no more portals than a border has
   non-touching faces; and the island share, to the nearest whole cell, for no more
   islands than a gate chunk has cells off its border and its centre.
   */
  lemma ValidExactly(p: Params)
    ensures Valid(p) <==>
            && 6 <= p.radius && |p.weights| == 5 && TotalWeight(p.weights) != 0
            && 0.0 <= p.islandShare <= 1.0 && 0.0 <= p.extraShare <= 1.0 && 0.0 <= p.bias <= 1.0
            && 0.0 < p.portalLower <= p.portalUpper <= 1.0
            && p.portalUpper * (2 * p.radius + 1) as real <= (p.radius + 1) as real
            && p.islandShare * (3 * p.radius * p.radius + 3 * p.radius + 1) as real < (3 * p.radius * p.radius - 3 * p.radius) as real + 0.5
  {
    hide TotalWeight, CeilShare, IslandTarget, GateCapacity;
    if 6 <= p.radius {
      PortalClauses(p);
      IslandClause(p);
    }
  }

  lemma PortalClauses(p: Params)
    requires 0 <= p.radius
    ensures 1 <= CeilShare(p.portalLower, 2 * p.radius + 1) <==> 0.0 < p.portalLower
    ensures CeilShare(p.portalUpper, 2 * p.radius + 1) <= p.radius + 1 <==> p.portalUpper * (2 * p.radius + 1) as real <= (p.radius + 1) as real
  {
    hide *;
    SomePortal(p.portalLower, 2 * p.radius + 1);
    PortalsAtMost(p.portalUpper, 2 * p.radius + 1, p.radius + 1);
  }

  lemma IslandsAtMost(p: Params, cells: nat, k: int)
    requires 0 <= p.radius && cells == CellCount(p.radius)
    ensures IslandTarget(p) <= k <==> p.islandShare * cells as real < k as real + 0.5
  {
    hide CellCount;
    IslandTargetIsNearest(p);
    hide IslandTarget;
  }

  lemma IslandClause(p: Params)
    requires MIN_RADIUS <= p.radius
    ensures IslandTarget(p) <= GateCapacity(p.radius) <==>
            p.islandShare * (3 * p.radius * p.radius + 3 * p.radius + 1) as real < (3 * p.radius * p.radius - 3 * p.radius) as real + 0.5
  {
    var R := p.radius;
    GateCapacityIs(R);
    hide *;
    IslandsAtMost(p, 3 * R * R + 3 * R + 1, 3 * R * R - 3 * R);
  }

  /** A validated border always has a count to draw, and that many non-touching positions. */
  lemma PortalBoundsValid(p: Params)
    requires Valid(p)
    ensures var l := 2 * p.radius + 1;
            var lo, hi := CeilShare(p.portalLower, l), CeilShare(p.portalUpper, l);
            1 <= lo <= hi && hi <= l - hi + 1
  {
    hide TotalWeight, IslandTarget, GateCapacity, CeilShare;
    SharesInOrder(p.portalLower, p.portalUpper, 2 * p.radius + 1);
  }

  lemma SharesInOrder(lower: real, upper: real, l: nat)
    requires lower <= upper
    ensures CeilShare(lower, l) <= CeilShare(upper, l)
  {
    hide *;
    ScaleReal(lower, upper, l as real);
    CeilShareIsLeast(lower, l);
    CeilShareIsLeast(upper, l);
  }

  lemma ScaleReal(a: real, b: real, k: real)
    requires a <= b && 0.0 <= k
    ensures a * k <= b * k
  {
  }
}
