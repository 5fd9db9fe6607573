/** Integer operators of the source language, which truncates toward zero where Dafny's are Euclidean. */
module GoInt {

  function TruncDiv(a: int, b: int): int
    requires b > 0
  {
    if a >= 0 then a / b else -(-a / b)
  }

  function TruncMod(a: int, b: int): int
    requires b > 0
  {
    a - TruncDiv(a, b) * b
  }

  /** floorDiv64 for a positive divisor. */
  function FloorDiv(a: int, b: int): int
    requires b > 0
  {
    var q, m := TruncDiv(a, b), TruncMod(a, b);
    if m != 0 && m < 0 then q - 1 else q
  }

  /** floorMod64. */
  function FloorMod(a: int, b: int): int
    requires b > 0
  {
    var m := TruncMod(a, b);
    if m < 0 then m + b else m
  }

  /** ceilDiv64, for a >= 0. */
  function CeilDiv(a: nat, b: int): nat
    requires b > 0
  {
    (a + b - 1) / b
  }

  lemma FloorDivIsFloor(a: int, b: int)
    requires b > 0
    ensures FloorDiv(a, b) * b <= a < (FloorDiv(a, b) + 1) * b
  {
    TruncBounds(a, b);
  }

  lemma FloorModIsResidue(a: int, b: int)
    requires b > 0
    ensures 0 <= FloorMod(a, b) < b
    ensures exists k :: a == k * b + FloorMod(a, b)
  {
    TruncBounds(a, b);
    var k := if TruncMod(a, b) < 0 then TruncDiv(a, b) - 1 else TruncDiv(a, b);
    assert a == k * b + FloorMod(a, b);
  }

  lemma CeilDivIsCeiling(a: nat, b: int)
    requires b > 0
    ensures (CeilDiv(a, b) - 1) * b < a <= CeilDiv(a, b) * b
  {
    DivBounds(a + b - 1, b);
  }

  lemma DivBounds(a: nat, b: int)
    requires b > 0
    ensures (a / b) * b <= a < (a / b) * b + b
  {
  }

  lemma TruncBounds(a: int, b: int)
    requires b > 0
    ensures -b < TruncMod(a, b) < b
    ensures a >= 0 ==> TruncMod(a, b) >= 0
    ensures a <= 0 ==> TruncMod(a, b) <= 0
  {
    DivBounds(if a >= 0 then a else -a, b);
    if a < 0 {
      assert TruncDiv(a, b) * b == -((-a / b) * b);
    }
  }

  lemma MulMonotone(a: int, b: int, k: int)
    requires a <= b && 0 <= k
    ensures a * k <= b * k
  {
  }

  /** A quotient is the only integer whose multiples bracket the dividend. */
  lemma QuotientUnique(a: int, b: int, q: int, q': int)
    requires b > 0
    requires q * b <= a < (q + 1) * b
    requires q' * b <= a < (q' + 1) * b
    ensures q == q'
  {
    if q < q' {
      MulMonotone(q + 1, q', b);
    } else if q' < q {
      MulMonotone(q' + 1, q, b);
    }
  }

  lemma FloorModWraps(a: int, b: int)
    requires b > 0 && -b <= a < 2 * b
    ensures 0 <= FloorMod(a, b) < b
    ensures FloorMod(a, b) == if a < 0 then a + b else if a < b then a else a - b
  {
    var m := if a < 0 then a + b else if a < b then a else a - b;
    var k := if a < 0 then -1 else if a < b then 0 else 1;
    assert a == k * b + m;
    FloorModIsResidue(a, b);
    var k' :| a == k' * b + FloorMod(a, b);
    QuotientUnique(a, b, k, k');
  }
}
