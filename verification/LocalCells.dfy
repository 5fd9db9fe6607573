/** The cells of one chunk, relative to its centre, in canonical order. */
module LocalCells {
  import opened HexGrid
  import opened GoInt
  import opened Lattices

  function RowFrom(lo: int, hi: int, row: int): seq<Coord>
    requires lo <= hi + 1
  {
    seq(hi + 1 - lo, k requires 0 <= k => Coord(lo + k, row))
  }

  function Row(R: nat, row: int): seq<Coord>
    requires 0 - R <= row <= R
  {
    RowFrom(Max(0 - R, 0 - R - row), Min(R, R - row), row)
  }

  /** The rows from -R up to, not including, row. */
  function Rows(R: nat, row: int): seq<Coord>
    requires 0 - R <= row <= R + 1
    decreases row + R
  {
    if row == 0 - R then [] else Rows(R, row - 1) + Row(R, row - 1)
  }

  function Cells(R: nat): seq<Coord> {
    Rows(R, R + 1)
  }

  /** Row by row, and along a row from west to east. */
  predicate Before(a: Coord, b: Coord) {
    a.r < b.r || (a.r == b.r && a.q < b.q)
  }

  ghost predicate InOrder(s: seq<Coord>) {
    forall i, j :: 0 <= i < j < |s| ==> Before(s[i], s[j])
  }

  lemma RowContents(R: nat, row: int)
    requires 0 - R <= row <= R
    ensures InOrder(Row(R, row)) && |Row(R, row)| == 2 * R + 1 - Abs(row)
    ensures forall c :: c in Row(R, row) <==> c.r == row && Hex(c.q, c.r) <= R
  {
    var s := Row(R, row);
    var lo := Max(0 - R, 0 - R - row);
    forall c: Coord | c.r == row && Hex(c.q, c.r) <= R
      ensures c in s
    {
      HexWithin(c.q, c.r, R);
      assert s[c.q - lo] == c;
    }
    forall c | c in s
      ensures c.r == row && Hex(c.q, c.r) <= R
    {
      HexWithin(c.q, c.r, R);
    }
  }

  lemma {:induction false} RowsContents(R: nat, row: int)
    requires 0 - R <= row <= R + 1
    ensures InOrder(Rows(R, row))
    ensures forall c :: c in Rows(R, row) <==> Hex(c.q, c.r) <= R && c.r < row
    decreases row + R
  {
    if row == 0 - R {
      forall c: Coord | Hex(c.q, c.r) <= R ensures c.r >= 0 - R { HexWithin(c.q, c.r, R); }
    } else {
      RowsContents(R, row - 1);
      RowContents(R, row - 1);
      var s, t := Rows(R, row - 1), Row(R, row - 1);
      forall i, j | 0 <= i < j < |s + t|
        ensures Before((s + t)[i], (s + t)[j])
      {
        if i < |s| <= j { assert s[i] in s && t[j - |s|] in t; }
      }
    }
  }

  /** Twice the number of cells in the rows so far: an arithmetic progression up to the middle row and down after it. */
  lemma {:induction false} RowsLength(R: nat, row: int)
    requires 0 - R <= row <= R + 1
    ensures row <= 1 ==> 2 * |Rows(R, row)| == (row + R) * (3 * R + 1 + row)
    ensures row >= 1 ==> 2 * |Rows(R, row)| == 2 * CellCount(R) - (R + 1 - row) * (3 * R + 2 - row)
    decreases row + R
  {
    if row > 0 - R {
      RowsLength(R, row - 1);
      RowContents(R, row - 1);
      Progression(R, row);
    }
  }

  lemma Progression(R: int, row: int)
    ensures (row - 1 + R) * (3 * R + row) + 2 * (2 * R + row) == (row + R) * (3 * R + 1 + row)
    ensures (R + 2 - row) * (3 * R + 3 - row) - 2 * (2 * R + 2 - row) == (R + 1 - row) * (3 * R + 2 - row)
    ensures (1 + R) * (3 * R + 2) == 2 * (3 * R * R + 3 * R + 1) - R * (3 * R + 1)
  {
  }

  /** A chunk's cells are exactly those within R of its centre, each listed once, 3R^2+3R+1 of them, in canonical order. */
  lemma CellsAreTheHexagon(R: nat)
    ensures forall c :: c in Cells(R) <==> Distance(c, ORIGIN) <= R
    ensures InOrder(Cells(R)) && |Cells(R)| == CellCount(R)
    ensures forall i, j :: 0 <= i < j < |Cells(R)| ==> Cells(R)[i] != Cells(R)[j]
  {
    RowsContents(R, R + 1);
    RowsLength(R, R + 1);
    assert (R + 1 - (R + 1)) * (3 * R + 2 - (R + 1)) == 0;
    forall c: Coord
      ensures c in Cells(R) <==> Distance(c, ORIGIN) <= R
    {
      HexWithin(c.q, c.r, R);
    }
  }

  method ListCells(R: nat) returns (cells: seq<Coord>)
    ensures cells == Cells(R)
  {
    cells := [];
    for row := 0 - R to R + 1
      invariant cells == Rows(R, row)
    {
      var lo, hi := Max(0 - R, 0 - R - row), Min(R, R - row);
      var q := lo;
      while q <= hi
        invariant lo <= q <= hi + 1
        invariant cells == Rows(R, row) + RowFrom(lo, q - 1, row)
      {
        cells := cells + [Coord(q, row)];
        q := q + 1;
      }
    }
  }
}
