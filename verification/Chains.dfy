/** The append-only table of item movements, and the chains its constraints keep. */
module Chains {

  const NEW_ITEM := 0
  const WORLD := 1

  datatype Prev = Genesis | After(id: nat)

  datatype MovementRow = MovementRow(id: nat, item: int, prev: Prev, from: int, to: int, entry: nat)

  // ---------- The constraints a row must meet to be inserted ----------

  /** The predecessor is a row of the same item that ends where this one starts; a row without one starts at World. */
  predicate ChainRefers(rows: seq<MovementRow>, row: MovementRow) {
    match row.prev
    case Genesis => row.from == WORLD
    case After(p) => exists r :: r in rows && r.id == p && r.item == row.item && r.to == row.from
  }

  /** No row yet has the same item, predecessor and starting holder. */
  predicate SuccessorFree(rows: seq<MovementRow>, row: MovementRow) {
    forall r :: r in rows ==> !(r.item == row.item && r.prev == row.prev && r.from == row.from)
  }

  predicate IdFree(rows: seq<MovementRow>, id: nat) {
    forall r :: r in rows ==> r.id != id
  }

  predicate Insertable(rows: seq<MovementRow>, row: MovementRow) {
    row.from != row.to && ChainRefers(rows, row) && SuccessorFree(rows, row) && IdFree(rows, row.id)
  }

  /** The rows of one item, in the order they were inserted. */
  function RowsOf(rows: seq<MovementRow>, item: int): (s: seq<MovementRow>)
    ensures forall r :: r in s <==> r in rows && r.item == item
  {
    if rows == [] then []
    else
      var last := rows[|rows| - 1];
      assert rows == rows[..|rows| - 1] + [last];
      RowsOf(rows[..|rows| - 1], item) + if last.item == item then [last] else []
  }

  lemma RowsOfMore(rows: seq<MovementRow>, row: MovementRow, item: int)
    ensures RowsOf(rows + [row], item) == RowsOf(rows, item) + if row.item == item then [row] else []
  {
    assert (rows + [row])[..|rows|] == rows;
  }

  // ---------- Linear chains ----------

  /** Row i follows the row before it, and starts where that one ended; the first starts at World. */
  ghost predicate Links(s: seq<MovementRow>, i: nat)
    requires i < |s|
  {
    && s[i].from != s[i].to
    && if i == 0 then s[0].prev == Genesis && s[0].from == WORLD
       else s[i].prev == After(s[i - 1].id) && s[i].from == s[i - 1].to
  }

  ghost predicate Chain(s: seq<MovementRow>) {
    forall i :: 0 <= i < |s| ==> Links(s, i)
  }

  ghost predicate UniqueIds(rows: seq<MovementRow>) {
    forall i, j :: 0 <= i < j < |rows| ==> rows[i].id != rows[j].id
  }

  /** Every item's movements are one unbroken path from World. */
  ghost predicate AllChains(rows: seq<MovementRow>) {
    UniqueIds(rows) && forall item :: Chain(RowsOf(rows, item))
  }

  lemma {:induction false} RowsOfUniqueIds(rows: seq<MovementRow>, item: int)
    requires UniqueIds(rows)
    ensures UniqueIds(RowsOf(rows, item))
  {
    if rows != [] {
      var less, last := rows[..|rows| - 1], rows[|rows| - 1];
      RowsOfUniqueIds(less, item);
      var s := RowsOf(less, item);
      forall i | 0 <= i < |s|
        ensures s[i].id != last.id
      {
        assert s[i] in less;
      }
    }
  }

  /** What may be inserted next: the first movement of an item out of World, or one onward from its last. */
  ghost predicate Extends(rows: seq<MovementRow>, row: MovementRow) {
    var s := RowsOf(rows, row.item);
    && row.from != row.to && IdFree(rows, row.id)
    && if s == [] then row.prev == Genesis && row.from == WORLD
       else row.prev == After(s[|s| - 1].id) && row.from == s[|s| - 1].to
  }

  /** The table's constraints admit exactly the rows that extend an item's chain at its end: no fork, no second start. */
  lemma ConstraintsAdmitExtensions(rows: seq<MovementRow>, row: MovementRow)
    requires AllChains(rows)
    ensures Insertable(rows, row) <==> Extends(rows, row)
  {
    var s := RowsOf(rows, row.item);
    RowsOfUniqueIds(rows, row.item);
    assert Chain(s);
    if Insertable(rows, row) { InsertableExtends(rows, row, s); }
    if Extends(rows, row) { ExtensionInsertable(rows, row, s); }
  }

  lemma InsertableExtends(rows: seq<MovementRow>, row: MovementRow, s: seq<MovementRow>)
    requires s == RowsOf(rows, row.item) && Chain(s) && Insertable(rows, row)
    ensures Extends(rows, row)
  {
    hide Chain;
    match row.prev {
      case Genesis =>
        if s != [] { LinkAt(s, 0); }
      case After(p) =>
        var r :| r in rows && r.id == p && r.item == row.item && r.to == row.from;
        var i :| 0 <= i < |s| && s[i] == r;
        if i + 1 < |s| { LinkAt(s, i + 1); }
    }
  }

  lemma ExtensionInsertable(rows: seq<MovementRow>, row: MovementRow, s: seq<MovementRow>)
    requires s == RowsOf(rows, row.item) && Chain(s) && UniqueIds(s) && Extends(rows, row)
    ensures Insertable(rows, row)
  {
    hide Chain;
    if s != [] { assert s[|s| - 1] in s; }
    forall r | r in rows && r.item == row.item
      ensures r.prev != row.prev
    {
      assert r in s;
      LastHasNoSuccessor(s, r);
      if s != [] { FollowsLast(s, r); }
    }
  }

  /** Every row but a chain's first follows a row before its last. */
  lemma LastHasNoSuccessor(s: seq<MovementRow>, r: MovementRow)
    requires Chain(s) && r in s
    ensures r.prev.After? ==> exists i :: 0 <= i < |s| - 1 && r.prev == After(s[i].id)
  {
    var i :| 0 <= i < |s| && s[i] == r;
    assert Links(s, i);
  }

  lemma FollowsLast(s: seq<MovementRow>, r: MovementRow)
    requires Chain(s) && UniqueIds(s) && r in s
    ensures r.prev != After(s[|s| - 1].id)
  {
    LastHasNoSuccessor(s, r);
  }

  lemma LinkAt(s: seq<MovementRow>, i: nat)
    requires Chain(s) && i < |s|
    ensures Links(s, i)
  {
  }

  /** One row at its end keeps a chain. */
  lemma ChainGrows(rows: seq<MovementRow>, row: MovementRow)
    requires Chain(RowsOf(rows, row.item)) && Extends(rows, row)
    ensures Chain(RowsOf(rows, row.item) + [row])
  {
    hide RowsOf;
    var s, s' := RowsOf(rows, row.item), RowsOf(rows, row.item) + [row];
    forall i | 0 <= i < |s'|
      ensures Links(s', i)
    {
      if i < |s| { assert Links(s, i); }
    }
  }

  /** Whatever transactions insert, in whatever order they commit, every item keeps one linear chain from World. */
  lemma InsertKeepsChains(rows: seq<MovementRow>, row: MovementRow)
    requires AllChains(rows) && Insertable(rows, row)
    ensures AllChains(rows + [row])
  {
    ConstraintsAdmitExtensions(rows, row);
    hide Chain, RowsOf, Extends, UniqueIds, Insertable;
    forall item
      ensures Chain(RowsOf(rows + [row], item))
    {
      RowsOfMore(rows, row, item);
      if item == row.item { ChainGrows(rows, row); } else { assert RowsOf(rows, item) + [] == RowsOf(rows, item); }
    }
    NewIdUnique(rows, row);
  }

  lemma NewIdUnique(rows: seq<MovementRow>, row: MovementRow)
    requires UniqueIds(rows) && Insertable(rows, row)
    ensures UniqueIds(rows + [row])
  {
    forall i | 0 <= i < |rows| ensures rows[i].id != row.id { assert rows[i] in rows; }
  }

  /** The movement an item has no successor to: its current holder's. */
  predicate IsHead(rows: seq<MovementRow>, r: MovementRow) {
    r in rows && forall s :: s in rows ==> !(s.item == r.item && s.prev == After(r.id))
  }

  /** An item is at exactly one holder at a time: its one head is its chain's end. */
  lemma HeadIsLast(rows: seq<MovementRow>, r: MovementRow)
    requires AllChains(rows)
    ensures IsHead(rows, r) <==> RowsOf(rows, r.item) != [] && r == RowsOf(rows, r.item)[|RowsOf(rows, r.item)| - 1]
  {
    var s := RowsOf(rows, r.item);
    RowsOfUniqueIds(rows, r.item);
    assert Chain(s);
    hide Chain, AllChains, UniqueIds;
    if IsHead(rows, r) { HeadEndsChain(rows, r, s); }
    if s != [] && r == s[|s| - 1] { ChainEndIsHead(rows, r, s); }
  }

  lemma HeadEndsChain(rows: seq<MovementRow>, r: MovementRow, s: seq<MovementRow>)
    requires s == RowsOf(rows, r.item) && Chain(s) && IsHead(rows, r)
    ensures s != [] && r == s[|s| - 1]
  {
    hide Chain;
    assert r in s;
    hide RowsOf;
    var i :| 0 <= i < |s| && s[i] == r;
    if i + 1 < |s| { LinkAt(s, i + 1); }
  }

  lemma ChainEndIsHead(rows: seq<MovementRow>, r: MovementRow, s: seq<MovementRow>)
    requires s == RowsOf(rows, r.item) && Chain(s) && UniqueIds(s) && s != [] && r == s[|s| - 1]
    ensures IsHead(rows, r)
  {
    hide Chain, UniqueIds;
    assert r in s;
    forall t | t in rows && t.item == r.item
      ensures t.prev != After(r.id)
    {
      FollowsLast(s, t);
    }
  }

  // ---------- Who holds what ----------

  datatype Place = Nowhere | Holder(holder: int)

  function PlaceOf(rows: seq<MovementRow>, item: int): Place {
    var s := RowsOf(rows, item);
    if s == [] then Nowhere else Holder(s[|s| - 1].to)
  }

  ghost function Moved(rows: seq<MovementRow>): set<int> {
    set r | r in rows :: r.item
  }

  /** The items holder h has. */
  ghost function HeldBy(rows: seq<MovementRow>, h: int): set<int> {
    set item | item in Moved(rows) && PlaceOf(rows, item) == Holder(h)
  }

  /** What the movements alone say a holder's used slots sum to: its items, less, for World, every item ever minted. */
  ghost function UsedByMovements(rows: seq<MovementRow>, h: int): int {
    |HeldBy(rows, h)| - if h == WORLD then |Moved(rows)| else 0
  }

  lemma PlaceAfter(rows: seq<MovementRow>, row: MovementRow, item: int)
    ensures PlaceOf(rows + [row], item) == if item == row.item then Holder(row.to) else PlaceOf(rows, item)
    ensures item in Moved(rows) <==> PlaceOf(rows, item) != Nowhere
    ensures Moved(rows + [row]) == Moved(rows) + {row.item}
  {
    RowsOfMore(rows, row, item);
    if item in Moved(rows) {
      var r :| r in rows && r.item == item;
      assert r in RowsOf(rows, item);
    }
    if RowsOf(rows, item) != [] { assert RowsOf(rows, item)[0] in rows; }
  }

  lemma HeldAfter(rows: seq<MovementRow>, row: MovementRow, h: int)
    ensures HeldBy(rows + [row], h) == if row.to == h then HeldBy(rows, h) + {row.item} else HeldBy(rows, h) - {row.item}
  {
    hide PlaceOf, Moved;
    forall item
      ensures item in HeldBy(rows + [row], h) <==> if item == row.item then row.to == h else item in HeldBy(rows, h)
    {
      PlaceAfter(rows, row, item);
    }
  }

  /** One movement takes one from what its source holds and gives one to its destination. */
  lemma MovementShiftsUsed(rows: seq<MovementRow>, row: MovementRow, h: int)
    requires Extends(rows, row)
    ensures UsedByMovements(rows + [row], h) ==
            UsedByMovements(rows, h) + (if row.to == h then 1 else 0) - (if row.from == h then 1 else 0)
  {
    var x := row.item;
    HeldAfter(rows, row, h);
    PlaceAfter(rows, row, x);
    FromWhere(rows, row, h);
    hide *;
    CountOne(HeldBy(rows, h), x);
    CountOne(Moved(rows), x);
    UsedIs(rows, h);
    UsedIs(rows + [row], h);
  }

  lemma UsedIs(rows: seq<MovementRow>, h: int)
    ensures UsedByMovements(rows, h) == |HeldBy(rows, h)| - if h == WORLD then |Moved(rows)| else 0
  {
  }

  /** A movement's item is with its source, or, if it has never moved, with no one and its source is World. */
  lemma FromWhere(rows: seq<MovementRow>, row: MovementRow, h: int)
    requires Extends(rows, row)
    ensures row.from != row.to
    ensures row.item in HeldBy(rows, h) <==> row.item in Moved(rows) && row.from == h
    ensures row.item !in Moved(rows) ==> row.from == WORLD
  {
    PlaceAfter(rows, row, row.item);
    hide Moved;
  }

  lemma CountOne(s: set<int>, x: int)
    ensures |s + {x}| == |s| + if x in s then 0 else 1
    ensures |s - {x}| == |s| - if x in s then 1 else 0
  {
    if x in s { assert s + {x} == s && s == (s - {x}) + {x}; } else { assert s - {x} == s; }
  }
}
