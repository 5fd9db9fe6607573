/** What a post and a move do, told from the batch and the movements alone. */
module Effects {
  import opened SortedSeq
  import opened Chains
  import opened Ledgers
  import opened ItemMoves

  // ---------- Amounts ----------

  function HundredThousandths(n: int): real {
    n as real / 100000.0
  }

  lemma ScaledIsWhole(a: real, n: int)
    ensures a == HundredThousandths(n) <==> a * 100000.0 == n as real
  {
  }

  /** The amounts accepted are exactly the non-zero whole multiples of a hundred-thousandth below 10^25 in size. */
  lemma AmountsAreHundredThousandths(a: real)
    ensures ValidAmount(a) <==>
            && a != 0.0 && (exists n :: a == HundredThousandths(n))
            && -10_000_000_000_000_000_000_000_000.0 < a < 10_000_000_000_000_000_000_000_000.0
  {
    ScaledIsWhole(a, (a * 100000.0).Floor);
    if n :| a == HundredThousandths(n) { ScaledIsWhole(a, n); }
  }

  // ---------- Posts ----------

  /** What the batch's own postings to an account come to. */
  function Sum(batch: seq<Posting>, id: int): real {
    if batch == [] then 0.0 else Sum(batch[..|batch| - 1], id) + if batch[|batch| - 1].account == id then batch[|batch| - 1].amount else 0.0
  }

  lemma {:induction false} DeltaIsSum(batch: seq<Posting>, id: int)
    ensures Delta(batch, id) == Sum(batch, id)
    decreases |batch|
  {
    hide Delta;
    if batch == [] {
      DeltaOfNothing(id);
    } else {
      var less, p := batch[..|batch| - 1], batch[|batch| - 1];
      assert batch == less + [p];
      DeltaIsSum(less, id);
      DeltaMore(map[], less, p, id, "");
    }
  }

  /**
   A post that goes in writes the batch's postings, in the caller's order, under
   an entry of their own, after everything there was; and every controlled
   account's balance moves by what the batch posts to it.
   */
  lemma PostMovesExactly(b: Books, basis: Basis, batch: seq<Posting>, id: int, i: nat)
    requires BooksOk(b) && Postable(b, basis, batch)
    ensures var b' := Posted(b, basis, batch);
            && |b'.postings| == |b.postings| + |batch| && b'.postings[..|b.postings|] == b.postings
            && (i < |batch| ==> b'.postings[|b.postings| + i] == PostingRow(b.nextEntry, batch[i]))
            && (forall r :: r in b.postings ==> r.entry < b.nextEntry) && b'.nextEntry == b.nextEntry + 1
            && (id in b.accounts && b.accounts[id].controlled ==>
                  Balance(b', id) == Balance(b, id) + Sum(batch, id) && 0.0 <= Balance(b', id) < 10_000_000_000_000_000_000_000_000.0)
            && b'.accounts == b.accounts
  {
    PostKeepsBooks(b, basis, batch);
    if id in b.accounts { assert BalanceOk(Posted(b, basis, batch), id); }
    hide ValidAmount, Total, Delta, OnAccount, ZeroSum;
    DeltaIsSum(batch, id);
    forall r | r in b.postings ensures r.entry < b.nextEntry { assert RowOk(b, r); }
  }

  /**
   A batch with a fresh basis is accepted exactly when the books would still be in
   order with it: nothing that would break them gets in, and nothing else is
   kept out.
   */
  lemma AcceptedExactlyWhenBooksStayInOrder(b: Books, basis: Basis, batch: seq<Posting>)
    requires BooksOk(b)
    ensures Postable(b, basis, batch) <==> batch != [] && BasisFresh(b, basis) && BooksOk(Posted(b, basis, batch))
  {
    hide BooksOk, Posted, Postable;
    if Postable(b, basis, batch) {
      PostKeepsBooks(b, basis, batch);
      PostableParts(b, basis, batch);
    }
    if batch != [] && BasisFresh(b, basis) && BooksOk(Posted(b, basis, batch)) {
      RowsInOrder(b, basis, batch);
      EntryInOrder(b, basis, batch);
      BalancesInOrder(b, basis, batch);
      IsPostable(b, basis, batch);
    }
  }

  lemma PostableParts(b: Books, basis: Basis, batch: seq<Posting>)
    requires Postable(b, basis, batch)
    ensures batch != [] && BasisFresh(b, basis)
  {
    hide ValidAmounts, Known, ZeroSum, BasisFresh, Affordable;
  }

  lemma IsPostable(b: Books, basis: Basis, batch: seq<Posting>)
    requires batch != [] && BasisFresh(b, basis) && ValidAmounts(batch) && Known(b.accounts, batch) && ZeroSum(b.accounts, batch) && Affordable(b, batch)
    ensures Postable(b, basis, batch)
  {
    hide ValidAmounts, Known, ZeroSum, BasisFresh, Affordable;
  }

  lemma RowsInOrder(b: Books, basis: Basis, batch: seq<Posting>)
    requires BooksOk(Posted(b, basis, batch))
    ensures ValidAmounts(batch) && Known(b.accounts, batch)
  {
    hide ValidAmount, BalanceOk, Total;
    var b', rows := Posted(b, basis, batch), Rows(b.nextEntry, batch);
    forall p | p in batch
      ensures ValidAmount(p.amount) && p.account in b.accounts
    {
      var i :| 0 <= i < |batch| && batch[i] == p;
      assert rows[i] in b'.postings;
      assert RowOk(b', rows[i]);
    }
  }

  lemma EntryInOrder(b: Books, basis: Basis, batch: seq<Posting>)
    requires BooksOk(b) && BooksOk(Posted(b, basis, batch))
    ensures ZeroSum(b.accounts, batch)
  {
    hide ValidAmount, BalanceOk, Total, KindDelta, OfEntryKind;
    var entry := b.nextEntry;
    forall kind
      ensures KindDelta(b.accounts, batch, kind) == 0.0
    {
      BatchTotals(b.accounts, entry, batch, 0, kind, entry);
      TotalOfSum(b.postings, Rows(entry, batch), OfEntryKind(b.accounts, entry, kind));
      NoneOfNextEntry(b, kind);
      assert Total(Posted(b, basis, batch).postings, OfEntryKind(b.accounts, entry, kind)) == 0.0;
    }
  }

  lemma NoneOfNextEntry(b: Books, kind: string)
    requires BooksOk(b)
    ensures Total(b.postings, OfEntryKind(b.accounts, b.nextEntry, kind)) == 0.0
  {
    hide ValidAmount, BalanceOk;
    forall r | r in b.postings ensures !OfEntryKind(b.accounts, b.nextEntry, kind)(r) { assert RowOk(b, r); }
    TotalOfNone(b.postings, OfEntryKind(b.accounts, b.nextEntry, kind));
  }

  lemma BalancesInOrder(b: Books, basis: Basis, batch: seq<Posting>)
    requires BooksOk(b) && BooksOk(Posted(b, basis, batch))
    ensures Affordable(b, batch)
  {
    hide ValidAmount, Total, Delta, OnAccount, InRange;
    forall id | id in b.accounts
      ensures Admits(b, id, Delta(batch, id))
    {
      BatchTotals(b.accounts, b.nextEntry, batch, id, "", 0);
      TotalOfSum(b.postings, Rows(b.nextEntry, batch), OnAccount(id));
      assert BalanceOk(b, id) && BalanceOk(Posted(b, basis, batch), id);
    }
  }

  // ---------- Moves ----------

  /** An item's place after rows of which only the k-th is its own. */
  lemma {:induction false} PlacedByItsRow(rows: seq<MovementRow>, more: seq<MovementRow>, k: nat)
    requires k < |more| && forall j :: 0 <= j < |more| && j != k ==> more[j].item != more[k].item
    ensures PlaceOf(rows + more, more[k].item) == Holder(more[k].to)
    decreases |more|
  {
    hide PlaceOf;
    var less, row := more[..|more| - 1], more[|more| - 1];
    assert rows + more == (rows + less) + [row];
    PlaceAfter(rows + less, row, more[k].item);
    if k < |less| { PlacedByItsRow(rows, less, k); }
  }

  lemma PlaceUntouched(rows: seq<MovementRow>, more: seq<MovementRow>, item: int)
    requires forall k :: 0 <= k < |more| ==> more[k].item != item
    ensures PlaceOf(rows + more, item) == PlaceOf(rows, item)
  {
    hide RowsOf;
    OtherRowsUntouched(rows, more, item);
  }

  lemma RowOfEach(s: Store, movements: seq<Movement>, plan: Plan, i: nat) returns (k: nat)
    requires PlanOk(s, movements, plan) && IdsOk(s) && i < |movements|
    ensures var ids := ItemIds(movements, s.nextItem);
            k < |movements| && NewRows(s, movements, plan)[k].item == ids[i] && NewRows(s, movements, plan)[k].to == movements[i].to
  {
    NamedInHeads(s, movements, plan);
    var ids := ItemIds(movements, s.nextItem);
    IdsSorted(s, movements, plan);
    hide *;
    assert ids[i] in ids;
    assert ids[i] in Sort(ids);
    k :| 0 <= k < |Sort(ids)| && Sort(ids)[k] == ids[i];
    NewRowIs(s, movements, plan, k);
    RowGoes(movements, plan, ids, i, s.nextMovement + k, s.books.nextEntry);
  }

  lemma RowGoes(movements: seq<Movement>, plan: Plan, ids: seq<int>, i: nat, rowId: nat, entry: nat)
    requires |ids| == |movements| && i < |ids| && HeadsRead(movements, plan)
    requires forall x, y :: 0 <= x < y < |ids| ==> ids[x] != ids[y]
    ensures ids[i] in ids && RowOf(movements, plan, ids, ids[i], rowId, entry).item == ids[i]
    ensures RowOf(movements, plan, ids, ids[i], rowId, entry).to == movements[i].to
  {
    hide IndexOf;
    assert IndexOf(ids, ids[i]) == i;
  }

  lemma RowsAreOfTheIds(s: Store, movements: seq<Movement>, plan: Plan, k: nat)
    requires PlanOk(s, movements, plan) && IdsOk(s) && k < |movements|
    ensures NewRows(s, movements, plan)[k].item in ItemIds(movements, s.nextItem)
  {
    NewRowIs(s, movements, plan, k);
    hide NewRows, ItemIds, Sort, IdsOk, PlanOk;
  }

  /**
   What a move does to each item: the i-th movement's item, whose id the i-th of
   the move's ids is, ends at that movement's destination; every other item stays
   where it was.
   */
  lemma MovePlacesItems(s: Store, movements: seq<Movement>, plan: Plan, i: nat, item: int)
    requires PlanOk(s, movements, plan) && IdsOk(s)
    ensures var ids, rows := ItemIds(movements, s.nextItem), s.rows + NewRows(s, movements, plan);
            && (i < |movements| ==> PlaceOf(rows, ids[i]) == Holder(movements[i].to))
            && (item !in ids ==> PlaceOf(rows, item) == PlaceOf(s.rows, item))
  {
    NamedInHeads(s, movements, plan);
    hide PlaceOf, PlanOk, IdsOk, NewRows, ItemIds;
    var rows := NewRows(s, movements, plan);
    if i < |movements| {
      var k := RowOfEach(s, movements, plan, i);
      forall j | 0 <= j < |rows| && j != k
        ensures rows[j].item != rows[k].item
      {
        if j < k { NewRowsDistinct(s, movements, plan, j, k); } else { NewRowsDistinct(s, movements, plan, k, j); }
      }
      PlacedByItsRow(s.rows, rows, k);
    }
    if item !in ItemIds(movements, s.nextItem) {
      forall k | 0 <= k < |rows| ensures rows[k].item != item { RowsAreOfTheIds(s, movements, plan, k); }
      PlaceUntouched(s.rows, rows, item);
    }
  }

  /** The rows go in under ascending row ids, in ascending item id, all of them under the move's own entry. */
  lemma RowsAscend(s: Store, movements: seq<Movement>, plan: Plan, j: nat, k: nat)
    requires PlanOk(s, movements, plan) && IdsOk(s) && j < k < |movements|
    ensures var rows := NewRows(s, movements, plan);
            rows[j].item < rows[k].item && rows[j].id < rows[k].id && rows[j].entry == rows[k].entry == s.books.nextEntry
  {
    NewRowIs(s, movements, plan, j);
    NewRowIs(s, movements, plan, k);
    NewRowAt(s, movements, plan, j);
    NewRowAt(s, movements, plan, k);
    IdsSorted(s, movements, plan);
    SortSorts(ItemIds(movements, s.nextItem));
    hide NewRows, ItemIds, Sort, IdsOk, IndexOf, PlanOk;
  }

  /** A named item's id is its own; the minted ones' are new, in the movements' order, and no item twice. */
  lemma MoveNamesItems(s: Store, movements: seq<Movement>, plan: Plan, i: nat, j: nat)
    requires PlanOk(s, movements, plan) && IdsOk(s) && i < |movements|
    ensures var ids := ItemIds(movements, s.nextItem);
            && (movements[i].item != 0 ==> ids[i] == movements[i].item && ids[i] in s.items)
            && (movements[i].item == 0 ==> ids[i] !in s.items)
            && (i < j < |movements| ==> ids[i] != ids[j] && (movements[i].item == 0 && movements[j].item == 0 ==> ids[i] < ids[j]))
  {
    var ids := ItemIds(movements, s.nextItem);
    NamedBelow(s, movements, plan);
    ItemIdsAre(movements, s.nextItem, i);
    assert movements[i] in movements;
    if i < j < |movements| {
      ItemIdsAre(movements, s.nextItem, j);
      ItemIdsDistinct(movements, s.nextItem, i, j);
      if movements[i].item == NEW_ITEM { MintsGrow(movements, i, j); }
    }
    hide ItemIds, Mints;
  }
}
