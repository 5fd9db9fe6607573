/** Moving items: one document's movements and the capacity postings derived from them. */
module ItemMoves {
  import opened SortedSeq
  import opened Chains
  import opened Ledgers

  datatype Movement = Movement(item: int, from: int, to: int)

  datatype Store = Store(books: Books, rows: seq<MovementRow>, items: set<int>, nextItem: nat, nextMovement: nat)

  /** What a move reads before it writes: each named item's last movement, and each touched holder's two slots accounts. */
  datatype Plan = Plan(heads: map<int, nat>, free: map<int, int>, used: map<int, int>)

  // ---------- Shape ----------

  predicate ShapeOk(movements: seq<Movement>) {
    && movements != []
    && (forall m :: m in movements ==> m.from != m.to && (m.item == NEW_ITEM ==> m.from == WORLD))
    && forall i, j :: 0 <= i < j < |movements| && movements[i].item != NEW_ITEM ==> movements[i].item != movements[j].item
  }

  predicate IsSlots(accounts: map<int, Account>, id: int, h: int, role: Role) {
    id in accounts && accounts[id].holder == h && accounts[id].kind == "slots" && accounts[id].role == role
  }

  /** A holder has at most one slots account of each role. */
  ghost predicate CatalogOk(accounts: map<int, Account>) {
    forall h, role, x, y | role != NoRole && IsSlots(accounts, x, h, role) && IsSlots(accounts, y, h, role) :: x == y
  }

  predicate HasSlots(accounts: map<int, Account>, plan: Plan, h: int) {
    && h in plan.free && IsSlots(accounts, plan.free[h], h, Free)
    && h in plan.used && IsSlots(accounts, plan.used[h], h, Used)
  }

  ghost predicate LastIs(rows: seq<MovementRow>, item: int, id: nat, holder: int) {
    var s := RowsOf(rows, item);
    s != [] && s[|s| - 1].id == id && s[|s| - 1].to == holder
  }

  /** Every item named has a head read for it. */
  predicate HeadsRead(movements: seq<Movement>, plan: Plan) {
    forall m :: m in movements && m.item != NEW_ITEM ==> m.item in plan.heads
  }

  /** The plan a move reads from the store: every named item's head, at its source. */
  ghost predicate PlanRead(s: Store, movements: seq<Movement>, plan: Plan) {
    && ShapeOk(movements) && HeadsRead(movements, plan)
    && (forall m :: m in movements && m.item != NEW_ITEM ==> LastIs(s.rows, m.item, plan.heads[m.item], m.from))
    && forall m :: m in movements ==> HasSlots(s.books.accounts, plan, m.from) && HasSlots(s.books.accounts, plan, m.to)
  }

  /** What stays true of a plan however the store moves on. */
  ghost predicate PlanOk(s: Store, movements: seq<Movement>, plan: Plan) {
    && ShapeOk(movements) && HeadsRead(movements, plan)
    && (forall m :: m in movements && m.item != NEW_ITEM ==>
          exists r :: r in s.rows && r.id == plan.heads[m.item] && r.item == m.item && r.to == m.from)
    && forall m :: m in movements ==> HasSlots(s.books.accounts, plan, m.from) && HasSlots(s.books.accounts, plan, m.to)
  }

  // ---------- The batch ----------

  /** The four capacity legs of one movement. */
  function LegsOf(plan: Plan, m: Movement): seq<Posting>
    requires m.from in plan.free && m.from in plan.used && m.to in plan.free && m.to in plan.used
  {
    [Posting(plan.free[m.from], 1.0), Posting(plan.used[m.from], -1.0), Posting(plan.free[m.to], -1.0), Posting(plan.used[m.to], 1.0)]
  }

  predicate Covers(plan: Plan, movements: seq<Movement>) {
    forall m :: m in movements ==> m.from in plan.free && m.from in plan.used && m.to in plan.free && m.to in plan.used
  }

  function Legs(plan: Plan, movements: seq<Movement>): seq<Posting>
    requires Covers(plan, movements)
  {
    if movements == [] then []
    else
      var less, m := movements[..|movements| - 1], movements[|movements| - 1];
      assert movements == less + [m];
      Legs(plan, less) + LegsOf(plan, m)
  }

  // ---------- Identities and rows ----------

  /** The ids the movements' items have: a named item's own, a minted one's next in the identity sequence. */
  function ItemIds(movements: seq<Movement>, next: nat): (ids: seq<int>)
    ensures |ids| == |movements|
  {
    if movements == [] then []
    else
      var less, m := movements[..|movements| - 1], movements[|movements| - 1];
      ItemIds(less, next) + [if m.item == NEW_ITEM then next + Mints(less) else m.item]
  }

  function Mints(movements: seq<Movement>): nat {
    if movements == [] then 0
    else Mints(movements[..|movements| - 1]) + if movements[|movements| - 1].item == NEW_ITEM then 1 else 0
  }

  lemma {:induction false} ItemIdsAre(movements: seq<Movement>, next: nat, i: nat)
    requires i < |movements|
    ensures movements[i].item != NEW_ITEM ==> ItemIds(movements, next)[i] == movements[i].item
    ensures movements[i].item == NEW_ITEM ==> ItemIds(movements, next)[i] == next + Mints(movements[..i]) < next + Mints(movements)
    decreases |movements|
  {
    var less := movements[..|movements| - 1];
    if i < |less| {
      ItemIdsAre(less, next, i);
      assert less[..i] == movements[..i];
    }
  }

  lemma {:induction false} MintsGrow(movements: seq<Movement>, i: nat, j: nat)
    requires i < j <= |movements| && movements[i].item == NEW_ITEM
    ensures Mints(movements[..i]) < Mints(movements[..j])
    decreases j
  {
    assert movements[..j][..j - 1] == movements[..j - 1];
    if i < j - 1 { MintsGrow(movements, i, j - 1); }
  }

  /** No two movements of one batch move one item. */
  lemma ItemIdsDistinct(movements: seq<Movement>, next: nat, i: nat, j: nat)
    requires ShapeOk(movements) && i < j < |movements|
    requires forall m :: m in movements && m.item != NEW_ITEM ==> m.item < next
    ensures ItemIds(movements, next)[i] != ItemIds(movements, next)[j]
  {
    ItemIdsAre(movements, next, i);
    ItemIdsAre(movements, next, j);
    assert movements[i] in movements && movements[j] in movements;
    if movements[i].item == NEW_ITEM && movements[j].item == NEW_ITEM { MintsGrow(movements, i, j); }
  }

  /** The first index of id. */
  function IndexOf(ids: seq<int>, id: int): (i: nat)
    requires id in ids
    ensures i < |ids| && ids[i] == id
  {
    if ids[0] == id then 0 else 1 + IndexOf(ids[1..], id)
  }

  /** The movement row of item id. */
  function RowOf(movements: seq<Movement>, plan: Plan, ids: seq<int>, id: int, rowId: nat, entry: nat): MovementRow
    requires |ids| == |movements| && id in ids
    requires HeadsRead(movements, plan)
  {
    var m := movements[IndexOf(ids, id)];
    MovementRow(rowId, id, if m.item == NEW_ITEM then Genesis else After(plan.heads[m.item]), m.from, m.to, entry)
  }

  /** The rows of a move, in ascending item id. */
  function NewRows(s: Store, movements: seq<Movement>, plan: Plan): (rows: seq<MovementRow>)
    requires HeadsRead(movements, plan)
    ensures |rows| == |movements|
  {
    var ids := ItemIds(movements, s.nextItem);
    SortSorts(ids);
    var sorted := Sort(ids);
    seq(|sorted|, k requires 0 <= k < |sorted| => RowOf(movements, plan, ids, sorted[k], s.nextMovement + k, s.books.nextEntry))
  }

  /** Each row, in turn, meets the table's constraints. */
  ghost predicate InsertableAll(rows: seq<MovementRow>, more: seq<MovementRow>) {
    forall k :: 0 <= k < |more| ==> Insertable(rows + more[..k], more[k])
  }

  /** The move's writes all go through, against the store as it then is. */
  ghost predicate Movable(s: Store, movements: seq<Movement>, plan: Plan, basis: Basis, postings: seq<Posting>) {
    && PlanOk(s, movements, plan)
    && InsertableAll(s.rows, NewRows(s, movements, plan))
    && Postable(s.books, basis, postings + Legs(plan, movements))
  }

  ghost function AfterMove(s: Store, movements: seq<Movement>, plan: Plan, basis: Basis, postings: seq<Posting>): Store
    requires PlanOk(s, movements, plan)
  {
    Store(Posted(s.books, basis, postings + Legs(plan, movements)),
          s.rows + NewRows(s, movements, plan),
          s.items + (set id | id in ItemIds(movements, s.nextItem)),
          s.nextItem + Mints(movements),
          s.nextMovement + |movements|)
  }

  // ---------- What every state keeps ----------

  ghost predicate IdsOk(s: Store) {
    && (forall r :: r in s.rows ==> r.id < s.nextMovement && r.entry < s.books.nextEntry && r.item in s.items)
    && NEW_ITEM < s.nextItem && forall item :: item in s.items ==> NEW_ITEM < item < s.nextItem
  }

  /** Whoever a row names has a used-slots account. */
  ghost predicate HoldersOk(s: Store) {
    forall r :: r in s.rows ==>
      (exists id :: IsSlots(s.books.accounts, id, r.from, Used)) && exists id :: IsSlots(s.books.accounts, id, r.to, Used)
  }

  ghost predicate StoreOk(s: Store) {
    BooksOk(s.books) && AllChains(s.rows) && CatalogOk(s.books.accounts) && IdsOk(s) && HoldersOk(s)
  }

  /** The used slots of every holder are the items it holds; of World, those less every item ever minted. */
  ghost predicate Reconciled(s: Store) {
    forall id, h :: IsSlots(s.books.accounts, id, h, Used) ==> Total(s.books.postings, OnAccount(id)) == UsedByMovements(s.rows, h) as real
  }

  /** The callers' own postings leave every used-slots account alone. */
  ghost predicate SparesUsed(accounts: map<int, Account>, batch: seq<Posting>) {
    forall p :: p in batch && p.account in accounts ==> accounts[p.account].role != Used
  }

  // ---------- Flows ----------

  /** What one movement adds to what holder h has. */
  function Net(from: int, to: int, h: int): int {
    (if to == h then 1 else 0) - if from == h then 1 else 0
  }

  function RowFlow(rows: seq<MovementRow>, h: int): int {
    if rows == [] then 0
    else RowFlow(rows[..|rows| - 1], h) + Net(rows[|rows| - 1].from, rows[|rows| - 1].to, h)
  }

  function Flow(movements: seq<Movement>, h: int): int {
    if movements == [] then 0
    else Flow(movements[..|movements| - 1], h) + Net(movements[|movements| - 1].from, movements[|movements| - 1].to, h)
  }

  function SumOver(ids: seq<int>, f: int -> int): int {
    if ids == [] then 0 else SumOver(ids[..|ids| - 1], f) + f(ids[|ids| - 1])
  }

  lemma {:induction false} SumOverSplit(a: seq<int>, b: seq<int>, f: int -> int)
    ensures SumOver(a + b, f) == SumOver(a, f) + SumOver(b, f)
    decreases |b|
  {
    if b == [] {
      assert a + b == a;
    } else {
      assert (a + b)[..|a + b| - 1] == a + b[..|b| - 1];
      SumOverSplit(a, b[..|b| - 1], f);
    }
  }

  lemma {:induction false} SumOverAnyOrder(a: seq<int>, b: seq<int>, f: int -> int)
    requires multiset(a) == multiset(b)
    ensures SumOver(a, f) == SumOver(b, f)
    decreases |a|
  {
    if a == [] {
      assert |b| == |multiset(b)|;
    } else {
      var less, x := a[..|a| - 1], a[|a| - 1];
      assert a == less + [x];
      assert x in multiset(b);
      var j :| 0 <= j < |b| && b[j] == x;
      OneOut(b, j);
      SumOverOneOut(b, j, f);
      SumOverAnyOrder(less, b[..j] + b[j + 1..], f);
    }
  }

  lemma SumOverOneOut(b: seq<int>, j: nat, f: int -> int)
    requires j < |b|
    ensures SumOver(b, f) == SumOver(b[..j] + b[j + 1..], f) + f(b[j])
  {
    hide SumOver;
    var before, x, after := b[..j], b[j], b[j + 1..];
    assert b == before + ([x] + after);
    SumOverSplit(before, after, f);
    SumOverSplit(before, [x] + after, f);
    SumOverSplit([x], after, f);
    SumOverOne(x, f);
  }

  lemma SumOverOne(x: int, f: int -> int)
    ensures SumOver([x], f) == f(x)
  {
    assert [x][..0] == [];
  }

  /** The net of the movement item id takes part in. */
  function NetOf(movements: seq<Movement>, ids: seq<int>, id: int, h: int): int
    requires |ids| == |movements|
  {
    if id in ids then Net(movements[IndexOf(ids, id)].from, movements[IndexOf(ids, id)].to, h) else 0
  }

  lemma {:induction false} FlowByIds(movements: seq<Movement>, ids: seq<int>, h: int, i: nat)
    requires |ids| == |movements| && i <= |ids|
    requires forall x, y :: 0 <= x < y < |ids| ==> ids[x] != ids[y]
    ensures Flow(movements[..i], h) == SumOver(ids[..i], id => NetOf(movements, ids, id, h))
    decreases i
  {
    var f := id => NetOf(movements, ids, id, h);
    if i > 0 {
      FlowByIds(movements, ids, h, i - 1);
      assert movements[..i][..i - 1] == movements[..i - 1] && ids[..i][..i - 1] == ids[..i - 1];
      assert ids[i - 1] in ids && IndexOf(ids, ids[i - 1]) == i - 1;
      SameSum(ids[..i - 1], f, id => NetOf(movements, ids, id, h));
      SameSum(ids[..i], f, id => NetOf(movements, ids, id, h));
    } else {
      assert movements[..0] == [] && ids[..0] == [];
    }
  }

  lemma {:induction false} SameSum(ids: seq<int>, f: int -> int, f': int -> int)
    requires forall id :: f(id) == f'(id)
    ensures SumOver(ids, f) == SumOver(ids, f')
  {
    if ids != [] { SameSum(ids[..|ids| - 1], f, f'); }
  }

  lemma {:induction false} RowFlowByIds(rows: seq<MovementRow>, sorted: seq<int>, f: int -> int, h: int)
    requires |rows| == |sorted| && forall k :: 0 <= k < |rows| ==> Net(rows[k].from, rows[k].to, h) == f(sorted[k])
    ensures RowFlow(rows, h) == SumOver(sorted, f)
  {
    if rows != [] { RowFlowByIds(rows[..|rows| - 1], sorted[..|rows| - 1], f, h); }
  }

  /** The rows, in id order, move between holders what the movements, in the caller's order, say. */
  lemma RowsFlowAsMovements(s: Store, movements: seq<Movement>, plan: Plan, h: int)
    requires PlanOk(s, movements, plan) && IdsOk(s)
    ensures RowFlow(NewRows(s, movements, plan), h) == Flow(movements, h)
  {
    NamedBelow(s, movements, plan);
    var ids := ItemIds(movements, s.nextItem);
    forall x, y | 0 <= x < y < |ids| ensures ids[x] != ids[y] { ItemIdsDistinct(movements, s.nextItem, x, y); }
    var f := id => NetOf(movements, ids, id, h);
    SortSorts(ids);
    var rows := NewRows(s, movements, plan);
    forall k | 0 <= k < |rows|
      ensures Net(rows[k].from, rows[k].to, h) == f(Sort(ids)[k])
    {
      NewRowIs(s, movements, plan, k);
    }
    hide *;
    RowFlowByIds(rows, Sort(ids), f, h);
    SumOverAnyOrder(Sort(ids), ids, f);
    FlowByIds(movements, ids, h, |ids|);
    assert movements[..|ids|] == movements && ids[..|ids|] == ids;
    SameSum(ids, f, id => NetOf(movements, ids, id, h));
  }

  /** Items the plan names are stored ones. */
  lemma NamedBelow(s: Store, movements: seq<Movement>, plan: Plan)
    requires PlanOk(s, movements, plan) && IdsOk(s)
    ensures forall m :: m in movements && m.item != NEW_ITEM ==> m.item in s.items && m.item < s.nextItem
  {
  }

  /** The capacity legs add a movement's net to its holders' used slots, and take it from their free ones. */
  lemma {:induction false} LegsAddFlow(accounts: map<int, Account>, plan: Plan, movements: seq<Movement>, h: int, free: int, used: int)
    requires CatalogOk(accounts) && Covers(plan, movements)
    requires forall m :: m in movements ==> HasSlots(accounts, plan, m.from) && HasSlots(accounts, plan, m.to)
    ensures IsSlots(accounts, used, h, Used) ==> Delta(Legs(plan, movements), used) == Flow(movements, h) as real
    ensures IsSlots(accounts, free, h, Free) ==> Delta(Legs(plan, movements), free) == -(Flow(movements, h) as real)
    decreases |movements|
  {
    hide Delta;
    if movements == [] {
      DeltaOfNothing(free);
      DeltaOfNothing(used);
    } else {
      var less, m := movements[..|movements| - 1], movements[|movements| - 1];
      assert movements == less + [m];
      LegsAddFlow(accounts, plan, less, h, free, used);
      DeltaOfLegs(accounts, Legs(plan, less), plan, m, h, free, used);
    }
  }

  lemma DeltaOfNothing(id: int)
    ensures Delta([], id) == 0.0
  {
    assert Rows(0, []) == [];
  }

  lemma DeltaOfLegs(accounts: map<int, Account>, batch: seq<Posting>, plan: Plan, m: Movement, h: int, free: int, used: int)
    requires CatalogOk(accounts) && HasSlots(accounts, plan, m.from) && HasSlots(accounts, plan, m.to)
    ensures IsSlots(accounts, used, h, Used) ==> Delta(batch + LegsOf(plan, m), used) == Delta(batch, used) + Net(m.from, m.to, h) as real
    ensures IsSlots(accounts, free, h, Free) ==> Delta(batch + LegsOf(plan, m), free) == Delta(batch, free) - Net(m.from, m.to, h) as real
  {
    hide Delta, CatalogOk;
    var l := LegsOf(plan, m);
    assert batch + l == batch + [l[0]] + [l[1]] + [l[2]] + [l[3]];
    FourMore(batch, l[0], l[1], l[2], l[3], used);
    FourMore(batch, l[0], l[1], l[2], l[3], free);
    OneSlots(accounts, plan, m.from, h, free, used);
    OneSlots(accounts, plan, m.to, h, free, used);
  }

  function AmountAt(p: Posting, id: int): real {
    if p.account == id then p.amount else 0.0
  }

  lemma FourMore(batch: seq<Posting>, a: Posting, b: Posting, c: Posting, d: Posting, id: int)
    ensures Delta(batch + [a] + [b] + [c] + [d], id) == Delta(batch, id) + AmountAt(a, id) + AmountAt(b, id) + AmountAt(c, id) + AmountAt(d, id)
  {
    DeltaMore(map[], batch, a, id, "");
    DeltaMore(map[], batch + [a], b, id, "");
    DeltaMore(map[], batch + [a] + [b], c, id, "");
    DeltaMore(map[], batch + [a] + [b] + [c], d, id, "");
  }

  /** A plan's accounts for holder h' are holder h's exactly when h' is h. */
  lemma OneSlots(accounts: map<int, Account>, plan: Plan, h': int, h: int, free: int, used: int)
    requires CatalogOk(accounts) && HasSlots(accounts, plan, h')
    ensures IsSlots(accounts, used, h, Used) ==> (plan.used[h'] == used <==> h' == h) && plan.free[h'] != used
    ensures IsSlots(accounts, free, h, Free) ==> (plan.free[h'] == free <==> h' == h) && plan.used[h'] != free
  {
  }

  // ---------- What a move keeps ----------

  lemma {:induction false} InsertAllKeepsChains(rows: seq<MovementRow>, more: seq<MovementRow>, h: int)
    requires AllChains(rows) && InsertableAll(rows, more)
    ensures AllChains(rows + more)
    ensures UsedByMovements(rows + more, h) == UsedByMovements(rows, h) + RowFlow(more, h)
    decreases |more|
  {
    hide AllChains, Insertable, UsedByMovements;
    if more == [] {
      assert rows + more == rows;
    } else {
      var less, row := more[..|more| - 1], more[|more| - 1];
      assert forall k :: 0 <= k < |less| ==> less[..k] == more[..k];
      assert forall k :: 0 <= k < |less| ==> Insertable(rows + more[..k], more[k]);
      InsertAllKeepsChains(rows, less, h);
      assert Insertable(rows + less, row);
      ConstraintsAdmitExtensions(rows + less, row);
      InsertKeepsChains(rows + less, row);
      MovementShiftsUsed(rows + less, row, h);
      assert rows + more == (rows + less) + [row];
    }
  }

  /** One more movement of another item leaves an item's own rows alone. */
  lemma {:induction false} OtherRowsUntouched(rows: seq<MovementRow>, more: seq<MovementRow>, item: int)
    requires forall k :: 0 <= k < |more| ==> more[k].item != item
    ensures RowsOf(rows + more, item) == RowsOf(rows, item)
    decreases |more|
  {
    if more == [] {
      assert rows + more == rows;
    } else {
      var less, row := more[..|more| - 1], more[|more| - 1];
      assert rows + more == (rows + less) + [row];
      OtherRowsUntouched(rows, less, item);
      RowsOfMore(rows + less, row, item);
    }
  }

  /** The sorted ids are the ids, each once. */
  lemma IdsSorted(s: Store, movements: seq<Movement>, plan: Plan)
    requires PlanOk(s, movements, plan) && IdsOk(s)
    ensures var ids := ItemIds(movements, s.nextItem);
            && (forall x, y :: 0 <= x < y < |ids| ==> ids[x] != ids[y])
            && |Sort(ids)| == |ids| && multiset(Sort(ids)) == multiset(ids)
            && (forall id :: id in Sort(ids) <==> id in ids)
            && forall x, y :: 0 <= x < y < |ids| ==> Sort(ids)[x] != Sort(ids)[y]
  {
    var ids := ItemIds(movements, s.nextItem);
    NamedBelow(s, movements, plan);
    forall x, y | 0 <= x < y < |ids| ensures ids[x] != ids[y] { ItemIdsDistinct(movements, s.nextItem, x, y); }
    hide *;
    SortSorts(ids);
    StillDistinct(Sort(ids), ids);
  }

  /** Row k is that of the k-th id in order, and of the movement that id belongs to. */
  lemma NewRowIs(s: Store, movements: seq<Movement>, plan: Plan, k: nat)
    requires PlanOk(s, movements, plan) && IdsOk(s) && k < |movements|
    ensures var ids := ItemIds(movements, s.nextItem);
            && |Sort(ids)| == |ids| && Sort(ids)[k] in ids
            && NewRows(s, movements, plan)[k] == RowOf(movements, plan, ids, Sort(ids)[k], s.nextMovement + k, s.books.nextEntry)
  {
    NamedInHeads(s, movements, plan);
    var ids := ItemIds(movements, s.nextItem);
    SortedIn(ids, k);
    hide PlanOk, IdsOk, Sort, ItemIds, RowOf, IndexOf;
  }

  lemma SortedIn(ids: seq<int>, k: nat)
    requires k < |ids|
    ensures |Sort(ids)| == |ids| && Sort(ids)[k] in ids
  {
    hide Sort;
    SortSorts(ids);
    assert Sort(ids)[k] in Sort(ids);
  }

  /** The movement row k records. */
  function MovementAt(s: Store, movements: seq<Movement>, plan: Plan, k: nat): Movement
    requires PlanOk(s, movements, plan) && IdsOk(s) && k < |movements|
  {
    NewRowIs(s, movements, plan, k);
    movements[IndexOf(ItemIds(movements, s.nextItem), Sort(ItemIds(movements, s.nextItem))[k])]
  }

  lemma NewRowAt(s: Store, movements: seq<Movement>, plan: Plan, k: nat)
    requires PlanOk(s, movements, plan) && IdsOk(s) && k < |movements|
    ensures var row, m := NewRows(s, movements, plan)[k], MovementAt(s, movements, plan, k);
            && row.id == s.nextMovement + k && row.entry == s.books.nextEntry
            && m in movements && row.from == m.from && row.to == m.to
            && (m.item != NEW_ITEM ==> m.item in plan.heads && row.item == m.item && row.prev == After(plan.heads[m.item]))
            && (m.item == NEW_ITEM ==> row.prev == Genesis && s.nextItem <= row.item < s.nextItem + Mints(movements))
  {
    NewRowIs(s, movements, plan, k);
    var ids := ItemIds(movements, s.nextItem);
    var i := IndexOf(ids, Sort(ids)[k]);
    ItemIdsAre(movements, s.nextItem, i);
    assert movements[i] in movements;
    hide NewRows, ItemIds, Sort, IdsOk, IndexOf, Mints, HasSlots, ShapeOk;
  }

  lemma NewRowsDistinct(s: Store, movements: seq<Movement>, plan: Plan, j: nat, k: nat)
    requires PlanOk(s, movements, plan) && IdsOk(s) && j < k < |movements|
    ensures NewRows(s, movements, plan)[j].item != NewRows(s, movements, plan)[k].item
  {
    NewRowIs(s, movements, plan, j);
    NewRowIs(s, movements, plan, k);
    IdsSorted(s, movements, plan);
    hide NewRows, ItemIds, Sort, IdsOk, IndexOf, PlanOk;
  }

  /** A named item's head is still the one the plan read. */
  ghost predicate StillHead(s: Store, plan: Plan, m: Movement) {
    m.item != NEW_ITEM ==> m.item in plan.heads && LastIs(s.rows, m.item, plan.heads[m.item], m.from)
  }

  /**
   A lost race is refused at the chain: the rows of a move go in exactly when no
   named item has moved on since its head was read, however many transactions
   committed in between.
   */
  lemma MoveConflictsExactlyWhenStale(s: Store, movements: seq<Movement>, plan: Plan)
    requires AllChains(s.rows) && IdsOk(s) && PlanOk(s, movements, plan)
    ensures InsertableAll(s.rows, NewRows(s, movements, plan)) <==> forall m :: m in movements ==> StillHead(s, plan, m)
  {
    hide AllChains, Insertable, IdsOk, PlanOk, NewRows;
    NamedInHeads(s, movements, plan);
    var rows := NewRows(s, movements, plan);
    if InsertableAll(s.rows, rows) {
      forall m | m in movements
        ensures StillHead(s, plan, m)
      {
        if m.item != NEW_ITEM {
          var k := RowOfNamed(s, movements, plan, m);
          NewRowAt(s, movements, plan, k);
          OwnChainUnchanged(s, movements, plan, k);
          LandedAfterHead(s.rows, rows, k, plan.heads[m.item]);
        }
      }
    }
    if forall m :: m in movements ==> StillHead(s, plan, m) {
      forall k | 0 <= k < |rows|
        ensures Insertable(s.rows + rows[..k], rows[k])
      {
        PrefixInsertable(s, movements, plan, k);
      }
    }
  }

  lemma NamedInHeads(s: Store, movements: seq<Movement>, plan: Plan)
    requires PlanOk(s, movements, plan)
    ensures HeadsRead(movements, plan)
  {
  }

  lemma RowOfNamed(s: Store, movements: seq<Movement>, plan: Plan, m: Movement) returns (k: nat)
    requires PlanOk(s, movements, plan) && IdsOk(s) && m in movements && m.item != NEW_ITEM
    ensures k < |movements| && MovementAt(s, movements, plan, k) == m
  {
    var ids := ItemIds(movements, s.nextItem);
    var i :| 0 <= i < |movements| && movements[i] == m;
    ItemIdsAre(movements, s.nextItem, i);
    IdsSorted(s, movements, plan);
    hide NewRows, ItemIds, Sort, IdsOk, PlanOk, Mints;
    assert ids[i] == m.item && m.item in ids && m.item in Sort(ids);
    k :| 0 <= k < |ids| && Sort(ids)[k] == m.item;
    assert IndexOf(ids, m.item) == i;
  }

  lemma StoredIdsBelow(s: Store)
    requires IdsOk(s)
    ensures forall r :: r in s.rows ==> r.id < s.nextMovement && r.entry < s.books.nextEntry && r.item < s.nextItem
  {
  }

  /** Row k sees the same chain of its own item whichever of the move's other rows went in before it. */
  lemma OwnChainUnchanged(s: Store, movements: seq<Movement>, plan: Plan, k: nat)
    requires PlanOk(s, movements, plan) && IdsOk(s) && k < |movements|
    ensures var rows := NewRows(s, movements, plan);
            RowsOf(s.rows + rows[..k], rows[k].item) == RowsOf(s.rows, rows[k].item)
    ensures var rows := NewRows(s, movements, plan);
            IdFree(s.rows + rows[..k], rows[k].id)
  {
    hide NewRows, RowsOf;
    var rows := NewRows(s, movements, plan);
    NewRowAt(s, movements, plan, k);
    hide PlanOk, IdsOk, MovementAt;
    forall j | 0 <= j < k ensures rows[..k][j].item != rows[k].item { NewRowsDistinct(s, movements, plan, j, k); }
    assert forall r :: r in s.rows ==> r.id < s.nextMovement by { StoredIdsBelow(s); }
    OtherRowsUntouched(s.rows, rows[..k], rows[k].item);
    forall r | r in s.rows + rows[..k]
      ensures r.id != rows[k].id
    {
      if r !in s.rows {
        var j :| 0 <= j < k && rows[j] == r;
        NewRowAt(s, movements, plan, j);
      }
    }
  }

  /** A row that went in after id follows its item's last movement, and that is id. */
  lemma LandedAfterHead(rows: seq<MovementRow>, more: seq<MovementRow>, k: nat, id: nat)
    requires AllChains(rows) && InsertableAll(rows, more) && k < |more| && more[k].prev == After(id)
    requires RowsOf(rows + more[..k], more[k].item) == RowsOf(rows, more[k].item)
    ensures LastIs(rows, more[k].item, id, more[k].from)
  {
    hide AllChains, Insertable, RowsOf, InsertableAll;
    PrefixInsertableAll(rows, more, k);
    InsertAllKeepsChains(rows, more[..k], 0);
    InsertableAt(rows, more, k);
    ConstraintsAdmitExtensions(rows + more[..k], more[k]);
  }

  lemma InsertableAt(rows: seq<MovementRow>, more: seq<MovementRow>, k: nat)
    requires InsertableAll(rows, more) && k < |more|
    ensures Insertable(rows + more[..k], more[k])
  {
  }

  lemma PrefixInsertableAll(rows: seq<MovementRow>, more: seq<MovementRow>, k: nat)
    requires InsertableAll(rows, more) && k <= |more|
    ensures InsertableAll(rows, more[..k])
  {
    hide Insertable;
    assert forall j :: 0 <= j < k ==> more[..k][..j] == more[..j];
  }

  lemma OneMoreInsertable(rows: seq<MovementRow>, more: seq<MovementRow>, row: MovementRow)
    requires InsertableAll(rows, more) && Insertable(rows + more, row)
    ensures InsertableAll(rows, more + [row])
  {
    hide Insertable;
    assert forall j :: 0 <= j < |more| ==> (more + [row])[..j] == more[..j];
    assert (more + [row])[..|more|] == more;
  }

  lemma {:induction false} PrefixInsertable(s: Store, movements: seq<Movement>, plan: Plan, k: nat)
    requires AllChains(s.rows) && PlanOk(s, movements, plan) && IdsOk(s) && k < |movements|
    requires HeadsRead(movements, plan)
    requires forall m :: m in movements ==> StillHead(s, plan, m)
    ensures var rows := NewRows(s, movements, plan);
            Insertable(s.rows + rows[..k], rows[k]) && InsertableAll(s.rows, rows[..k + 1])
    decreases k
  {
    hide AllChains, PlanOk, IdsOk, NewRows, Insertable, RowsOf;
    var rows := NewRows(s, movements, plan);
    if k > 0 {
      PrefixInsertable(s, movements, plan, k - 1);
    } else {
      assert InsertableAll(s.rows, rows[..0]);
    }
    InsertAllKeepsChains(s.rows, rows[..k], 0);
    OwnChainUnchanged(s, movements, plan, k);
    NewRowExtends(s, movements, plan, k);
    ConstraintsAdmitExtensions(s.rows + rows[..k], rows[k]);
    assert rows[..k + 1] == rows[..k] + [rows[k]];
    OneMoreInsertable(s.rows, rows[..k], rows[k]);
  }

  lemma NewRowExtends(s: Store, movements: seq<Movement>, plan: Plan, k: nat)
    requires PlanOk(s, movements, plan) && IdsOk(s) && k < |movements|
    requires HeadsRead(movements, plan)
    requires forall m :: m in movements ==> StillHead(s, plan, m)
    ensures var row := NewRows(s, movements, plan)[k];
            var own := RowsOf(s.rows, row.item);
            && row.from != row.to
            && if own == [] then row.prev == Genesis && row.from == WORLD else row.prev == After(own[|own| - 1].id) && row.from == own[|own| - 1].to
  {
    hide NewRows, MovementAt;
    NewRowAt(s, movements, plan, k);
    var row, m := NewRows(s, movements, plan)[k], MovementAt(s, movements, plan, k);
    assert m.from != m.to && (m.item == NEW_ITEM ==> m.from == WORLD);
    assert StillHead(s, plan, m);
    StoredIdsBelow(s);
    hide PlanOk, IdsOk, ItemIds, Mints;
    if RowsOf(s.rows, row.item) != [] { assert RowsOf(s.rows, row.item)[0] in s.rows; }
  }

  // ---------- The theorems ----------

  lemma PlanParts(s: Store, movements: seq<Movement>, plan: Plan)
    requires PlanOk(s, movements, plan)
    ensures Covers(plan, movements) && HeadsRead(movements, plan)
    ensures forall m :: m in movements ==> HasSlots(s.books.accounts, plan, m.from) && HasSlots(s.books.accounts, plan, m.to)
  {
  }

  /** A move keeps every part of the store in order. */
  lemma MoveKeepsStore(s: Store, movements: seq<Movement>, plan: Plan, basis: Basis, postings: seq<Posting>)
    requires StoreOk(s) && Movable(s, movements, plan, basis, postings)
    ensures StoreOk(AfterMove(s, movements, plan, basis, postings))
  {
    hide BooksOk, AllChains, CatalogOk, IdsOk, HoldersOk, PlanOk, Postable, InsertableAll, Legs, Posted;
    PlanParts(s, movements, plan);
    var batch := postings + Legs(plan, movements);
    PostKeepsBooks(s.books, basis, batch);
    PostKeepsCatalog(s.books, basis, batch);
    InsertAllKeepsChains(s.rows, NewRows(s, movements, plan), 0);
    MoveKeepsIds(s, movements, plan, basis, postings);
    MoveKeepsHolders(s, movements, plan, basis, postings);
  }

  lemma PostKeepsCatalog(b: Books, basis: Basis, batch: seq<Posting>)
    ensures Posted(b, basis, batch).accounts == b.accounts && Posted(b, basis, batch).nextEntry == b.nextEntry + 1
    ensures Posted(b, basis, batch).postings == b.postings + Rows(b.nextEntry, batch)
    ensures Posted(b, basis, batch).operations >= b.operations
  {
  }

  lemma MoveKeepsIds(s: Store, movements: seq<Movement>, plan: Plan, basis: Basis, postings: seq<Posting>)
    requires IdsOk(s) && PlanOk(s, movements, plan)
    ensures IdsOk(AfterMove(s, movements, plan, basis, postings))
  {
    hide PlanOk, NewRows, ItemIds, MovementAt, Posted, Legs, Mints;
    var s' := AfterMove(s, movements, plan, basis, postings);
    PlanParts(s, movements, plan);
    NamedInHeads(s, movements, plan);
    PostKeepsCatalog(s.books, basis, postings + Legs(plan, movements));
    var rows := NewRows(s, movements, plan);
    forall r | r in s'.rows
      ensures r.id < s'.nextMovement && r.entry < s'.books.nextEntry && r.item in s'.items
    {
      if r !in s.rows {
        var k :| 0 <= k < |rows| && rows[k] == r;
        NewRowAt(s, movements, plan, k);
        NewRowIs(s, movements, plan, k);
      }
    }
    NamedBelow(s, movements, plan);
    var ids := ItemIds(movements, s.nextItem);
    forall item | item in s'.items
      ensures NEW_ITEM < item < s'.nextItem
    {
      if item !in s.items {
        var i :| 0 <= i < |ids| && ids[i] == item;
        ItemIdsAre(movements, s.nextItem, i);
        assert movements[i] in movements;
      }
    }
  }

  lemma MoveKeepsHolders(s: Store, movements: seq<Movement>, plan: Plan, basis: Basis, postings: seq<Posting>)
    requires HoldersOk(s) && IdsOk(s) && PlanOk(s, movements, plan)
    ensures HoldersOk(AfterMove(s, movements, plan, basis, postings))
  {
    hide PlanOk, NewRows, ItemIds, MovementAt, Posted, Legs, IdsOk;
    var s' := AfterMove(s, movements, plan, basis, postings);
    PlanParts(s, movements, plan);
    NamedInHeads(s, movements, plan);
    PostKeepsCatalog(s.books, basis, postings + Legs(plan, movements));
    var rows := NewRows(s, movements, plan);
    forall r | r in s'.rows
      ensures exists id :: IsSlots(s'.books.accounts, id, r.from, Used)
      ensures exists id :: IsSlots(s'.books.accounts, id, r.to, Used)
    {
      if r !in s.rows {
        var k :| 0 <= k < |rows| && rows[k] == r;
        NewRowAt(s, movements, plan, k);
      }
    }
  }

  lemma DeltaOfSum(a: seq<Posting>, b: seq<Posting>, id: int)
    ensures Delta(a + b, id) == Delta(a, id) + Delta(b, id)
  {
    assert Rows(0, a + b) == Rows(0, a) + Rows(0, b);
    TotalOfSum(Rows(0, a), Rows(0, b), OnAccount(id));
  }

  lemma DeltaOfSpared(batch: seq<Posting>, id: int)
    requires forall p :: p in batch ==> p.account != id
    ensures Delta(batch, id) == 0.0
  {
    forall r | r in Rows(0, batch)
      ensures r.posting.account != id
    {
      var i :| 0 <= i < |batch| && Rows(0, batch)[i] == r;
      assert batch[i] in batch;
    }
    TotalOfNone(Rows(0, batch), OnAccount(id));
  }

  lemma PostAddsDelta(b: Books, basis: Basis, batch: seq<Posting>, id: int)
    ensures Total(Posted(b, basis, batch).postings, OnAccount(id)) == Total(b.postings, OnAccount(id)) + Delta(batch, id)
  {
    TotalOfSum(b.postings, Rows(b.nextEntry, batch), OnAccount(id));
    BatchTotals(b.accounts, b.nextEntry, batch, id, "", 0);
  }

  /** The callers' postings spare h's slots accounts: a move adds its flow to used, and takes it from free. */
  lemma MoveShiftsSlots(s: Store, movements: seq<Movement>, plan: Plan, basis: Basis, postings: seq<Posting>, h: int, free: int, used: int)
    requires CatalogOk(s.books.accounts) && PlanOk(s, movements, plan)
    ensures var b, b' := s.books, AfterMove(s, movements, plan, basis, postings).books;
            && (IsSlots(b.accounts, used, h, Used) && (forall p :: p in postings ==> p.account != used) ==>
                  Total(b'.postings, OnAccount(used)) == Total(b.postings, OnAccount(used)) + Flow(movements, h) as real)
            && (IsSlots(b.accounts, free, h, Free) && (forall p :: p in postings ==> p.account != free) ==>
                  Total(b'.postings, OnAccount(free)) == Total(b.postings, OnAccount(free)) - Flow(movements, h) as real)
  {
    hide PlanOk, CatalogOk, Posted, Legs, NewRows, ItemIds, Mints, Delta, Total;
    PlanParts(s, movements, plan);
    var legs := Legs(plan, movements);
    LegsAddFlow(s.books.accounts, plan, movements, h, free, used);
    PostAddsDelta(s.books, basis, postings + legs, free);
    PostAddsDelta(s.books, basis, postings + legs, used);
    DeltaOfSum(postings, legs, free);
    DeltaOfSum(postings, legs, used);
    if forall p :: p in postings ==> p.account != used { DeltaOfSpared(postings, used); }
    if forall p :: p in postings ==> p.account != free { DeltaOfSpared(postings, free); }
  }

  /** A holder's free and used slots together are unchanged by any move whose own postings spare them. */
  lemma MoveKeepsCapacity(s: Store, movements: seq<Movement>, plan: Plan, basis: Basis, postings: seq<Posting>, h: int, free: int, used: int)
    requires CatalogOk(s.books.accounts) && PlanOk(s, movements, plan)
    requires IsSlots(s.books.accounts, free, h, Free) && IsSlots(s.books.accounts, used, h, Used)
    requires forall p :: p in postings ==> p.account != free && p.account != used
    ensures var b, b' := s.books, AfterMove(s, movements, plan, basis, postings).books;
            Total(b'.postings, OnAccount(free)) + Total(b'.postings, OnAccount(used))
            == Total(b.postings, OnAccount(free)) + Total(b.postings, OnAccount(used))
  {
    hide PlanOk, CatalogOk, AfterMove, Total;
    MoveShiftsSlots(s, movements, plan, basis, postings, h, free, used);
  }

  lemma SparedPostings(accounts: map<int, Account>, postings: seq<Posting>, id: int, h: int)
    requires SparesUsed(accounts, postings) && IsSlots(accounts, id, h, Used)
    ensures forall p :: p in postings ==> p.account != id
  {
  }

  /** A move keeps every holder's used slots equal to the items it holds. */
  lemma MoveKeepsReconciled(s: Store, movements: seq<Movement>, plan: Plan, basis: Basis, postings: seq<Posting>)
    requires StoreOk(s) && Reconciled(s) && Movable(s, movements, plan, basis, postings) && SparesUsed(s.books.accounts, postings)
    ensures Reconciled(AfterMove(s, movements, plan, basis, postings))
  {
    hide PlanOk, CatalogOk, IdsOk, BooksOk, AllChains, HoldersOk, Total, NewRows, Posted, Legs, UsedByMovements, SparesUsed, InsertableAll, Postable;
    var s' := AfterMove(s, movements, plan, basis, postings);
    PlanParts(s, movements, plan);
    PostKeepsCatalog(s.books, basis, postings + Legs(plan, movements));
    forall id, h | IsSlots(s'.books.accounts, id, h, Used)
      ensures Total(s'.books.postings, OnAccount(id)) == UsedByMovements(s'.rows, h) as real
    {
      SparedPostings(s.books.accounts, postings, id, h);
      MoveShiftsSlots(s, movements, plan, basis, postings, h, 0, id);
      InsertAllKeepsChains(s.rows, NewRows(s, movements, plan), h);
      RowsFlowAsMovements(s, movements, plan, h);
    }
  }

  lemma PostKeepsReconciled(s: Store, basis: Basis, batch: seq<Posting>)
    requires Reconciled(s) && SparesUsed(s.books.accounts, batch)
    ensures Reconciled(s.(books := Posted(s.books, basis, batch)))
  {
    hide Total, Posted, UsedByMovements, SparesUsed;
    PostKeepsCatalog(s.books, basis, batch);
    forall id, h | IsSlots(s.books.accounts, id, h, Used)
      ensures Total(Posted(s.books, basis, batch).postings, OnAccount(id)) == UsedByMovements(s.rows, h) as real
    {
      PostAddsDelta(s.books, basis, batch, id);
      SparedPostings(s.books.accounts, batch, id, h);
      DeltaOfSpared(batch, id);
    }
  }

  /**
   While the two machines agree, a move never overdraws the used slots of a
   holder: an overdraft is always a full backpack or the caller's own posting.
   */
  lemma UsedSlotsNeverOverdraw(s: Store, movements: seq<Movement>, plan: Plan, postings: seq<Posting>, h: int, used: int)
    requires StoreOk(s) && Reconciled(s) && PlanOk(s, movements, plan) && SparesUsed(s.books.accounts, postings)
    requires InsertableAll(s.rows, NewRows(s, movements, plan))
    requires h != WORLD && IsSlots(s.books.accounts, used, h, Used) && s.books.accounts[used].controlled
    ensures 0.0 <= Balance(s.books, used) + Delta(postings + Legs(plan, movements), used)
  {
    hide PlanOk, CatalogOk, IdsOk, AllChains, HoldersOk, Total, NewRows, Legs, Delta, UsedByMovements, SparesUsed, InsertableAll, InRange;
    PlanParts(s, movements, plan);
    assert BalanceOk(s.books, used);
    LegsAddFlow(s.books.accounts, plan, movements, h, 0, used);
    SparedPostings(s.books.accounts, postings, used, h);
    DeltaOfSpared(postings, used);
    DeltaOfSum(postings, Legs(plan, movements), used);
    InsertAllKeepsChains(s.rows, NewRows(s, movements, plan), h);
    RowsFlowAsMovements(s, movements, plan, h);
    UsedIs(s.rows + NewRows(s, movements, plan), h);
  }
}
