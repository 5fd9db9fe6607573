/** Post and Move, as they write the store's tables inside a caller's transaction. */
module StoreOps {
  import opened SortedSeq
  import opened Chains
  import opened Ledgers
  import opened ItemMoves
  import StoreRuns

  datatype PostResult = PostOk | PostErr(error: PostError)

  datatype MoveError = NoMovements | SelfMove | DuplicateItem | MintNotFromWorld | UnknownItem | NotCurrentHolder
                     | NoCapacityAccount | MoveConflict | FromPost(error: PostError)

  datatype MoveResult = Moved(ids: seq<int>) | MoveErr(error: MoveError)

  datatype PlanResult = Planned(plan: Plan) | PlanErr(error: MoveError)

  datatype FoundRow = FoundRow(row: MovementRow) | NoRow

  datatype FoundId = FoundId(id: int) | NoId

  /** The errors that leave the transaction untouched. */
  predicate Untouched(e: PostError) {
    e.NoBasis? || e.EmptyBatch? || e.InvalidAmount? || e.UnknownAccount? || e.Unbalanced? || e.AlreadyPosted?
  }

  /** Each refusal of a post, and what it says; earlier checks have passed. */
  ghost predicate Refused(b: Books, basis: Basis, batch: seq<Posting>, e: PostError) {
    match e
    case NoBasis => basis == NilBasis
    case EmptyBatch => batch == []
    case InvalidAmount => !ValidAmounts(batch)
    case UnknownAccount => ValidAmounts(batch) && !Known(b.accounts, batch)
    case Unbalanced => ValidAmounts(batch) && Known(b.accounts, batch) && !ZeroSum(b.accounts, batch)
    case AlreadyPosted => basis.PlayerOperation? && (basis.source, basis.operationId) in b.operations
    case UnknownEventType => basis.EventBasis? && !basis.registered
    case Overdraft => exists id :: id in b.accounts && Overdrawn(b, id, Delta(batch, id))
    case BalanceRowMissing => exists id :: id in b.accounts && b.accounts[id].controlled && id !in b.balances && Delta(batch, id) != 0.0
    case OutOfRange => exists id :: id in b.accounts && BeyondRange(b, id, Delta(batch, id))
  }

  predicate Overdrawn(b: Books, id: int, delta: real) {
    id in b.accounts && b.accounts[id].controlled && id in b.balances && -AMOUNT_BOUND < b.balances[id] + delta < 0.0
  }

  predicate BeyondRange(b: Books, id: int, delta: real) {
    id in b.accounts && b.accounts[id].controlled && id in b.balances
    && (b.balances[id] + delta <= -AMOUNT_BOUND || AMOUNT_BOUND <= b.balances[id] + delta)
  }

  ghost predicate Increasing(ids: seq<int>) {
    forall i, j :: 0 <= i < j < |ids| ==> ids[i] < ids[j]
  }

  /** Sorted, without repetition. */
  method SortCompact(all: seq<int>) returns (ids: seq<int>)
    ensures Increasing(ids) && forall id :: id in ids <==> id in all
  {
    SortSorts(all);
    hide Sort;
    var sorted := Sort(all);
    ids := [];
    for i := 0 to |sorted|
      invariant Increasing(ids) && forall id :: id in ids <==> id in sorted[..i]
      invariant forall k :: 0 <= k < |ids| ==> i > 0 && ids[k] <= sorted[i - 1]
    {
      assert sorted[..i + 1] == sorted[..i] + [sorted[i]];
      if i == 0 || sorted[i] != sorted[i - 1] {
        ids := ids + [sorted[i]];
      } else {
        assert sorted[i - 1] in sorted[..i];
      }
    }
    assert sorted[..|sorted|] == sorted;
  }

  /** Each account's summed change, and each kind's sum. */
  method SumBatch(accounts: map<int, Account>, batch: seq<Posting>) returns (deltas: map<int, real>, sums: map<string, real>)
    requires Known(accounts, batch)
    ensures forall id :: (if id in deltas then deltas[id] else 0.0) == Delta(batch, id)
    ensures forall kind :: (if kind in sums then sums[kind] else 0.0) == KindDelta(accounts, batch, kind)
  {
    hide Delta, KindDelta;
    deltas, sums := map[], map[];
    NothingSums(accounts);
    for i := 0 to |batch|
      invariant forall id :: (if id in deltas then deltas[id] else 0.0) == Delta(batch[..i], id)
      invariant forall kind :: (if kind in sums then sums[kind] else 0.0) == KindDelta(accounts, batch[..i], kind)
    {
      var p := batch[i];
      assert batch[..i + 1] == batch[..i] + [p] && p in batch;
      forall id, kind
        ensures Delta(batch[..i + 1], id) == Delta(batch[..i], id) + if p.account == id then p.amount else 0.0
        ensures KindDelta(accounts, batch[..i + 1], kind) ==
                KindDelta(accounts, batch[..i], kind) + if accounts[p.account].kind == kind then p.amount else 0.0
      {
        DeltaMore(accounts, batch[..i], p, id, kind);
      }
      var kind := accounts[p.account].kind;
      deltas := deltas[p.account := (if p.account in deltas then deltas[p.account] else 0.0) + p.amount];
      sums := sums[kind := (if kind in sums then sums[kind] else 0.0) + p.amount];
    }
    assert batch[..|batch|] == batch;
  }

  lemma NothingSums(accounts: map<int, Account>)
    ensures forall id :: Delta([], id) == 0.0
    ensures forall kind :: KindDelta(accounts, [], kind) == 0.0
  {
    assert Rows(0, []) == [];
  }

  class Database {
    var accounts: map<int, Account>
    var balances: map<int, real>
    var postings: seq<PostingRow>
    var operations: set<(string, string)>
    var nextEntry: nat
    var rows: seq<MovementRow>
    var items: set<int>
    var nextItem: nat
    var nextMovement: nat

    function AsBooks(): Books
      reads this
    {
      Books(accounts, balances, postings, operations, nextEntry)
    }

    function AsStore(): Store
      reads this
    {
      Store(AsBooks(), rows, items, nextItem, nextMovement)
    }

    ghost predicate Valid()
      reads this
    {
      StoreOk(AsStore())
    }

    constructor ()
      ensures Valid() && Reconciled(AsStore()) && accounts == map[]
    {
      accounts, balances, postings, operations, nextEntry := map[], map[], [], {}, 0;
      rows, items, nextItem, nextMovement := [], {}, 1, 0;
    }

    /** Phases a and b of post: the basis, the amounts and the accounts. */
    method CheckPostings(basis: Basis, batch: seq<Posting>) returns (res: PostResult, ids: seq<int>)
      ensures res.PostOk? <==> basis != NilBasis && batch != [] && ValidAmounts(batch) && Known(accounts, batch)
      ensures res.PostOk? ==> Increasing(ids) && forall id :: id in ids <==> exists p :: p in batch && p.account == id
      ensures res.PostErr? ==> Refused(AsBooks(), basis, batch, res.error) && Untouched(res.error)
    {
      hide ValidAmount;
      ids := [];
      if basis == NilBasis {
        return PostErr(NoBasis), ids;
      }
      if batch == [] {
        return PostErr(EmptyBatch), ids;
      }
      var all: seq<int> := [];
      for i := 0 to |batch|
        invariant forall k :: 0 <= k < i ==> ValidAmount(batch[k].amount)
        invariant |all| == i && forall k :: 0 <= k < i ==> all[k] == batch[k].account
      {
        if !ValidAmount(batch[i].amount) {
          assert batch[i] in batch;
          return PostErr(InvalidAmount), ids;
        }
        all := all + [batch[i].account];
      }
      ids := SortCompact(all);
      AccountsOf(batch, all);
      for i := 0 to |ids|
        invariant forall k :: 0 <= k < i ==> ids[k] in accounts
      {
        if ids[i] !in accounts {
          assert ids[i] in ids;
          return PostErr(UnknownAccount), ids;
        }
      }
      assert Known(accounts, batch) by { forall p | p in batch ensures p.account in accounts { assert p.account in ids; } }
      return PostOk, ids;
    }

    /** Phases a to d of post: every check that needs no balance, then the basis document and the journal entry. */
    method OpenEntry(basis: Basis, batch: seq<Posting>) returns (res: PostResult, ids: seq<int>, deltas: map<int, real>)
      modifies this
      ensures AsStore() == old(AsStore()).(books := AsBooks())
      ensures res.PostOk? <==>
                && batch != [] && ValidAmounts(batch) && Known(old(accounts), batch) && ZeroSum(old(accounts), batch)
                && BasisFresh(old(AsBooks()), basis)
      ensures res.PostOk? ==> AsBooks() == Opened(old(AsBooks()), basis)
      ensures res.PostOk? ==> Increasing(ids) && (forall id :: id in ids <==> exists p :: p in batch && p.account == id)
                              && forall id :: (if id in deltas then deltas[id] else 0.0) == Delta(batch, id)
      ensures res.PostErr? ==> Refused(old(AsBooks()), basis, batch, res.error) && AsBooks() == old(AsBooks())
      ensures res.PostErr? ==> Untouched(res.error) || res.error == UnknownEventType
    {
      hide ValidAmount, Delta, KindDelta;
      deltas := map[];
      res, ids := CheckPostings(basis, batch);
      if res.PostErr? {
        return;
      }
      var sums;
      deltas, sums := SumBatch(accounts, batch);
      if kind :| kind in sums && sums[kind] != 0.0 {
        return PostErr(Unbalanced), ids, deltas;
      }
      assert forall kind :: KindDelta(accounts, batch, kind) == if kind in sums then sums[kind] else 0.0;
      match basis {
        case PlayerOperation(source, id) =>
          if (source, id) in operations {
            return PostErr(AlreadyPosted), ids, deltas;
          }
          operations := operations + {(source, id)};
        case EventBasis(registered) =>
          if !registered {
            return PostErr(UnknownEventType), ids, deltas;
          }
        case Document =>
      }
      nextEntry := nextEntry + 1;
      return PostOk, ids, deltas;
    }

    /**
     Phases e and f of post: one balance update per changed controlled account, in
     ascending id, then the postings in the caller's order.
     */
    method SettleEntry(batch: seq<Posting>, ids: seq<int>, deltas: map<int, real>, entry: nat) returns (res: PostResult)
      requires Increasing(ids) && (forall id :: id in ids <==> exists p :: p in batch && p.account == id)
      requires Known(accounts, batch) && forall id :: (if id in deltas then deltas[id] else 0.0) == Delta(batch, id)
      modifies this
      ensures AsStore() == old(AsStore()).(books := AsBooks())
      ensures AsBooks() == old(AsBooks()).(balances := balances, postings := postings)
      ensures res.PostOk? <==> Affordable(old(AsBooks()), batch)
      ensures res.PostOk? ==> balances == (map id | id in old(balances) :: NewBalance(old(AsBooks()), batch, id))
      ensures res.PostOk? ==> postings == old(postings) + Rows(entry, batch)
      ensures res.PostErr? ==> exists id :: id in old(accounts) && Fails(old(AsBooks()), id, Delta(batch, id), res.error)
    {
      hide Delta, NewBalance, Admits, Overdrawn, BeyondRange;
      ghost var b := AsBooks();
      for i := 0 to |ids|
        invariant AsStore() == old(AsStore()).(books := b.(balances := balances))
        invariant balances == PartlyPaid(b, batch, ids[..i])
        invariant forall k :: 0 <= k < i ==> ids[k] in b.accounts && Admits(b, ids[k], Delta(batch, ids[k]))
      {
        assert ids[..i + 1] == ids[..i] + [ids[i]];
        var id := ids[i];
        assert id in ids && id in accounts;
        assert id !in ids[..i];
        var delta := if id in deltas then deltas[id] else 0.0;
        PaidMore(b, batch, ids[..i], id, delta);
        var outcome := UpdateBalance(id, delta);
        if outcome.PostErr? {
          assert Fails(b, id, Delta(batch, id), outcome.error);
          return outcome;
        }
      }
      assert ids[..|ids|] == ids;
      AllPaid(b, batch, ids);
      for i := 0 to |batch|
        invariant AsStore() == old(AsStore()).(books := b.(balances := balances, postings := postings))
        invariant balances == old(map id | id in balances :: NewBalance(b, batch, id))
        invariant postings == b.postings + Rows(entry, batch[..i])
      {
        assert batch[..i + 1] == batch[..i] + [batch[i]];
        RowsMore(entry, batch[..i], batch[i]);
        postings := postings + [PostingRow(entry, batch[i])];
      }
      assert batch[..|batch|] == batch;
      return PostOk;
    }

    /** One account's balance row: skipped for an uncontrolled account and for no change. */
    method UpdateBalance(id: int, delta: real) returns (res: PostResult)
      requires id in accounts
      modifies this`balances
      ensures res.PostOk? <==> Admits(old(AsBooks()), id, delta)
      ensures res.PostOk? ==> balances == PaidOne(old(AsBooks()), id, delta)
      ensures res.PostErr? ==> balances == old(balances) && Fails(old(AsBooks()), id, delta, res.error)
    {
      if !accounts[id].controlled {
        return PostOk;
      }
      if delta == 0.0 {
        return PostOk;
      }
      if id !in balances {
        return PostErr(BalanceRowMissing);
      }
      var balance := balances[id] + delta;
      if balance <= -AMOUNT_BOUND || AMOUNT_BOUND <= balance {
        return PostErr(OutOfRange);
      }
      if balance < 0.0 {
        return PostErr(Overdraft);
      }
      balances := balances[id := balance];
      return PostOk;
    }

    /** Post, inside the caller's transaction: on an error past the entry, what was written is left for the caller to roll back. */
    method Post(basis: Basis, batch: seq<Posting>) returns (res: PostResult)
      requires Valid()
      modifies this
      ensures res.PostOk? <==> Postable(old(AsBooks()), basis, batch)
      ensures res.PostOk? ==> AsStore() == old(AsStore()).(books := Posted(old(AsBooks()), basis, batch))
      ensures res.PostOk? ==> Valid()
      ensures res.PostErr? ==> Refused(old(AsBooks()), basis, batch, res.error)
      ensures res.PostErr? && Untouched(res.error) ==> AsStore() == old(AsStore())
    {
      hide StoreOk, Delta, ZeroSum, Known, ValidAmounts, BasisFresh, Affordable;
      ghost var b := AsBooks();
      var entry := nextEntry;
      var ids, deltas;
      res, ids, deltas := OpenEntry(basis, batch);
      if res.PostErr? {
        return;
      }
      OpenedSame(b, basis, batch);
      res := SettleEntry(batch, ids, deltas, entry);
      if res.PostOk? {
        SettledIsPosted(b, AsBooks(), basis, batch);
        PostKeepsWholeStore(old(AsStore()), basis, batch);
      } else {
        FailsIsRefused(b, basis, batch, res.error);
      }
    }

    /** A caller's transaction around Post: committed whole, or rolled back whole. */
    method PostInTransaction(basis: Basis, batch: seq<Posting>) returns (res: PostResult)
      requires Valid()
      modifies this
      ensures Valid()
      ensures res.PostOk? <==> Postable(old(AsBooks()), basis, batch)
      ensures AsStore() == if res.PostOk? then old(AsStore()).(books := Posted(old(AsBooks()), basis, batch)) else old(AsStore())
    {
      hide StoreOk, Postable, Posted;
      var saved := AsStore();
      res := Post(basis, batch);
      if res.PostErr? {
        Restore(saved);
      }
    }

    method Restore(saved: Store)
      modifies this
      ensures AsStore() == saved
    {
      accounts, balances, postings := saved.books.accounts, saved.books.balances, saved.books.postings;
      operations, nextEntry := saved.books.operations, saved.books.nextEntry;
      rows, items, nextItem, nextMovement := saved.rows, saved.items, saved.nextItem, saved.nextMovement;
    }

    // ---------- Move ----------

    /** The item_holder row of an item. */
    method ReadHolder(item: int) returns (found: FoundRow)
      requires Valid()
      ensures found.NoRow? <==> RowsOf(rows, item) == []
      ensures found.FoundRow? ==> LastIs(rows, item, found.row.id, found.row.to)
    {
      hide RowsOf, AllChains, BooksOk, IdsOk, HoldersOk, CatalogOk;
      for i := 0 to |rows|
        invariant forall k :: 0 <= k < i ==> !(rows[k].item == item && IsHead(rows, rows[k]))
      {
        if rows[i].item == item && IsHead(rows, rows[i]) {
          HeadIsLast(rows, rows[i]);
          return FoundRow(rows[i]);
        }
      }
      NoHeadNoRows(rows, item);
      return NoRow;
    }

    method ReadSlots(h: int, role: Role) returns (found: FoundId)
      ensures found.NoId? <==> forall id :: !IsSlots(accounts, id, h, role)
      ensures found.FoundId? ==> IsSlots(accounts, found.id, h, role)
    {
      if id :| id in accounts && IsSlots(accounts, id, h, role) {
        return FoundId(id);
      }
      return NoId;
    }

    /** Phases a and b of Move: nothing is written; a plan is read exactly when there is one. */
    method PlanMove(movements: seq<Movement>) returns (res: PlanResult)
      requires Valid()
      ensures res.Planned? ==> PlanRead(AsStore(), movements, res.plan)
      ensures res.PlanErr? ==> Misplanned(AsStore(), movements, res.error)
    {
      hide StoreOk, RowsOf, PlanRead;
      var shape := CheckShape(movements);
      if shape.PlanErr? {
        return shape;
      }
      var heads: map<int, nat> := map[];
      var holders: map<int, int> := map[];
      for i := 0 to |movements|
        invariant forall k :: 0 <= k < i && movements[k].item != NEW_ITEM ==> movements[k].item in heads
        invariant forall item :: item in heads <==> item in holders
        invariant forall item :: item in heads ==> LastIs(rows, item, heads[item], holders[item])
      {
        var m := movements[i];
        if m.item != NEW_ITEM {
          var found := ReadHolder(m.item);
          if found.NoRow? {
            assert m in movements;
            return PlanErr(UnknownItem);
          }
          heads, holders := heads[m.item := found.row.id], holders[m.item := found.row.to];
        }
      }
      for i := 0 to |movements|
        invariant forall k :: 0 <= k < i && movements[k].item != NEW_ITEM ==> holders[movements[k].item] == movements[k].from
      {
        var m := movements[i];
        if m.item != NEW_ITEM && holders[m.item] != m.from {
          assert m in movements;
          return PlanErr(NotCurrentHolder);
        }
      }
      var plan := Plan(heads, map[], map[]);
      for i := 0 to |movements|
        invariant plan.heads == heads
        invariant forall h :: h in plan.free <==> h in plan.used
        invariant forall h :: h in plan.free ==> HasSlots(accounts, plan, h)
        invariant forall k :: 0 <= k < i ==> movements[k].from in plan.free && movements[k].to in plan.free
      {
        var m := movements[i];
        assert m in movements;
        var ok;
        ok, plan := AddSlots(plan, m.from);
        if !ok {
          return PlanErr(NoCapacityAccount);
        }
        ok, plan := AddSlots(plan, m.to);
        if !ok {
          return PlanErr(NoCapacityAccount);
        }
      }
      PlanIsRead(AsStore(), movements, plan, holders);
      return Planned(plan);
    }

    method AddSlots(plan0: Plan, h: int) returns (ok: bool, plan: Plan)
      requires (forall x :: x in plan0.free <==> x in plan0.used) && forall x :: x in plan0.free ==> HasSlots(accounts, plan0, x)
      ensures !ok ==> Slotless(accounts, h)
      ensures ok ==> plan.heads == plan0.heads && (forall x :: x in plan.free <==> x in plan.used)
      ensures ok ==> h in plan.free && forall x :: x in plan.free ==> HasSlots(accounts, plan, x)
      ensures ok ==> forall x :: x in plan0.free ==> x in plan.free
    {
      plan := plan0;
      var free := ReadSlots(h, Free);
      var used := ReadSlots(h, Used);
      if free.NoId? || used.NoId? {
        return false, plan;
      }
      plan := plan0.(free := plan0.free[h := free.id], used := plan0.used[h := used.id]);
      return true, plan;
    }

    /** Phase e of Move: one item row for each minted instance. */
    method MintItems(movements: seq<Movement>) returns (ids: seq<int>)
      modifies this`items, this`nextItem
      ensures ids == ItemIds(movements, old(nextItem)) && nextItem == old(nextItem) + Mints(movements)
      ensures items == old(items) + (set i | 0 <= i < |movements| && movements[i].item == NEW_ITEM :: ids[i])
    {
      ids := [];
      assert movements[..0] == [];
      for i := 0 to |movements|
        invariant ids == ItemIds(movements[..i], old(nextItem)) && nextItem == old(nextItem) + Mints(movements[..i])
        invariant |ids| == i && items == old(items) + (set k | 0 <= k < i && movements[k].item == NEW_ITEM :: ids[k])
      {
        ghost var was := ids;
        assert movements[..i + 1][..i] == movements[..i];
        if movements[i].item != NEW_ITEM {
          ids := ids + [movements[i].item];
        } else {
          items := items + {nextItem};
          ids := ids + [nextItem];
          nextItem := nextItem + 1;
        }
        assert forall k :: 0 <= k < i ==> ids[k] == was[k];
      }
      assert movements[..|movements|] == movements;
    }

    /** Phase f of Move: the movement rows, in ascending item id; the first the constraints refuse ends it. */
    method InsertMovements(ghost s: Store, movements: seq<Movement>, plan: Plan, ids: seq<int>, entry: nat) returns (ok: bool)
      requires HeadsRead(movements, plan) && ids == ItemIds(movements, s.nextItem)
      requires rows == s.rows && nextMovement == s.nextMovement && entry == s.books.nextEntry
      modifies this`rows, this`nextMovement
      ensures ok <==> InsertableAll(s.rows, NewRows(s, movements, plan))
      ensures ok ==> rows == s.rows + NewRows(s, movements, plan) && nextMovement == s.nextMovement + |movements|
    {
      hide Insertable, ItemIds, HeadsRead, InsertableAll, Sort, RowOf;
      ghost var news := NewRows(s, movements, plan);
      var order := Sort(ids);
      assert |order| == |ids| by { SortSorts(ids); }
      assert InsertableAll(s.rows, news[..0]) by { NoneInsertable(s.rows, news); }
      for k := 0 to |order|
        invariant rows == s.rows + news[..k] && nextMovement == s.nextMovement + k
        invariant InsertableAll(s.rows, news[..k])
      {
        SortedIn(ids, k);
        var row := RowOf(movements, plan, ids, order[k], nextMovement, entry);
        assert row == news[k];
        if !Insertable(rows, row) {
          if InsertableAll(s.rows, news) { InsertableAt(s.rows, news, k); }
          return false;
        }
        OneMoreInsertable(s.rows, news[..k], row);
        assert news[..k + 1] == news[..k] + [row];
        rows := rows + [row];
        nextMovement := nextMovement + 1;
      }
      assert news[..|order|] == news;
      return true;
    }

    /**
     Phases c to g of Move, against the store as it is by now, from a plan read at
     any earlier moment. The rows go in before any balance changes, so a lost race
     is a conflict at the chain and never an overdraft.
     */
    method WriteMove(movements: seq<Movement>, plan: Plan, basis: Basis, postings: seq<Posting>) returns (res: MoveResult)
      requires Valid() && PlanOk(AsStore(), movements, plan)
      modifies this
      ensures res.Moved? <==> Movable(old(AsStore()), movements, plan, basis, postings)
      ensures res.Moved? ==> AsStore() == AfterMove(old(AsStore()), movements, plan, basis, postings)
      ensures res.Moved? ==> res.ids == ItemIds(movements, old(nextItem)) && Valid()
      ensures res.MoveErr? ==> res.error == MoveConflict || res.error.FromPost?
      ensures res.MoveErr? && res.error == MoveConflict ==> exists m :: m in movements && !StillHead(old(AsStore()), plan, m)
      ensures res.MoveErr? && res.error.FromPost? ==>
                Covers(plan, movements) && Refused(old(AsBooks()), basis, postings + Legs(plan, movements), res.error.error)
    {
      hide StoreOk, PlanOk, NewRows, Affordable, ZeroSum, Known, ValidAmounts, BasisFresh, Refused, Fails;
      hide Insertable, RowsOf, Legs, Delta, ItemIds, Mints, InsertableAll;
      ghost var s := AsStore();
      PlanParts(s, movements, plan);
      StoreParts(s);
      MintedItems(s, movements, plan);
      var batch := WithLegs(plan, movements, postings);
      var entry := nextEntry;
      var entered, touched, deltas := OpenEntry(basis, batch);
      if entered.PostErr? {
        return MoveErr(FromPost(entered.error));
      }
      ghost var s1 := AsStore();
      var ids := MintItems(movements);
      var inserted := InsertMovements(s, movements, plan, ids, entry);
      if !inserted {
        MoveConflictsExactlyWhenStale(s, movements, plan);
        return MoveErr(MoveConflict);
      }
      OpenedSame(s.books, basis, batch);
      var settled := SettleEntry(batch, touched, deltas, entry);
      if settled.PostErr? {
        FailsIsRefused(s.books, basis, batch, settled.error);
        return MoveErr(FromPost(settled.error));
      }
      SettledIsPosted(s.books, AsBooks(), basis, batch);
      MoveKeepsStore(s, movements, plan, basis, postings);
      return Moved(ids);
    }

    /** Phase c: the postings given, then every movement's capacity legs. */
    method WithLegs(plan: Plan, movements: seq<Movement>, postings: seq<Posting>) returns (batch: seq<Posting>)
      requires Covers(plan, movements)
      ensures batch == postings + Legs(plan, movements)
    {
      hide Legs;
      LegsOfNone(plan);
      batch := postings;
      for i := 0 to |movements|
        invariant movements[..0] == []
        invariant Covers(plan, movements[..i]) && batch == postings + Legs(plan, movements[..i])
      {
        assert movements[..i + 1] == movements[..i] + [movements[i]];
        LegsMore(plan, movements[..i], movements[i]);
        batch := batch + LegsOf(plan, movements[i]);
      }
      assert movements[..|movements|] == movements;
    }

    /** A caller's transaction around Move: committed whole, or rolled back whole. */
    method MoveInTransaction(movements: seq<Movement>, basis: Basis, postings: seq<Posting>) returns (res: MoveResult)
      requires Valid()
      modifies this
      ensures Valid()
      ensures res.Moved? ==> exists plan :: PlanRead(old(AsStore()), movements, plan) && Movable(old(AsStore()), movements, plan, basis, postings)
                                            && AsStore() == AfterMove(old(AsStore()), movements, plan, basis, postings)
      ensures res.MoveErr? ==> AsStore() == old(AsStore()) && res.error != MoveConflict
      ensures res.MoveErr? && !res.error.FromPost? ==> Misplanned(old(AsStore()), movements, res.error)
      ensures res.MoveErr? && res.error.FromPost? ==>
                exists plan :: PlanRead(old(AsStore()), movements, plan) && Covers(plan, movements)
                               && Refused(old(AsBooks()), basis, postings + Legs(plan, movements), res.error.error)
    {
      hide StoreOk, PlanRead, PlanOk, Movable, AfterMove, Refused, ItemIds, HeadsRead, Legs, Misplanned, Covers;
      var saved := AsStore();
      var planned := PlanMove(movements);
      if planned.PlanErr? {
        PlanErrIsNoConflict(AsStore(), movements, planned.error);
        return MoveErr(planned.error);
      }
      FreshPlan(AsStore(), movements, planned.plan);
      res := WriteMove(movements, planned.plan, basis, postings);
      if res.MoveErr? {
        Restore(saved);
      }
    }
  }

  /** An item with a row has a head. */
  lemma NoHeadNoRows(rows: seq<MovementRow>, item: int)
    requires AllChains(rows) && forall k :: 0 <= k < |rows| ==> !(rows[k].item == item && IsHead(rows, rows[k]))
    ensures RowsOf(rows, item) == []
  {
    hide AllChains, IsHead;
    var own := RowsOf(rows, item);
    if own != [] {
      var last := own[|own| - 1];
      assert last in own && last in rows;
      HeadIsLast(rows, last);
    }
  }

  /** The items minted, on top of those named, are all the items the move's rows have. */
  lemma MintedItems(s: Store, movements: seq<Movement>, plan: Plan)
    requires PlanOk(s, movements, plan) && IdsOk(s)
    ensures var ids := ItemIds(movements, s.nextItem);
            s.items + (set i | 0 <= i < |movements| && movements[i].item == NEW_ITEM :: ids[i]) == s.items + (set id | id in ids)
  {
    NamedBelow(s, movements, plan);
    var ids := ItemIds(movements, s.nextItem);
    hide PlanOk, IdsOk, ItemIds;
    forall i | 0 <= i < |movements|
      ensures movements[i].item == NEW_ITEM || ids[i] in s.items
    {
      ItemIdsAre(movements, s.nextItem, i);
      assert movements[i] in movements;
    }
    OthersKnown(s.items, movements, ids);
  }

  lemma OthersKnown(items: set<int>, movements: seq<Movement>, ids: seq<int>)
    requires |ids| == |movements| && forall i :: 0 <= i < |movements| ==> movements[i].item == NEW_ITEM || ids[i] in items
    ensures items + (set i | 0 <= i < |movements| && movements[i].item == NEW_ITEM :: ids[i]) == items + (set id | id in ids)
  {
    var minted, all := set i | 0 <= i < |movements| && movements[i].item == NEW_ITEM :: ids[i], set id | id in ids;
    forall id | id in all
      ensures id in items || id in minted
    {
      var i :| 0 <= i < |ids| && ids[i] == id;
    }
  }

  lemma PlanErrIsNoConflict(s: Store, movements: seq<Movement>, e: MoveError)
    requires Misplanned(s, movements, e)
    ensures e != MoveConflict && !e.FromPost?
  {
  }

  /** A plan just read is sound, and stale in nothing. */
  lemma FreshPlan(s: Store, movements: seq<Movement>, plan: Plan)
    requires PlanRead(s, movements, plan)
    ensures PlanOk(s, movements, plan) && HeadsRead(movements, plan) && forall m :: m in movements ==> StillHead(s, plan, m)
  {
    StoreRuns.PlanReadIsOk(s, movements, plan);
    hide RowsOf;
  }

  lemma NoneInsertable(rows: seq<MovementRow>, more: seq<MovementRow>)
    ensures InsertableAll(rows, more[..0])
  {
  }

  lemma LegsMore(plan: Plan, movements: seq<Movement>, m: Movement)
    requires Covers(plan, movements + [m])
    ensures Covers(plan, movements) && Legs(plan, movements + [m]) == Legs(plan, movements) + LegsOf(plan, m)
  {
    assert (movements + [m])[..|movements|] == movements;
  }

  lemma LegsOfNone(plan: Plan)
    ensures Legs(plan, []) == []
  {
  }

  lemma StoreParts(s: Store)
    requires StoreOk(s)
    ensures AllChains(s.rows) && IdsOk(s)
  {
  }

  predicate Slotless(accounts: map<int, Account>, h: int) {
    (forall id :: id in accounts ==> !IsSlots(accounts, id, h, Free)) || forall id :: id in accounts ==> !IsSlots(accounts, id, h, Used)
  }

  /** What each refusal of phases a and b says. */
  ghost predicate Misplanned(s: Store, movements: seq<Movement>, e: MoveError) {
    match e
    case NoMovements => movements == []
    case SelfMove => exists m :: m in movements && m.from == m.to
    case MintNotFromWorld => exists m :: m in movements && m.item == NEW_ITEM && m.from != WORLD
    case DuplicateItem => exists i, j :: 0 <= i < j < |movements| && movements[i].item == movements[j].item != NEW_ITEM
    case UnknownItem => exists m :: m in movements && m.item != NEW_ITEM && RowsOf(s.rows, m.item) == []
    case NotCurrentHolder => exists m :: m in movements && m.item != NEW_ITEM && PlaceOf(s.rows, m.item) != Holder(m.from)
    case NoCapacityAccount => exists m :: m in movements && (Slotless(s.books.accounts, m.from) || Slotless(s.books.accounts, m.to))
    case _ => false
  }

  lemma MisplannedHasNoPlan(s: Store, movements: seq<Movement>, e: MoveError, plan: Plan)
    requires Misplanned(s, movements, e)
    ensures !PlanRead(s, movements, plan)
  {
    hide RowsOf;
  }

  /** Phase a of Move. */
  method CheckShape(movements: seq<Movement>) returns (res: PlanResult)
    ensures res.Planned? <==> ShapeOk(movements)
    ensures res.PlanErr? ==> forall s :: Misplanned(s, movements, res.error)
  {
    if movements == [] {
      return PlanErr(NoMovements);
    }
    var seen: set<int> := {};
    for i := 0 to |movements|
      invariant forall k :: 0 <= k < i ==> movements[k].from != movements[k].to && (movements[k].item == NEW_ITEM ==> movements[k].from == WORLD)
      invariant forall x, y :: 0 <= x < y < i && movements[x].item != NEW_ITEM ==> movements[x].item != movements[y].item
      invariant forall item :: item in seen <==> exists k :: 0 <= k < i && movements[k].item == item != NEW_ITEM
    {
      var m := movements[i];
      assert m in movements;
      if m.from == m.to {
        return PlanErr(SelfMove);
      }
      if m.item == NEW_ITEM {
        if m.from != WORLD {
          return PlanErr(MintNotFromWorld);
        }
        continue;
      }
      if m.item in seen {
        return PlanErr(DuplicateItem);
      }
      seen := seen + {m.item};
    }
    return Planned(Plan(map[], map[], map[]));
  }

  lemma PlanIsRead(s: Store, movements: seq<Movement>, plan: Plan, holders: map<int, int>)
    requires ShapeOk(movements)
    requires forall k :: 0 <= k < |movements| && movements[k].item != NEW_ITEM ==>
               movements[k].item in plan.heads && movements[k].item in holders && holders[movements[k].item] == movements[k].from
    requires forall item :: item in plan.heads && item in holders ==> LastIs(s.rows, item, plan.heads[item], holders[item])
    requires forall h :: h in plan.free ==> HasSlots(s.books.accounts, plan, h)
    requires forall k :: 0 <= k < |movements| ==> movements[k].from in plan.free && movements[k].to in plan.free
    ensures PlanRead(s, movements, plan)
  {
    hide RowsOf, ShapeOk;
  }

  /** How one balance update fails. */
  predicate Fails(b: Books, id: int, delta: real, e: PostError)
    requires id in b.accounts
  {
    match e
    case Overdraft => Overdrawn(b, id, delta)
    case BalanceRowMissing => b.accounts[id].controlled && id !in b.balances && delta != 0.0
    case OutOfRange => BeyondRange(b, id, delta)
    case _ => false
  }

  function PaidOne(b: Books, id: int, delta: real): map<int, real>
    requires id in b.accounts
  {
    if b.accounts[id].controlled && delta != 0.0 && id in b.balances then b.balances[id := b.balances[id] + delta] else b.balances
  }

  /** The balances once the changes of the listed accounts are in. */
  ghost function PartlyPaid(b: Books, batch: seq<Posting>, ids: seq<int>): map<int, real> {
    map id | id in b.balances :: if id in ids then NewBalance(b, batch, id) else b.balances[id]
  }

  lemma PaidMore(b: Books, batch: seq<Posting>, ids: seq<int>, id: int, delta: real)
    requires id in b.accounts && id !in ids && delta == Delta(batch, id)
    ensures PaidOne(b.(balances := PartlyPaid(b, batch, ids)), id, delta) == PartlyPaid(b, batch, ids + [id])
    ensures Admits(b.(balances := PartlyPaid(b, batch, ids)), id, delta) <==> Admits(b, id, delta)
    ensures forall e :: Fails(b.(balances := PartlyPaid(b, batch, ids)), id, delta, e) ==> Fails(b, id, delta, e)
  {
    hide Delta;
  }

  lemma AllPaid(b: Books, batch: seq<Posting>, ids: seq<int>)
    requires (forall id :: id in ids <==> exists p :: p in batch && p.account == id)
    requires forall k :: 0 <= k < |ids| ==> ids[k] in b.accounts && Admits(b, ids[k], Delta(batch, ids[k]))
    ensures PartlyPaid(b, batch, ids) == map id | id in b.balances :: NewBalance(b, batch, id)
    ensures Affordable(b, batch)
  {
    hide Delta;
    forall id | id !in ids
      ensures Delta(batch, id) == 0.0
    {
      DeltaOfSpared(batch, id);
    }
    forall id | id in b.accounts
      ensures Admits(b, id, Delta(batch, id))
    {
      if id in ids { var k :| 0 <= k < |ids| && ids[k] == id; }
    }
  }

  /** Opening the entry changes no balance and no account. */
  lemma OpenedSame(b: Books, basis: Basis, batch: seq<Posting>)
    ensures Affordable(Opened(b, basis), batch) <==> Affordable(b, batch)
    ensures forall id, delta, e :: id in b.accounts ==> (Fails(Opened(b, basis), id, delta, e) <==> Fails(b, id, delta, e))
  {
    hide Delta;
    forall id | id in b.accounts ensures Admits(Opened(b, basis), id, Delta(batch, id)) <==> Admits(b, id, Delta(batch, id)) {}
  }

  lemma SettledIsPosted(b: Books, b': Books, basis: Basis, batch: seq<Posting>)
    requires b' == Opened(b, basis).(balances := (map id | id in b.balances :: NewBalance(Opened(b, basis), batch, id)),
                                     postings := b.postings + Rows(b.nextEntry, batch))
    ensures b' == Posted(b, basis, batch)
  {
    hide Delta;
    assert forall id :: id in b.balances ==> NewBalance(Opened(b, basis), batch, id) == NewBalance(b, batch, id);
  }

  lemma FailsIsRefused(b: Books, basis: Basis, batch: seq<Posting>, e: PostError)
    requires exists id :: id in b.accounts && Fails(b, id, Delta(batch, id), e)
    ensures Refused(b, basis, batch, e) && !Untouched(e)
  {
    hide Delta;
  }

  lemma PostKeepsWholeStore(s: Store, basis: Basis, batch: seq<Posting>)
    requires StoreOk(s) && Postable(s.books, basis, batch)
    ensures StoreOk(s.(books := Posted(s.books, basis, batch)))
  {
    hide AllChains, Postable, Posted;
    PostKeepsBooks(s.books, basis, batch);
    PostKeepsCatalog(s.books, basis, batch);
  }

  lemma AccountsOf(batch: seq<Posting>, all: seq<int>)
    requires |all| == |batch| && forall k :: 0 <= k < |batch| ==> all[k] == batch[k].account
    ensures forall id :: id in all <==> exists p :: p in batch && p.account == id
  {
    forall id | id in all
      ensures exists p :: p in batch && p.account == id
    {
      var k :| 0 <= k < |all| && all[k] == id;
      assert batch[k] in batch;
    }
    forall p: Posting | p in batch
      ensures p.account in all
    {
      var k :| 0 <= k < |batch| && batch[k] == p;
      assert all[k] == p.account;
    }
  }
}
