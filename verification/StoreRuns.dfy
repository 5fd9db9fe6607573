/**
 Runs of the store: posts, moves and account openings, committed in any order.
 A move reads its plan at one moment and writes at any later one, however many
 other transactions commit in between; a transaction that fails leaves nothing
 but used-up identity values.
 */
module StoreRuns {
  import opened Chains
  import opened Ledgers
  import opened ItemMoves

  datatype Event =
    | PostCommitted(basis: Basis, batch: seq<Posting>)
    | PlanTaken(movements: seq<Movement>, plan: Plan)
    | MoveCommitted(movements: seq<Movement>, plan: Plan, basis: Basis, postings: seq<Posting>)
    | AccountOpened(id: int, account: Account)
    | RolledBack(entries: nat, items: nat, rows: nat)

  datatype Taken = Taken(movements: seq<Movement>, plan: Plan)

  datatype State = State(store: Store, taken: set<Taken>)

  const START := State(Store(Books(map[], map[], [], {}, 0), [], {}, 1, 0), {})

  function Burnt(s: Store, entries: nat, items: nat, movements: nat): Store {
    s.(books := s.books.(nextEntry := s.books.nextEntry + entries), nextItem := s.nextItem + items, nextMovement := s.nextMovement + movements)
  }

  ghost predicate Step(s: State, e: Event, s': State) {
    match e
    case PostCommitted(basis, batch) =>
      Postable(s.store.books, basis, batch) && s' == s.(store := s.store.(books := Posted(s.store.books, basis, batch)))
    case PlanTaken(movements, plan) =>
      PlanRead(s.store, movements, plan) && s' == s.(taken := s.taken + {Taken(movements, plan)})
    case MoveCommitted(movements, plan, basis, postings) =>
      && Taken(movements, plan) in s.taken && PlanOk(s.store, movements, plan)
      && InsertableAll(s.store.rows, NewRows(s.store, movements, plan))
      && Postable(s.store.books, basis, postings + Legs(plan, movements))
      && s' == s.(store := AfterMove(s.store, movements, plan, basis, postings))
    case AccountOpened(id, a) =>
      && id !in s.store.books.accounts && CatalogOk(s.store.books.accounts[id := a])
      && s' == s.(store := s.store.(books := WithAccount(s.store.books, id, a)))
    case RolledBack(entries, items, movements) =>
      s' == s.(store := Burnt(s.store, entries, items, movements))
  }

  /** The event's own postings leave the used-slots accounts alone. */
  ghost predicate SparesUsedSlots(s: State, e: Event) {
    match e
    case PostCommitted(_, batch) => SparesUsed(s.store.books.accounts, batch)
    case MoveCommitted(_, _, _, postings) => SparesUsed(s.store.books.accounts, postings)
    case _ => true
  }

  ghost predicate IsRun(states: seq<State>, events: seq<Event>) {
    && |states| == |events| + 1 && states[0] == START
    && forall i :: 0 <= i < |events| ==> Step(states[i], events[i], states[i + 1])
  }

  ghost predicate Inv(s: State) {
    StoreOk(s.store) && forall t :: t in s.taken ==> PlanOk(s.store, t.movements, t.plan)
  }

  /** Rows and accounts are only ever added, so what a plan read stays there. */
  ghost predicate Extended(s: Store, s': Store) {
    && (forall r :: r in s.rows ==> r in s'.rows)
    && forall id :: id in s.books.accounts ==> id in s'.books.accounts && s'.books.accounts[id] == s.books.accounts[id]
  }

  lemma PlanStaysOk(s: Store, s': Store, movements: seq<Movement>, plan: Plan)
    requires PlanOk(s, movements, plan) && Extended(s, s')
    ensures PlanOk(s', movements, plan)
  {
    hide ShapeOk, HeadsRead;
    forall h | HasSlots(s.books.accounts, plan, h)
      ensures HasSlots(s'.books.accounts, plan, h)
    {
    }
  }

  lemma PlanReadIsOk(s: Store, movements: seq<Movement>, plan: Plan)
    requires PlanRead(s, movements, plan)
    ensures PlanOk(s, movements, plan)
  {
    hide ShapeOk, HasSlots;
    forall m | m in movements && m.item != NEW_ITEM
      ensures exists r :: r in s.rows && r.id == plan.heads[m.item] && r.item == m.item && r.to == m.from
    {
      var own := RowsOf(s.rows, m.item);
      assert own[|own| - 1] in own;
    }
  }

  lemma StepExtends(s: State, e: Event, s': State)
    requires Step(s, e, s')
    ensures Extended(s.store, s'.store)
  {
    hide PlanOk, InsertableAll, Postable, Legs, NewRows, CatalogOk, PlanRead;
    match e {
      case PostCommitted(basis, batch) => PostKeepsCatalog(s.store.books, basis, batch);
      case MoveCommitted(movements, plan, basis, postings) =>
        PlanParts(s.store, movements, plan);
        PostKeepsCatalog(s.store.books, basis, postings + Legs(plan, movements));
      case _ =>
    }
  }

  lemma StepKeepsStore(s: State, e: Event, s': State)
    requires StoreOk(s.store) && Step(s, e, s')
    ensures StoreOk(s'.store)
  {
    hide PlanOk, InsertableAll, Legs, NewRows, PlanRead, AllChains, Postable, Posted;
    match e {
      case PostCommitted(basis, batch) =>
        PostKeepsBooks(s.store.books, basis, batch);
        PostKeepsCatalog(s.store.books, basis, batch);
        SameHoldersOk(s.store, s'.store);
      case PlanTaken(_, _) =>
      case MoveCommitted(movements, plan, basis, postings) =>
        PlanParts(s.store, movements, plan);
        MoveKeepsStore(s.store, movements, plan, basis, postings);
      case AccountOpened(id, a) =>
        OpeningKeepsBooks(s.store.books, id, a);
        OpeningKeepsHolders(s.store, id, a);
      case RolledBack(entries, items, movements) =>
        BurntBooksOk(s.store.books, entries);
        SameHoldersOk(s.store, s'.store);
    }
  }

  lemma SameHoldersOk(s: Store, s': Store)
    requires HoldersOk(s) && s'.rows == s.rows && s'.books.accounts == s.books.accounts
    ensures HoldersOk(s')
  {
  }

  lemma OpeningKeepsHolders(s: Store, id: int, a: Account)
    requires HoldersOk(s) && id !in s.books.accounts
    ensures HoldersOk(s.(books := WithAccount(s.books, id, a)))
  {
    var accounts := WithAccount(s.books, id, a).accounts;
    forall x, h | IsSlots(s.books.accounts, x, h, Used) ensures IsSlots(accounts, x, h, Used) {}
    forall r | r in s.rows
      ensures (exists x :: IsSlots(accounts, x, r.from, Used)) && exists x :: IsSlots(accounts, x, r.to, Used)
    {
    }
  }

  lemma BurntBooksOk(b: Books, entries: nat)
    requires BooksOk(b)
    ensures BooksOk(b.(nextEntry := b.nextEntry + entries))
  {
    hide ValidAmount, Total, InRange;
    var b' := b.(nextEntry := b.nextEntry + entries);
    forall r | r in b'.postings ensures RowOk(b', r) { assert RowOk(b, r); }
    forall id | id in b'.accounts ensures BalanceOk(b', id) { assert BalanceOk(b, id); }
  }

  lemma StepKeepsInv(s: State, e: Event, s': State)
    requires Inv(s) && Step(s, e, s')
    ensures Inv(s')
  {
    hide StoreOk, PlanOk;
    StepKeepsStore(s, e, s');
    StepExtends(s, e, s');
    forall t | t in s'.taken
      ensures PlanOk(s'.store, t.movements, t.plan)
    {
      if t in s.taken {
        PlanStaysOk(s.store, s'.store, t.movements, t.plan);
      } else {
        PlanReadIsOk(s.store, t.movements, t.plan);
      }
    }
  }

  lemma {:induction false} RunKeepsInv(states: seq<State>, events: seq<Event>, i: nat)
    requires IsRun(states, events) && i < |states|
    ensures Inv(states[i])
    decreases i
  {
    hide Step, Inv;
    if i == 0 {
      StartInv();
    } else {
      RunKeepsInv(states, events, i - 1);
      StepKeepsInv(states[i - 1], events[i - 1], states[i]);
    }
  }

  lemma StartInv()
    ensures Inv(START) && Reconciled(START.store)
  {
  }

  // ---------- A player operation commits once ----------

  /** The event commits an entry, of a post or of a move, on a player operation. */
  predicate Commits(e: Event, source: string, id: string) {
    match e
    case PostCommitted(basis, _) => basis == PlayerOperation(source, id)
    case MoveCommitted(_, _, basis, _) => basis == PlayerOperation(source, id)
    case _ => false
  }

  /** A step adds exactly the operation it commits an entry on, and commits on none already there. */
  lemma StepAddsOperation(s: State, e: Event, s': State, source: string, id: string)
    requires Step(s, e, s')
    ensures (source, id) in s'.store.books.operations <==> (source, id) in s.store.books.operations || Commits(e, source, id)
    ensures Commits(e, source, id) ==> (source, id) !in s.store.books.operations
  {
    hide PlanOk, InsertableAll, Legs, NewRows, CatalogOk, PlanRead, Known, ValidAmounts, ZeroSum, Affordable, Rows, NewBalance;
    if e.MoveCommitted? { PlanParts(s.store, e.movements, e.plan); }
  }

  /** In every reachable state the operations recorded are exactly those an entry has been committed on. */
  lemma {:induction false} OperationsAreCommitted(states: seq<State>, events: seq<Event>, n: nat, source: string, id: string)
    requires IsRun(states, events) && n < |states|
    ensures (source, id) in states[n].store.books.operations <==> exists i :: 0 <= i < n && Commits(events[i], source, id)
  {
    hide Step, Commits;
    if n > 0 {
      OperationsAreCommitted(states, events, n - 1, source, id);
      StepAddsOperation(states[n - 1], events[n - 1], states[n], source, id);
    }
  }

  /** In any run at most one entry, of a post or of a move, is committed on a player operation. */
  lemma OperationCommitsOnce(states: seq<State>, events: seq<Event>, i: nat, j: nat, source: string, id: string)
    requires IsRun(states, events) && i < |events| && j < |events|
    requires Commits(events[i], source, id) && Commits(events[j], source, id)
    ensures i == j
  {
    hide Step, Commits;
    OperationsAreCommitted(states, events, i, source, id);
    OperationsAreCommitted(states, events, j, source, id);
    StepAddsOperation(states[i], events[i], states[i + 1], source, id);
    StepAddsOperation(states[j], events[j], states[j + 1], source, id);
  }

  // ---------- Used slots and held items ----------

  lemma PlacedByAMovement(rows: seq<MovementRow>, item: int)
    ensures PlaceOf(rows, item) == Nowhere || exists r :: r in rows && PlaceOf(rows, item) == Holder(r.to)
  {
    var own := RowsOf(rows, item);
    if own != [] { assert own[|own| - 1] in own; }
  }

  lemma SomeoneLeftWorld(rows: seq<MovementRow>)
    requires AllChains(rows) && rows != []
    ensures exists r :: r in rows && r.from == WORLD
  {
    var own := RowsOf(rows, rows[0].item);
    assert rows[0] in own && Chain(own);
    assert Links(own, 0) && own[0] in own;
  }

  /** A holder no movement has touched uses nothing. */
  lemma UntouchedUsesNothing(rows: seq<MovementRow>, h: int)
    requires AllChains(rows) && forall r :: r in rows ==> r.from != h && r.to != h
    ensures UsedByMovements(rows, h) == 0
  {
    hide AllChains, PlaceOf;
    forall item ensures PlaceOf(rows, item) != Holder(h) { PlacedByAMovement(rows, item); }
    assert HeldBy(rows, h) == {};
    if rows != [] { SomeoneLeftWorld(rows); } else { assert Moved(rows) == {}; }
  }

  lemma OpeningKeepsReconciled(s: Store, id: int, a: Account)
    requires StoreOk(s) && Reconciled(s) && id !in s.books.accounts && CatalogOk(s.books.accounts[id := a])
    ensures Reconciled(s.(books := WithAccount(s.books, id, a)))
  {
    hide Total, UsedByMovements, AllChains, BooksOk, IdsOk;
    var accounts := s.books.accounts[id := a];
    OpeningKeepsBooks(s.books, id, a);
    forall x, h | IsSlots(accounts, x, h, Used)
      ensures Total(s.books.postings, OnAccount(x)) == UsedByMovements(s.rows, h) as real
    {
      if x == id {
        forall r | r in s.rows
          ensures r.from != h && r.to != h
        {
          var y :| IsSlots(s.books.accounts, y, r.from, Used);
          var z :| IsSlots(s.books.accounts, z, r.to, Used);
          assert IsSlots(accounts, y, r.from, Used) && IsSlots(accounts, z, r.to, Used);
        }
        UntouchedUsesNothing(s.rows, h);
      } else {
        assert IsSlots(s.books.accounts, x, h, Used);
      }
    }
  }

  lemma StepKeepsReconciled(s: State, e: Event, s': State)
    requires Inv(s) && Reconciled(s.store) && Step(s, e, s') && SparesUsedSlots(s, e)
    ensures Reconciled(s'.store)
  {
    hide PlanOk, InsertableAll, Legs, NewRows, PlanRead, StoreOk, Postable, Posted, SparesUsed, CatalogOk, Total, UsedByMovements;
    match e {
      case PostCommitted(basis, batch) => PostKeepsReconciled(s.store, basis, batch);
      case PlanTaken(_, _) =>
      case MoveCommitted(movements, plan, basis, postings) =>
        PlanParts(s.store, movements, plan);
        MoveKeepsReconciled(s.store, movements, plan, basis, postings);
      case AccountOpened(id, a) => OpeningKeepsReconciled(s.store, id, a);
      case RolledBack(_, _, _) =>
    }
  }

  lemma {:induction false} RunKeepsReconciled(states: seq<State>, events: seq<Event>, i: nat)
    requires IsRun(states, events) && i < |states|
    requires forall j :: 0 <= j < |events| ==> SparesUsedSlots(states[j], events[j])
    ensures Reconciled(states[i].store)
    decreases i
  {
    hide Step, Inv, Reconciled, SparesUsedSlots;
    if i == 0 {
      StartInv();
    } else {
      RunKeepsReconciled(states, events, i - 1);
      RunKeepsInv(states, events, i - 1);
      StepKeepsReconciled(states[i - 1], events[i - 1], states[i]);
    }
  }

  /**
   In every reachable state: each ledger kind sums to zero, over all postings and
   within every entry; every controlled balance is the sum of its postings and
   not negative; every item's movements are one chain from World.
   */
  lemma BooksAlwaysBalance(states: seq<State>, events: seq<Event>, i: nat, kind: string, entry: nat, id: int, item: int)
    requires IsRun(states, events) && i < |states|
    ensures var b := states[i].store.books;
            && Total(b.postings, OfKind(b.accounts, kind)) == 0.0
            && Total(b.postings, OfEntryKind(b.accounts, entry, kind)) == 0.0
            && (id in b.accounts && b.accounts[id].controlled ==>
                  Balance(b, id) == Total(b.postings, OnAccount(id)) && 0.0 <= Balance(b, id))
    ensures Chain(RowsOf(states[i].store.rows, item))
  {
    RunKeepsInv(states, events, i);
    var b := states[i].store.books;
    hide Total, Chain;
    if id in b.accounts { assert BalanceOk(b, id); }
  }

  /** In every reachable state the used slots of a backpack are exactly the items in it. */
  lemma UsedSlotsAreItemsHeld(states: seq<State>, events: seq<Event>, i: nat, h: int, used: int)
    requires IsRun(states, events) && i < |states|
    requires forall j :: 0 <= j < |events| ==> SparesUsedSlots(states[j], events[j])
    requires var b := states[i].store.books; h != WORLD && IsSlots(b.accounts, used, h, Used) && b.accounts[used].controlled
    ensures Balance(states[i].store.books, used) == |HeldBy(states[i].store.rows, h)| as real
  {
    RunKeepsReconciled(states, events, i);
    RunKeepsInv(states, events, i);
    var s := states[i].store;
    hide Total, AllChains, HeldBy, IsRun, SparesUsedSlots;
    assert BalanceOk(s.books, used);
    UsedIs(s.rows, h);
  }
}
