/** The double-entry books: accounts, their materialised balances, and the postings behind them. */
module Ledgers {

  const AMOUNT_BOUND := 10_000_000_000_000_000_000_000_000.0
  const SCALE := 100_000.0

  datatype Role = NoRole | Free | Used

  datatype Account = Account(kind: string, controlled: bool, holder: int, role: Role)

  datatype Posting = Posting(account: int, amount: real)

  datatype PostingRow = PostingRow(entry: nat, posting: Posting)

  datatype Basis =
    | NilBasis
    | PlayerOperation(source: string, operationId: string)
    | Document
    | EventBasis(registered: bool)

  datatype PostError =
    | NoBasis | EmptyBatch | InvalidAmount | UnknownAccount | Unbalanced
    | AlreadyPosted | UnknownEventType | Overdraft | BalanceRowMissing | OutOfRange

  /** The account catalogue, the balance rows, the postings, and the player operations and entry ids already used. */
  datatype Books = Books(accounts: map<int, Account>, balances: map<int, real>, postings: seq<PostingRow>,
                         operations: set<(string, string)>, nextEntry: nat)

  /** Exactly representable at scale 5, non-zero, and within 25 integer digits. */
  predicate ValidAmount(a: real) {
    a != 0.0 && (a * SCALE).Floor as real == a * SCALE && -AMOUNT_BOUND < a < AMOUNT_BOUND
  }

  predicate InRange(balance: real) {
    0.0 <= balance < AMOUNT_BOUND
  }

  // ---------- Sums ----------

  /** The sum of the amounts of the picked rows. */
  function Total(rows: seq<PostingRow>, pick: PostingRow -> bool): real {
    if rows == [] then 0.0
    else
      var last := rows[|rows| - 1];
      Total(rows[..|rows| - 1], pick) + if pick(last) then last.posting.amount else 0.0
  }

  lemma {:induction false} TotalOfSum(a: seq<PostingRow>, b: seq<PostingRow>, pick: PostingRow -> bool)
    ensures Total(a + b, pick) == Total(a, pick) + Total(b, pick)
    decreases |b|
  {
    if b == [] {
      assert a + b == a;
    } else {
      assert (a + b)[..|a + b| - 1] == a + b[..|b| - 1];
      TotalOfSum(a, b[..|b| - 1], pick);
    }
  }

  lemma {:induction false} TotalAgrees(rows: seq<PostingRow>, pick: PostingRow -> bool, pick': PostingRow -> bool)
    requires forall r :: r in rows ==> pick(r) == pick'(r)
    ensures Total(rows, pick) == Total(rows, pick')
  {
    if rows != [] { TotalAgrees(rows[..|rows| - 1], pick, pick'); }
  }

  lemma {:induction false} TotalOfNone(rows: seq<PostingRow>, pick: PostingRow -> bool)
    requires forall r :: r in rows ==> !pick(r)
    ensures Total(rows, pick) == 0.0
  {
    if rows != [] { TotalOfNone(rows[..|rows| - 1], pick); }
  }

  function OnAccount(id: int): PostingRow -> bool {
    (r: PostingRow) => r.posting.account == id
  }

  function OfKind(accounts: map<int, Account>, kind: string): PostingRow -> bool {
    (r: PostingRow) => r.posting.account in accounts && accounts[r.posting.account].kind == kind
  }

  function OfEntryKind(accounts: map<int, Account>, entry: nat, kind: string): PostingRow -> bool {
    (r: PostingRow) => r.entry == entry && r.posting.account in accounts && accounts[r.posting.account].kind == kind
  }

  function Rows(entry: nat, batch: seq<Posting>): (rows: seq<PostingRow>)
    ensures |rows| == |batch| && forall i :: 0 <= i < |batch| ==> rows[i] == PostingRow(entry, batch[i])
  {
    seq(|batch|, i requires 0 <= i < |batch| => PostingRow(entry, batch[i]))
  }

  /** What a batch adds to an account. */
  function Delta(batch: seq<Posting>, id: int): real {
    Total(Rows(0, batch), OnAccount(id))
  }

  function KindDelta(accounts: map<int, Account>, batch: seq<Posting>, kind: string): real {
    Total(Rows(0, batch), OfKind(accounts, kind))
  }

  lemma RowsMore(entry: nat, batch: seq<Posting>, p: Posting)
    ensures Rows(entry, batch + [p]) == Rows(entry, batch) + [PostingRow(entry, p)]
  {
  }

  lemma DeltaMore(accounts: map<int, Account>, batch: seq<Posting>, p: Posting, id: int, kind: string)
    ensures Delta(batch + [p], id) == Delta(batch, id) + if p.account == id then p.amount else 0.0
    ensures KindDelta(accounts, batch + [p], kind) ==
            KindDelta(accounts, batch, kind) + if p.account in accounts && accounts[p.account].kind == kind then p.amount else 0.0
  {
    RowsMore(0, batch, p);
    var rows := Rows(0, batch);
    assert (rows + [PostingRow(0, p)])[..|rows|] == rows;
  }

  lemma {:induction false} TotalIgnoresEntry(entry: nat, entry': nat, batch: seq<Posting>, pick: PostingRow -> bool, pick': PostingRow -> bool)
    requires forall p: Posting :: p in batch ==> pick(PostingRow(entry, p)) == pick'(PostingRow(entry', p))
    ensures Total(Rows(entry, batch), pick) == Total(Rows(entry', batch), pick')
    decreases |batch|
  {
    if batch != [] {
      var less, p := batch[..|batch| - 1], batch[|batch| - 1];
      assert batch == less + [p];
      RowsMore(entry, less, p);
      RowsMore(entry', less, p);
      TotalIgnoresEntry(entry, entry', less, pick, pick');
      assert (Rows(entry, less) + [PostingRow(entry, p)])[..|less|] == Rows(entry, less);
      assert (Rows(entry', less) + [PostingRow(entry', p)])[..|less|] == Rows(entry', less);
    } else {
      assert Rows(entry, batch) == [] && Rows(entry', batch) == [];
    }
  }

  // ---------- Posting a batch ----------

  predicate Known(accounts: map<int, Account>, batch: seq<Posting>) {
    forall p :: p in batch ==> p.account in accounts
  }

  predicate ValidAmounts(batch: seq<Posting>) {
    forall p :: p in batch ==> ValidAmount(p.amount)
  }

  /** Zero-sum within every ledger kind. */
  ghost predicate ZeroSum(accounts: map<int, Account>, batch: seq<Posting>) {
    forall kind :: KindDelta(accounts, batch, kind) == 0.0
  }

  predicate BasisFresh(b: Books, basis: Basis) {
    match basis
    case NilBasis => false
    case PlayerOperation(s, id) => (s, id) !in b.operations
    case Document => true
    case EventBasis(registered) => registered
  }

  /** The balance row of account id admits the change. */
  predicate Admits(b: Books, id: int, delta: real)
    requires id in b.accounts
  {
    b.accounts[id].controlled && delta != 0.0 ==> id in b.balances && InRange(b.balances[id] + delta)
  }

  ghost predicate Affordable(b: Books, batch: seq<Posting>) {
    forall id :: id in b.accounts ==> Admits(b, id, Delta(batch, id))
  }

  /** Exactly the batches a post accepts. */
  ghost predicate Postable(b: Books, basis: Basis, batch: seq<Posting>) {
    && batch != [] && ValidAmounts(batch) && Known(b.accounts, batch) && ZeroSum(b.accounts, batch)
    && BasisFresh(b, basis) && Affordable(b, batch)
  }

  /** The books with the basis document and the journal entry, before any balance changes. */
  function Opened(b: Books, basis: Basis): Books {
    b.(operations := if basis.PlayerOperation? then b.operations + {(basis.source, basis.operationId)} else b.operations,
       nextEntry := b.nextEntry + 1)
  }

  function NewBalance(b: Books, batch: seq<Posting>, id: int): real
    requires id in b.balances
  {
    if id in b.accounts && b.accounts[id].controlled then b.balances[id] + Delta(batch, id) else b.balances[id]
  }

  /** The books after a post. */
  function Posted(b: Books, basis: Basis, batch: seq<Posting>): Books {
    Opened(b, basis).(balances := map id | id in b.balances :: NewBalance(b, batch, id),
                      postings := b.postings + Rows(b.nextEntry, batch))
  }

  // ---------- What every state of the books keeps ----------

  function Balance(b: Books, id: int): real {
    if id in b.balances then b.balances[id] else 0.0
  }

  ghost predicate RowOk(b: Books, r: PostingRow) {
    r.entry < b.nextEntry && r.posting.account in b.accounts && ValidAmount(r.posting.amount)
  }

  /** A controlled account's balance is the sum of its postings, and is never negative. */
  ghost predicate BalanceOk(b: Books, id: int)
    requires id in b.accounts
  {
    b.accounts[id].controlled ==> Balance(b, id) == Total(b.postings, OnAccount(id)) && InRange(Balance(b, id))
  }

  ghost predicate BooksOk(b: Books) {
    && (forall r :: r in b.postings ==> RowOk(b, r))
    && (forall id :: id in b.accounts ==> BalanceOk(b, id))
    && (forall kind :: Total(b.postings, OfKind(b.accounts, kind)) == 0.0)
    && (forall entry, kind :: Total(b.postings, OfEntryKind(b.accounts, entry, kind)) == 0.0)
  }

  lemma BatchTotals(accounts: map<int, Account>, entry: nat, batch: seq<Posting>, id: int, kind: string, entry': nat)
    ensures Total(Rows(entry, batch), OnAccount(id)) == Delta(batch, id)
    ensures Total(Rows(entry, batch), OfKind(accounts, kind)) == KindDelta(accounts, batch, kind)
    ensures Total(Rows(entry, batch), OfEntryKind(accounts, entry', kind)) == if entry == entry' then KindDelta(accounts, batch, kind) else 0.0
  {
    TotalIgnoresEntry(entry, 0, batch, OnAccount(id), OnAccount(id));
    TotalIgnoresEntry(entry, 0, batch, OfKind(accounts, kind), OfKind(accounts, kind));
    if entry == entry' {
      TotalIgnoresEntry(entry, 0, batch, OfEntryKind(accounts, entry', kind), OfKind(accounts, kind));
    } else {
      TotalOfNone(Rows(entry, batch), OfEntryKind(accounts, entry', kind));
    }
  }

  /**
   A post keeps the books: each kind sums to zero, over all postings and within
   every entry; each controlled balance is the sum of its account's postings,
   and none is negative.
   */
  lemma PostKeepsBooks(b: Books, basis: Basis, batch: seq<Posting>)
    requires BooksOk(b) && Postable(b, basis, batch)
    ensures BooksOk(Posted(b, basis, batch))
  {
    hide ValidAmount, InRange, Total, Delta, KindDelta, OnAccount, OfKind, OfEntryKind;
    var b' := Posted(b, basis, batch);
    var rows := Rows(b.nextEntry, batch);
    forall r | r in b'.postings
      ensures RowOk(b', r)
    {
      if r in rows {
        var i :| 0 <= i < |rows| && rows[i] == r;
        assert batch[i] in batch;
      }
    }
    forall kind
      ensures Total(b'.postings, OfKind(b'.accounts, kind)) == 0.0
    {
      BatchTotals(b.accounts, b.nextEntry, batch, 0, kind, 0);
      TotalOfSum(b.postings, rows, OfKind(b.accounts, kind));
    }
    forall entry, kind
      ensures Total(b'.postings, OfEntryKind(b'.accounts, entry, kind)) == 0.0
    {
      BatchTotals(b.accounts, b.nextEntry, batch, 0, kind, entry);
      TotalOfSum(b.postings, rows, OfEntryKind(b.accounts, entry, kind));
    }
    forall id | id in b'.accounts
      ensures BalanceOk(b', id)
    {
      BalanceAfter(b, basis, batch, id);
    }
  }

  lemma BalanceAfter(b: Books, basis: Basis, batch: seq<Posting>, id: int)
    requires id in b.accounts && BalanceOk(b, id) && Admits(b, id, Delta(batch, id))
    ensures BalanceOk(Posted(b, basis, batch), id)
  {
    hide InRange, Total, Delta, OnAccount;
    BatchTotals(b.accounts, b.nextEntry, batch, id, "", 0);
    TotalOfSum(b.postings, Rows(b.nextEntry, batch), OnAccount(id));
  }

  /** An account opened with its zero balance row leaves the books in order. */
  function WithAccount(b: Books, id: int, a: Account): Books {
    b.(accounts := b.accounts[id := a], balances := if a.controlled then b.balances[id := 0.0] else b.balances)
  }

  lemma OpeningKeepsBooks(b: Books, id: int, a: Account)
    requires BooksOk(b) && id !in b.accounts
    ensures BooksOk(WithAccount(b, id, a))
    ensures Total(b.postings, OnAccount(id)) == 0.0
  {
    hide ValidAmount, Total;
    var b' := WithAccount(b, id, a);
    forall r | r in b'.postings
      ensures RowOk(b', r)
    {
      assert RowOk(b, r);
    }
    forall kind
      ensures Total(b'.postings, OfKind(b'.accounts, kind)) == 0.0
    {
      TotalAgrees(b.postings, OfKind(b.accounts, kind), OfKind(b'.accounts, kind));
    }
    forall entry, kind
      ensures Total(b'.postings, OfEntryKind(b'.accounts, entry, kind)) == 0.0
    {
      TotalAgrees(b.postings, OfEntryKind(b.accounts, entry, kind), OfEntryKind(b'.accounts, entry, kind));
    }
    TotalOfNone(b.postings, OnAccount(id));
    forall x | x in b'.accounts
      ensures BalanceOk(b', x)
    {
      if x != id { assert BalanceOk(b, x); }
    }
  }
}
