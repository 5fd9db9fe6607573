/**
 The update-ingestion loop: its offset, its attempts at one update, and what
 each committed settlement writes. What the database, the handler and the
 caller's context do is given by an arbitrary sequence of chances.
 */
module Ingests {

  datatype Handling = Done | AlreadyPosted | Erred | Panicked

  /** A commit lands and says so, does not land, or lands while an error is reported. */
  datatype TxEnd = Lands | Lost | LandsUnheard

  /** One transaction's chances, and whether the context is cancelled in the wait after it. */
  datatype Luck = Luck(begins: bool, handling: Handling, writes: bool, end: TxEnd, cancelled: bool)

  type Chances = nat -> Luck

  datatype How = Handled | Duplicate | Unrouted | GivenUp

  datatype Settlement = Settlement(id: int, how: How)

  datatype DeadRow = DeadRow(id: int, failures: nat)

  /**
   What is stored: the offset to transmit, the updates whose handlers' effects
   are in, and the dead rows; and a log of every settling transaction that landed.
   */
  datatype Db = Db(offset: int, effects: seq<int>, dead: seq<DeadRow>, log: seq<Settlement>)

  /**
   What is recorded of one attempt at an update: its ordinal, the transaction it
   was made in, whether the update's effects were in by then, and whether the
   attempt heard a settlement.
   */
  datatype Try = Try(id: int, attempt: nat, at: nat, applied: bool, settled: bool)

  /** What is stored, the next chance to be taken, and every attempt made so far. */
  datatype State = State(db: Db, pos: nat, tries: seq<Try>)

  datatype Update = Update(id: int, wellFormed: bool, routed: bool)

  /** idempotent: handlers post under the update's own operation id, so once their effects are in they answer AlreadyPosted. */
  datatype Config = Config(maxAttempts: nat, idempotent: bool)

  const FRESH := Db(0, [], [], [])

  const START := State(FRESH, 0, [])

  // ---------- Transactions ----------

  /** advanceOffset: guarded, so never backwards. */
  function Advanced(offset: int, next: int): int {
    if offset < next then next else offset
  }

  /** The database once a settling transaction of the given kind has landed. */
  function Marked(db: Db, id: int, how: How, failures: nat): Db {
    Db(Advanced(db.offset, id + 1),
       if how == Handled then db.effects + [id] else db.effects,
       if how == GivenUp then db.dead + [DeadRow(id, failures)] else db.dead,
       db.log + [Settlement(id, how)])
  }

  /** A transaction that would leave db', begun, written and ended as luck has it; and whether its caller hears that it landed. */
  function Transact(luck: Luck, db: Db, db': Db): (Db, bool) {
    if !luck.begins || !luck.writes || luck.end == Lost then (db, false) else (db', luck.end == Lands)
  }

  function HandlingOf(cfg: Config, luck: Luck, db: Db, id: int): Handling {
    if cfg.idempotent && luck.handling == Done && id in db.effects then AlreadyPosted else luck.handling
  }

  /** One transaction of the loop's own that settles id. */
  function Settle(chances: Chances, st: State, id: int, how: How, failures: nat): (State, bool) {
    var (db, ok) := Transact(chances(st.pos), st.db, Marked(st.db, id, how, failures));
    (st.(db := db, pos := st.pos + 1), ok)
  }

  /** One attempt's transactions: whether the update is settled. */
  function Handle(cfg: Config, chances: Chances, st: State, id: int): (State, bool) {
    var luck := chances(st.pos);
    var next := st.(pos := st.pos + 1);
    if !luck.begins then (next, false)
    else
      match HandlingOf(cfg, luck, st.db, id)
      case Done => Settle(chances, st, id, Handled, 0)
      case AlreadyPosted => Settle(chances, next, id, Duplicate, 0)
      case Erred => (next, false)
      case Panicked => (next, false)
  }

  /** attemptOnce. */
  function Attempt(cfg: Config, chances: Chances, st: State, id: int, attempt: nat): (State, bool) {
    var (st', settled) := Handle(cfg, chances, st, id);
    (st'.(tries := st'.tries + [Try(id, attempt, st.pos, id in st.db.effects, settled)]), settled)
  }

  /** runAttempts from attempt a on: whether the update is settled. */
  function Attempts(cfg: Config, chances: Chances, st: State, id: int, a: nat): (State, bool)
    decreases cfg.maxAttempts - a
  {
    if a >= cfg.maxAttempts then Settle(chances, st, id, GivenUp, cfg.maxAttempts)
    else
      var (st', settled) := Attempt(cfg, chances, st, id, a);
      if settled then (st', true)
      else if a + 1 < cfg.maxAttempts && chances(st.pos).cancelled then (st', false)
      else Attempts(cfg, chances, st', id, a + 1)
  }

  function Process(cfg: Config, chances: Chances, st: State, u: Update): (State, bool) {
    if !u.wellFormed || !u.routed then Settle(chances, st, u.id, Unrouted, 0) else Attempts(cfg, chances, st, u.id, 0)
  }

  /** The batch from update i on, in order, up to the first that is not settled; and how many were processed. */
  function ProcessFrom(cfg: Config, chances: Chances, st: State, batch: seq<Update>, i: nat): (State, nat)
    requires i <= |batch|
    decreases |batch| - i
  {
    if i == |batch| then (st, i)
    else
      var (st', settled) := Process(cfg, chances, st, batch[i]);
      if settled then ProcessFrom(cfg, chances, st', batch, i + 1) else (st', i + 1)
  }

  // ---------- What the server delivers ----------

  ghost predicate Lists(batch: seq<Update>, id: int) {
    exists i :: 0 <= i < |batch| && batch[i].id == id
  }

  /** getUpdates answers an offset with the earliest of the issued updates at or after it, in ascending order. */
  ghost predicate Delivers(batch: seq<Update>, offset: int, issued: set<int>) {
    && (forall i :: 0 <= i < |batch| ==> offset <= batch[i].id && batch[i].id in issued)
    && (forall i, j :: 0 <= i < j < |batch| ==> batch[i].id < batch[j].id)
    && forall id :: id in issued && offset <= id && batch != [] && id <= batch[|batch| - 1].id ==> Lists(batch, id)
  }

  // ---------- What always holds ----------

  ghost predicate Settled(db: Db, id: int) {
    exists k :: 0 <= k < |db.log| && db.log[k].id == id
  }

  /** Only updates below the offset are settled; and no handler's effect is in without a settlement. */
  ghost predicate LogOk(db: Db) {
    && (forall k :: 0 <= k < |db.log| ==> db.log[k].id < db.offset)
    && forall id :: id in db.effects ==> Settled(db, id)
  }

  /** db came from db0 by settling nothing but id, and the offset moved only if it did. */
  ghost predicate OnlySettles(db0: Db, db: Db, id: int) {
    && |db0.log| <= |db.log| && db.log[..|db0.log|] == db0.log
    && (forall k :: |db0.log| <= k < |db.log| ==> db.log[k].id == id)
    && db.offset == (if |db.log| == |db0.log| then db0.offset else Advanced(db0.offset, id + 1))
  }

  lemma SettlesTransitive(a: Db, b: Db, c: Db, id: int)
    requires OnlySettles(a, b, id) && OnlySettles(b, c, id)
    ensures OnlySettles(a, c, id)
  {
    assert c.log[..|b.log|] == b.log;
    assert c.log[..|a.log|] == c.log[..|b.log|][..|a.log|];
    forall k | |a.log| <= k < |c.log|
      ensures c.log[k].id == id
    {
      if k < |b.log| { assert c.log[k] == c.log[..|b.log|][k] == b.log[k]; }
    }
  }

  /** The effects that are in are settled, and for idempotent handlers each is in once. */
  ghost predicate EffectsOk(cfg: Config, db: Db) {
    && LogOk(db)
    && (cfg.idempotent ==> forall i, j :: 0 <= i < j < |db.effects| ==> db.effects[i] != db.effects[j])
  }

  lemma MarkedSettles(cfg: Config, db: Db, id: int, how: How, failures: nat)
    requires EffectsOk(cfg, db) && (how == Handled ==> !(cfg.idempotent && id in db.effects))
    ensures OnlySettles(db, Marked(db, id, how, failures), id) && EffectsOk(cfg, Marked(db, id, how, failures))
    ensures Settled(Marked(db, id, how, failures), id) && id < Marked(db, id, how, failures).offset
  {
    var db' := Marked(db, id, how, failures);
    assert db'.log[|db.log|].id == id;
    forall x | x in db'.effects
      ensures Settled(db', x)
    {
      if x in db.effects {
        var k :| 0 <= k < |db.log| && db.log[k].id == x;
        assert db'.log[k].id == x;
      }
    }
  }

  /** What one settling transaction does, whatever its luck. */
  lemma SettleOk(cfg: Config, chances: Chances, st: State, id: int, how: How, failures: nat)
    requires EffectsOk(cfg, st.db) && (how == Handled ==> !(cfg.idempotent && id in st.db.effects))
    ensures var (st', settled) := Settle(chances, st, id, how, failures);
            && OnlySettles(st.db, st'.db, id) && EffectsOk(cfg, st'.db)
            && (settled ==> Settled(st'.db, id) && id < st'.db.offset)
  {
    MarkedSettles(cfg, st.db, id, how, failures);
  }

  lemma AttemptOk(cfg: Config, chances: Chances, st: State, id: int, a: nat)
    requires EffectsOk(cfg, st.db)
    ensures var (st', settled) := Attempt(cfg, chances, st, id, a);
            && OnlySettles(st.db, st'.db, id) && EffectsOk(cfg, st'.db)
            && (settled ==> Settled(st'.db, id) && id < st'.db.offset)
  {
    hide Settle, EffectsOk, Settled;
    var luck := chances(st.pos);
    if luck.begins {
      match HandlingOf(cfg, luck, st.db, id) {
        case Done => SettleOk(cfg, chances, st, id, Handled, 0);
        case AlreadyPosted => SettleOk(cfg, chances, st.(pos := st.pos + 1), id, Duplicate, 0);
        case Erred =>
        case Panicked =>
      }
    }
  }

  lemma {:induction false} AttemptsOk(cfg: Config, chances: Chances, st: State, id: int, a: nat)
    requires EffectsOk(cfg, st.db)
    ensures var (st', settled) := Attempts(cfg, chances, st, id, a);
            && OnlySettles(st.db, st'.db, id) && EffectsOk(cfg, st'.db)
            && (settled ==> Settled(st'.db, id) && id < st'.db.offset)
    decreases cfg.maxAttempts - a
  {
    hide Settle, Attempt, EffectsOk, Settled, OnlySettles;
    if a >= cfg.maxAttempts {
      SettleOk(cfg, chances, st, id, GivenUp, cfg.maxAttempts);
    } else {
      AttemptOk(cfg, chances, st, id, a);
      var (st', settled) := Attempt(cfg, chances, st, id, a);
      AttemptsOk(cfg, chances, st', id, a + 1);
      var (st2, s2) := Attempts(cfg, chances, st', id, a + 1);
      SettlesTransitive(st.db, st'.db, st2.db, id);
    }
  }

  lemma ProcessOk(cfg: Config, chances: Chances, st: State, u: Update)
    requires EffectsOk(cfg, st.db)
    ensures var (st', settled) := Process(cfg, chances, st, u);
            && OnlySettles(st.db, st'.db, u.id) && EffectsOk(cfg, st'.db)
            && (settled ==> Settled(st'.db, u.id) && u.id < st'.db.offset)
  {
    hide Settle, Attempts, EffectsOk, Settled, OnlySettles;
    SettleOk(cfg, chances, st, u.id, Unrouted, 0);
    AttemptsOk(cfg, chances, st, u.id, 0);
  }

  /** Nothing is passed over: every issued update below the offset is settled. */
  ghost predicate Covered(db: Db, issued: set<int>) {
    forall id :: id in issued && id < db.offset ==> Settled(db, id)
  }

  lemma SettledStays(db0: Db, db: Db, id: int, x: int)
    requires OnlySettles(db0, db, id) && Settled(db0, x)
    ensures Settled(db, x)
  {
    var k :| 0 <= k < |db0.log| && db0.log[k].id == x;
    assert db.log[k] == db.log[..|db0.log|][k];
  }

  /** Settling the earliest issued update at or after the offset leaves none behind. */
  lemma CoverAfter(db0: Db, db: Db, id: int, issued: set<int>)
    requires OnlySettles(db0, db, id) && Covered(db0, issued)
    requires forall x :: x in issued && db0.offset <= x ==> id <= x
    ensures Covered(db, issued)
  {
    forall x | x in issued && x < db.offset
      ensures Settled(db, x)
    {
      if x < db0.offset {
        SettledStays(db0, db, id, x);
      } else {
        assert db.log[|db0.log|].id == id;
      }
    }
  }

  /** In a batch, the next update is the earliest issued one at or after the offset. */
  lemma NextIsEarliest(batch: seq<Update>, i: nat, offset0: int, offset: int, issued: set<int>)
    requires Delivers(batch, offset0, issued) && i < |batch| && offset0 <= offset
    requires forall j :: 0 <= j < i ==> batch[j].id < offset
    ensures forall x :: x in issued && offset <= x ==> batch[i].id <= x
  {
    forall x | x in issued && offset <= x
      ensures batch[i].id <= x
    {
      assert batch[i].id <= batch[|batch| - 1].id;
      if x <= batch[|batch| - 1].id {
        assert Lists(batch, x);
        var j :| 0 <= j < |batch| && batch[j].id == x;
      }
    }
  }

  /** A batch in progress: the updates before i are behind the offset, those from i on are not. */
  ghost predicate Midway(db: Db, batch: seq<Update>, i: nat) {
    && (forall j :: 0 <= j < i && j < |batch| ==> batch[j].id < db.offset)
    && forall j :: i <= j < |batch| ==> db.offset <= batch[j].id
  }

  /**
   One batch: the offset never goes back, nothing issued is passed over, and the
   updates after the first unsettled one are not touched: they are still at or
   after the offset, and none of them is settled.
   */
  lemma {:induction false} BatchKeepsCover(cfg: Config, chances: Chances, st: State, batch: seq<Update>, i: nat, offset0: int, issued: set<int>)
    requires EffectsOk(cfg, st.db) && Covered(st.db, issued) && Delivers(batch, offset0, issued) && i <= |batch|
    requires offset0 <= st.db.offset && Midway(st.db, batch, i)
    ensures var (st', n) := ProcessFrom(cfg, chances, st, batch, i);
            && EffectsOk(cfg, st'.db) && Covered(st'.db, issued) && st.db.offset <= st'.db.offset
            && i <= n <= |batch| && forall j :: n <= j < |batch| ==> st'.db.offset <= batch[j].id && !Settled(st'.db, batch[j].id)
    decreases |batch| - i
  {
    hide Process, Settled, Covered;
    if i < |batch| {
      var u := batch[i];
      ProcessOk(cfg, chances, st, u);
      var (st', settled) := Process(cfg, chances, st, u);
      NextIsEarliest(batch, i, offset0, st.db.offset, issued);
      CoverAfter(st.db, st'.db, u.id, issued);
      if settled {
        BatchKeepsCover(cfg, chances, st', batch, i + 1, offset0, issued);
      } else {
        forall j | i + 1 <= j < |batch|
          ensures st'.db.offset <= batch[j].id && !Settled(st'.db, batch[j].id)
        {
          NotYetSettled(cfg, st'.db, batch[j].id);
        }
      }
    }
  }

  lemma NotYetSettled(cfg: Config, db: Db, id: int)
    requires EffectsOk(cfg, db) && db.offset <= id
    ensures !Settled(db, id)
  {
  }

  // ---------- Polls and runs ----------

  /** One poll: the offset read, the updates fetched (or not), the batch processed. */
  datatype Poll = Discarded | Fetched(batch: seq<Update>, issued: set<int>)

  datatype World = World(st: State, issued: set<int>)

  /** A poll that fails or is discarded changes nothing; updates issued meanwhile are at or after the offset. */
  ghost predicate PollStep(cfg: Config, chances: Chances, w: World, p: Poll, w': World) {
    match p
    case Discarded => w' == w
    case Fetched(batch, issued) =>
      && w.issued <= issued && (forall id :: id in issued && id !in w.issued ==> w.st.db.offset <= id)
      && Delivers(batch, w.st.db.offset, issued)
      && w' == World(ProcessFrom(cfg, chances, w.st, batch, 0).0, issued)
  }

  ghost predicate IsRun(cfg: Config, chances: Chances, worlds: seq<World>, polls: seq<Poll>) {
    && |worlds| == |polls| + 1 && worlds[0] == World(START, {})
    && forall i :: 0 <= i < |polls| ==> PollStep(cfg, chances, worlds[i], polls[i], worlds[i + 1])
  }

  lemma PollKeepsCover(cfg: Config, chances: Chances, w: World, p: Poll, w': World)
    requires EffectsOk(cfg, w.st.db) && Covered(w.st.db, w.issued) && PollStep(cfg, chances, w, p, w')
    ensures EffectsOk(cfg, w'.st.db) && Covered(w'.st.db, w'.issued) && w.st.db.offset <= w'.st.db.offset
  {
    hide EffectsOk, Settled;
    if p.Fetched? {
      BatchKeepsCover(cfg, chances, w.st, p.batch, 0, w.st.db.offset, p.issued);
    }
  }

  /**
   Whatever fails, in every run: the offset only moves forward; every issued
   update below it is settled; and with idempotent handlers no update's effects
   are ever in twice, even when a commit lands unheard.
   */
  lemma {:induction false} RunLosesNothing(cfg: Config, chances: Chances, worlds: seq<World>, polls: seq<Poll>, i: nat)
    requires IsRun(cfg, chances, worlds, polls) && i < |worlds|
    ensures EffectsOk(cfg, worlds[i].st.db) && Covered(worlds[i].st.db, worlds[i].issued)
    ensures i > 0 ==> worlds[i - 1].st.db.offset <= worlds[i].st.db.offset
    decreases i
  {
    hide EffectsOk, Covered, PollStep;
    if i == 0 {
      FreshOk(cfg);
    } else {
      RunLosesNothing(cfg, chances, worlds, polls, i - 1);
      PollKeepsCover(cfg, chances, worlds[i - 1], polls[i - 1], worlds[i]);
    }
  }

  lemma FreshOk(cfg: Config)
    ensures EffectsOk(cfg, FRESH) && Covered(FRESH, {})
  {
  }

  // ---------- Exactly one way ----------

  /** No commit lands unheard. */
  ghost predicate Truthful(chances: Chances) {
    forall p :: chances(p).end != LandsUnheard
  }

  /** The updates settled in one way, in the order of the log. */
  function Only(log: seq<Settlement>, how: How): seq<int> {
    if log == [] then []
    else Only(log[..|log| - 1], how) + if log[|log| - 1].how == how then [log[|log| - 1].id] else []
  }

  lemma OnlyMore(log: seq<Settlement>, s: Settlement, how: How)
    ensures Only(log + [s], how) == Only(log, how) + if s.how == how then [s.id] else []
  {
    assert (log + [s])[..|log|] == log;
  }

  function DeadIds(dead: seq<DeadRow>): seq<int> {
    seq(|dead|, k requires 0 <= k < |dead| => dead[k].id)
  }

  /**
   The log settles each update once, in ascending order, the last just below the
   offset; the handlers' effects in are exactly the handled updates', each once;
   and the dead rows are exactly the given-up ones, after every attempt failed.
   */
  ghost predicate ExactlyOnce(cfg: Config, db: Db) {
    && (forall i, j :: 0 <= i < j < |db.log| ==> db.log[i].id < db.log[j].id)
    && (forall k :: 0 <= k < |db.log| ==> db.log[k].id < db.offset)
    && db.effects == Only(db.log, Handled)
    && DeadIds(db.dead) == Only(db.log, GivenUp)
    && forall k :: 0 <= k < |db.dead| ==> db.dead[k].failures == cfg.maxAttempts
  }

  lemma MarkedOnce(cfg: Config, db: Db, id: int, how: How, failures: nat)
    requires ExactlyOnce(cfg, db) && db.offset <= id && (how == GivenUp ==> failures == cfg.maxAttempts)
    ensures ExactlyOnce(cfg, Marked(db, id, how, failures))
  {
    OnlyMore(db.log, Settlement(id, how), Handled);
    OnlyMore(db.log, Settlement(id, how), GivenUp);
    assert DeadIds(db.dead + [DeadRow(id, failures)]) == DeadIds(db.dead) + [id];
  }

  /** A truthful transaction that does not settle changes nothing. */
  lemma SettleOnce(cfg: Config, chances: Chances, st: State, id: int, how: How, failures: nat)
    requires Truthful(chances) && ExactlyOnce(cfg, st.db) && st.db.offset <= id && (how == GivenUp ==> failures == cfg.maxAttempts)
    ensures var (st', settled) := Settle(chances, st, id, how, failures);
            if settled then ExactlyOnce(cfg, st'.db) && st'.db.offset == id + 1 else st'.db == st.db
  {
    hide ExactlyOnce;
    MarkedOnce(cfg, st.db, id, how, failures);
    assert chances(st.pos).end != LandsUnheard;
  }

  lemma AttemptOnce(cfg: Config, chances: Chances, st: State, id: int, a: nat)
    requires Truthful(chances) && ExactlyOnce(cfg, st.db) && st.db.offset <= id
    ensures var (st', settled) := Attempt(cfg, chances, st, id, a);
            if settled then ExactlyOnce(cfg, st'.db) && st'.db.offset == id + 1 else st'.db == st.db
  {
    hide ExactlyOnce, Settle, Truthful;
    SettleOnce(cfg, chances, st, id, Handled, 0);
    SettleOnce(cfg, chances, st.(pos := st.pos + 1), id, Duplicate, 0);
  }

  lemma {:induction false} AttemptsOnce(cfg: Config, chances: Chances, st: State, id: int, a: nat)
    requires Truthful(chances) && ExactlyOnce(cfg, st.db) && st.db.offset <= id
    ensures var (st', settled) := Attempts(cfg, chances, st, id, a);
            if settled then ExactlyOnce(cfg, st'.db) && st'.db.offset == id + 1 else st'.db == st.db
    decreases cfg.maxAttempts - a
  {
    hide ExactlyOnce, Settle, Attempt, Truthful;
    if a >= cfg.maxAttempts {
      SettleOnce(cfg, chances, st, id, GivenUp, cfg.maxAttempts);
    } else {
      AttemptOnce(cfg, chances, st, id, a);
      var (st', settled) := Attempt(cfg, chances, st, id, a);
      if !settled { AttemptsOnce(cfg, chances, st', id, a + 1); }
    }
  }

  /** With truthful commits an update is settled exactly one way or not at all. */
  lemma ProcessOnce(cfg: Config, chances: Chances, st: State, u: Update)
    requires Truthful(chances) && ExactlyOnce(cfg, st.db) && st.db.offset <= u.id
    ensures var (st', settled) := Process(cfg, chances, st, u);
            if settled then ExactlyOnce(cfg, st'.db) && st'.db.offset == u.id + 1 else st'.db == st.db
  {
    hide ExactlyOnce, Settle, Attempts, Truthful;
    SettleOnce(cfg, chances, st, u.id, Unrouted, 0);
    AttemptsOnce(cfg, chances, st, u.id, 0);
  }

  lemma {:induction false} BatchOnce(cfg: Config, chances: Chances, st: State, batch: seq<Update>, i: nat)
    requires Truthful(chances) && ExactlyOnce(cfg, st.db) && i <= |batch|
    requires forall j :: i <= j < |batch| ==> st.db.offset <= batch[j].id
    requires forall j, k :: 0 <= j < k < |batch| ==> batch[j].id < batch[k].id
    ensures ExactlyOnce(cfg, ProcessFrom(cfg, chances, st, batch, i).0.db)
    decreases |batch| - i
  {
    hide ExactlyOnce, Process, Truthful;
    if i < |batch| {
      ProcessOnce(cfg, chances, st, batch[i]);
      var (st', settled) := Process(cfg, chances, st, batch[i]);
      if settled { BatchOnce(cfg, chances, st', batch, i + 1); }
    }
  }

  /** With truthful commits, in every run, every issued update below the offset is settled exactly one way. */
  lemma {:induction false} RunSettlesOnce(cfg: Config, chances: Chances, worlds: seq<World>, polls: seq<Poll>, i: nat)
    requires Truthful(chances) && IsRun(cfg, chances, worlds, polls) && i < |worlds|
    ensures ExactlyOnce(cfg, worlds[i].st.db) && Covered(worlds[i].st.db, worlds[i].issued)
    decreases i
  {
    hide ExactlyOnce, Covered, Truthful;
    RunLosesNothing(cfg, chances, worlds, polls, i);
    if i == 0 {
      FreshOnce(cfg);
    } else {
      RunSettlesOnce(cfg, chances, worlds, polls, i - 1);
      var w, p := worlds[i - 1], polls[i - 1];
      assert PollStep(cfg, chances, w, p, worlds[i]);
      if p.Fetched? { BatchOnce(cfg, chances, w.st, p.batch, 0); }
    }
  }

  lemma FreshOnce(cfg: Config)
    ensures ExactlyOnce(cfg, FRESH)
  {
  }

  // ---------- Why each update was settled as it was ----------

  /** The transaction began, wrote and landed, heard or not. */
  ghost predicate Landed(luck: Luck) {
    luck.begins && luck.writes && luck.end != Lost
  }

  /** The attempt's handler was done, on effects not yet in, and its commit landed. */
  ghost predicate HandledBy(cfg: Config, chances: Chances, t: Try) {
    Landed(chances(t.at)) && chances(t.at).handling == Done && !(cfg.idempotent && t.applied)
  }

  /** The attempt's handler answered AlreadyPosted, or found its effects in, and the settlement of its own landed. */
  ghost predicate DuplicateBy(cfg: Config, chances: Chances, t: Try) {
    && chances(t.at).begins && Landed(chances(t.at + 1))
    && (chances(t.at).handling == AlreadyPosted || (cfg.idempotent && t.applied && chances(t.at).handling == Done))
  }

  /** The attempt's settlement landed and said so. */
  ghost predicate Heard(cfg: Config, chances: Chances, t: Try) {
    || (HandledBy(cfg, chances, t) && chances(t.at).end == Lands)
    || (DuplicateBy(cfg, chances, t) && chances(t.at + 1).end == Lands)
  }

  /** The attempts from the j-th on are the first to the last allowed at id, and none of them heard a settlement. */
  ghost predicate AllFailed(cfg: Config, tries: seq<Try>, id: int, j: nat) {
    && j + cfg.maxAttempts <= |tries|
    && forall k :: j <= k < j + cfg.maxAttempts ==> tries[k].id == id && tries[k].attempt == k - j && !tries[k].settled
  }

  /** An attempt or a run of attempts accounts for the settlement. */
  ghost predicate Explained(cfg: Config, chances: Chances, tries: seq<Try>, e: Settlement) {
    match e.how
    case Handled => exists k :: 0 <= k < |tries| && tries[k].id == e.id && HandledBy(cfg, chances, tries[k])
    case Duplicate => exists k :: 0 <= k < |tries| && tries[k].id == e.id && DuplicateBy(cfg, chances, tries[k])
    case GivenUp => exists j: nat :: AllFailed(cfg, tries, e.id, j)
    case Unrouted => true
  }

  /**
   An attempt's recorded end is what its luck says: it heard a settlement exactly
   if one landed and said so, and one that landed at all is in the log. So an
   attempt that erred, panicked or did not begin settled nothing.
   */
  ghost predicate TryOk(cfg: Config, chances: Chances, db: Db, t: Try) {
    && (t.settled <==> Heard(cfg, chances, t))
    && (HandledBy(cfg, chances, t) ==> Settlement(t.id, Handled) in db.log)
    && (DuplicateBy(cfg, chances, t) ==> Settlement(t.id, Duplicate) in db.log)
    && (t.applied ==> t.id in db.effects)
  }

  ghost predicate Traced(cfg: Config, chances: Chances, st: State) {
    && (forall k :: 0 <= k < |st.db.log| ==> Explained(cfg, chances, st.tries, st.db.log[k]))
    && (forall k :: 0 <= k < |st.tries| ==> TryOk(cfg, chances, st.db, st.tries[k]))
    && (forall k :: 0 <= k < |st.tries| ==> st.tries[k].at < st.pos)
    && forall j, k :: 0 <= j < k < |st.tries| ==> st.tries[j].at < st.tries[k].at
  }

  lemma ExplainedStill(cfg: Config, chances: Chances, tries: seq<Try>, more: seq<Try>, e: Settlement)
    requires Explained(cfg, chances, tries, e)
    ensures Explained(cfg, chances, tries + more, e)
  {
    hide HandledBy, DuplicateBy;
    var all := tries + more;
    match e.how {
      case Handled =>
        var k :| 0 <= k < |tries| && tries[k].id == e.id && HandledBy(cfg, chances, tries[k]);
        assert all[k] == tries[k];
      case Duplicate =>
        var k :| 0 <= k < |tries| && tries[k].id == e.id && DuplicateBy(cfg, chances, tries[k]);
        assert all[k] == tries[k];
      case GivenUp =>
        var j: nat :| AllFailed(cfg, tries, e.id, j);
        assert AllFailed(cfg, all, e.id, j);
      case Unrouted =>
    }
  }

  /** One settling transaction adds at most its own entry to the log, exactly if it lands, and takes nothing away. */
  lemma SettleAdds(chances: Chances, st: State, id: int, how: How, failures: nat)
    ensures var (st', settled) := Settle(chances, st, id, how, failures);
            && st'.tries == st.tries && st'.pos == st.pos + 1
            && st'.db.log == (if Landed(chances(st.pos)) then st.db.log + [Settlement(id, how)] else st.db.log)
            && (settled <==> Landed(chances(st.pos)) && chances(st.pos).end == Lands)
            && forall x :: x in st.db.effects ==> x in st'.db.effects
  {
  }

  /** One attempt adds its own record, and exactly the entry its luck accounts for. */
  lemma AttemptAdds(cfg: Config, chances: Chances, st: State, id: int, a: nat)
    ensures var (st', settled) := Attempt(cfg, chances, st, id, a);
            var t := Try(id, a, st.pos, id in st.db.effects, settled);
            && st'.tries == st.tries + [t] && st.pos < st'.pos
            && st'.db.log == st.db.log + (if HandledBy(cfg, chances, t) then [Settlement(id, Handled)]
                                          else if DuplicateBy(cfg, chances, t) then [Settlement(id, Duplicate)] else [])
            && (settled <==> Heard(cfg, chances, t))
            && forall x :: x in st.db.effects ==> x in st'.db.effects
  {
    hide Settle, Landed;
    SettleAdds(chances, st, id, Handled, 0);
    SettleAdds(chances, st.(pos := st.pos + 1), id, Duplicate, 0);
    assert !chances(st.pos).begins ==> !Landed(chances(st.pos)) by { NotBegun(chances(st.pos)); }
  }

  lemma AttemptIsOk(cfg: Config, chances: Chances, st: State, id: int, a: nat)
    ensures var (st', settled) := Attempt(cfg, chances, st, id, a);
            TryOk(cfg, chances, st'.db, Try(id, a, st.pos, id in st.db.effects, settled))
  {
    hide Attempt, HandledBy, DuplicateBy, Heard;
    AttemptAdds(cfg, chances, st, id, a);
    var t := Try(id, a, st.pos, id in st.db.effects, Attempt(cfg, chances, st, id, a).1);
    assert HandledBy(cfg, chances, t) ==> !DuplicateBy(cfg, chances, t) by { OneWayOnly(cfg, chances, t); }
  }

  lemma NotBegun(luck: Luck)
    ensures !luck.begins ==> !Landed(luck)
  {
  }

  /** An attempt that erred, panicked or did not begin leaves what is stored as it was. */
  lemma FailedAttemptSettlesNothing(cfg: Config, chances: Chances, st: State, id: int, a: nat)
    requires !chances(st.pos).begins || chances(st.pos).handling in {Erred, Panicked}
    ensures Attempt(cfg, chances, st, id, a).0.db == st.db && !Attempt(cfg, chances, st, id, a).1
  {
  }

  lemma TryStillOk(cfg: Config, chances: Chances, db: Db, db': Db, t: Try)
    requires TryOk(cfg, chances, db, t)
    requires (forall e :: e in db.log ==> e in db'.log) && forall x :: x in db.effects ==> x in db'.effects
    ensures TryOk(cfg, chances, db', t)
  {
    hide HandledBy, DuplicateBy;
  }

  /** What explained the old log explains it still, however more is attempted and logged. */
  lemma TracedStill(cfg: Config, chances: Chances, st: State, st': State, more: seq<Try>, logged: seq<Settlement>)
    requires Traced(cfg, chances, st) && st.pos <= st'.pos
    requires st'.tries == st.tries + more && st'.db.log == st.db.log + logged
    requires forall x :: x in st.db.effects ==> x in st'.db.effects
    requires forall k :: 0 <= k < |logged| ==> Explained(cfg, chances, st'.tries, logged[k])
    requires forall k :: 0 <= k < |more| ==> TryOk(cfg, chances, st'.db, more[k]) && st.pos <= more[k].at < st'.pos
    requires forall j, k :: 0 <= j < k < |more| ==> more[j].at < more[k].at
    ensures Traced(cfg, chances, st')
  {
    hide Explained, TryOk;
    forall k | 0 <= k < |st'.db.log|
      ensures Explained(cfg, chances, st'.tries, st'.db.log[k])
    {
      if k < |st.db.log| { ExplainedStill(cfg, chances, st.tries, more, st.db.log[k]); }
    }
    forall k | 0 <= k < |st'.tries|
      ensures TryOk(cfg, chances, st'.db, st'.tries[k])
    {
      if k < |st.tries| { TryStillOk(cfg, chances, st.db, st'.db, st.tries[k]); }
    }
  }

  lemma AttemptTraced(cfg: Config, chances: Chances, st: State, id: int, a: nat)
    requires Traced(cfg, chances, st)
    ensures Traced(cfg, chances, Attempt(cfg, chances, st, id, a).0)
  {
    hide Traced, Attempt, HandledBy, DuplicateBy, Heard, TryOk;
    AttemptIsOk(cfg, chances, st, id, a);
    AttemptAdds(cfg, chances, st, id, a);
    var (st', settled) := Attempt(cfg, chances, st, id, a);
    var t := Try(id, a, st.pos, id in st.db.effects, settled);
    var logged := if HandledBy(cfg, chances, t) then [Settlement(id, Handled)]
                  else if DuplicateBy(cfg, chances, t) then [Settlement(id, Duplicate)] else [];
    assert st'.tries[|st.tries|] == t;
    assert HandledBy(cfg, chances, t) ==> !DuplicateBy(cfg, chances, t) by { OneWayOnly(cfg, chances, t); }
    TracedStill(cfg, chances, st, st', [t], logged);
  }

  lemma OneWayOnly(cfg: Config, chances: Chances, t: Try)
    ensures HandledBy(cfg, chances, t) ==> !DuplicateBy(cfg, chances, t)
  {
  }

  lemma SettleTraced(cfg: Config, chances: Chances, st: State, id: int, how: How, failures: nat)
    requires Traced(cfg, chances, st) && Explained(cfg, chances, st.tries, Settlement(id, how))
    ensures Traced(cfg, chances, Settle(chances, st, id, how, failures).0)
  {
    hide Traced, Settle, Explained;
    SettleAdds(chances, st, id, how, failures);
    var st' := Settle(chances, st, id, how, failures).0;
    TracedStill(cfg, chances, st, st', [], if Landed(chances(st.pos)) then [Settlement(id, how)] else []);
  }

  /** The last a attempts are the first a at id, and none of them heard a settlement. */
  ghost predicate FailedSoFar(tries: seq<Try>, id: int, a: nat) {
    && a <= |tries|
    && forall k :: |tries| - a <= k < |tries| ==> tries[k].id == id && tries[k].attempt == k - (|tries| - a) && !tries[k].settled
  }

  lemma {:induction false} AttemptsTraced(cfg: Config, chances: Chances, st: State, id: int, a: nat)
    requires Traced(cfg, chances, st) && a <= cfg.maxAttempts && FailedSoFar(st.tries, id, a)
    ensures Traced(cfg, chances, Attempts(cfg, chances, st, id, a).0)
    decreases cfg.maxAttempts - a
  {
    hide Traced, Attempt, Settle, HandledBy, DuplicateBy;
    if a == cfg.maxAttempts {
      assert AllFailed(cfg, st.tries, id, |st.tries| - a);
      SettleTraced(cfg, chances, st, id, GivenUp, cfg.maxAttempts);
    } else {
      AttemptTraced(cfg, chances, st, id, a);
      AttemptAdds(cfg, chances, st, id, a);
      var (st', settled) := Attempt(cfg, chances, st, id, a);
      if !settled { AttemptsTraced(cfg, chances, st', id, a + 1); }
    }
  }

  lemma ProcessTraced(cfg: Config, chances: Chances, st: State, u: Update)
    requires Traced(cfg, chances, st)
    ensures Traced(cfg, chances, Process(cfg, chances, st, u).0)
  {
    hide Traced, Settle, Attempts;
    if !u.wellFormed || !u.routed {
      SettleTraced(cfg, chances, st, u.id, Unrouted, 0);
    } else {
      AttemptsTraced(cfg, chances, st, u.id, 0);
    }
  }

  /** Some fetched update of that id is settled so: unrouted exactly if it is malformed or has no route. */
  ghost predicate Asked(polls: seq<Poll>, e: Settlement) {
    exists i, j :: Asks(polls, i, j, e)
  }

  ghost predicate Asks(polls: seq<Poll>, i: int, j: int, e: Settlement) {
    && 0 <= i < |polls| && polls[i].Fetched? && 0 <= j < |polls[i].batch|
    && var u := polls[i].batch[j];
       u.id == e.id && (e.how == Unrouted <==> !u.wellFormed || !u.routed)
  }

  ghost predicate AllAsked(polls: seq<Poll>, log: seq<Settlement>) {
    forall k :: 0 <= k < |log| ==> Asked(polls, log[k])
  }

  /** db's log is db0's and then only entries the update asks for. */
  ghost predicate OnlyAsks(db0: Db, db: Db, u: Update) {
    && |db0.log| <= |db.log| && db.log[..|db0.log|] == db0.log
    && forall k :: |db0.log| <= k < |db.log| ==> db.log[k].id == u.id && (db.log[k].how == Unrouted <==> !u.wellFormed || !u.routed)
  }

  lemma {:induction false} AttemptsAsk(cfg: Config, chances: Chances, st: State, u: Update, a: nat)
    requires u.wellFormed && u.routed
    ensures OnlyAsks(st.db, Attempts(cfg, chances, st, u.id, a).0.db, u)
    decreases cfg.maxAttempts - a
  {
    hide Attempt, Settle, HandledBy, DuplicateBy;
    if a >= cfg.maxAttempts {
      SettleAdds(chances, st, u.id, GivenUp, cfg.maxAttempts);
    } else {
      AttemptAdds(cfg, chances, st, u.id, a);
      var (st', settled) := Attempt(cfg, chances, st, u.id, a);
      AttemptsAsk(cfg, chances, st', u, a + 1);
      AsksTransitive(st.db, st'.db, Attempts(cfg, chances, st', u.id, a + 1).0.db, u);
    }
  }

  lemma AsksTransitive(a: Db, b: Db, c: Db, u: Update)
    requires OnlyAsks(a, b, u) && OnlyAsks(b, c, u)
    ensures OnlyAsks(a, c, u)
  {
    assert c.log[..|a.log|] == c.log[..|b.log|][..|a.log|];
    forall k | |a.log| <= k < |c.log|
      ensures c.log[k].id == u.id && (c.log[k].how == Unrouted <==> !u.wellFormed || !u.routed)
    {
      if k < |b.log| { assert c.log[k] == c.log[..|b.log|][k] == b.log[k]; }
    }
  }

  lemma ProcessAsks(cfg: Config, chances: Chances, st: State, u: Update)
    ensures OnlyAsks(st.db, Process(cfg, chances, st, u).0.db, u)
  {
    hide Settle, Attempts;
    if !u.wellFormed || !u.routed {
      SettleAdds(chances, st, u.id, Unrouted, 0);
    } else {
      AttemptsAsk(cfg, chances, st, u, 0);
    }
  }

  lemma AskedAfter(polls: seq<Poll>, i: nat, j: nat, db0: Db, db: Db)
    requires AllAsked(polls, db0.log) && i < |polls| && polls[i].Fetched? && j < |polls[i].batch| && OnlyAsks(db0, db, polls[i].batch[j])
    ensures AllAsked(polls, db.log)
  {
    forall k | 0 <= k < |db.log|
      ensures Asked(polls, db.log[k])
    {
      if k < |db0.log| {
        assert db.log[k] == db.log[..|db0.log|][k] == db0.log[k];
      } else {
        assert Asks(polls, i, j, db.log[k]);
      }
    }
  }

  lemma {:induction false} BatchTraced(cfg: Config, chances: Chances, st: State, polls: seq<Poll>, i: nat, j: nat)
    requires Traced(cfg, chances, st) && AllAsked(polls, st.db.log)
    requires i < |polls| && polls[i].Fetched? && j <= |polls[i].batch|
    ensures var st' := ProcessFrom(cfg, chances, st, polls[i].batch, j).0;
            Traced(cfg, chances, st') && AllAsked(polls, st'.db.log)
    decreases |polls[i].batch| - j
  {
    hide Traced, AllAsked, Process, OnlyAsks;
    var batch := polls[i].batch;
    if j < |batch| {
      ProcessTraced(cfg, chances, st, batch[j]);
      ProcessAsks(cfg, chances, st, batch[j]);
      var (st', settled) := Process(cfg, chances, st, batch[j]);
      AskedAfter(polls, i, j, st.db, st'.db);
      if settled { BatchTraced(cfg, chances, st', polls, i, j + 1); }
    }
  }

  lemma {:induction false} RunTraced(cfg: Config, chances: Chances, worlds: seq<World>, polls: seq<Poll>, i: nat)
    requires IsRun(cfg, chances, worlds, polls) && i < |worlds|
    ensures Traced(cfg, chances, worlds[i].st) && AllAsked(polls, worlds[i].st.db.log)
    decreases i
  {
    hide Traced, AllAsked;
    if i == 0 {
      StartTraced(cfg, chances, polls);
    } else {
      RunTraced(cfg, chances, worlds, polls, i - 1);
      var w, p := worlds[i - 1], polls[i - 1];
      assert PollStep(cfg, chances, w, p, worlds[i]);
      if p.Fetched? { BatchTraced(cfg, chances, w.st, polls, i - 1, 0); }
    }
  }

  lemma StartTraced(cfg: Config, chances: Chances, polls: seq<Poll>)
    ensures Traced(cfg, chances, START) && AllAsked(polls, START.db.log)
  {
  }

  /**
   In every run, whatever fails, each settlement is the one its attempts account
   for: handled only by an attempt whose handler was done and whose commit
   landed; duplicate only by one answered AlreadyPosted, or whose effects were
   in; given up only after exactly the configured number of attempts, none of
   which heard a settlement; unrouted exactly for updates malformed or without a
   route. And every attempt heard a settlement exactly if one of its own landed
   and said so.
   */
  lemma RunSettlesAsAttempted(cfg: Config, chances: Chances, worlds: seq<World>, polls: seq<Poll>, i: nat, k: nat)
    requires IsRun(cfg, chances, worlds, polls) && i < |worlds| && k < |worlds[i].st.db.log|
    ensures var tries, e := worlds[i].st.tries, worlds[i].st.db.log[k];
            && (e.how == Handled ==> exists x :: 0 <= x < |tries| && tries[x].id == e.id && HandledBy(cfg, chances, tries[x]))
            && (e.how == Duplicate ==> exists x :: 0 <= x < |tries| && tries[x].id == e.id && DuplicateBy(cfg, chances, tries[x]))
            && (e.how == GivenUp ==> exists j: nat :: AllFailed(cfg, tries, e.id, j))
            && Asked(polls, e)
            && forall x :: 0 <= x < |tries| ==> TryOk(cfg, chances, worlds[i].st.db, tries[x])
  {
    hide IsRun, HandledBy, DuplicateBy, AllFailed, TryOk, Asked;
    RunTraced(cfg, chances, worlds, polls, i);
    assert Explained(cfg, chances, worlds[i].st.tries, worlds[i].st.db.log[k]);
  }

  // ---------- Exactly when ----------

  /** Every transaction ends in one of the ways allowed. */
  ghost predicate EndsWithin(chances: Chances, ends: set<TxEnd>) {
    forall p :: chances(p).end in ends
  }

  ghost predicate BreaksIn(cfg: Config, ends: set<TxEnd>, chances: Chances, worlds: seq<World>, polls: seq<Poll>, i: nat) {
    EndsWithin(chances, ends) && IsRun(cfg, chances, worlds, polls) && i < |worlds| && !ExactlyOnce(cfg, worlds[i].st.db)
  }

  /** The first attempt's handler is done, the other attempts do not begin, and every commit lands unheard. */
  function Unheard(n: nat): Chances {
    (p: nat) => Luck(p == 0 || n <= p, Done, true, LandsUnheard, false)
  }

  lemma {:induction false} FailingAttempts(cfg: Config, st: State, id: int, a: nat)
    requires st.pos == a && 1 <= a <= cfg.maxAttempts
    ensures Attempts(cfg, Unheard(cfg.maxAttempts), st, id, a).0.db == Marked(st.db, id, GivenUp, cfg.maxAttempts)
    decreases cfg.maxAttempts - a
  {
    if a < cfg.maxAttempts { FailingAttempts(cfg, Attempt(cfg, Unheard(cfg.maxAttempts), st, id, a).0, id, a + 1); }
  }

  /** What such luck makes of one update: handled, its effects in, and given up, a dead row written. */
  lemma UnheardProcess(cfg: Config, id: int)
    requires 1 <= cfg.maxAttempts && 0 <= id
    ensures var db := Process(cfg, Unheard(cfg.maxAttempts), START, Update(id, true, true)).0.db;
            && db.log == [Settlement(id, Handled), Settlement(id, GivenUp)]
            && db.effects == [id] && db.dead == [DeadRow(id, cfg.maxAttempts)] && !ExactlyOnce(cfg, db)
  {
    var chances := Unheard(cfg.maxAttempts);
    var first := State(Marked(FRESH, id, Handled, 0), 1, [Try(id, 0, 0, false, false)]);
    var (st, settled) := Attempt(cfg, chances, START, id, 0);
    assert !settled && st.tries == first.tries && st == first;
    FailingAttempts(cfg, first, id, 1);
    var db := Process(cfg, chances, START, Update(id, true, true)).0.db;
    assert db.log[0].id == db.log[1].id;
  }

  /**
   A commit that lands unheard, followed by attempts that cannot begin, leaves one
   update both handled and given up, even for idempotent handlers: a run of a
   single poll, for every number of attempts.
   */
  lemma UnheardCommitSettlesTwice(cfg: Config, id: int) returns (chances: Chances, worlds: seq<World>, polls: seq<Poll>)
    requires 1 <= cfg.maxAttempts && 0 <= id
    ensures IsRun(cfg, chances, worlds, polls) && |polls| == 1 && EndsWithin(chances, {LandsUnheard})
    ensures var db := worlds[1].st.db;
            && db.log == [Settlement(id, Handled), Settlement(id, GivenUp)]
            && db.effects == [id] && db.dead == [DeadRow(id, cfg.maxAttempts)] && !ExactlyOnce(cfg, db)
  {
    hide ExactlyOnce, Process;
    UnheardProcess(cfg, id);
    chances := Unheard(cfg.maxAttempts);
    var batch, st := [Update(id, true, true)], START;
    var (st', n) := ProcessFrom(cfg, chances, st, batch, 0);
    OneUpdate(cfg, chances, st, batch);
    polls := [Fetched(batch, {id})];
    worlds := [World(st, {}), World(st', {id})];
    assert Lists(batch, id) by { assert batch[0].id == id; }
  }

  lemma OneUpdate(cfg: Config, chances: Chances, st: State, batch: seq<Update>)
    requires |batch| == 1
    ensures ProcessFrom(cfg, chances, st, batch, 0).0 == Process(cfg, chances, st, batch[0]).0
  {
    hide Process;
    var (st', settled) := Process(cfg, chances, st, batch[0]);
    if settled { assert ProcessFrom(cfg, chances, st', batch, 1) == (st', 1); }
  }

  /**
   Of the ways a transaction may end, every run settles every update exactly one
   way if and only if landing unheard is not among them.
   */
  lemma SettlesOnceExactlyWhenHeard(cfg: Config, ends: set<TxEnd>)
    requires 1 <= cfg.maxAttempts
    ensures LandsUnheard !in ends <==> forall chances, worlds, polls, i :: !BreaksIn(cfg, ends, chances, worlds, polls, i)
  {
    hide ExactlyOnce, IsRun;
    if LandsUnheard !in ends {
      forall chances, worlds, polls, i: nat
        ensures !BreaksIn(cfg, ends, chances, worlds, polls, i)
      {
        if EndsWithin(chances, ends) && IsRun(cfg, chances, worlds, polls) && i < |worlds| {
          assert Truthful(chances);
          RunSettlesOnce(cfg, chances, worlds, polls, i);
        }
      }
    } else {
      var chances, worlds, polls := UnheardCommitSettlesTwice(cfg, 0);
      assert |worlds| == 2 by { RunLength(cfg, chances, worlds, polls); }
      assert EndsWithin(chances, ends);
      assert BreaksIn(cfg, ends, chances, worlds, polls, 1);
    }
  }

  lemma RunLength(cfg: Config, chances: Chances, worlds: seq<World>, polls: seq<Poll>)
    requires IsRun(cfg, chances, worlds, polls)
    ensures |worlds| == |polls| + 1
  {
  }
}
