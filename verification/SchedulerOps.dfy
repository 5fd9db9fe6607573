/** One worker over the task table: discovery, execution, drains, and what start-up does to the rows. */
module SchedulerOps {
  import opened Cadences
  import opened Schedulers

  /** A stored row; an empty key stands for none. */
  datatype Task = Task(typ: string, key: string, row: Row)

  datatype PendingSettlement = PendingSettlement(attempt: Attempt, kind: Kind)

  datatype Claimed = Claimed(attempt: Attempt) | Skipped

  /** What becomes of one execution: the handler's result, and how its transaction ends. */
  datatype HandlerResult = Succeeded | Returned | Panicked(rollbackFails: bool) | ReleaseFailed | DeadlineBreached

  datatype CommitEnd = Landed | NotLanded | LandedUnheard

  datatype Execution = Execution(result: HandlerResult, settles: bool, end: CommitEnd, s: int, delay: int)

  type Tasks = map<int, Task>

  function RowOf(tasks: Tasks, id: int): Row {
    if id in tasks then tasks[id].row else Gone
  }

  function Put(tasks: Tasks, id: int, row: Row): Tasks
    requires id in tasks
  {
    if row.Gone? then tasks - {id} else tasks[id := tasks[id].(row := row)]
  }

  predicate Due(tasks: Tasks, locked: set<int>, id: int, now: int) {
    id in tasks && tasks[id].row.Pending? && tasks[id].row.runAt <= now && id !in locked
  }

  /** The discovery order: by run_at, then by id. */
  predicate Before(tasks: Tasks, a: int, b: int) {
    && RowOf(tasks, a).Pending? && RowOf(tasks, b).Pending?
    && (tasks[a].row.runAt < tasks[b].row.runAt || (tasks[a].row.runAt == tasks[b].row.runAt && a < b))
  }

  /** No two pending rows share a type and a key. */
  ghost predicate KeysUnique(tasks: Tasks) {
    forall a, b :: a in tasks && b in tasks && a != b && tasks[a].row.Pending? && tasks[b].row.Pending? && tasks[a].key != "" ==>
      !(tasks[a].typ == tasks[b].typ && tasks[a].key == tasks[b].key)
  }

  ghost predicate TasksOk(tasks: Tasks) {
    KeysUnique(tasks) && forall id :: id in tasks ==> !tasks[id].row.Gone?
  }

  /** The handler's result, as a settlement outcome. */
  function OutcomeOf(result: HandlerResult): Outcome {
    if result.Succeeded? then Done else Failed
  }

  /** The executions that never reach their settlement: the deadline breached, the connection lost to a panic, or a statement failed. */
  predicate Unsettled(x: Execution) {
    x.result.DeadlineBreached? || x.result == Panicked(true) || !x.settles
  }

  /** The deferred statement's effect on one row. */
  function Drained(cfg: Config, row: Row, p: PendingSettlement, free: bool, s: int, delay: int): Row
    requires ConfigOk(ConfigFor(cfg, p.kind))
  {
    if row.Pending? && row.runAt == p.attempt.runAt && free then Settled(ConfigFor(cfg, p.kind), p.attempt, Failed, s, delay) else row
  }

  // ---------- What a settlement leaves in the table, field by field ----------

  /** One more failure: a one-shot backs off, or is dead at the limit; a recurrence comes round again. */
  predicate CountsFailure(row: Row, kind: Kind, maxAttempts: nat, a: Attempt, s: int, delay: int)
    requires kind.Recurrent? ==> kind.period > 0
  {
    match kind
    case OneShot => row == if a.failures + 1 < maxAttempts then Pending(s + delay, a.failures + 1) else Dead(a.failures + 1)
    case Recurrent(period) => row.Pending? && IsNextAfter(row.runAt, period, a.runAt, s) && row.failures == a.failures + 1
  }

  /** The failures forgotten: a one-shot is gone; a recurrence comes round again. */
  predicate ClearsFailures(row: Row, kind: Kind, a: Attempt, s: int)
    requires kind.Recurrent? ==> kind.period > 0
  {
    match kind
    case OneShot => row == Gone
    case Recurrent(period) => row.Pending? && IsNextAfter(row.runAt, period, a.runAt, s) && row.failures == 0
  }

  /** What Settled writes is that. */
  lemma SettledCounts(cfg: Config, a: Attempt, s: int, delay: int)
    requires ConfigOk(cfg)
    ensures ClearsFailures(Settled(cfg, a, Done, s, delay), cfg.kind, a, s)
    ensures CountsFailure(Settled(cfg, a, Failed, s, delay), cfg.kind, cfg.maxAttempts, a, s, delay)
    ensures Settled(cfg, a, Unregistered, s, delay) == Pending(s + cfg.ceiling, a.failures)
  {
    hide Every, IsNextAfter;
    if cfg.kind.Recurrent? { EveryIsNextAfter(cfg.kind.period, a.runAt, s); }
  }

  method AnyOf(s: set<int>) returns (x: int)
    requires s != {}
    ensures x in s
  {
    Inhabited(s);
    x :| x in s;
  }

  lemma Inhabited(s: set<int>)
    ensures s == {} || exists y :: y in s
  {
    if forall y :: y !in s { assert s == {}; }
  }

  class Worker {
    const cfg: Config
    const registry: map<string, Kind>
    /** Rows locked by other transactions. */
    const locked: set<int>
    var clock: int
    var tasks: Tasks
    var pending: map<int, PendingSettlement>
    var nextId: int

    ghost predicate Valid()
      reads this
    {
      && ConfigOk(cfg) && (forall t :: t in registry ==> ConfigOk(ConfigFor(cfg, registry[t])))
      && TasksOk(tasks) && (forall id :: id in tasks ==> id < nextId)
      && forall id :: id in pending ==> ConfigOk(ConfigFor(cfg, pending[id].kind))
    }

    /** discoverDue: the earliest due rows not being executed, at most limit of them, in order. */
    method DiscoverDue(limit: nat) returns (ids: seq<int>)
      ensures |ids| <= limit && forall k :: 0 <= k < |ids| ==> Due(tasks, locked, ids[k], clock)
      ensures forall j, k :: 0 <= j < k < |ids| ==> Before(tasks, ids[j], ids[k])
      ensures forall id :: Due(tasks, locked, id, clock) && id !in ids ==>
                |ids| == limit && forall k :: 0 <= k < |ids| ==> Before(tasks, ids[k], id)
      ensures forall k :: 0 <= k < |ids| ==> ids[k] in tasks && ids[k] !in locked && tasks[ids[k]].row.Pending? && tasks[ids[k]].row.runAt <= clock
      ensures forall j, k :: 0 <= j < k < |ids| ==> tasks[ids[j]].row.runAt <= tasks[ids[k]].row.runAt
      ensures forall id, k :: id in tasks && id !in locked && tasks[id].row.Pending? && tasks[id].row.runAt <= clock && id !in ids && 0 <= k < |ids| ==>
                tasks[ids[k]].row.runAt <= tasks[id].row.runAt
    {
      var left := set id | id in tasks && Due(tasks, locked, id, clock);
      ids := [];
      while left != {} && |ids| < limit
        invariant |ids| <= limit
        invariant forall id :: id in left ==> Due(tasks, locked, id, clock)
        invariant forall k :: 0 <= k < |ids| ==> Due(tasks, locked, ids[k], clock)
        invariant forall id :: Due(tasks, locked, id, clock) ==> id in left || id in ids
        invariant forall j, k :: 0 <= j < k < |ids| ==> Before(tasks, ids[j], ids[k])
        invariant forall id, k :: id in left && 0 <= k < |ids| ==> Before(tasks, ids[k], id)
        decreases left
      {
        var first := EarliestOf(left);
        left := left - {first};
        ids := ids + [first];
      }
    }

    method EarliestOf(left: set<int>) returns (first: int)
      requires left != {} && forall id :: id in left ==> Due(tasks, locked, id, clock)
      ensures first in left && forall id :: id in left && id != first ==> Before(tasks, first, id)
    {
      first := AnyOf(left);
      var rest := left - {first};
      while rest != {}
        invariant first in left && first !in rest && rest <= left
        invariant forall id :: id in left && id !in rest && id != first ==> Before(tasks, first, id)
        decreases rest
      {
        var id := AnyOf(rest);
        rest := rest - {id};
        if Before(tasks, id, first) {
          first := id;
        }
      }
    }

    /** reclaim: the row, if it is still due and no one else has it. */
    method Reclaim(id: int) returns (res: Claimed)
      ensures res.Claimed? <==> Due(tasks, locked, id, clock)
      ensures res.Claimed? ==> res.attempt == Attempt(tasks[id].row.runAt, tasks[id].row.failures, res.attempt.epoch, clock)
    {
      if id !in tasks || !tasks[id].row.Pending? || clock < tasks[id].row.runAt || id in locked {
        return Skipped;
      }
      return Claimed(Attempt(tasks[id].row.runAt, tasks[id].row.failures, 0, clock));
    }

    method SettleUnregistered(id: int, a: Attempt, s: int)
      requires id in tasks && tasks[id].row == Pending(a.runAt, a.failures) && ConfigOk(cfg)
      modifies this`tasks
      ensures tasks == Put(old(tasks), id, Settled(cfg, a, Unregistered, s, 1))
    {
      tasks := tasks[id := tasks[id].(row := tasks[id].row.(runAt := s + cfg.ceiling))];
    }

    method SettleDoneOrNoop(id: int, a: Attempt, kind: Kind, s: int)
      requires id in tasks && tasks[id].row == Pending(a.runAt, a.failures) && ConfigOk(ConfigFor(cfg, kind))
      modifies this`tasks
      ensures tasks == Put(old(tasks), id, Settled(ConfigFor(cfg, kind), a, Done, s, 1))
    {
      if kind.OneShot? {
        tasks := tasks - {id};
        return;
      }
      tasks := tasks[id := tasks[id].(row := Pending(Every(kind.period, a.runAt, s), 0))];
    }

    method SettleFailed(id: int, a: Attempt, kind: Kind, s: int, delay: int)
      requires id in tasks && tasks[id].row == Pending(a.runAt, a.failures) && ConfigOk(ConfigFor(cfg, kind))
      modifies this`tasks
      ensures tasks == Put(old(tasks), id, Settled(ConfigFor(cfg, kind), a, Failed, s, delay))
    {
      var k := a.failures + 1;
      if kind.OneShot? {
        if k >= cfg.maxAttempts {
          tasks := tasks[id := tasks[id].(row := Dead(k))];
          return;
        }
        tasks := tasks[id := tasks[id].(row := Pending(s + delay, k))];
        return;
      }
      tasks := tasks[id := tasks[id].(row := Pending(Every(kind.period, a.runAt, s), k))];
    }

    /**
     executeOne: an unclaimed row is skipped; a claimed one is settled exactly as
     its handler's result says, or left exactly as it was. The attempt is handed
     to a later drain exactly when its own settlement was not heard to land.
     */
    method ExecuteOne(id: int, x: Execution) returns (claimed: Claimed)
      requires Valid() && clock <= x.s && 0 < x.delay <= cfg.ceiling
      modifies this`tasks, this`pending
      ensures Valid()
      ensures claimed.Claimed? <==> Due(old(tasks), locked, id, clock)
      ensures claimed.Skipped? ==> tasks == old(tasks) && pending == old(pending)
      ensures claimed.Claimed? && old(tasks)[id].typ !in registry ==>
                && pending == old(pending)
                && tasks == if x.settles && x.end != NotLanded
                            then Put(old(tasks), id, Settled(cfg, claimed.attempt, Unregistered, x.s, 1)) else old(tasks)
      ensures claimed.Claimed? && old(tasks)[id].typ in registry ==>
                var kind := registry[old(tasks)[id].typ];
                && tasks == (if !Unsettled(x) && x.end != NotLanded
                             then Put(old(tasks), id, Settled(ConfigFor(cfg, kind), claimed.attempt, OutcomeOf(x.result), x.s, x.delay))
                             else old(tasks))
                && pending == if x.result.DeadlineBreached? || x.result == Panicked(true) || (x.settles && x.end != Landed)
                              then old(pending)[id := PendingSettlement(claimed.attempt, kind)] else old(pending)
      ensures forall other :: other != id ==> (other in tasks <==> other in old(tasks)) && (other in tasks ==> tasks[other] == old(tasks)[other])
      ensures id in tasks ==> id in old(tasks) && tasks[id] == old(tasks)[id].(row := tasks[id].row)
      ensures claimed.Claimed? && old(tasks)[id].typ !in registry && x.settles && x.end != NotLanded ==>
                RowOf(tasks, id) == Pending(x.s + cfg.ceiling, old(tasks)[id].row.failures)
      ensures claimed.Claimed? && old(tasks)[id].typ in registry ==>
                var kind, was := registry[old(tasks)[id].typ], Attempt(old(tasks)[id].row.runAt, old(tasks)[id].row.failures, 0, old(clock));
                if Unsettled(x) || x.end == NotLanded
                then id in tasks && tasks[id].row == old(tasks)[id].row
                else if x.result.Succeeded? then ClearsFailures(RowOf(tasks, id), kind, was, x.s)
                else CountsFailure(RowOf(tasks, id), kind, cfg.maxAttempts, was, x.s, x.delay)
    {
      hide Settled, IsNextAfter;
      claimed := Reclaim(id);
      if claimed.Skipped? {
        return;
      }
      var task := claimed.attempt;
      var before := tasks;
      if tasks[id].typ !in registry {
        if x.settles {
          SettleUnregistered(id, task, x.s);
          PutKeepsOk(cfg, before, id, task, Unregistered, x.s, 1);
          SettledCounts(cfg, task, x.s, 1);
        }
        if !x.settles || x.end == NotLanded {
          tasks := before;
        }
        return;
      }
      var kind := registry[tasks[id].typ];
      if x.result.DeadlineBreached? || x.result == Panicked(true) {
        pending := pending[id := PendingSettlement(task, kind)];
        return;
      }
      if !x.settles {
        return;
      }
      if x.result.Succeeded? {
        SettleDoneOrNoop(id, task, kind, x.s);
        DoneIgnoresDelay(ConfigFor(cfg, kind), task, x.s, x.delay);
      } else {
        SettleFailed(id, task, kind, x.s, x.delay);
      }
      PutKeepsOk(ConfigFor(cfg, kind), before, id, task, OutcomeOf(x.result), x.s, x.delay);
      SettledCounts(ConfigFor(cfg, kind), task, x.s, x.delay);
      if x.end == Landed {
        return;
      }
      if x.end == NotLanded {
        tasks := before;
      }
      pending := pending[id := PendingSettlement(task, kind)];
    }

    /** drainOne: the guarded statement, then the probe; whether to drop the entry. */
    method DrainOne(id: int, p: PendingSettlement, s: int, delay: int) returns (drop: bool)
      requires ConfigOk(ConfigFor(cfg, p.kind)) && forall x :: x in tasks ==> !tasks[x].row.Gone?
      modifies this`tasks
      ensures id in old(tasks) ==> tasks == Put(old(tasks), id, Drained(cfg, old(tasks)[id].row, p, id !in locked, s, delay))
      ensures id !in old(tasks) ==> tasks == old(tasks)
      ensures id in old(tasks) && id !in locked && AtClaim(old(tasks)[id].row, p) ==>
                CountsFailure(RowOf(tasks, id), p.kind, cfg.maxAttempts, p.attempt, s, delay)
      ensures id in locked || !AtClaim(RowOf(old(tasks), id), p) ==> tasks == old(tasks)
      ensures !drop <==> id in old(tasks) && id in locked && old(tasks)[id].row.Pending? && old(tasks)[id].row.runAt == p.attempt.runAt
    {
      var matches := id in tasks && tasks[id].row.Pending? && tasks[id].row.runAt == p.attempt.runAt;
      if !matches {
        return true;
      }
      if id in locked {
        return false;
      }
      SettledCounts(ConfigFor(cfg, p.kind), p.attempt, s, delay);
      var row := Settled(ConfigFor(cfg, p.kind), p.attempt, Failed, s, delay);
      tasks := tasks[id := tasks[id].(row := row)];
      return true;
    }

    /**
     drainPending: every pending settlement is applied to a row still where it was
     claimed, kept while that row is locked, and dropped once the row has moved on;
     all at one instant, and no other row is touched.
     */
    method DrainPending(s: int, delay: int -> int)
      requires Valid() && forall id :: 0 < delay(id)
      requires forall id :: id in pending ==> pending[id].attempt.at <= s
      modifies this`tasks, this`pending
      ensures TasksOk(tasks) && tasks.Keys == old(tasks).Keys
      ensures forall id :: id in old(pending) && id in old(tasks) ==>
                tasks[id] == old(tasks)[id].(row := Drained(cfg, old(tasks)[id].row, old(pending)[id], id !in locked, s, delay(id)))
      ensures forall id :: id !in old(pending) && id in old(tasks) ==> tasks[id] == old(tasks)[id]
      ensures forall id :: id in old(pending) && id in old(tasks) ==>
                if id !in locked && AtClaim(old(tasks)[id].row, old(pending)[id])
                then CountsFailure(tasks[id].row, old(pending)[id].kind, cfg.maxAttempts, old(pending)[id].attempt, s, delay(id))
                else tasks[id] == old(tasks)[id]
      ensures forall id :: id in pending <==> id in old(pending) && id in locked && AtClaim(RowOf(old(tasks), id), old(pending)[id])
      ensures forall id :: id in pending ==> pending[id] == old(pending)[id]
    {
      hide Settled, KeysUnique, Drained, TasksOk, AtClaim, CountsFailure;
      var items := pending;
      var left := pending.Keys;
      while left != {}
        invariant left <= items.Keys && TasksOk(tasks) && tasks.Keys == old(tasks).Keys
        invariant forall id :: id in old(tasks) && (id in left || id !in items) ==> tasks[id] == old(tasks)[id]
        invariant forall id :: id in old(tasks) && id in items && id !in left ==>
                    tasks[id] == old(tasks)[id].(row := Drained(cfg, old(tasks)[id].row, items[id], id !in locked, s, delay(id)))
        invariant forall id :: id in pending <==> id in left || (id in items && id in locked && AtClaim(RowOf(old(tasks), id), items[id]))
        invariant forall id :: id in pending ==> pending[id] == items[id]
        decreases left
      {
        var id := AnyOf(left);
        left := left - {id};
        DrainEntry(id, items[id], s, delay(id));
      }
      forall id | id in items && id in tasks
        ensures if id !in locked && AtClaim(old(tasks)[id].row, items[id])
                then CountsFailure(tasks[id].row, items[id].kind, cfg.maxAttempts, items[id].attempt, s, delay(id))
                else tasks[id] == old(tasks)[id]
      {
        DrainedCounts(cfg, old(tasks)[id].row, items[id], id !in locked, s, delay(id));
      }
    }

    /** One pending settlement's turn in a drain. */
    method DrainEntry(id: int, p: PendingSettlement, s: int, delay: int)
      requires ConfigOk(ConfigFor(cfg, p.kind)) && TasksOk(tasks)
      modifies this`tasks, this`pending
      ensures TasksOk(tasks) && tasks.Keys == old(tasks).Keys
      ensures forall x :: x in tasks && x != id ==> tasks[x] == old(tasks)[x]
      ensures id in tasks ==> tasks[id] == old(tasks)[id].(row := Drained(cfg, old(tasks)[id].row, p, id !in locked, s, delay))
      ensures pending == if id in locked && AtClaim(RowOf(old(tasks), id), p) then old(pending) else old(pending) - {id}
    {
      hide Settled, KeysUnique, Drained;
      ghost var before := tasks;
      DrainedIsStored(cfg, RowOf(tasks, id), p, id !in locked, s, delay);
      var drop := DrainOne(id, p, s, delay);
      if id in before { DrainKeepsOk(cfg, before, id, p, id !in locked, s, delay); }
      if drop {
        pending := pending - {id};
      }
    }

    /** A reconcile's seed: one pending row for the key, unless there is one. */
    method Seed(typ: string, runAt: int)
      requires Valid() && typ != ""
      modifies this`tasks, this`nextId
      ensures Valid() && (exists id :: IsPendingAt(tasks, id, typ))
      ensures (exists id :: IsPendingAt(old(tasks), id, typ)) ==> tasks == old(tasks)
      ensures (forall id :: !IsPendingAt(old(tasks), id, typ)) ==> tasks == old(tasks)[old(nextId) := Task(typ, typ, Pending(runAt, 0))]
    {
      if id :| id in tasks && IsPendingAt(tasks, id, typ) {
        return;
      }
      tasks := tasks[nextId := Task(typ, typ, Pending(runAt, 0))];
      assert IsPendingAt(tasks, nextId, typ);
      nextId := nextId + 1;
    }

    /** A reconcile's correction: brings an occurrence too far ahead back to next, unless it is locked or imminent. */
    method CorrectOne(typ: string, next: int)
      requires Valid() && typ != ""
      modifies this`tasks
      ensures Valid() && tasks.Keys == old(tasks).Keys
      ensures forall id :: id in tasks ==> tasks[id] == Corrected(old(tasks)[id], id in locked, typ, next, clock + cfg.poll)
    {
      if id :| id in tasks && IsPendingAt(tasks, id, typ) {
        if next < tasks[id].row.runAt && clock + cfg.poll < tasks[id].row.runAt && id !in locked {
          tasks := tasks[id := tasks[id].(row := tasks[id].row.(runAt := next))];
        }
      }
    }

    /**
     Reconcile, from an instant already read: afterwards every declared recurrence
     has exactly one pending row under its own name, and that row, unless locked,
     is no further ahead than the cadence or the next poll.
     */
    method Reconcile(readAt: int, decls: seq<string>)
      requires Valid() && readAt <= clock
      requires forall t :: t in decls ==> t in registry && t != ""
      modifies this`tasks, this`nextId
      ensures Valid()
      ensures forall t :: t in decls && registry[t].Recurrent? ==> Reconciled(tasks, locked, t, registry[t].period, readAt, clock + cfg.poll)
      ensures OnlyReconciled(old(tasks), tasks, locked, registry, decls, readAt, clock + cfg.poll)
    {
      hide TasksOk, Every, Reconciled, KeysUnique, OnlyReconciled;
      SameIsReconciled(tasks, locked, registry, decls, readAt, clock + cfg.poll);
      ghost var soon := clock + cfg.poll;
      for i := 0 to |decls|
        invariant Valid()
        invariant forall k :: 0 <= k < i ==> DeclReconciled(tasks, locked, registry, decls[k], readAt, soon)
        invariant OnlyReconciled(old(tasks), tasks, locked, registry, decls, readAt, soon)
      {
        var t := decls[i];
        assert t in decls;
        if registry[t].OneShot? {
          continue;
        }
        ghost var before := tasks;
        ReconcileOne(t, readAt, soon);
        StillOnlyReconciled(old(tasks), before, tasks, locked, registry, decls, t, readAt, soon);
      }
    }

    /** One recurrence's seed and correction; the others stay reconciled. */
    method ReconcileOne(t: string, readAt: int, ghost soon: int)
      requires Valid() && soon == clock + cfg.poll && t != "" && t in registry && registry[t].Recurrent?
      modifies this`tasks, this`nextId
      ensures Valid() && DeclReconciled(tasks, locked, registry, t, readAt, soon)
      ensures forall typ :: DeclReconciled(old(tasks), locked, registry, typ, readAt, soon) ==>
                DeclReconciled(tasks, locked, registry, typ, readAt, soon)
      ensures registry[t].period > 0 && OneReconciled(old(tasks), tasks, locked, t, registry[t].period, readAt, soon)
    {
      hide TasksOk, Every, Reconciled, IsPendingAt, Corrected;
      assert ConfigOk(ConfigFor(cfg, registry[t]));
      var next := Every(registry[t].period, readAt, readAt);
      ghost var before, at := tasks, nextId;
      Seed(t, next);
      ghost var seeded := tasks;
      assert at !in before && (seeded == before || (seeded == before[at := Task(t, t, Pending(next, 0))] && forall x :: !IsPendingAt(before, x, t)));
      CorrectOne(t, next);
      forall typ | DeclReconciled(before, locked, registry, typ, readAt, soon)
        ensures DeclReconciled(tasks, locked, registry, typ, readAt, soon)
      {
        if typ != "" && typ in registry && registry[typ].Recurrent? && 0 < registry[typ].period {
          StillReconciled(before, seeded, tasks, locked, typ, registry[typ].period, readAt, soon, t, next);
        }
      }
      NowReconciled(seeded, tasks, locked, t, registry[t].period, readAt, soon);
      IsOneReconciled(before, seeded, tasks, locked, t, registry[t].period, readAt, soon);
    }

    /** One row's shift, if it is overdue. */
    method ShiftOne(id: int, gap: int) returns (overdue: bool)
      requires id in tasks && cfg.threshold < gap
      modifies this`tasks
      ensures tasks == old(tasks)[id := Shifted(old(tasks)[id], gap, cfg.threshold, clock)]
      ensures overdue <==> Moves(old(tasks)[id], gap, cfg.threshold, clock)
    {
      overdue := tasks[id].row.Pending? && tasks[id].row.runAt <= clock;
      if overdue {
        tasks := tasks[id := tasks[id].(row := tasks[id].row.(runAt := tasks[id].row.runAt + gap))];
      }
    }

    /** AbsorbDowntime: every overdue pending row moves forward by the measured gap, when that is over the threshold. */
    method AbsorbDowntime(gap: int) returns (shifted: nat)
      requires Valid()
      modifies this`tasks
      ensures Valid() && tasks.Keys == old(tasks).Keys
      ensures forall id :: id in tasks ==> tasks[id] == Shifted(old(tasks)[id], gap, cfg.threshold, clock)
      ensures shifted == |set id | id in old(tasks) && Moves(old(tasks)[id], gap, cfg.threshold, clock)|
      ensures forall id :: id in tasks ==>
                var was := old(tasks)[id].row;
                if cfg.threshold < gap && was.Pending? && was.runAt <= clock
                then tasks[id] == old(tasks)[id].(row := Pending(was.runAt + gap, was.failures)) else tasks[id] == old(tasks)[id]
    {
      hide TasksOk;
      shifted := 0;
      if gap <= cfg.threshold {
        assert (set id | id in tasks && Moves(tasks[id], gap, cfg.threshold, clock)) == {};
        return;
      }
      hide Shifted, Moves;
      var left := tasks.Keys;
      ghost var moved: set<int> := {};
      while left != {}
        invariant left <= tasks.Keys == old(tasks).Keys
        invariant forall id :: id in left ==> tasks[id] == old(tasks)[id]
        invariant forall id :: id in tasks && id !in left ==> tasks[id] == Shifted(old(tasks)[id], gap, cfg.threshold, clock)
        invariant moved == set id | id in old(tasks) && id !in left && Moves(old(tasks)[id], gap, cfg.threshold, clock)
        invariant shifted == |moved|
        decreases left
      {
        var id := AnyOf(left);
        var overdue := ShiftOne(id, gap);
        if overdue {
          shifted := shifted + 1;
          assert id !in moved;
          moved := moved + {id};
        }
        left := left - {id};
      }
      assert moved == set id | id in old(tasks) && Moves(old(tasks)[id], gap, cfg.threshold, clock);
      ShiftKeepsOk(old(tasks), tasks, gap, cfg.threshold, clock);
    }
  }

  predicate AtClaim(row: Row, p: PendingSettlement) {
    row.Pending? && row.runAt == p.attempt.runAt
  }

  predicate IsPendingAt(tasks: Tasks, id: int, typ: string) {
    id in tasks && tasks[id].row.Pending? && tasks[id].typ == typ && tasks[id].key == typ
  }

  function Corrected(t: Task, isLocked: bool, typ: string, next: int, soon: int): Task {
    if t.row.Pending? && t.typ == typ && t.key == typ && !isLocked && next < t.row.runAt && soon < t.row.runAt
    then t.(row := t.row.(runAt := next)) else t
  }

  predicate Moves(t: Task, gap: int, threshold: int, now: int) {
    threshold < gap && t.row.Pending? && t.row.runAt <= now
  }

  function Shifted(t: Task, gap: int, threshold: int, now: int): Task {
    if Moves(t, gap, threshold, now) then t.(row := t.row.(runAt := t.row.runAt + gap)) else t
  }

  /** One pending row under the type's own name; and, unless locked, not beyond the cadence and the next poll. */
  ghost predicate Reconciled(tasks: Tasks, locked: set<int>, typ: string, period: int, readAt: int, soon: int)
    requires period > 0
  {
    && (exists id :: IsPendingAt(tasks, id, typ))
    && (forall a, b :: IsPendingAt(tasks, a, typ) && IsPendingAt(tasks, b, typ) ==> a == b)
    && forall id :: IsPendingAt(tasks, id, typ) && id !in locked ==>
         tasks[id].row.runAt <= Every(period, readAt, readAt) || tasks[id].row.runAt <= soon
  }

  /** So is a declared recurrence. */
  ghost predicate DeclReconciled(tasks: Tasks, locked: set<int>, registry: map<string, Kind>, typ: string, readAt: int, soon: int) {
    typ != "" && typ in registry && registry[typ].Recurrent? && 0 < registry[typ].period ==> Reconciled(tasks, locked, typ, registry[typ].period, readAt, soon)
  }

  lemma NowReconciled(seeded: Tasks, tasks: Tasks, locked: set<int>, typ: string, period: int, readAt: int, soon: int)
    requires TasksOk(tasks) && typ != "" && period > 0 && tasks.Keys == seeded.Keys
    requires exists id :: IsPendingAt(seeded, id, typ)
    requires forall id :: id in tasks ==> tasks[id] == Corrected(seeded[id], id in locked, typ, Every(period, readAt, readAt), soon)
    ensures Reconciled(tasks, locked, typ, period, readAt, soon)
  {
    hide Every;
    var id :| IsPendingAt(seeded, id, typ);
    assert IsPendingAt(tasks, id, typ);
  }

  /** One recurrence's reconcile: its row seeded unless it had one, and then corrected; no other row touched. */
  ghost predicate OneReconciled(before: Tasks, after: Tasks, locked: set<int>, typ: string, period: int, readAt: int, soon: int) {
    && (forall id :: id in before ==> id in after && after[id] == Corrected(before[id], id in locked, typ, readAt + period, soon))
    && forall id :: id in after && id !in before ==> after[id] == Task(typ, typ, Pending(readAt + period, 0))
  }

  lemma IsOneReconciled(before: Tasks, seeded: Tasks, after: Tasks, locked: set<int>, typ: string, period: int, readAt: int, soon: int)
    requires period > 0
    requires seeded == before || exists id :: id !in before && seeded == before[id := Task(typ, typ, Pending(Every(period, readAt, readAt), 0))]
    requires after.Keys == seeded.Keys
    requires forall id :: id in after ==> after[id] == Corrected(seeded[id], id in locked, typ, Every(period, readAt, readAt), soon)
    ensures OneReconciled(before, after, locked, typ, period, readAt, soon)
  {
    EveryFromNow(period, readAt);
    hide Every;
  }

  /**
   What a reconcile may do to the table: bring a declared recurrence's free pending
   row back to one period from the instant read, if it was further ahead than that
   and than the next poll; and add a declared recurrence's row there. Every other
   row stays.
   */
  ghost predicate OnlyReconciled(before: Tasks, after: Tasks, locked: set<int>, registry: map<string, Kind>, decls: seq<string>, readAt: int, soon: int) {
    && (forall id :: id in before ==> id in after && (after[id] == before[id] || BroughtBack(before[id], after[id], id in locked, registry, decls, readAt, soon)))
    && forall id :: id in after && id !in before ==> IsDeclared(after[id], registry, decls) && after[id].row == Pending(readAt + registry[after[id].typ].period, 0)
  }

  predicate IsDeclared(t: Task, registry: map<string, Kind>, decls: seq<string>) {
    t.key == t.typ && t.typ in decls && t.typ in registry && registry[t.typ].Recurrent?
  }

  predicate BroughtBack(t: Task, t': Task, isLocked: bool, registry: map<string, Kind>, decls: seq<string>, readAt: int, soon: int) {
    && IsDeclared(t, registry, decls) && !isLocked && t.row.Pending? && soon < t.row.runAt
    && var next := readAt + registry[t.typ].period;
       next < t.row.runAt && t' == t.(row := Pending(next, t.row.failures))
  }

  lemma SameIsReconciled(tasks: Tasks, locked: set<int>, registry: map<string, Kind>, decls: seq<string>, readAt: int, soon: int)
    ensures OnlyReconciled(tasks, tasks, locked, registry, decls, readAt, soon)
  {
  }

  lemma StillOnlyReconciled(start: Tasks, before: Tasks, after: Tasks, locked: set<int>, registry: map<string, Kind>, decls: seq<string>,
                            typ: string, readAt: int, soon: int)
    requires OnlyReconciled(start, before, locked, registry, decls, readAt, soon) && typ in decls && typ in registry && registry[typ].Recurrent?
    requires OneReconciled(before, after, locked, typ, registry[typ].period, readAt, soon)
    ensures OnlyReconciled(start, after, locked, registry, decls, readAt, soon)
  {
    forall id | id in start
      ensures id in after && (after[id] == start[id] || BroughtBack(start[id], after[id], id in locked, registry, decls, readAt, soon))
    {
      assert id in before && after[id] == Corrected(before[id], id in locked, typ, readAt + registry[typ].period, soon);
    }
    forall id | id in after && id !in start
      ensures IsDeclared(after[id], registry, decls) && after[id].row == Pending(readAt + registry[after[id].typ].period, 0)
    {
      if id in before { assert after[id] == Corrected(before[id], id in locked, typ, readAt + registry[typ].period, soon); }
    }
  }

  /** Seeding and correcting one recurrence leaves the others reconciled. */
  lemma StillReconciled(before: Tasks, seeded: Tasks, tasks: Tasks, locked: set<int>, typ: string, period: int, readAt: int, soon: int,
                        other: string, next: int)
    requires period > 0 && Reconciled(before, locked, typ, period, readAt, soon) && TasksOk(tasks) && typ != ""
    requires seeded == before ||
             exists id :: id !in before && seeded == before[id := Task(other, other, Pending(next, 0))] && forall x :: !IsPendingAt(before, x, other)
    requires tasks.Keys == seeded.Keys
    requires forall id :: id in tasks ==> tasks[id] == Corrected(seeded[id], id in locked, other, next, soon)
    requires typ == other ==> next == Every(period, readAt, readAt)
    ensures Reconciled(tasks, locked, typ, period, readAt, soon)
  {
    hide Every;
    var id :| IsPendingAt(before, id, typ);
    assert IsPendingAt(seeded, id, typ);
    assert IsPendingAt(tasks, id, typ);
  }

  lemma ShiftKeepsOk(before: Tasks, after: Tasks, gap: int, threshold: int, now: int)
    requires TasksOk(before) && after.Keys == before.Keys
    requires forall id :: id in after ==> after[id] == Shifted(before[id], gap, threshold, now)
    ensures TasksOk(after)
  {
  }

  /** A deferred failure is one more failure of the attempt it was deferred from. */
  lemma DrainedCounts(cfg: Config, row: Row, p: PendingSettlement, free: bool, s: int, delay: int)
    requires ConfigOk(ConfigFor(cfg, p.kind))
    ensures if free && AtClaim(row, p) then CountsFailure(Drained(cfg, row, p, free, s, delay), p.kind, cfg.maxAttempts, p.attempt, s, delay)
            else Drained(cfg, row, p, free, s, delay) == row
  {
    SettledCounts(ConfigFor(cfg, p.kind), p.attempt, s, delay);
    hide Settled, CountsFailure;
  }

  /** A deferred failure never removes a row. */
  lemma DrainedIsStored(cfg: Config, row: Row, p: PendingSettlement, free: bool, s: int, delay: int)
    requires ConfigOk(ConfigFor(cfg, p.kind))
    ensures Drained(cfg, row, p, free, s, delay).Gone? <==> row.Gone?
    ensures Drained(cfg, row, p, free, s, delay).Pending? ==> row.Pending?
  {
  }

  lemma DrainKeepsOk(cfg: Config, tasks: Tasks, id: int, p: PendingSettlement, free: bool, s: int, delay: int)
    requires ConfigOk(ConfigFor(cfg, p.kind)) && TasksOk(tasks) && id in tasks
    ensures TasksOk(Put(tasks, id, Drained(cfg, tasks[id].row, p, free, s, delay)))
  {
    DrainedIsStored(cfg, tasks[id].row, p, free, s, delay);
    hide Drained;
  }

  lemma DoneIgnoresDelay(cfg: Config, a: Attempt, s: int, delay: int)
    requires ConfigOk(cfg)
    ensures Settled(cfg, a, Done, s, 1) == Settled(cfg, a, Done, s, delay)
  {
  }

  lemma PutKeepsOk(cfg: Config, tasks: Tasks, id: int, a: Attempt, o: Outcome, s: int, delay: int)
    requires ConfigOk(cfg) && TasksOk(tasks) && id in tasks && tasks[id].row.Pending?
    ensures TasksOk(Put(tasks, id, Settled(cfg, a, o, s, delay)))
  {
  }

  /** The interleaved protocol's drains, shifts and corrections write to a row what the worker's own operations write. */
  lemma StepsWriteAsOperations(cfg: Config, s: State, e: Event, s': State, typ: string)
    requires ConfigOk(cfg) && Step(cfg, s, e, s')
    ensures e.DrainOne? && e.drain.attempt < |s.attempts| ==>
              s'.row == Drained(cfg, s.row, PendingSettlement(s.attempts[e.drain.attempt], e.kind), s.lock.Free?, e.drain.s, e.delay)
    ensures e.Shift? ==> s'.row == Shifted(Task(typ, typ, s.row), e.gap, cfg.threshold, s.clock).row
    ensures e.Correct? ==>
              s'.row == Corrected(Task(typ, typ, s.row), false, typ, Every(e.kind.period, e.readAt, e.readAt), e.at + cfg.poll).row
    ensures e.Commit? ==> s.lock.attempt < |s.attempts| && s'.row == Settled(ConfigFor(cfg, e.kind), s.attempts[s.lock.attempt], e.outcome, e.s, e.delay)
  {
    hide Settled;
  }
}
