/**
 One scheduled row under every actor that may move it: claims, inline
 settlements, deadline breaches, deferred drains, downtime shifts and reconcile
 corrections, in any interleaving, by any number of workers, under the
 database's own clock.
 */
module Schedulers {
  import opened GoInt
  import opened Cadences

  datatype Kind = OneShot | Recurrent(period: int)

  /**
   The workers' tuning, and staleness: how long after a reconcile read its
   instant one of its corrections may still run. Workers may declare different
   cadences for one recurrence; kind has the shortest.
   */
  datatype Config = Config(kind: Kind, maxAttempts: nat, ceiling: int, poll: int, threshold: int, staleness: int)

  ghost predicate ConfigOk(cfg: Config) {
    && 1 <= cfg.maxAttempts && 0 < cfg.ceiling && 0 < cfg.poll && 0 < cfg.threshold && 0 <= cfg.staleness
    && (cfg.kind.Recurrent? ==> 0 < cfg.kind.period)
  }

  function ConfigFor(cfg: Config, kind: Kind): Config {
    cfg.(kind := kind)
  }

  /** A worker may declare the task so: of the same kind, at no shorter cadence. */
  ghost predicate MayDeclare(cfg: Config, kind: Kind) {
    kind.Recurrent? == cfg.kind.Recurrent? && (kind.Recurrent? ==> cfg.kind.period <= kind.period)
  }

  datatype Row = Gone | Pending(runAt: int, failures: nat) | Dead(failures: nat)

  /** What one claim read, when, and how often the row had been settled by then. */
  datatype Attempt = Attempt(runAt: int, failures: nat, epoch: nat, at: int)

  /** The row's lock: free, held by a worker's open attempt, or still held by a breached attempt's backend. */
  datatype Lock = Free | Held(worker: nat, attempt: nat) | Orphaned

  /** One deferred settlement a drain has picked up, with the drain's instant. */
  datatype Drain = Drain(worker: nat, attempt: nat, s: int)

  /**
   The row, and each worker's pending settlement for it. Kept beside them for what
   is proved: the count of settlements, the attempts, the attempts whose deferred
   failure was applied, and the claimed instants the row has left.
   */
  datatype State = State(clock: int, row: Row, lock: Lock, pending: map<nat, nat>, drains: set<Drain>,
                         epoch: nat, attempts: seq<Attempt>, applied: seq<nat>, left: set<int>)

  datatype Outcome = Done | Failed | Unregistered

  datatype Event =
    | Tick(t: int)
    | Claim(worker: nat)
    | Commit(outcome: Outcome, s: int, delay: int, heard: bool, kind: Kind)
    | Abandon(deferred: bool)
    | Breach
    | OrphanGone
    | DrainStart(worker: nat)
    | DrainOne(drain: Drain, delay: int, dropped: bool, kind: Kind)
    | Shift(gap: int)
    | Correct(readAt: int, at: int, kind: Kind)

  // ---------- Settlements ----------

  /** The row a settlement writes, from what the claim read, at settlement instant s. */
  function Settled(cfg: Config, a: Attempt, o: Outcome, s: int, delay: int): Row
    requires ConfigOk(cfg)
  {
    match o
    case Unregistered => Pending(s + cfg.ceiling, a.failures)
    case Done =>
      if cfg.kind.OneShot? then Gone else Pending(Every(cfg.kind.period, a.runAt, s), 0)
    case Failed =>
      var k := a.failures + 1;
      if cfg.kind.Recurrent? then Pending(Every(cfg.kind.period, a.runAt, s), k)
      else if k >= cfg.maxAttempts then Dead(k)
      else Pending(s + delay, k)
  }

  ghost predicate Claimed(s: State, c: int) {
    exists a :: a in s.attempts && a.runAt == c
  }

  /** The row moves; if it was at a claimed instant, it has left that instant. */
  ghost function MoveTo(s: State, row: Row): State {
    s.(row := row,
       left := s.left + if s.row.Pending? && Claimed(s, s.row.runAt) && !(row.Pending? && row.runAt == s.row.runAt) then {s.row.runAt} else {})
  }

  /** The deferred statement's guard: the row is still pending where the attempt claimed it, and not locked. */
  predicate Matches(s: State, a: Attempt) {
    s.row.Pending? && s.row.runAt == a.runAt && s.lock.Free?
  }

  // ---------- Steps ----------

  ghost predicate StepCommit(cfg: Config, s: State, e: Event, s': State)
    requires ConfigOk(cfg) && e.Commit?
  {
    && s.lock.Held? && s.lock.attempt < |s.attempts| && MayDeclare(cfg, e.kind)
    && var a := s.attempts[s.lock.attempt];
       && a.at <= e.s <= s.clock && 0 < e.delay <= cfg.ceiling
       && s' == MoveTo(s, Settled(ConfigFor(cfg, e.kind), a, e.outcome, e.s, e.delay))
                .(epoch := s.epoch + 1, lock := Free,
                  pending := if e.heard then s.pending else s.pending[s.lock.worker := s.lock.attempt])
  }

  ghost predicate Applies(s: State, e: Event) {
    e.DrainOne? && e.drain.attempt < |s.attempts| && Matches(s, s.attempts[e.drain.attempt])
  }

  ghost predicate StepDrainOne(cfg: Config, s: State, e: Event, s': State)
    requires ConfigOk(cfg) && e.DrainOne?
  {
    && e.drain in s.drains && 0 < e.delay <= cfg.ceiling && MayDeclare(cfg, e.kind)
    && var rest := s.(drains := s.drains - {e.drain},
                      pending := if Applies(s, e) || e.dropped then s.pending - {e.drain.worker} else s.pending);
       s' == if Applies(s, e)
             then MoveTo(rest, Settled(ConfigFor(cfg, e.kind), s.attempts[e.drain.attempt], Failed, e.drain.s, e.delay))
                  .(epoch := s.epoch + 1, applied := s.applied + [e.drain.attempt])
             else rest
  }

  ghost predicate StepCorrect(cfg: Config, s: State, e: Event, s': State)
    requires ConfigOk(cfg) && e.Correct?
  {
    && e.kind.Recurrent? && MayDeclare(cfg, e.kind) && s.row.Pending? && s.lock.Free?
    && e.readAt <= e.at <= s.clock <= e.readAt + cfg.staleness
    && var next := Every(e.kind.period, e.readAt, e.readAt);
       && next < s.row.runAt && e.at + cfg.poll < s.row.runAt
       && s' == MoveTo(s, s.row.(runAt := next))
  }

  ghost predicate Step(cfg: Config, s: State, e: Event, s': State)
    requires ConfigOk(cfg)
  {
    match e
    case Tick(t) => s.clock <= t && s' == s.(clock := t)
    case Claim(w) =>
      && s.lock.Free? && s.row.Pending? && s.row.runAt <= s.clock
      && s' == s.(attempts := s.attempts + [Attempt(s.row.runAt, s.row.failures, s.epoch, s.clock)], lock := Held(w, |s.attempts|))
    case Commit(_, _, _, _, _) => StepCommit(cfg, s, e, s')
    case Abandon(deferred) =>
      s.lock.Held? && s' == s.(lock := Free, pending := if deferred then s.pending[s.lock.worker := s.lock.attempt] else s.pending)
    case Breach => s.lock.Held? && s' == s.(lock := Orphaned, pending := s.pending[s.lock.worker := s.lock.attempt])
    case OrphanGone => s.lock.Orphaned? && s' == s.(lock := Free)
    case DrainStart(w) => w in s.pending && s' == s.(drains := s.drains + {Drain(w, s.pending[w], s.clock)})
    case DrainOne(_, _, _, _) => StepDrainOne(cfg, s, e, s')
    case Shift(gap) =>
      && s.lock.Free? && s.row.Pending? && s.row.runAt <= s.clock && cfg.threshold < gap
      && s' == MoveTo(s, s.row.(runAt := s.row.runAt + gap))
    case Correct(_, _, _) => StepCorrect(cfg, s, e, s')
  }

  function Start(clock: int, runAt: int): State {
    State(clock, Pending(runAt, 0), Free, map[], {}, 0, [], [], {})
  }

  ghost predicate IsRun(cfg: Config, states: seq<State>, events: seq<Event>)
    requires ConfigOk(cfg)
  {
    && |states| == |events| + 1 && states[0] == Start(states[0].clock, if states[0].row.Pending? then states[0].row.runAt else 0)
    && forall i :: 0 <= i < |events| ==> Step(cfg, states[i], events[i], states[i + 1])
  }

  // ---------- What is promised ----------

  /** The row is not back at an instant it was claimed at and has left. */
  ghost predicate NotReturned(s: State) {
    s.row.Pending? ==> s.row.runAt !in s.left
  }

  /** A deferred failure goes in at most once, and only where the row has not been settled since its claim. */
  ghost predicate DrainSound(s: State, e: Event) {
    Applies(s, e) ==> s.attempts[e.drain.attempt].epoch == s.epoch && e.drain.attempt !in s.applied
  }

  /** The failure counts: pending one-shots below the limit, dead ones exactly at it, recurrences never dead. */
  ghost predicate CountsOk(cfg: Config, row: Row) {
    match row
    case Gone => true
    case Pending(_, k) => cfg.kind.OneShot? ==> k < cfg.maxAttempts
    case Dead(k) => cfg.kind.OneShot? && k == cfg.maxAttempts
  }

  /** A correction never runs so late that the occurrence it computed, at whatever cadence, may already have come. */
  ghost predicate Timely(cfg: Config) {
    cfg.kind.Recurrent? ==> cfg.staleness < cfg.kind.period
  }

  // ---------- The invariant ----------

  /** What an attempt read is behind the row: it claimed no later instant, and the same one only if nothing has settled since. */
  ghost predicate AttemptOk(cfg: Config, s: State, a: Attempt) {
    && a.runAt <= a.at <= s.clock
    && (cfg.kind.OneShot? ==> a.failures < cfg.maxAttempts)
    && (s.row.Pending? ==>
          a.runAt <= s.row.runAt && (a.runAt == s.row.runAt ==> a.epoch == s.epoch && a.failures == s.row.failures))
  }

  ghost predicate LockOk(s: State) {
    s.lock.Held? ==> s.lock.attempt < |s.attempts| && s.row.Pending? && s.row.runAt == s.attempts[s.lock.attempt].runAt
  }

  ghost predicate DeferredOk(s: State) {
    && (forall w :: w in s.pending ==> s.pending[w] < |s.attempts|)
    && forall d :: d in s.drains ==> d.attempt < |s.attempts| && s.attempts[d.attempt].at <= d.s <= s.clock
  }

  ghost predicate AppliedOk(s: State) {
    && (forall i, j :: 0 <= i < j < |s.applied| ==> s.applied[i] != s.applied[j])
    && forall i :: i in s.applied ==> i < |s.attempts| && (s.row.Pending? ==> s.attempts[i].runAt < s.row.runAt)
  }

  ghost predicate LeftOk(s: State) {
    forall c :: c in s.left ==> Claimed(s, c) && (s.row.Pending? ==> c < s.row.runAt)
  }

  ghost predicate Inv(cfg: Config, s: State) {
    && (forall a :: a in s.attempts ==> AttemptOk(cfg, s, a))
    && LockOk(s) && DeferredOk(s) && AppliedOk(s) && LeftOk(s) && CountsOk(cfg, s.row)
  }

  /** The row moves on from every claim, or ends. */
  ghost predicate MovesOn(cfg: Config, s: State, row: Row) {
    && CountsOk(cfg, row)
    && (row.Pending? ==> forall a :: a in s.attempts ==> a.runAt < row.runAt)
  }

  /** Every move of an unlocked row that is past every claim keeps the invariant, counted as a settlement or not. */
  lemma MoveKeepsInv(cfg: Config, s: State, row: Row, epoch: nat)
    requires Inv(cfg, s) && s.row.Pending? && MovesOn(cfg, s, row) && s.epoch <= epoch
    ensures Inv(cfg, MoveTo(s, row).(lock := Free, epoch := epoch))
  {
    var s' := MoveTo(s, row).(lock := Free, epoch := epoch);
    forall a | a in s'.attempts ensures AttemptOk(cfg, s', a) { assert AttemptOk(cfg, s, a); }
    forall c | c in s'.left
      ensures Claimed(s', c) && (row.Pending? ==> c < row.runAt)
    {
      assert Claimed(s, c);
      var a :| a in s.attempts && a.runAt == c;
      assert a in s'.attempts;
    }
  }

  /** A settlement at an instant no earlier than its claim moves the row past every claim. */
  lemma SettledMovesOn(cfg: Config, kind: Kind, s: State, a: Attempt, o: Outcome, at: int, delay: int)
    requires ConfigOk(cfg) && MayDeclare(cfg, kind) && Inv(cfg, s) && a in s.attempts && a.at <= at && 0 < delay
    requires s.row.Pending? && s.row.runAt == a.runAt
    ensures MovesOn(cfg, s, Settled(ConfigFor(cfg, kind), a, o, at, delay))
  {
    assert AttemptOk(cfg, s, a);
    if kind.Recurrent? { EveryIsTheNextOccurrence(kind.period, a.runAt, at, 1); }
    forall b | b in s.attempts ensures b.runAt <= a.runAt { assert AttemptOk(cfg, s, b); }
  }

  lemma ClaimKeepsInv(cfg: Config, s: State, w: nat, s': State)
    requires ConfigOk(cfg) && Inv(cfg, s) && Step(cfg, s, Claim(w), s')
    ensures Inv(cfg, s')
  {
    forall a | a in s'.attempts
      ensures AttemptOk(cfg, s', a)
    {
      if a in s.attempts { assert AttemptOk(cfg, s, a); }
    }
    forall c | c in s'.left
      ensures Claimed(s', c)
    {
      var a :| a in s.attempts && a.runAt == c;
      assert a in s'.attempts;
    }
  }

  lemma CommitKeepsInv(cfg: Config, s: State, e: Event, s': State)
    requires ConfigOk(cfg) && Inv(cfg, s) && e.Commit? && StepCommit(cfg, s, e, s')
    ensures Inv(cfg, s')
  {
    hide AttemptOk, Settled, CountsOk, AppliedOk, LeftOk;
    var a := s.attempts[s.lock.attempt];
    var row := Settled(ConfigFor(cfg, e.kind), a, e.outcome, e.s, e.delay);
    SettledMovesOn(cfg, e.kind, s, a, e.outcome, e.s, e.delay);
    MoveKeepsInv(cfg, s, row, s.epoch + 1);
    var moved := MoveTo(s, row).(lock := Free, epoch := s.epoch + 1);
    PendingKeepsInv(cfg, moved, s'.pending, moved.drains);
  }

  /** Pending entries and drains of known attempts change nothing else. */
  lemma PendingKeepsInv(cfg: Config, s: State, pending: map<nat, nat>, drains: set<Drain>)
    requires Inv(cfg, s) && DeferredOk(s.(pending := pending, drains := drains))
    ensures Inv(cfg, s.(pending := pending, drains := drains))
  {
    var s' := s.(pending := pending, drains := drains);
    forall a | a in s'.attempts ensures AttemptOk(cfg, s', a) { assert AttemptOk(cfg, s, a); }
    forall c | c in s'.left ensures Claimed(s', c) { assert Claimed(s, c); }
  }

  lemma UnlockKeepsInv(cfg: Config, s: State, lock: Lock)
    requires Inv(cfg, s) && !lock.Held?
    ensures Inv(cfg, s.(lock := lock))
  {
    var s' := s.(lock := lock);
    forall a | a in s'.attempts ensures AttemptOk(cfg, s', a) { assert AttemptOk(cfg, s, a); }
    forall c | c in s'.left ensures Claimed(s', c) { assert Claimed(s, c); }
  }

  lemma TickKeepsInv(cfg: Config, s: State, t: int)
    requires Inv(cfg, s) && s.clock <= t
    ensures Inv(cfg, s.(clock := t))
  {
    var s' := s.(clock := t);
    forall a | a in s'.attempts ensures AttemptOk(cfg, s', a) { assert AttemptOk(cfg, s, a); }
    forall c | c in s'.left ensures Claimed(s', c) { assert Claimed(s, c); }
  }

  lemma DrainKeepsInv(cfg: Config, s: State, e: Event, s': State)
    requires ConfigOk(cfg) && Inv(cfg, s) && e.DrainOne? && StepDrainOne(cfg, s, e, s')
    ensures Inv(cfg, s') && DrainSound(s, e)
  {
    hide Settled, CountsOk, LeftOk;
    var drains := s.drains - {e.drain};
    var pending := if Applies(s, e) || e.dropped then s.pending - {e.drain.worker} else s.pending;
    var rest := s.(drains := drains, pending := pending);
    PendingKeepsInv(cfg, s, pending, drains);
    if Applies(s, e) {
      var i := e.drain.attempt;
      var a := s.attempts[i];
      assert AttemptOk(cfg, s, a);
      var row := Settled(ConfigFor(cfg, e.kind), a, Failed, e.drain.s, e.delay);
      SettledMovesOn(cfg, e.kind, rest, a, Failed, e.drain.s, e.delay);
      MoveKeepsInv(cfg, rest, row, s.epoch + 1);
      var moved := MoveTo(rest, row).(lock := Free, epoch := s.epoch + 1);
      AppliedMore(cfg, moved, i);
    }
  }

  lemma AppliedMore(cfg: Config, s: State, i: nat)
    requires Inv(cfg, s) && i < |s.attempts| && i !in s.applied && (s.row.Pending? ==> s.attempts[i].runAt < s.row.runAt)
    ensures Inv(cfg, s.(applied := s.applied + [i]))
  {
    var s' := s.(applied := s.applied + [i]);
    forall a | a in s'.attempts ensures AttemptOk(cfg, s', a) { assert AttemptOk(cfg, s, a); }
    forall c | c in s'.left ensures Claimed(s', c) { assert Claimed(s, c); }
  }

  lemma ShiftKeepsInv(cfg: Config, s: State, gap: int, s': State)
    requires ConfigOk(cfg) && Inv(cfg, s) && Step(cfg, s, Shift(gap), s')
    ensures Inv(cfg, s')
  {
    forall a | a in s.attempts ensures a.runAt < s.row.runAt + gap { assert AttemptOk(cfg, s, a); }
    hide AttemptOk, AppliedOk, LeftOk, DeferredOk;
    MoveKeepsInv(cfg, s, s.row.(runAt := s.row.runAt + gap), s.epoch);
  }

  /** A timely correction lands after every claim made so far: every claim was of an instant already past. */
  lemma CorrectKeepsInv(cfg: Config, s: State, e: Event, s': State)
    requires ConfigOk(cfg) && Timely(cfg) && Inv(cfg, s) && e.Correct? && StepCorrect(cfg, s, e, s')
    ensures Inv(cfg, s')
  {
    var next := e.readAt + e.kind.period;
    EveryFromNow(e.kind.period, e.readAt);
    forall a | a in s.attempts ensures a.runAt < next { assert AttemptOk(cfg, s, a); }
    hide AttemptOk, AppliedOk, LeftOk, DeferredOk;
    MoveKeepsInv(cfg, s, s.row.(runAt := next), s.epoch);
  }

  lemma StepKeepsInv(cfg: Config, s: State, e: Event, s': State)
    requires ConfigOk(cfg) && Timely(cfg) && Inv(cfg, s) && Step(cfg, s, e, s')
    ensures Inv(cfg, s') && DrainSound(s, e)
  {
    hide AttemptOk, AppliedOk, LeftOk, CountsOk;
    match e {
      case Tick(t) => TickKeepsInv(cfg, s, t);
      case Claim(w) => ClaimKeepsInv(cfg, s, w, s');
      case Commit(_, _, _, _, _) => CommitKeepsInv(cfg, s, e, s');
      case Abandon(_) => UnlockKeepsInv(cfg, s, Free); PendingKeepsInv(cfg, s.(lock := Free), s'.pending, s.drains);
      case Breach => UnlockKeepsInv(cfg, s, Orphaned); PendingKeepsInv(cfg, s.(lock := Orphaned), s'.pending, s.drains);
      case OrphanGone => UnlockKeepsInv(cfg, s, Free);
      case DrainStart(w) => DrainStartOk(cfg, s, w); PendingKeepsInv(cfg, s, s.pending, s'.drains);
      case DrainOne(_, _, _, _) => DrainKeepsInv(cfg, s, e, s');
      case Shift(gap) => ShiftKeepsInv(cfg, s, gap, s');
      case Correct(_, _, _) => CorrectKeepsInv(cfg, s, e, s');
    }
  }

  lemma DrainStartOk(cfg: Config, s: State, w: nat)
    requires Inv(cfg, s) && w in s.pending
    ensures DeferredOk(s.(drains := s.drains + {Drain(w, s.pending[w], s.clock)}))
  {
    var a := s.attempts[s.pending[w]];
    assert AttemptOk(cfg, s, a);
  }

  lemma StartInv(cfg: Config, clock: int, runAt: int)
    requires ConfigOk(cfg)
    ensures Inv(cfg, Start(clock, runAt))
  {
  }

  /**
   In every timely run: the row never returns to an instant it was claimed at; a
   deferred failure is applied at most once, and never to a row settled since its
   claim; pending one-shots stay below the limit, dead ones are exactly at it, and
   recurrences never die. For one-shots every run is timely.
   */
  lemma {:induction false} TimelyRunsAreSafe(cfg: Config, states: seq<State>, events: seq<Event>, i: nat)
    requires ConfigOk(cfg) && Timely(cfg) && IsRun(cfg, states, events) && i < |states|
    ensures Inv(cfg, states[i]) && NotReturned(states[i]) && CountsOk(cfg, states[i].row)
    ensures i < |events| ==> DrainSound(states[i], events[i])
    decreases i
  {
    hide Step, Inv, Start, DrainSound, Timely;
    if i == 0 {
      StartInv(cfg, states[0].clock, if states[0].row.Pending? then states[0].row.runAt else 0);
    } else {
      TimelyRunsAreSafe(cfg, states, events, i - 1);
      StepKeepsInv(cfg, states[i - 1], events[i - 1], states[i]);
    }
    InvMeansSafe(cfg, states[i]);
    if i < |events| { StepKeepsInv(cfg, states[i], events[i], states[i + 1]); }
  }

  lemma InvMeansSafe(cfg: Config, s: State)
    requires Inv(cfg, s)
    ensures NotReturned(s) && CountsOk(cfg, s.row)
  {
    hide AttemptOk, AppliedOk, LockOk, DeferredOk;
  }

  // ---------- Why corrections must be timely ----------

  ghost predicate ReturnsIn(cfg: Config, states: seq<State>, events: seq<Event>, i: nat)
    requires ConfigOk(cfg)
  {
    IsRun(cfg, states, events) && i < |states| && !NotReturned(states[i])
  }

  /**
   A correction as late as the shortest period puts the row back where it
   was claimed: the claim's commit fails, a downtime shift moves the row on, and
   the correction, still carrying the claimed instant as its next, moves it back.
   */
  lemma LateCorrectionReturns(cfg: Config) returns (states: seq<State>, events: seq<Event>)
    requires ConfigOk(cfg) && cfg.kind.Recurrent? && cfg.kind.period <= cfg.staleness
    ensures ReturnsIn(cfg, states, events, |events|)
  {
    var p, gap := cfg.kind.period, cfg.threshold + cfg.poll + 1;
    var a := Attempt(p, 0, 0, p);
    var s0 := Start(0, p);
    var s1 := s0.(clock := p);
    var s2 := s1.(attempts := [a], lock := Held(0, 0));
    var s3 := s2.(lock := Free, pending := map[0 := 0]);
    var s4 := s3.(row := Pending(p + gap, 0), left := {p});
    var s5 := s4.(row := Pending(p, 0));
    assert a in s3.attempts && Claimed(s3, p);
    assert s3.left + {p} == {p};
    EveryFromNow(p, 0);
    assert Step(cfg, s3, Shift(gap), s4);
    assert Step(cfg, s4, Correct(0, p, cfg.kind), MoveTo(s4, Pending(p, 0)));
    states := [s0, s1, s2, s3, s4, MoveTo(s4, Pending(p, 0))];
    events := [Tick(p), Claim(0), Abandon(true), Shift(gap), Correct(0, p, cfg.kind)];
    assert p in MoveTo(s4, Pending(p, 0)).left;
  }

  /** In all runs the row never returns to a claimed instant it left, if and only if corrections are timely. */
  lemma RunsNeverReturnExactlyWhenTimely(cfg: Config)
    requires ConfigOk(cfg)
    ensures Timely(cfg) <==> forall states, events, i :: !ReturnsIn(cfg, states, events, i)
  {
    if Timely(cfg) {
      forall states, events, i: nat
        ensures !ReturnsIn(cfg, states, events, i)
      {
        if IsRun(cfg, states, events) && i < |states| { TimelyRunsAreSafe(cfg, states, events, i); }
      }
    } else {
      var states, events := LateCorrectionReturns(cfg);
    }
  }

  /**
   And where polls are shorter than the period, such a correction lets a deferred
   failure count against an occurrence another worker has since run to success.
   */
  lemma LateCorrectionCountsAgainstSuccess(cfg: Config) returns (states: seq<State>, events: seq<Event>)
    requires ConfigOk(cfg) && cfg.kind.Recurrent? && cfg.kind.period <= cfg.staleness && cfg.poll < cfg.kind.period
    ensures IsRun(cfg, states, events) && |events| > 0 && !DrainSound(states[|events| - 1], events[|events| - 1])
  {
    hide Every, DrainSound;
    var p := cfg.kind.period;
    var a, b := Attempt(p, 0, 0, p), Attempt(p, 0, 0, p);
    EveryFromNow(p, p);
    EveryFromNow(p, 0);
    var s0 := Start(0, p);
    var s1 := s0.(clock := p);
    var s2 := s1.(attempts := [a], lock := Held(0, 0));
    var s3 := s2.(lock := Free, pending := map[0 := 0]);
    var s4 := s3.(attempts := [a, b], lock := Held(1, 1));
    var commit := Commit(Done, p, 1, true, cfg.kind);
    var s5 := MoveTo(s4, Pending(2 * p, 0)).(epoch := 1, lock := Free);
    var s6 := MoveTo(s5, Pending(p, 0));
    var drain := Drain(0, 0, p);
    var s7 := s6.(drains := {drain});
    var last := DrainOne(drain, 1, false, cfg.kind);
    var rest := s7.(drains := {}, pending := map[]);
    var s8 := MoveTo(rest, Settled(cfg, a, Failed, p, 1)).(epoch := 2, applied := [0]);
    assert Step(cfg, s3, Claim(1), s4);
    assert Step(cfg, s4, commit, s5);
    assert Step(cfg, s5, Correct(0, p, cfg.kind), s6);
    assert Step(cfg, s6, DrainStart(0), s7);
    assert s7.drains - {drain} == {} && s7.pending - {0} == map[];
    assert Step(cfg, s7, last, s8);
    states := [s0, s1, s2, s3, s4, s5, s6, s7, s8];
    events := [Tick(p), Claim(0), Abandon(true), Claim(1), commit, Correct(0, p, cfg.kind), DrainStart(0), last];
    UnsoundDrain(s7, last);
  }

  lemma UnsoundDrain(s: State, e: Event)
    requires Applies(s, e) && s.attempts[e.drain.attempt].epoch != s.epoch
    ensures !DrainSound(s, e)
  {
  }
}
