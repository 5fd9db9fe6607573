/** The loop itself: each poll's transactions, one after another, over the stored offset. */
module IngestLoops {
  import opened Ingests

  datatype Fetch = ReadFailed | PollFailed | PollDiscarded | Got(updates: seq<Update>)

  class Loop {
    const cfg: Config
    const chances: Chances
    var offset: int
    var effects: seq<int>
    var dead: seq<DeadRow>
    ghost var log: seq<Settlement>
    var pos: nat
    ghost var tries: seq<Try>

    ghost function AsDb(): Db
      reads this
    {
      Db(offset, effects, dead, log)
    }

    ghost function AsState(): State
      reads this
    {
      State(AsDb(), pos, tries)
    }

    constructor (cfg: Config, chances: Chances)
      ensures AsState() == START && this.cfg == cfg && this.chances == chances
    {
      this.cfg, this.chances := cfg, chances;
      offset, effects, dead, pos := 0, [], [], 0;
      log, tries := [], [];
    }

    /** advanceOffset: the update applies only when next is ahead. */
    method AdvanceOffset(next: int)
      modifies this`offset
      ensures offset == Advanced(old(offset), next) && old(offset) <= offset
    {
      if offset < next {
        offset := next;
      }
    }

    /** The writes of one settling transaction, and its end: rolled back whole unless the commit lands. */
    method WriteAndCommit(luck: Luck, id: int, how: How, failures: nat) returns (heard: bool)
      requires luck.begins
      modifies this`offset, this`effects, this`dead, this`log
      ensures (AsDb(), heard) == Transact(luck, old(AsDb()), Marked(old(AsDb()), id, how, failures))
    {
      var offset0, effects0, dead0 := offset, effects, dead;
      if how == Handled {
        effects := effects + [id];
      }
      if how == GivenUp {
        dead := dead + [DeadRow(id, failures)];
      }
      if luck.writes {
        AdvanceOffset(id + 1);
      }
      if !luck.writes || luck.end == Lost {
        offset, effects, dead := offset0, effects0, dead0;
        return false;
      }
      log := log + [Settlement(id, how)];
      return luck.end == Lands;
    }

    /** A settlement in a transaction of its own: unrouted, duplicate, given up. */
    method SettleFresh(id: int, how: How, failures: nat) returns (settled: bool)
      modifies this
      ensures (AsState(), settled) == Settle(chances, old(AsState()), id, how, failures)
    {
      var luck := chances(pos);
      pos := pos + 1;
      if !luck.begins {
        return false;
      }
      settled := WriteAndCommit(luck, id, how, failures);
    }

    /** attemptOnce. */
    method AttemptOnce(id: int, attempt: nat) returns (settled: bool)
      modifies this
      ensures (AsState(), settled) == Attempt(cfg, chances, old(AsState()), id, attempt)
      ensures var luck := chances(old(pos));
              !luck.begins || luck.handling in {Erred, Panicked} ==> !settled && AsDb() == old(AsDb())
      ensures tries == old(tries) + [Try(id, attempt, old(pos), id in old(effects), settled)]
      ensures TryOk(cfg, chances, AsDb(), tries[|tries| - 1])
    {
      hide TryOk, HandledBy, DuplicateBy, Landed;
      AttemptAdds(cfg, chances, AsState(), id, attempt);
      AttemptIsOk(cfg, chances, AsState(), id, attempt);
      ghost var at, applied := pos, id in effects;
      settled := HandleOnce(id);
      tries := tries + [Try(id, attempt, at, applied, settled)];
    }

    /** The handler's call, in a transaction of its own, and what its answer settles. */
    method HandleOnce(id: int) returns (settled: bool)
      modifies this
      ensures (AsState(), settled) == Handle(cfg, chances, old(AsState()), id)
    {
      var luck := chances(pos);
      pos := pos + 1;
      if !luck.begins {
        return false;
      }
      match HandlingOf(cfg, luck, Db(offset, effects, dead, []), id) {
        case Done => settled := WriteAndCommit(luck, id, Handled, 0);
        case AlreadyPosted => settled := SettleFresh(id, Duplicate, 0);
        case Erred => settled := false;
        case Panicked => settled := false;
      }
    }

    /** runAttempts: settled, or left behind the offset by a cancelled wait or a give-up that did not commit. */
    method RunAttempts(id: int) returns (settled: bool)
      requires 1 <= cfg.maxAttempts
      modifies this
      ensures (AsState(), settled) == Attempts(cfg, chances, old(AsState()), id, 0)
    {
      for attempt := 0 to cfg.maxAttempts
        invariant Attempts(cfg, chances, AsState(), id, attempt) == Attempts(cfg, chances, old(AsState()), id, 0)
      {
        var luck := chances(pos);
        settled := AttemptOnce(id, attempt);
        if settled {
          return true;
        }
        if attempt == cfg.maxAttempts - 1 {
          continue;
        }
        if luck.cancelled {
          return false;
        }
      }
      settled := SettleFresh(id, GivenUp, cfg.maxAttempts);
    }

    method ProcessUpdate(u: Update) returns (settled: bool)
      requires 1 <= cfg.maxAttempts
      modifies this
      ensures (AsState(), settled) == Process(cfg, chances, old(AsState()), u)
    {
      if !u.wellFormed || !u.routed {
        settled := SettleFresh(u.id, Unrouted, 0);
      } else {
        settled := RunAttempts(u.id);
      }
    }

    /** PollOnce, with what the poll fetched: the batch in order, up to the first update not settled. */
    method PollOnce(fetch: Fetch) returns (failed: bool, processed: nat)
      requires 1 <= cfg.maxAttempts
      modifies this
      ensures !fetch.Got? ==> failed && AsState() == old(AsState())
      ensures fetch.Got? ==> (AsState(), processed) == ProcessFrom(cfg, chances, old(AsState()), fetch.updates, 0)
      ensures fetch.Got? && !failed ==> processed == |fetch.updates|
    {
      processed := 0;
      if !fetch.Got? {
        return true, 0;
      }
      var updates := fetch.updates;
      for i := 0 to |updates|
        invariant ProcessFrom(cfg, chances, AsState(), updates, i) == ProcessFrom(cfg, chances, old(AsState()), updates, 0)
        invariant processed == i
      {
        var settled := ProcessUpdate(updates[i]);
        processed := i + 1;
        if !settled {
          return true, processed;
        }
      }
      return false, processed;
    }
  }
}
