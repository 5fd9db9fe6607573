/**
 What the limiter promises over whole runs: schedules as values, one limiter
 call as a step, and the theorem that no run ever breaks a window.
 */
module Schedules {
  import opened SortedSeq
  import opened Windows

  /**
   One limiter key's state. past holds the grants eviction has dropped; with
   the kept grants it is the key's complete history, in ascending order.
   */
  datatype Sched = Sched(ordered: bool, windows: seq<Window>, past: seq<int>, grants: seq<int>)

  function History(s: Sched): seq<int> {
    s.past + s.grants
  }

  /** What every schedule keeps, whatever order its calls come in: the grants not yet forgotten break no window. */
  ghost predicate Sane(s: Sched) {
    WellFormed(s.windows) && Sorted(s.grants) && AllGaps(s.grants, s.windows)
  }

  /** The complete history breaks no window, and no window from a forgotten grant reaches past the floor. */
  ghost predicate Legal(s: Sched, floor: int) {
    && WellFormed(s.windows)
    && Sorted(History(s)) && AllGaps(History(s), s.windows)
    && (forall g :: g in s.past ==> g + MaxPer(s.windows) <= floor)
    && (MaxPer(s.windows) == 0 ==> s.past == [])
    && (s.windows == [] ==> History(s) == [])
  }

  /** The earliest instant a later call may come at without finding a window forgotten too soon. */
  function NextFloor(floor: int, now: int): int {
    if floor < now - 1 then now - 1 else floor
  }

  /** An ordered schedule never grants before its own newest grant. */
  function Raised(s: Sched, candidate: int): int {
    if s.ordered && s.grants != [] && candidate < s.grants[|s.grants| - 1] then s.grants[|s.grants| - 1] else candidate
  }

  ghost predicate IsEarliest(s: Sched, candidate: int, t: int) {
    IsLeastFeasible(s.grants, s.windows, Raised(s, candidate), t)
  }

  /** A schedule admits a grant at t. */
  ghost predicate Admits(s: Sched, t: int) {
    Raised(s, t) == t && Feasible(s.grants, s.windows, t)
  }

  ghost predicate AllAdmit(ss: seq<Sched>, t: int) {
    forall s :: s in ss ==> Admits(s, t)
  }

  /** t is the least instant, no earlier than now, that every schedule admits. */
  ghost predicate IsJoint(ss: seq<Sched>, now: int, t: int) {
    now <= t && AllAdmit(ss, t) && forall u :: now <= u < t ==> !AllAdmit(ss, u)
  }

  /** The instants a schedule's earliest can answer other than the one it was asked for. */
  function Candidates(s: Sched): set<int> {
    Expiries(s.grants, s.windows) + if s.grants == [] then {} else {s.grants[|s.grants| - 1]}
  }

  function AllCandidates(ss: seq<Sched>): set<int> {
    if ss == [] then {} else Candidates(ss[0]) + AllCandidates(ss[1..])
  }

  function Evicted(s: Sched, now: int): Sched {
    if MaxPer(s.windows) == 0 then s
    else
      var i := Idx(s.grants, now - MaxPer(s.windows));
      s.(past := s.past + s.grants[..i], grants := s.grants[i..])
  }

  function Committed(s: Sched, t: int): Sched {
    if s.windows == [] then s else s.(grants := Insert(s.grants, t))
  }

  lemma EvictedSane(s: Sched, now: int)
    requires Sane(s)
    ensures Sane(Evicted(s, now))
  {
    hide Idx;
    if MaxPer(s.windows) != 0 {
      var i := Idx(s.grants, now - MaxPer(s.windows));
      assert s.grants[..i] + s.grants[i..] == s.grants;
      KeptLegal(s.grants[..i], s.grants[i..], s.windows);
    }
  }

  lemma CommittedSane(s: Sched, t: int)
    requires Sane(s) && Admits(s, t)
    ensures Sane(Committed(s, t))
  {
    InsertSorted(s.grants, t);
  }

  lemma EvictedLegal(s: Sched, floor: int, now: int)
    requires Legal(s, floor)
    ensures Legal(Evicted(s, now), NextFloor(floor, now)) && History(Evicted(s, now)) == History(s)
  {
    hide Feasible, Gap;
    var e := Evicted(s, now);
    if MaxPer(s.windows) != 0 {
      var threshold := now - MaxPer(s.windows);
      var i := Idx(s.grants, threshold);
      SplitHistory(s.past, s.grants, i);
      forall g | g in e.past
        ensures g + MaxPer(s.windows) <= NextFloor(floor, now)
      {
        if g !in s.past {
          var k :| 0 <= k < i && s.grants[k] == g;
        }
      }
    }
  }

  lemma SplitHistory(past: seq<int>, grants: seq<int>, i: nat)
    requires i <= |grants|
    ensures (past + grants[..i]) + grants[i..] == past + grants
  {
  }

  /** The kept grants inherit the history's order and gaps. */
  lemma KeptLegal(past: seq<int>, grants: seq<int>, ws: seq<Window>)
    requires Sorted(past + grants) && AllGaps(past + grants, ws)
    ensures Sorted(grants) && AllGaps(grants, ws)
  {
    var h := past + grants;
    assert forall k :: 0 <= k < |grants| ==> grants[k] == h[|past| + k];
    forall w | w in ws
      ensures Gap(grants, w)
    {
      assert Gap(h, w);
      forall j, k | 0 <= j < |grants| && 0 <= k < |grants| && k == j + w.count
        ensures w.per <= grants[k] - grants[j]
      {
        assert w.per <= h[|past| + k] - h[|past| + j];
      }
    }
  }

  /** Deciding over the kept grants alone is enough: the complete history, dropped grants included, stays legal. */
  lemma CommittedLegal(s: Sched, floor: int, t: int)
    requires Legal(s, floor) && floor <= t && Admits(s, t)
    ensures Legal(Committed(s, t), floor)
    ensures s.windows != [] ==> History(Committed(s, t)) == Insert(History(s), t)
    ensures s.windows != [] && s.ordered ==> History(Committed(s, t)) == History(s) + [t]
  {
    hide *;
    if s.windows == [] {
      CommittedNothing(s, t);
    } else {
      LegalParts(s, floor, t);
      ForgottenDoNotConstrain(s.past, s.grants, s.windows, floor, t);
      CommittedParts(s, floor, t);
      if s.ordered { CommittedNewest(s, floor, t); }
    }
  }

  lemma CommittedNothing(s: Sched, t: int)
    requires s.windows == []
    ensures Committed(s, t) == s
  {
  }

  lemma LegalParts(s: Sched, floor: int, t: int)
    requires Legal(s, floor) && Admits(s, t)
    ensures WellFormed(s.windows) && Sorted(s.past + s.grants) && AllGaps(s.past + s.grants, s.windows)
    ensures (forall g :: g in s.past ==> g + MaxPer(s.windows) <= floor) && (MaxPer(s.windows) == 0 ==> s.past == [])
    ensures Feasible(s.grants, s.windows, t)
  {
    hide WellFormed, Sorted, AllGaps, Feasible, MaxPer;
  }

  lemma CommittedParts(s: Sched, floor: int, t: int)
    requires s.windows != [] && Legal(s, floor)
    requires Sorted(s.past + Insert(s.grants, t)) && AllGaps(s.past + Insert(s.grants, t), s.windows)
    requires Insert(s.past + s.grants, t) == s.past + Insert(s.grants, t)
    ensures Legal(Committed(s, t), floor) && History(Committed(s, t)) == Insert(History(s), t)
  {
    hide WellFormed, Sorted, AllGaps, Insert, MaxPer;
  }

  /** In an ordered schedule what is admitted is appended. */
  lemma CommittedNewest(s: Sched, floor: int, t: int)
    requires s.windows != [] && s.ordered && Legal(s, floor) && Admits(s, t)
    ensures History(Committed(s, t)) == History(s) + [t]
  {
    hide WellFormed, AllGaps, Feasible, MaxPer, Insert;
    assert forall k :: 0 <= k < |s.grants| ==> History(s)[|s.past| + k] == s.grants[k];
    AppendNewest(s.grants, t);
  }

  lemma AppendNewest(s: seq<int>, t: int)
    requires Sorted(s) && (s == [] || s[|s| - 1] <= t)
    ensures Insert(s, t) == s + [t]
  {
    var i := Idx(s, t);
    forall k | i <= k < |s| ensures s[k] == t { assert s[i] <= s[k]; }
  }

  // ---------- The whole limiter ----------

  datatype MethodClass = Message | Edit | Other

  datatype ChatTarget = ChatNone | ChatUnknown | ChatKnown(id: string)

  datatype Call = Call(cls: MethodClass, chat: ChatTarget)

  datatype ClassLimits = ClassLimits(global: Rate, chatRate: Rate, chatCap: Rate)

  type Limits = map<MethodClass, ClassLimits>

  ghost predicate Complete(limits: Limits) {
    forall c: MethodClass :: c in limits
  }

  datatype ChatKey = ChatKey(key: string, cls: MethodClass)

  const UNKNOWN_CHAT_KEY := "\0unknown"

  /** A limiter key: one class's global schedule, or one chat's of one class. */
  datatype Key = GlobalKey(cls: MethodClass) | PerChat(chat: ChatKey)

  function ChatKeyOf(call: Call): ChatKey
    requires call.chat != ChatNone
  {
    ChatKey(if call.chat.ChatUnknown? then UNKNOWN_CHAT_KEY else call.chat.id, call.cls)
  }

  function WindowsOf(limits: Limits, key: Key): seq<Window>
    requires (match key case GlobalKey(c) => c case PerChat(k) => k.cls) in limits
  {
    match key
    case GlobalKey(c) => PaceWindows(limits[c].global)
    case PerChat(k) => PaceWindows(limits[k.cls].chatRate) + QuotaWindows(limits[k.cls].chatCap)
  }

  /** The keys a call charges: its class, and its chat when the call has one and the class bounds it. */
  function KeysOf(limits: Limits, call: Call): seq<Key>
    requires call.cls in limits
  {
    [GlobalKey(call.cls)] +
    if call.chat == ChatNone || WindowsOf(limits, PerChat(ChatKeyOf(call))) == [] then [] else [PerChat(ChatKeyOf(call))]
  }

  /** Every schedule in use; a key not yet referenced has the empty one. */
  type State = map<Key, Sched>

  function SchedOf(limits: Limits, st: State, key: Key): Sched
    requires (match key case GlobalKey(c) => c case PerChat(k) => k.cls) in limits
  {
    if key in st then st[key] else Sched(key.PerChat?, WindowsOf(limits, key), [], [])
  }

  ghost predicate AllLegal(limits: Limits, st: State, floor: int)
    requires Complete(limits)
  {
    forall key: Key :: KeyLegal(limits, st, key, floor)
  }

  ghost predicate KeyLegal(limits: Limits, st: State, key: Key, floor: int)
    requires Complete(limits)
  {
    var s := SchedOf(limits, st, key);
    Legal(s, floor) && s.ordered == key.PerChat? && s.windows == WindowsOf(limits, key)
  }

  ghost predicate AllSane(limits: Limits, st: State)
    requires Complete(limits)
  {
    forall key: Key :: KeySane(limits, st, key)
  }

  ghost predicate KeySane(limits: Limits, st: State, key: Key)
    requires Complete(limits)
  {
    var s := SchedOf(limits, st, key);
    Sane(s) && s.ordered == key.PerChat? && s.windows == WindowsOf(limits, key)
  }

  datatype Outcome = Granted(t: int) | Refused | NotConverged

  datatype Deadline = NoDeadline | Until(at: int)

  const MAX_ACQUIRE_PASSES := 4096

  function Charge(limits: Limits, st: State, keys: seq<Key>, now: int): seq<Sched>
    requires Complete(limits)
  {
    if keys == [] then [] else [Evicted(SchedOf(limits, st, keys[0]), now)] + Charge(limits, st, keys[1..], now)
  }

  /** The state after a call: its keys' schedules evicted, and on a grant all of them committed at the one instant. */
  ghost predicate Writes(limits: Limits, st: State, keys: seq<Key>, now: int, out: Outcome, st': State)
    requires Complete(limits)
  {
    forall key: Key :: SchedOf(limits, st', key) == Written(SchedOf(limits, st, key), key in keys, now, out)
  }

  function Written(s: Sched, charged: bool, now: int, out: Outcome): Sched {
    if !charged then s
    else if out.Granted? then Committed(Evicted(s, now), out.t) else Evicted(s, now)
  }

  /** One acquire call. */
  ghost predicate Step(limits: Limits, st: State, call: Call, now: int, deadline: Deadline, out: Outcome, st': State)
    requires Complete(limits)
  {
    var keys := KeysOf(limits, call);
    var ss := Charge(limits, st, keys, now);
    && Writes(limits, st, keys, now, out, st')
    && match out
       case Granted(t) => IsJoint(ss, now, t) && (deadline.Until? ==> t <= deadline.at)
       case Refused => exists t :: IsJoint(ss, now, t) && deadline.Until? && deadline.at < t
       case NotConverged => MAX_ACQUIRE_PASSES <= |AllCandidates(ss)|
  }

  datatype Event = Event(call: Call, now: int, deadline: Deadline, out: Outcome)

  ghost predicate IsRun(limits: Limits, st: State, events: seq<Event>, st': State)
    requires Complete(limits)
    decreases |events|
  {
    if events == [] then st == st'
    else exists mid: State ::
        && Step(limits, st, events[0].call, events[0].now, events[0].deadline, events[0].out, mid)
        && IsRun(limits, mid, events[1..], st')
  }

  /** No call comes more than late after a call with a later clock. */
  ghost predicate LateByAtMost(events: seq<Event>, late: int) {
    forall i, j :: 0 <= i < j < |events| ==> events[i].now <= events[j].now + late
  }

  /** Every call comes no earlier than the floor the calls before it leave. */
  ghost predicate InTime(events: seq<Event>, floor: int)
    decreases |events|
  {
    events == [] || (floor <= events[0].now && InTime(events[1..], NextFloor(floor, events[0].now)))
  }

  lemma {:induction false} BarelyLateIsInTime(events: seq<Event>, floor: int)
    requires LateByAtMost(events, 1) && forall i :: 0 <= i < |events| ==> floor <= events[i].now
    ensures InTime(events, floor)
    decreases |events|
  {
    if events != [] {
      var rest := events[1..];
      forall i | 0 <= i < |rest| ensures NextFloor(floor, events[0].now) <= rest[i].now { assert rest[i] == events[i + 1]; }
      BarelyLateIsInTime(rest, NextFloor(floor, events[0].now));
    }
  }

  function LeastNow(events: seq<Event>): (m: int)
    ensures forall i :: 0 <= i < |events| ==> m <= events[i].now
  {
    if events == [] then 0
    else
      var m := LeastNow(events[1..]);
      assert forall i :: 1 <= i < |events| ==> events[i] == events[1..][i - 1];
      if events[0].now < m then events[0].now else m
  }

  /** The instants a run grants on one key, in the order it grants them. */
  function GrantedOn(limits: Limits, events: seq<Event>, key: Key): seq<int>
    requires Complete(limits)
  {
    if events == [] then []
    else
      (if events[0].out.Granted? && key in KeysOf(limits, events[0].call) && WindowsOf(limits, key) != [] then [events[0].out.t] else [])
      + GrantedOn(limits, events[1..], key)
  }

  lemma EmptyStateLegal(limits: Limits, floor: int)
    requires Complete(limits)
    ensures AllLegal(limits, map[], floor) && AllSane(limits, map[])
  {
    hide KeyLegal, KeySane;
    forall key: Key
      ensures KeyLegal(limits, map[], key, floor) && KeySane(limits, map[], key)
    {
      EmptyKey(limits, key, floor);
    }
  }

  lemma EmptyKey(limits: Limits, key: Key, floor: int)
    requires Complete(limits)
    ensures KeyLegal(limits, map[], key, floor) && KeySane(limits, map[], key)
  {
    WindowsWellFormed(limits, key);
    hide WindowsOf, WellFormed, Gap, MaxPer;
  }

  lemma WindowsWellFormed(limits: Limits, key: Key)
    requires Complete(limits)
    ensures WellFormed(WindowsOf(limits, key))
  {
    hide CeilDuration;
  }

  lemma ChargedSchedules(limits: Limits, st: State, keys: seq<Key>, now: int, key: Key)
    requires Complete(limits) && key in keys
    ensures Evicted(SchedOf(limits, st, key), now) in Charge(limits, st, keys, now)
  {
    if keys[0] != key { ChargedSchedules(limits, st, keys[1..], now, key); }
  }

  lemma ChargeAt(limits: Limits, st: State, keys: seq<Key>, now: int)
    requires Complete(limits)
    ensures |Charge(limits, st, keys, now)| == |keys|
    ensures forall i :: 0 <= i < |keys| ==> Charge(limits, st, keys, now)[i] == Evicted(SchedOf(limits, st, keys[i]), now)
  {
    hide Evicted, SchedOf;
    if keys != [] { ChargeAt(limits, st, keys[1..], now); }
  }

  /** However late a call comes, what is kept stays sane. */
  lemma StepKeepsSane(limits: Limits, st: State, e: Event, st': State)
    requires Complete(limits) && AllSane(limits, st) && Step(limits, st, e.call, e.now, e.deadline, e.out, st')
    ensures AllSane(limits, st')
  {
    hide Sane, IsJoint;
    var keys := KeysOf(limits, e.call);
    forall key: Key
      ensures KeySane(limits, st', key)
    {
      var s := SchedOf(limits, st, key);
      assert KeySane(limits, st, key);
      assert SchedOf(limits, st', key) == Written(s, key in keys, e.now, e.out);
      if key in keys {
        ChargedSchedules(limits, st, keys, e.now, key);
        WrittenSane(s, e.now, e.out, Charge(limits, st, keys, e.now));
      }
    }
  }

  lemma WrittenSane(s: Sched, now: int, out: Outcome, ss: seq<Sched>)
    requires Sane(s) && Evicted(s, now) in ss && (out.Granted? ==> IsJoint(ss, now, out.t))
    ensures var s' := Written(s, true, now, out); Sane(s') && s'.ordered == s.ordered && s'.windows == s.windows
  {
    EvictedSane(s, now);
    if out.Granted? { CommittedSane(Evicted(s, now), out.t); }
  }

  lemma StepKeepsLegal(limits: Limits, st: State, floor: int, e: Event, st': State)
    requires Complete(limits) && AllLegal(limits, st, floor) && floor <= e.now
    requires Step(limits, st, e.call, e.now, e.deadline, e.out, st')
    ensures AllLegal(limits, st', NextFloor(floor, e.now))
    ensures e.out.Granted? ==> e.now <= e.out.t
    ensures forall key: Key :: StepHistory(limits, st, e, st', key)
  {
    forall key: Key
      ensures KeyLegal(limits, st', key, NextFloor(floor, e.now)) && StepHistory(limits, st, e, st', key)
    {
      KeyStep(limits, st, floor, e, st', key);
    }
  }

  lemma KeyStep(limits: Limits, st: State, floor: int, e: Event, st': State, key: Key)
    requires Complete(limits) && KeyLegal(limits, st, key, floor) && floor <= e.now
    requires Step(limits, st, e.call, e.now, e.deadline, e.out, st')
    ensures KeyLegal(limits, st', key, NextFloor(floor, e.now)) && StepHistory(limits, st, e, st', key)
  {
    var keys, s, s' := KeysOf(limits, e.call), SchedOf(limits, st, key), SchedOf(limits, st', key);
    var charged := key in keys;
    assert s' == Written(s, charged, e.now, e.out);
    if charged { ChargedSchedules(limits, st, keys, e.now, key); }
    WrittenLegal(s, charged, floor, e.now, e.out);
    GrantedOnOne(limits, e, key);
  }

  lemma GrantedOnOne(limits: Limits, e: Event, key: Key)
    requires Complete(limits)
    ensures GrantedOn(limits, [e], key) ==
            if e.out.Granted? && key in KeysOf(limits, e.call) && WindowsOf(limits, key) != [] then [e.out.t] else []
  {
    assert [e][1..] == [];
  }

  /** What a call adds to one key's history. */
  function Added(s: Sched, charged: bool, out: Outcome): seq<int> {
    if out.Granted? && charged && s.windows != [] then [out.t] else []
  }

  lemma WrittenUncharged(s: Sched, now: int, out: Outcome)
    ensures Written(s, false, now, out) == s
  {
  }

  lemma WrittenLegal(s: Sched, charged: bool, floor: int, now: int, out: Outcome)
    requires Legal(s, floor) && floor <= now
    requires charged && out.Granted? ==> now <= out.t && Admits(Evicted(s, now), out.t)
    ensures var s' := Written(s, charged, now, out);
            && Legal(s', NextFloor(floor, now)) && s'.ordered == s.ordered && s'.windows == s.windows
            && multiset(History(s')) == multiset(History(s)) + multiset(Added(s, charged, out))
            && (s.ordered ==> History(s') == History(s) + Added(s, charged, out))
  {
    if charged {
      EvictedLegal(s, floor, now);
      if out.Granted? { GrantHistory(Evicted(s, now), NextFloor(floor, now), out.t); }
    }
  }

  lemma GrantHistory(s: Sched, floor: int, t: int)
    requires Legal(s, floor) && floor <= t && Admits(s, t)
    ensures Legal(Committed(s, t), floor)
    ensures multiset(History(Committed(s, t))) == multiset(History(s)) + multiset(if s.windows == [] then [] else [t])
    ensures s.ordered ==> History(Committed(s, t)) == History(s) + (if s.windows == [] then [] else [t])
  {
    CommittedLegal(s, floor, t);
    InsertSorted(History(s), t);
  }

  /** What one step adds to one key's history. */
  ghost predicate StepHistory(limits: Limits, st: State, e: Event, st': State, key: Key)
    requires Complete(limits)
  {
    var h, h', added := History(SchedOf(limits, st, key)), History(SchedOf(limits, st', key)), GrantedOn(limits, [e], key);
    multiset(h') == multiset(h) + multiset(added) && (key.PerChat? ==> h' == h + added)
  }

  lemma GrantedOnHead(limits: Limits, events: seq<Event>, key: Key)
    requires Complete(limits) && events != []
    ensures GrantedOn(limits, events, key) == GrantedOn(limits, [events[0]], key) + GrantedOn(limits, events[1..], key)
  {
    assert [events[0]][1..] == [];
  }

  /**
   Over any run of calls that come in time, mixing grants, refusals and evictions,
   each key's history is complete, and breaks no window.
   */
  lemma {:induction false} RunKeepsWindows(limits: Limits, st: State, floor: int, events: seq<Event>, st': State, key: Key)
    requires Complete(limits) && AllLegal(limits, st, floor)
    requires IsRun(limits, st, events, st') && InTime(events, floor)
    ensures var h, h', added := History(SchedOf(limits, st, key)), History(SchedOf(limits, st', key)), GrantedOn(limits, events, key);
            && multiset(h') == multiset(h) + multiset(added)
            && (key.PerChat? ==> h' == h + added)
            && Sorted(h') && AllGaps(h', WindowsOf(limits, key))
    decreases |events|
  {
    hide Step, SchedOf, KeysOf, WindowsOf, Sorted, AllGaps;
    if events == [] {
      assert KeyLegal(limits, st, key, floor);
    } else {
      var e := events[0];
      var mid: State :| Step(limits, st, e.call, e.now, e.deadline, e.out, mid) && IsRun(limits, mid, events[1..], st');
      StepKeepsLegal(limits, st, floor, e, mid);
      assert KeyLegal(limits, mid, key, NextFloor(floor, e.now)) && StepHistory(limits, st, e, mid, key);
      RunKeepsWindows(limits, mid, NextFloor(floor, e.now), events[1..], st', key);
      GrantedOnHead(limits, events, key);
      Accumulate(History(SchedOf(limits, st, key)), History(SchedOf(limits, mid, key)), History(SchedOf(limits, st', key)),
                 GrantedOn(limits, [e], key), GrantedOn(limits, events[1..], key));
    }
  }

  lemma Accumulate(h: seq<int>, h': seq<int>, h'': seq<int>, a: seq<int>, b: seq<int>)
    requires multiset(h') == multiset(h) + multiset(a) && multiset(h'') == multiset(h') + multiset(b)
    ensures multiset(h'') == multiset(h) + multiset(a + b)
    ensures h' == h + a && h'' == h' + b ==> h'' == h + (a + b)
  {
  }

  /**
   The documented promise: from a fresh limiter, when no call comes more than one
   clock unit late, the instants granted on any key never put more than count of
   them in a half-open interval of length per, for any window, and one chat's
   instants never decrease.
   */
  lemma NoWindowEverBroken(limits: Limits, events: seq<Event>, st': State, key: Key, w: Window)
    requires Complete(limits)
    requires IsRun(limits, map[], events, st') && LateByAtMost(events, 1)
    requires w in WindowsOf(limits, key) && 0 <= w.per
    ensures AtMost(GrantedOn(limits, events, key), w)
    ensures key.PerChat? ==> Sorted(GrantedOn(limits, events, key))
  {
    var floor := LeastNow(events);
    EmptyStateLegal(limits, floor);
    BarelyLateIsInTime(events, floor);
    RunKeepsWindows(limits, map[], floor, events, st', key);
    var h, added := History(SchedOf(limits, st', key)), GrantedOn(limits, events, key);
    FreshHistory(limits, key, added);
    HistoryCounts(h, added, w);
  }

  lemma FreshHistory(limits: Limits, key: Key, added: seq<int>)
    requires Complete(limits)
    ensures History(SchedOf(limits, map[], key)) == [] && [] + added == added
    ensures WellFormed(WindowsOf(limits, key))
  {
  }

  lemma HistoryCounts(h: seq<int>, added: seq<int>, w: Window)
    requires Sorted(h) && Gap(h, w) && 0 <= w.count && 0 <= w.per
    requires multiset(h) == multiset(added)
    ensures AtMost(added, w)
  {
    GapMeansAtMost(h, w);
    forall x
      ensures CountIn(added, x, w.per) <= w.count
    {
      CountIsOrderFree(h, added, x, w.per);
    }
  }

  lemma CountWithout(s: seq<int>, i: nat, x: int, len: int)
    requires i < |s|
    ensures CountIn(s, x, len) == CountIn(s[..i] + s[i + 1..], x, len) + CountIn([s[i]], x, len)
  {
    hide CountIn;
    assert s == (s[..i] + [s[i]]) + s[i + 1..];
    CountAppend(s[..i], [s[i]], x, len);
    CountAppend(s[..i] + [s[i]], s[i + 1..], x, len);
    CountAppend(s[..i], s[i + 1..], x, len);
  }

  lemma IndexOf(s: seq<int>, x: int) returns (i: nat)
    requires x in s
    ensures i < |s| && s[i] == x
  {
    i :| i < |s| && s[i] == x;
  }

  lemma {:induction false} CountIsOrderFree(s: seq<int>, s': seq<int>, x: int, len: int)
    requires multiset(s) == multiset(s')
    ensures CountIn(s, x, len) == CountIn(s', x, len)
    decreases |s|
  {
    SameSize(s, s');
    if s == [] {
      assert s' == [];
    } else {
      hide CountIn;
      var i := IndexOf(s', s[0]);
      var less, less' := s[..0] + s[1..], s'[..i] + s'[i + 1..];
      CountWithout(s, 0, x, len);
      CountWithout(s', i, x, len);
      OneOut(s, 0);
      OneOut(s', i);
      CountIsOrderFree(less, less', x, len);
    }
  }

  lemma {:induction false} CountAppend(a: seq<int>, b: seq<int>, x: int, len: int)
    ensures CountIn(a + b, x, len) == CountIn(a, x, len) + CountIn(b, x, len)
  {
    if a == [] {
      assert a + b == b;
    } else {
      CountAppend(a[1..], b, x, len);
      assert (a + b)[1..] == a[1..] + b;
    }
  }
}
