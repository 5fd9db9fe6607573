/** The limiter: schedules updated in place, and the decide-then-commit acquire call. */
module Limiters {
  import opened GoInt
  import opened SortedSeq
  import opened Windows
  import opened Schedules

  class Schedule {
    const ordered: bool
    const windows: seq<Window>
    var grants: seq<int>
    ghost var past: seq<int>

    ghost function Value(): Sched
      reads this
    {
      Sched(ordered, windows, past, grants)
    }

    constructor (ordered: bool, windows: seq<Window>)
      ensures Value() == Sched(ordered, windows, [], [])
    {
      this.ordered, this.windows, grants, past := ordered, windows, [], [];
    }

    /** One window's part of holds: the positions the insertion touches. */
    method HoldsWindow(w: Window, idx: nat, t: int) returns (ok: bool)
      requires 1 <= w.count && Sorted(grants) && Gap(grants, w) && idx == Idx(grants, t)
      ensures ok <==> Gap(Insert(grants, t), w)
    {
      hide Insert, Gap, AtIndex, Idx, Sorted;
      ghost var r := Insert(grants, t);
      var n := |grants| + 1;
      var lo := if idx - w.count < 0 then 0 else idx - w.count;
      OnlyTouchingWindows(grants, w, t);
      for j := lo to idx + 1
        invariant forall i :: lo <= i < j && i + w.count < n ==> w.per <= r[i + w.count] - r[i]
      {
        var k := j + w.count;
        if k >= n { continue; }
        InsertAt(grants, t, k);
        InsertAt(grants, t, j);
        if AtIndex(grants, idx, t, k) - AtIndex(grants, idx, t, j) < w.per {
          return false;
        }
      }
      return true;
    }

    /** holds: checks only the positions the insertion touches, and that is equivalent to the whole list's invariant. */
    method Holds(t: int) returns (ok: bool)
      requires WellFormed(windows) && Sorted(grants) && AllGaps(grants, windows)
      ensures ok <==> Feasible(grants, windows, t)
    {
      var idx := Idx(grants, t);
      for i := 0 to |windows|
        invariant forall v :: 0 <= v < i ==> Gap(Insert(grants, t), windows[v])
      {
        assert windows[i] in windows;
        var held := HoldsWindow(windows[i], idx, t);
        if !held {
          return false;
        }
      }
      return true;
    }

    /** earliest: the least admissible instant not before candidate. */
    method Earliest(candidate: int) returns (t: int)
      requires WellFormed(windows) && Sorted(grants) && AllGaps(grants, windows)
      ensures IsEarliest(Value(), candidate, t)
      ensures t == candidate || t in Candidates(Value())
    {
      hide Gap, AllGaps, Insert, Feasible, Idx;
      if windows == [] { UnboundedAdmits(grants, windows, Raised(Value(), candidate)); }
      var from := candidate;
      if ordered && |grants| > 0 {
        var last := grants[|grants| - 1];
        if last > from { from := last; }
      }
      if |windows| == 0 {
        return from;
      }
      var candidates := ListCandidates(from);
      SortSorts(candidates);
      candidates := Sort(candidates);
      for i := 0 to |candidates|
        invariant forall k :: 0 <= k < i ==> !Feasible(grants, windows, candidates[k])
      {
        var ok := Holds(candidates[i]);
        if ok {
          FirstHoldingIsLeast(candidates, from, i);
          return candidates[i];
        }
      }
      LastCandidateHolds(candidates, from);
      assert false;
    }

    lemma UnboundedAdmits(s: seq<int>, ws: seq<Window>, from: int)
      requires ws == []
      ensures IsLeastFeasible(s, ws, from, from)
    {
    }

    /** The candidate instants: from itself, and every expiry after it. */
    method ListCandidates(from: int) returns (candidates: seq<int>)
      ensures forall x :: x in candidates <==> x == from || (from < x && x in Expiries(grants, windows))
    {
      hide Expiries;
      candidates := [from];
      ExpiriesNone(grants, windows);
      for i := 0 to |windows|
        invariant forall x :: x in candidates <==> x == from || (from < x && x in Expiries(grants, windows[..i]))
      {
        var w := windows[i];
        ExpiriesNone(grants, [w]);
        for j := 0 to |grants|
          invariant forall x :: x in candidates <==>
              x == from || (from < x && x in Expiries(grants, windows[..i]) + Expiries(grants[..j], [w]))
        {
          var t := grants[j] + w.per;
          ExpiriesOneMore(grants, j, w);
          if t > from {
            candidates := candidates + [t];
          }
        }
        assert grants[..|grants|] == grants;
        ExpiriesOneWindowMore(grants, windows, i);
      }
      assert windows[..|windows|] == windows;
    }

    lemma FirstHoldingIsLeast(candidates: seq<int>, from: int, i: nat)
      requires WellFormed(windows) && Sorted(grants)
      requires Sorted(candidates) && i < |candidates|
      requires forall x :: x in candidates <==> x == from || (from < x && x in Expiries(grants, windows))
      requires forall k :: 0 <= k < i ==> !Feasible(grants, windows, candidates[k])
      requires Feasible(grants, windows, candidates[i])
      ensures IsLeastFeasible(grants, windows, from, candidates[i])
    {
      assert candidates[i] in candidates;
      forall u | from <= u < candidates[i]
        ensures !Feasible(grants, windows, u)
      {
        forall x | x in candidates && x < candidates[i]
          ensures !Feasible(grants, windows, x)
        {
          var k :| 0 <= k < |candidates| && candidates[k] == x;
        }
        NothingBetweenExpiries(grants, windows, from, u);
      }
    }

    /** The largest candidate always holds, so the search always answers. */
    lemma LastCandidateHolds(candidates: seq<int>, from: int)
      requires WellFormed(windows) && Sorted(grants) && AllGaps(grants, windows)
      requires Sorted(candidates)
      requires forall x :: x in candidates <==> x == from || (from < x && x in Expiries(grants, windows))
      ensures 0 < |candidates| && Feasible(grants, windows, candidates[|candidates| - 1])
    {
      assert from in candidates;
      var last := candidates[|candidates| - 1];
      forall x | x in candidates
        ensures x <= last
      {
        var k :| 0 <= k < |candidates| && candidates[k] == x;
      }
      forall w, g | w in windows && g in grants
        ensures g + w.per <= last
      {
        assert g + w.per in Expiries(grants, windows);
        assert g + w.per <= from || g + w.per in candidates;
      }
      FeasibleAfterAllExpire(grants, windows, last);
    }

    method Commit(t: int)
      modifies this
      ensures Value() == Committed(old(Value()), t)
    {
      if |windows| == 0 {
        return;
      }
      var idx := Idx(grants, t);
      grants := grants[..idx] + [t] + grants[idx..];
    }

    method Evict(now: int)
      requires Sorted(grants)
      modifies this
      ensures Value() == Evicted(old(Value()), now)
    {
      var maxPer := MaxPer(windows);
      if maxPer <= 0 || |grants| == 0 {
        assert grants[..0] == [];
        return;
      }
      var threshold := now - maxPer;
      var i := 0;
      while i < |grants| && grants[i] < threshold
        invariant i <= Idx(grants, threshold)
      {
        i := i + 1;
      }
      assert i == Idx(grants, threshold);
      past := past + grants[..i];
      if i > 0 {
        grants := grants[i..];
      }
    }
  }

  lemma ExpiriesNone(s: seq<int>, ws: seq<Window>)
    ensures Expiries(s[..0], ws) == {} && Expiries(s, ws[..0]) == {}
  {
  }

  lemma ExpiriesOneMore(s: seq<int>, j: nat, w: Window)
    requires j < |s|
    ensures Expiries(s[..j + 1], [w]) == Expiries(s[..j], [w]) + {s[j] + w.per}
  {
    assert s[..j + 1] == s[..j] + [s[j]];
    assert w in [w] && s[j] in s[..j + 1];
    forall g | g in s[..j] ensures g in s[..j + 1] {}
  }

  lemma ExpiriesOneWindowMore(s: seq<int>, ws: seq<Window>, i: nat)
    requires i < |ws|
    ensures Expiries(s, ws[..i + 1]) == Expiries(s, ws[..i]) + Expiries(s, [ws[i]])
  {
    assert ws[..i + 1] == ws[..i] + [ws[i]];
  }

  ghost function Values(ss: seq<Schedule>): seq<Sched>
    reads set s | s in ss
  {
    if ss == [] then [] else [ss[0].Value()] + Values(ss[1..])
  }

  lemma ValuesAt(ss: seq<Schedule>)
    ensures |Values(ss)| == |ss|
    ensures forall i :: 0 <= i < |ss| ==> Values(ss)[i] == ss[i].Value()
  {
    if ss != [] { ValuesAt(ss[1..]); }
  }

  lemma CandidateOf(ss: seq<Sched>, i: nat, x: int)
    requires i < |ss| && x in Candidates(ss[i])
    ensures x in AllCandidates(ss)
  {
    if i > 0 { CandidateOf(ss[1..], i - 1, x); }
  }

  ghost predicate Ready(ss: seq<Schedule>)
    reads set s | s in ss
  {
    forall s :: s in ss ==> WellFormed(s.windows) && Sorted(s.grants) && AllGaps(s.grants, s.windows)
  }

  /** One pass: every schedule's earliest from t, the latest of them. */
  method FixedPointPass(t: int, ss: seq<Schedule>) returns (next: int)
    requires Ready(ss)
    ensures t <= next
    ensures next == t ==> AllAdmit(Values(ss), t)
    ensures next != t ==> next in AllCandidates(Values(ss)) && forall u :: t <= u < next ==> !AllAdmit(Values(ss), u)
  {
    hide IsEarliest, Candidates, Admits, AllCandidates, Sorted, AllGaps, WellFormed, Values;
    next := t;
    ValuesAt(ss);
    ghost var vs := Values(ss);
    for i := 0 to |ss|
      invariant t <= next
      invariant next != t ==> next in AllCandidates(vs) && forall u :: t <= u < next ==> !AllAdmit(vs, u)
      invariant next == t ==> forall k :: 0 <= k < i ==> Admits(vs[k], t)
    {
      var c := ss[i].Earliest(t);
      EarliestSeparates(vs, i, t, c);
      if c > next {
        CandidateOf(vs, i, c);
        next := c;
      }
    }
  }

  /**
   acquireFixedPoint: raises t to each schedule's earliest until none moves it.
   A converged answer is the least instant all schedules admit; exhausting the
   passes takes at least that many distinct candidate instants.
   */
  method AcquireFixedPoint(start: int, ss: seq<Schedule>) returns (t: int, converged: bool)
    requires Ready(ss)
    ensures converged ==> IsJoint(Values(ss), start, t)
    ensures |AllCandidates(Values(ss))| < MAX_ACQUIRE_PASSES ==> converged
  {
    t := start;
    ghost var vs := Values(ss);
    ghost var visited: set<int> := {};
    for pass := 0 to MAX_ACQUIRE_PASSES
      invariant start <= t && forall u :: start <= u < t ==> !AllAdmit(vs, u)
      invariant |visited| == pass && visited <= AllCandidates(vs)
      invariant forall v :: v in visited ==> v <= t
    {
      var next := FixedPointPass(t, ss);
      if next <= t {
        return t, true;
      }
      visited := visited + {next};
      t := next;
    }
    SubsetSize(visited, AllCandidates(vs));
    return t, false;
  }

  lemma EarliestSeparates(ss: seq<Sched>, i: nat, t: int, c: int)
    requires i < |ss| && IsEarliest(ss[i], t, c)
    ensures t <= c && (c == t ==> Admits(ss[i], t))
    ensures forall u :: t <= u < c ==> !AllAdmit(ss, u)
  {
    assert ss[i] in ss;
    forall u | t <= u < c
      ensures !Admits(ss[i], u)
    {
    }
  }

  method EvictAll(ss: seq<Schedule>, now: int)
    requires forall i, j :: 0 <= i < j < |ss| ==> ss[i] != ss[j]
    requires forall s :: s in ss ==> Sorted(s.grants)
    modifies set s | s in ss
    ensures forall i :: 0 <= i < |ss| ==> ss[i].Value() == Evicted(old(ss[i].Value()), now)
  {
    for k := 0 to |ss|
      invariant forall i :: 0 <= i < k ==> ss[i].Value() == Evicted(old(ss[i].Value()), now)
      invariant forall i :: k <= i < |ss| ==> ss[i].Value() == old(ss[i].Value())
    {
      assert Sorted(old(ss[k].Value()).grants);
      ss[k].Evict(now);
    }
  }

  method CommitAll(ss: seq<Schedule>, t: int)
    requires forall i, j :: 0 <= i < j < |ss| ==> ss[i] != ss[j]
    modifies set s | s in ss
    ensures forall i :: 0 <= i < |ss| ==> ss[i].Value() == Committed(old(ss[i].Value()), t)
  {
    for k := 0 to |ss|
      invariant forall i :: 0 <= i < k ==> ss[i].Value() == Committed(old(ss[i].Value()), t)
      invariant forall i :: k <= i < |ss| ==> ss[i].Value() == old(ss[i].Value())
    {
      ss[k].Commit(t);
    }
  }

  /** The keys a call charges, and the windows of its chat's. */
  lemma CallKeys(limits: Limits, call: Call)
    requires Complete(limits)
    ensures call.chat == ChatNone ==> KeysOf(limits, call) == [GlobalKey(call.cls)]
    ensures call.chat != ChatNone ==>
              var key, cl := PerChat(ChatKeyOf(call)), limits[call.cls];
              var windows := PaceWindows(cl.chatRate) + QuotaWindows(cl.chatCap);
              && WindowsOf(limits, key) == windows && (windows == [] <==> cl.chatRate.count <= 0 && cl.chatCap.count <= 0)
              && KeysOf(limits, call) == [GlobalKey(call.cls)] + if windows == [] then [] else [key]
  {
  }

  class Limiter {
    const limits: Limits
    const message: Schedule
    const edit: Schedule
    const other: Schedule
    var chats: map<ChatKey, Schedule>

    ghost function Repr(): set<object>
      reads this
    {
      {message, edit, other} + set k | k in chats :: chats[k]
    }

    /** The schedule a key names. */
    ghost function SchedFor(key: Key): Sched
      reads this, Repr()
      requires Complete(limits)
    {
      match key
      case GlobalKey(c) => GlobalSchedule(c).Value()
      case PerChat(k) => if k in chats then chats[k].Value() else Sched(true, WindowsOf(limits, key), [], [])
    }

    function GlobalSchedule(c: MethodClass): Schedule {
      match c
      case Message => message
      case Edit => edit
      case Other => other
    }

    ghost function Abstract(): State
      reads this, Repr()
      requires Complete(limits)
    {
      (map c: MethodClass :: GlobalKey(c) := SchedFor(GlobalKey(c))) + (map k | k in chats :: PerChat(k) := SchedFor(PerChat(k)))
    }

    lemma AbstractAt(key: Key)
      requires Complete(limits)
      ensures SchedOf(limits, Abstract(), key) == SchedFor(key)
    {
    }

    ghost predicate Valid()
      reads this, Repr()
    {
      WiredUp() && forall key: Key :: SchedSane(key)
    }

    /** No two keys share a schedule object, and only bounded chats have one. */
    ghost predicate WiredUp()
      reads this
    {
      && Complete(limits)
      && message != edit && message != other && edit != other
      && (forall k :: k in chats ==> chats[k] !in {message, edit, other} && WindowsOf(limits, PerChat(k)) != [])
      && (forall k, k' :: k in chats && k' in chats && k != k' ==> chats[k] != chats[k'])
    }

    ghost predicate SchedSane(key: Key)
      reads this, Repr()
      requires Complete(limits)
    {
      var s := SchedFor(key);
      Sane(s) && s.ordered == key.PerChat? && s.windows == WindowsOf(limits, key)
    }

    constructor (limits: Limits)
      requires Complete(limits)
      ensures Valid() && fresh(Repr()) && this.limits == limits
      ensures forall key: Key :: SchedFor(key) == SchedOf(limits, map[], key)
    {
      this.limits := limits;
      message := new Schedule(false, PaceWindows(limits[Message].global));
      edit := new Schedule(false, PaceWindows(limits[Edit].global));
      other := new Schedule(false, PaceWindows(limits[Other].global));
      chats := map[];
      new;
      EmptyStateLegal(limits, 0);
      forall key: Key
        ensures SchedFor(key) == SchedOf(limits, map[], key) && SchedSane(key)
      {
        assert KeySane(limits, map[], key);
      }
    }

    /** The call's per-chat schedule, built on first use; none when the call has no chat or nothing bounds it. */
    method ChatScheduleLocked(call: Call) returns (s: Schedule?)
      requires WiredUp()
      modifies `chats
      ensures WiredUp() && fresh(Repr() - old(Repr())) && old(Repr()) <= Repr()
      ensures forall key: Key :: SchedFor(key) == old(SchedFor(key))
      ensures s == null ==> KeysOf(limits, call) == [GlobalKey(call.cls)]
      ensures s != null ==> call.chat != ChatNone && ChatKeyOf(call) in chats && s == chats[ChatKeyOf(call)]
      ensures s != null ==> KeysOf(limits, call) == [GlobalKey(call.cls), PerChat(ChatKeyOf(call))]
      ensures s == null <==> call.chat == ChatNone || (limits[call.cls].chatRate.count <= 0 && limits[call.cls].chatCap.count <= 0)
      ensures s != null && ChatKeyOf(call) !in old(chats) ==>
                s.Value() == Sched(true, PaceWindows(limits[call.cls].chatRate) + QuotaWindows(limits[call.cls].chatCap), [], [])
    {
      CallKeys(limits, call);
      hide Sane, PaceWindows, QuotaWindows, KeysOf, WindowsOf;
      if call.chat == ChatNone {
        return null;
      }
      var key := ChatKeyOf(call);
      if key in chats {
        return chats[key];
      }
      var cl := limits[call.cls];
      var windows := PaceWindows(cl.chatRate) + QuotaWindows(cl.chatCap);
      if |windows| == 0 {
        return null;
      }
      ReprIs();
      s := AddChat(key, windows);
      ReprIs();
    }

    method AddChat(key: ChatKey, windows: seq<Window>) returns (built: Schedule)
      requires WiredUp() && key !in chats && windows != [] && windows == WindowsOf(limits, PerChat(key))
      modifies `chats
      ensures WiredUp() && chats == old(chats)[key := built] && fresh(built) && built.Value() == Sched(true, windows, [], [])
      ensures forall k: Key :: SchedFor(k) == old(SchedFor(k))
    {
      hide Sane, WindowsOf;
      built := new Schedule(true, windows);
      chats := chats[key := built];
    }

    lemma ReprIs()
      ensures forall o :: o in Repr() <==> o in {message, edit, other} || exists k :: k in chats && o == chats[k]
    {
    }

    /** The schedules a call consults: its class's, then its chat's. */
    ghost predicate Consults(call: Call, ss: seq<Schedule>)
      reads this
      requires Complete(limits)
    {
      var keys := KeysOf(limits, call);
      && |ss| == |keys| && ss[0] == GlobalSchedule(call.cls)
      && (|keys| == 2 ==> call.chat != ChatNone && ChatKeyOf(call) in chats && ss[1] == chats[ChatKeyOf(call)])
    }

    method Consulted(call: Call) returns (ss: seq<Schedule>)
      requires WiredUp()
      modifies `chats
      ensures WiredUp() && fresh(Repr() - old(Repr())) && old(Repr()) <= Repr()
      ensures forall key: Key :: SchedFor(key) == old(SchedFor(key))
      ensures Consults(call, ss)
    {
      var chat := ChatScheduleLocked(call);
      if chat == null {
        ss := [GlobalSchedule(call.cls)];
      } else {
        ss := [GlobalSchedule(call.cls), chat];
      }
    }

    /** Consulted schedules are the call's keys' own, and no other key's. */
    lemma ConsultedAre(call: Call, ss: seq<Schedule>)
      requires WiredUp() && Consults(call, ss)
      ensures forall i :: 0 <= i < |ss| ==> SchedFor(KeysOf(limits, call)[i]) == ss[i].Value() && ss[i] in Repr()
      ensures |ss| == |KeysOf(limits, call)| && forall i, j :: 0 <= i < j < |ss| ==> ss[i] != ss[j]
    {
    }

    /** Decides over the consulted schedules and commits to all of them, or to none. */
    method DecideAndCommit(ss: seq<Schedule>, now: int, deadline: Deadline) returns (out: Outcome)
      requires forall i, j :: 0 <= i < j < |ss| ==> ss[i] != ss[j]
      requires forall s :: s in ss ==> Sane(s.Value())
      modifies set s | s in ss
      ensures forall i :: 0 <= i < |ss| ==> ss[i].Value() == Written(old(ss[i].Value()), true, now, out)
      ensures Decided(old(Values(ss)), now, deadline, out)
    {
      forall s | s in ss
        ensures Sorted(s.grants) && WellFormed(s.windows)
        ensures Sorted(Evicted(s.Value(), now).grants) && AllGaps(Evicted(s.Value(), now).grants, s.windows)
      {
        EvictedSane(s.Value(), now);
      }
      ghost var was := Values(ss);
      ValuesAt(ss);
      EvictAll(ss, now);
      ValuesAt(ss);
      EvictedAllAt(was, now);
      assert Values(ss) == EvictedAll(was, now);
      assert Ready(ss);
      var t, converged := AcquireFixedPoint(now, ss);
      if !converged {
        return NotConverged;
      }
      if deadline.Until? && t > deadline.at {
        return Refused;
      }
      CommitAll(ss, t);
      return Granted(t);
    }

    lemma OthersNotConsulted(call: Call, ss: seq<Schedule>, key: Key)
      requires WiredUp() && Consults(call, ss) && key !in KeysOf(limits, call)
      ensures key.GlobalKey? ==> GlobalSchedule(key.cls) !in ss
      ensures key.PerChat? && key.chat in chats ==> chats[key.chat] !in ss
    {
      assert KeysOf(limits, call)[0] == GlobalKey(call.cls);
      if |ss| == 2 { assert KeysOf(limits, call)[1] == PerChat(ChatKeyOf(call)); }
    }

    /** The decision's effect on every key's schedule, consulted or not. */
    method DecideOn(call: Call, ss: seq<Schedule>, now: int, deadline: Deadline) returns (out: Outcome, ghost was: seq<Sched>)
      requires WiredUp() && Consults(call, ss)
      requires forall key :: key in KeysOf(limits, call) ==> Sane(SchedFor(key))
      modifies set s | s in ss
      ensures WiredUp()
      ensures |was| == |KeysOf(limits, call)| && forall i :: 0 <= i < |was| ==> was[i] == old(SchedFor(KeysOf(limits, call)[i]))
      ensures Decided(was, now, deadline, out)
      ensures forall key: Key :: SchedFor(key) == Written(old(SchedFor(key)), key in KeysOf(limits, call), now, out)
    {
      hide Sane, Written, Decided, WindowsOf, KeysOf;
      ghost var keys := KeysOf(limits, call);
      ConsultedAre(call, ss);
      was := Values(ss);
      ValuesAt(ss);
      out := DecideAndCommit(ss, now, deadline);
      ConsultedAre(call, ss);
      forall key: Key
        ensures SchedFor(key) == Written(old(SchedFor(key)), key in keys, now, out)
      {
        if key in keys {
          var i :| 0 <= i < |keys| && keys[i] == key;
          assert SchedFor(key) == ss[i].Value();
        } else {
          OthersNotConsulted(call, ss, key);
          WrittenUncharged(old(SchedFor(key)), now, out);
        }
      }
    }

    /** acquire, on the schedules alone. */
    method AcquireOn(call: Call, now: int, deadline: Deadline) returns (out: Outcome, ghost was: seq<Sched>)
      requires WiredUp()
      requires forall key :: key in KeysOf(limits, call) ==> Sane(SchedFor(key))
      modifies this, Repr()
      ensures WiredUp() && fresh(Repr() - old(Repr()))
      ensures |was| == |KeysOf(limits, call)| && forall i :: 0 <= i < |was| ==> was[i] == old(SchedFor(KeysOf(limits, call)[i]))
      ensures Decided(was, now, deadline, out)
      ensures forall key: Key :: SchedFor(key) == Written(old(SchedFor(key)), key in KeysOf(limits, call), now, out)
    {
      hide Sane, Written, Decided, PaceWindows, QuotaWindows;
      var ss := Consulted(call);
      ConsultedAre(call, ss);
      out, was := DecideOn(call, ss, now, deadline);
    }

    /** One limiter call. */
    method Acquire(call: Call, now: int, deadline: Deadline) returns (out: Outcome)
      requires Valid()
      modifies this, Repr()
      ensures Valid() && fresh(Repr() - old(Repr()))
      ensures Step(limits, old(Abstract()), call, now, deadline, out, Abstract())
    {
      hide Sane, Written, Decided, Step;
      ghost var st := Abstract();
      AbstractSane();
      AbstractMatches();
      forall key | key in KeysOf(limits, call) ensures Sane(SchedFor(key)) { assert SchedSane(key); }
      ghost var was;
      out, was := AcquireOn(call, now, deadline);
      AbstractMatches();
      assert SchedulesOf(limits, st, KeysOf(limits, call), was);
      assert Writes(limits, st, KeysOf(limits, call), now, out, Abstract());
      StepFromWrites(limits, st, call, now, deadline, out, Abstract(), was);
      ValidFromAbstract();
    }

    lemma AbstractMatches()
      requires WiredUp()
      ensures forall key: Key :: SchedOf(limits, Abstract(), key) == SchedFor(key)
    {
      forall key: Key ensures SchedOf(limits, Abstract(), key) == SchedFor(key) { AbstractAt(key); }
    }

    lemma ValidFromAbstract()
      requires WiredUp() && AllSane(limits, Abstract())
      ensures Valid()
    {
      AbstractMatches();
      forall key: Key ensures SchedSane(key) { assert KeySane(limits, Abstract(), key); }
    }

    lemma AbstractSane()
      requires Valid()
      ensures AllSane(limits, Abstract())
    {
      forall key: Key
        ensures KeySane(limits, Abstract(), key)
      {
        AbstractAt(key);
        assert SchedSane(key);
      }
    }
  }

  /** What a decision over schedules was, none of them yet written. */
  ghost predicate Decided(was: seq<Sched>, now: int, deadline: Deadline, out: Outcome) {
    var ss := EvictedAll(was, now);
    match out
    case Granted(t) => IsJoint(ss, now, t) && (deadline.Until? ==> t <= deadline.at)
    case Refused => exists t :: IsJoint(ss, now, t) && deadline.Until? && deadline.at < t
    case NotConverged => MAX_ACQUIRE_PASSES <= |AllCandidates(ss)|
  }

  /** was holds the keys' schedules in st. */
  ghost predicate SchedulesOf(limits: Limits, st: State, keys: seq<Key>, was: seq<Sched>)
    requires Complete(limits)
  {
    |was| == |keys| && forall i :: 0 <= i < |was| ==> was[i] == SchedOf(limits, st, keys[i])
  }

  lemma StepFromWrites(limits: Limits, st: State, call: Call, now: int, deadline: Deadline, out: Outcome, st': State, was: seq<Sched>)
    requires Complete(limits) && AllSane(limits, st) && Decided(was, now, deadline, out)
    requires SchedulesOf(limits, st, KeysOf(limits, call), was) && Writes(limits, st, KeysOf(limits, call), now, out, st')
    ensures Step(limits, st, call, now, deadline, out, st') && AllSane(limits, st')
  {
    var keys := KeysOf(limits, call);
    ChargedIsEvicted(limits, st, keys, now, was);
    hide AllSane, SchedulesOf, Writes, KeysOf, Charge, EvictedAll, AllCandidates, IsJoint;
    StepKeepsSane(limits, st, Event(call, now, deadline, out), st');
  }

  lemma ChargedIsEvicted(limits: Limits, st: State, keys: seq<Key>, now: int, was: seq<Sched>)
    requires Complete(limits) && SchedulesOf(limits, st, keys, was)
    ensures Charge(limits, st, keys, now) == EvictedAll(was, now)
  {
    hide SchedOf, Evicted;
    ChargeAt(limits, st, keys, now);
    EvictedAllAt(was, now);
  }

  ghost function EvictedAll(ss: seq<Sched>, now: int): seq<Sched> {
    if ss == [] then [] else [Evicted(ss[0], now)] + EvictedAll(ss[1..], now)
  }

  lemma EvictedAllAt(ss: seq<Sched>, now: int)
    ensures |EvictedAll(ss, now)| == |ss|
    ensures forall i :: 0 <= i < |ss| ==> EvictedAll(ss, now)[i] == Evicted(ss[i], now)
  {
    if ss != [] { EvictedAllAt(ss[1..], now); }
  }
}
