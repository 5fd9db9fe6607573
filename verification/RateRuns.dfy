/**
 What the configured rates mean for the calls of a run: which instants they
 allow, told from the calls and the configuration alone.
 */
module RateRuns {
  import opened GoInt
  import opened SortedSeq
  import opened Windows
  import opened Schedules

  // ---------- What a rate asks for ----------

  /** Never more than count in a half-open interval of length per; an unbounded rate asks nothing. */
  ghost predicate Capped(s: seq<int>, r: Rate) {
    0 < r.count ==> AtMost(s, Window(r.count, r.per))
  }

  /** Each is at least the count-th part of per after the one before it. */
  ghost predicate Paced(s: seq<int>, r: Rate) {
    0 < r.count ==> forall k :: 0 < k < |s| ==> r.per <= r.count * (s[k] - s[k - 1])
  }

  ghost predicate RatesOk(limits: Limits) {
    Complete(limits) && forall c: MethodClass :: c in limits ==> 0 <= limits[c].global.per && 0 <= limits[c].chatRate.per && 0 <= limits[c].chatCap.per
  }

  /** Chats charged together: the same chat, or both of them unknown, which is what the reserved key stands for. */
  predicate SharesChat(a: ChatTarget, b: ChatTarget) {
    a == b || (Unknown(a) && Unknown(b))
  }

  predicate Unknown(a: ChatTarget) {
    a.ChatUnknown? || a == ChatKnown("\0unknown")
  }

  /** The instants granted to calls of one class, as they were granted. */
  function GrantsOfClass(events: seq<Event>, cls: MethodClass): seq<int> {
    if events == [] then []
    else (if events[0].out.Granted? && events[0].call.cls == cls then [events[0].out.t] else []) + GrantsOfClass(events[1..], cls)
  }

  /** The instants granted to calls of one class to one chat, as they were granted. */
  function GrantsOfChat(events: seq<Event>, cls: MethodClass, chat: ChatTarget): seq<int> {
    if events == [] then []
    else
      (if events[0].out.Granted? && events[0].call.cls == cls && SharesChat(events[0].call.chat, chat) then [events[0].out.t] else [])
      + GrantsOfChat(events[1..], cls, chat)
  }

  /** The class's instants, in ascending order, are within the class's own rate. */
  ghost predicate ClassKept(global: Rate, grants: seq<int>) {
    Capped(Sort(grants), global) && Paced(Sort(grants), global)
  }

  /** A chat's instants were granted in order and are within its rate and its cap; nothing is asked of a chat neither bounds. */
  ghost predicate ChatKept(limits: ClassLimits, grants: seq<int>) {
    0 < limits.chatRate.count || 0 < limits.chatCap.count ==>
      Sorted(grants) && Capped(grants, limits.chatRate) && Paced(grants, limits.chatRate) && Capped(grants, limits.chatCap)
  }

  /** After the given calls, one more grant to call at u keeps to every configured rate. */
  ghost predicate Allowed(limits: Limits, prior: seq<Event>, call: Call, u: int)
    requires Complete(limits)
  {
    && ClassKept(limits[call.cls].global, GrantsOfClass(prior, call.cls) + [u])
    && (call.chat != ChatNone ==> ChatKept(limits[call.cls], GrantsOfChat(prior, call.cls, call.chat) + [u]))
  }

  // ---------- The windows of a rate ----------

  lemma CeilIsLeast(per: int, count: int, d: int)
    requires 0 < count && 0 <= per
    ensures CeilDuration(per, count) <= d <==> per <= count * d
  {
    var c := CeilDuration(per, count);
    DivBounds(per + count - 1, count);
    assert c * count <= per + count - 1 < c * count + count;
    if c <= d { MulMonotone(c, d, count); } else { MulMonotone(d, c - 1, count); }
  }

  lemma PacedIsGap(s: seq<int>, r: Rate)
    requires 0 < r.count && 0 <= r.per
    ensures Gap(s, Window(1, CeilDuration(r.per, r.count))) <==> Paced(s, r)
  {
    var w := Window(1, CeilDuration(r.per, r.count));
    hide CeilDuration;
    if Gap(s, w) {
      forall k | 0 < k < |s| ensures r.per <= r.count * (s[k] - s[k - 1]) {
        assert w.per <= s[k] - s[k - 1];
        CeilIsLeast(r.per, r.count, s[k] - s[k - 1]);
      }
    }
    if Paced(s, r) {
      forall j, k | 0 <= j < |s| && 0 <= k < |s| && k == j + w.count ensures w.per <= s[k] - s[j] {
        assert r.per <= r.count * (s[k] - s[k - 1]);
        CeilIsLeast(r.per, r.count, s[k] - s[k - 1]);
      }
    }
  }

  /** The windows made of a rate ask for what the rate does. */
  lemma PaceWindowsAre(s: seq<int>, r: Rate)
    requires Sorted(s) && 0 <= r.per
    ensures AllGaps(s, PaceWindows(r)) <==> Capped(s, r) && Paced(s, r)
    ensures PaceWindows(r) == [] <==> r.count <= 0
  {
    if 0 < r.count {
      PacedIsGap(s, r);
      GapMeansAtMost(s, Window(r.count, r.per));
      hide Gap, CeilDuration, Paced, AtMost;
      assert Window(1, CeilDuration(r.per, r.count)) in PaceWindows(r) && Window(r.count, r.per) in PaceWindows(r);
    }
  }

  lemma QuotaWindowsAre(s: seq<int>, r: Rate)
    requires Sorted(s) && 0 <= r.per
    ensures AllGaps(s, QuotaWindows(r)) <==> Capped(s, r)
    ensures QuotaWindows(r) == [] <==> r.count <= 0
  {
    if 0 < r.count {
      GapMeansAtMost(s, Window(r.count, r.per));
      hide Gap, AtMost;
      assert Window(r.count, r.per) in QuotaWindows(r);
    }
  }

  lemma GapsOfBoth(s: seq<int>, a: seq<Window>, b: seq<Window>)
    ensures AllGaps(s, a + b) <==> AllGaps(s, a) && AllGaps(s, b)
  {
    hide Gap;
    if AllGaps(s, a + b) {
      forall w | w in a ensures Gap(s, w) { assert w in a + b; }
      forall w | w in b ensures Gap(s, w) { assert w in a + b; }
    }
  }

  lemma ClassWindows(limits: Limits, cls: MethodClass, s: seq<int>)
    requires RatesOk(limits) && Sorted(s)
    ensures AllGaps(s, WindowsOf(limits, GlobalKey(cls))) <==> Capped(s, limits[cls].global) && Paced(s, limits[cls].global)
    ensures WindowsOf(limits, GlobalKey(cls)) == [] <==> limits[cls].global.count <= 0
  {
    PaceWindowsAre(s, limits[cls].global);
    hide PaceWindows, Capped, Paced, AllGaps;
  }

  lemma ChatWindows(limits: Limits, k: ChatKey, s: seq<int>)
    requires RatesOk(limits) && Sorted(s)
    ensures var c := limits[k.cls];
            AllGaps(s, WindowsOf(limits, PerChat(k))) <==> Capped(s, c.chatRate) && Paced(s, c.chatRate) && Capped(s, c.chatCap)
    ensures WindowsOf(limits, PerChat(k)) == [] <==> limits[k.cls].chatRate.count <= 0 && limits[k.cls].chatCap.count <= 0
  {
    var c := limits[k.cls];
    PaceWindowsAre(s, c.chatRate);
    QuotaWindowsAre(s, c.chatCap);
    hide Capped, Paced, AllGaps;
    GapsOfBoth(s, PaceWindows(c.chatRate), QuotaWindows(c.chatCap));
    hide PaceWindows, QuotaWindows;
  }

  // ---------- The calls of a key ----------

  lemma {:induction false} ClassGrants(limits: Limits, events: seq<Event>, cls: MethodClass)
    requires RatesOk(limits) && 0 < limits[cls].global.count
    ensures GrantedOn(limits, events, GlobalKey(cls)) == GrantsOfClass(events, cls)
  {
    ClassWindows(limits, cls, []);
    hide WindowsOf;
    if events != [] { ClassGrants(limits, events[1..], cls); }
  }

  lemma SharesKey(cls: MethodClass, a: ChatTarget, b: ChatTarget)
    requires a != ChatNone && b != ChatNone
    ensures SharesChat(a, b) <==> ChatKeyOf(Call(cls, a)) == ChatKeyOf(Call(cls, b))
  {
  }

  lemma CallCharges(limits: Limits, call: Call, k: ChatKey)
    requires RatesOk(limits) && (0 < limits[k.cls].chatRate.count || 0 < limits[k.cls].chatCap.count)
    ensures PerChat(k) in KeysOf(limits, call) <==> call.chat != ChatNone && ChatKeyOf(call) == k
  {
    ChatWindows(limits, k, []);
    hide WindowsOf;
  }

  lemma {:induction false} ChatGrants(limits: Limits, events: seq<Event>, cls: MethodClass, chat: ChatTarget)
    requires RatesOk(limits) && chat != ChatNone && (0 < limits[cls].chatRate.count || 0 < limits[cls].chatCap.count)
    ensures GrantedOn(limits, events, PerChat(ChatKeyOf(Call(cls, chat)))) == GrantsOfChat(events, cls, chat)
  {
    var k := ChatKeyOf(Call(cls, chat));
    ChatWindows(limits, k, []);
    hide WindowsOf, KeysOf, SharesChat;
    if events != [] {
      var call := events[0].call;
      CallCharges(limits, call, k);
      if call.chat != ChatNone && call.cls == cls { SharesKey(cls, call.chat, chat); }
      if call.chat == ChatNone { NoneSharesNone(chat); }
      ChatGrants(limits, events[1..], cls, chat);
    }
  }

  lemma NoneSharesNone(chat: ChatTarget)
    ensures chat != ChatNone ==> !SharesChat(ChatNone, chat)
  {
  }

  // ---------- Sorted copies ----------

  lemma SortIs(s: seq<int>, h: seq<int>)
    requires Sorted(h) && multiset(h) == multiset(s)
    ensures Sort(s) == h
  {
    SortSorts(s);
    hide Sort, Sorted;
    SortedUnique(Sort(s), h);
  }

  // ---------- Every run keeps to the rates ----------

  /** What a run's state says of its calls so far. */
  lemma StateAfter(limits: Limits, events: seq<Event>, st: State, key: Key) returns (floor: int)
    requires RatesOk(limits) && IsRun(limits, map[], events, st) && LateByAtMost(events, 1)
    ensures var h, g := History(SchedOf(limits, st, key)), GrantedOn(limits, events, key);
            && Sorted(h) && AllGaps(h, WindowsOf(limits, key)) && multiset(h) == multiset(g) && (key.PerChat? ==> h == g)
  {
    floor := LeastNow(events);
    EmptyStateLegal(limits, floor);
    BarelyLateIsInTime(events, floor);
    RunKeepsWindows(limits, map[], floor, events, st, key);
    FreshHistory(limits, key, GrantedOn(limits, events, key));
  }

  /**
   In every run from a fresh limiter whose calls are late by at most one clock
   unit: the instants granted to each class keep to its rate, and those granted to
   each chat of a class keep to the chat's rate and its cap.
   */
  lemma RatesAreKept(limits: Limits, events: seq<Event>, st: State, cls: MethodClass, chat: ChatTarget)
    requires RatesOk(limits) && IsRun(limits, map[], events, st) && LateByAtMost(events, 1)
    ensures ClassKept(limits[cls].global, GrantsOfClass(events, cls))
    ensures chat != ChatNone ==> ChatKept(limits[cls], GrantsOfChat(events, cls, chat))
  {
    hide IsRun, LateByAtMost, Sorted, Capped, Paced, AllGaps, WindowsOf, SchedOf, GrantedOn, GrantsOfClass, GrantsOfChat, RatesOk;
    RatesComplete(limits);
    if 0 < limits[cls].global.count {
      var key := GlobalKey(cls);
      var floor := StateAfter(limits, events, st, key);
      var h := History(SchedOf(limits, st, key));
      ClassGrants(limits, events, cls);
      SortIs(GrantsOfClass(events, cls), h);
      ClassWindows(limits, cls, h);
    } else {
      UnboundedKept(Sort(GrantsOfClass(events, cls)), limits[cls].global);
    }
    if chat != ChatNone && (0 < limits[cls].chatRate.count || 0 < limits[cls].chatCap.count) {
      var k := ChatKeyOf(Call(cls, chat));
      var floor := StateAfter(limits, events, st, PerChat(k));
      ChatGrants(limits, events, cls, chat);
      ChatWindows(limits, k, GrantsOfChat(events, cls, chat));
    }
  }

  lemma RatesComplete(limits: Limits)
    requires RatesOk(limits)
    ensures Complete(limits)
  {
  }

  lemma UnboundedKept(s: seq<int>, r: Rate)
    requires r.count <= 0
    ensures Capped(s, r) && Paced(s, r)
  {
  }

  // ---------- Every call gets the earliest instant the rates allow ----------

  /** The state a call finds, and the one it leaves. */
  lemma {:induction false} AroundCall(limits: Limits, st: State, floor: int, events: seq<Event>, st': State, i: nat)
    returns (mid: State, floor': int, next: State)
    requires Complete(limits) && AllLegal(limits, st, floor) && IsRun(limits, st, events, st') && InTime(events, floor) && i < |events|
    ensures IsRun(limits, st, events[..i], mid) && AllLegal(limits, mid, floor') && floor' <= events[i].now
    ensures Step(limits, mid, events[i].call, events[i].now, events[i].deadline, events[i].out, next)
    ensures IsRun(limits, st, events[..i + 1], next)
    decreases i
  {
    hide Step, AllLegal;
    var e := events[0];
    var second: State :| Step(limits, st, e.call, e.now, e.deadline, e.out, second) && IsRun(limits, second, events[1..], st');
    if i == 0 {
      mid, floor', next := st, floor, second;
      assert events[..1] == [e] && [e][1..] == [];
      assert IsRun(limits, second, [], second);
    } else {
      StepKeepsLegal(limits, st, floor, e, second);
      mid, floor', next := AroundCall(limits, second, NextFloor(floor, e.now), events[1..], st', i - 1);
      assert events[..i][1..] == events[1..][..i - 1] && events[..i + 1][1..] == events[1..][..i];
    }
  }

  /** What a schedule's complete history allows, the schedule admits: what is forgotten does not matter. */
  lemma AllowedIsAdmitted(s: Sched, floor: int, now: int, u: int)
    requires Legal(s, floor) && floor <= now <= u
    requires AllGaps(Insert(History(s), u), s.windows)
    requires s.ordered && History(s) != [] ==> History(s)[|History(s)| - 1] <= u
    ensures Admits(Evicted(s, now), u)
  {
    hide Feasible, Gap, Insert, Evicted;
    EvictedLegal(s, floor, now);
    var e := Evicted(s, now);
    assert e.windows == s.windows && e.ordered == s.ordered by { EvictedKeeps(s, now); }
    forall g | g in e.past ensures g < u { assert g + MaxPer(e.windows) <= NextFloor(floor, now); }
    PastPrefixInsert(e.past, e.grants, u);
    InsertSorted(History(s), u);
    KeptLegal(e.past, Insert(e.grants, u), e.windows);
    IsFeasible(e, u);
    if e.grants != [] { assert History(s)[|History(s)| - 1] == e.grants[|e.grants| - 1]; }
  }

  lemma EvictedKeeps(s: Sched, now: int)
    ensures Evicted(s, now).windows == s.windows && Evicted(s, now).ordered == s.ordered
  {
  }

  lemma IsFeasible(s: Sched, u: int)
    requires AllGaps(Insert(s.grants, u), s.windows)
    ensures Feasible(s.grants, s.windows, u)
  {
  }

  /** A key's history as the calls so far made it. */
  ghost predicate HistoryOf(limits: Limits, prior: seq<Event>, st: State, key: Key)
    requires Complete(limits)
  {
    var h, g := History(SchedOf(limits, st, key)), GrantedOn(limits, prior, key);
    Sorted(h) && multiset(h) == multiset(g) && (key.PerChat? ==> h == g)
  }

  lemma ClassAdmits(limits: Limits, prior: seq<Event>, st: State, floor: int, call: Call, now: int, u: int)
    requires RatesOk(limits) && Allowed(limits, prior, call, u) && floor <= now <= u
    requires KeyLegal(limits, st, GlobalKey(call.cls), floor) && HistoryOf(limits, prior, st, GlobalKey(call.cls))
    ensures Admits(Evicted(SchedOf(limits, st, GlobalKey(call.cls)), now), u)
  {
    hide Sorted, Capped, Paced, AllGaps, WindowsOf, SchedOf, GrantedOn, GrantsOfClass, GrantsOfChat, RatesOk, Sort, Insert, Evicted, Admits;
    RatesComplete(limits);
    var key, g := GlobalKey(call.cls), GrantsOfClass(prior, call.cls);
    var s := SchedOf(limits, st, key);
    var h := History(s);
    InsertSorted(h, u);
    if 0 < limits[call.cls].global.count {
      ClassGrants(limits, prior, call.cls);
      SortIs(g + [u], Insert(h, u));
      ClassWindows(limits, call.cls, Insert(h, u));
    } else {
      UnboundedKept(Insert(h, u), limits[call.cls].global);
      ClassWindows(limits, call.cls, Insert(h, u));
    }
    AllowedIsAdmitted(s, floor, now, u);
  }

  lemma ChatAdmits(limits: Limits, prior: seq<Event>, st: State, floor: int, call: Call, now: int, u: int)
    requires RatesOk(limits) && Allowed(limits, prior, call, u) && floor <= now <= u && call.chat != ChatNone
    requires 0 < limits[call.cls].chatRate.count || 0 < limits[call.cls].chatCap.count
    requires KeyLegal(limits, st, PerChat(ChatKeyOf(call)), floor) && HistoryOf(limits, prior, st, PerChat(ChatKeyOf(call)))
    ensures Admits(Evicted(SchedOf(limits, st, PerChat(ChatKeyOf(call))), now), u)
  {
    hide Capped, Paced, AllGaps, WindowsOf, SchedOf, GrantedOn, GrantsOfClass, GrantsOfChat, RatesOk, Sort, Insert, Evicted, Admits;
    RatesComplete(limits);
    var key, g := PerChat(ChatKeyOf(call)), GrantsOfChat(prior, call.cls, call.chat);
    assert Call(call.cls, call.chat) == call;
    var s := SchedOf(limits, st, key);
    ChatGrants(limits, prior, call.cls, call.chat);
    assert History(s) == g;
    assert g != [] ==> g[|g| - 1] <= u by { if g != [] { assert (g + [u])[|g| - 1] <= (g + [u])[|g|]; } }
    AppendNewest(g, u);
    ChatWindows(limits, ChatKeyOf(call), g + [u]);
    AllowedIsAdmitted(s, floor, now, u);
  }

  /** An instant the rates allow is one every schedule of the call admits. */
  lemma AllowedByAll(limits: Limits, prior: seq<Event>, st: State, floor: int, call: Call, now: int, u: int)
    requires RatesOk(limits) && AllLegal(limits, st, floor) && Allowed(limits, prior, call, u) && floor <= now <= u
    requires forall key: Key :: HistoryOf(limits, prior, st, key)
    ensures AllAdmit(Charge(limits, st, KeysOf(limits, call), now), u)
  {
    hide Allowed, RatesOk, WindowsOf, HistoryOf, Admits, Evicted, SchedOf, KeyLegal;
    RatesComplete(limits);
    var keys := KeysOf(limits, call);
    var ss := Charge(limits, st, keys, now);
    ChargeAt(limits, st, keys, now);
    assert KeyLegal(limits, st, keys[0], floor) && HistoryOf(limits, prior, st, keys[0]);
    ClassAdmits(limits, prior, st, floor, call, now, u);
    if |keys| == 2 {
      ChatWindows(limits, ChatKeyOf(call), []);
      assert KeyLegal(limits, st, keys[1], floor) && HistoryOf(limits, prior, st, keys[1]);
      ChatAdmits(limits, prior, st, floor, call, now, u);
    }
  }

  /** What one event adds to its class's instants. */
  function ClassGrant(e: Event, cls: MethodClass): seq<int> {
    if e.out.Granted? && e.call.cls == cls then [e.out.t] else []
  }

  function ChatGrant(e: Event, cls: MethodClass, chat: ChatTarget): seq<int> {
    if e.out.Granted? && e.call.cls == cls && SharesChat(e.call.chat, chat) then [e.out.t] else []
  }

  lemma GrantsHead(events: seq<Event>, cls: MethodClass, chat: ChatTarget)
    ensures events == [] ==> GrantsOfClass(events, cls) == [] && GrantsOfChat(events, cls, chat) == []
    ensures events != [] ==> GrantsOfClass(events, cls) == ClassGrant(events[0], cls) + GrantsOfClass(events[1..], cls)
    ensures events != [] ==> GrantsOfChat(events, cls, chat) == ChatGrant(events[0], cls, chat) + GrantsOfChat(events[1..], cls, chat)
  {
    hide SharesChat;
  }

  lemma Associates(a: seq<int>, b: seq<int>, c: seq<int>)
    ensures a + (b + c) == (a + b) + c && a + [] == a && [] + a == a
  {
  }

  lemma {:induction false} GrantsOfMore(events: seq<Event>, e: Event, cls: MethodClass, chat: ChatTarget)
    ensures GrantsOfClass(events + [e], cls) == GrantsOfClass(events, cls) + ClassGrant(e, cls)
    ensures GrantsOfChat(events + [e], cls, chat) == GrantsOfChat(events, cls, chat) + ChatGrant(e, cls, chat)
  {
    hide *;
    var more := events + [e];
    GrantsHead(events, cls, chat);
    GrantsHead(more, cls, chat);
    if events == [] {
      assert more[1..] == [];
      GrantsHead(more[1..], cls, chat);
      Associates(ClassGrant(e, cls), [], []);
      Associates(ChatGrant(e, cls, chat), [], []);
    } else {
      assert more[1..] == events[1..] + [e];
      GrantsOfMore(events[1..], e, cls, chat);
      Associates(ClassGrant(events[0], cls), GrantsOfClass(events[1..], cls), ClassGrant(e, cls));
      Associates(ChatGrant(events[0], cls, chat), GrantsOfChat(events[1..], cls, chat), ChatGrant(e, cls, chat));
    }
  }

  lemma OwnGrant(e: Event)
    requires e.out.Granted?
    ensures ClassGrant(e, e.call.cls) == [e.out.t] && ChatGrant(e, e.call.cls, e.call.chat) == [e.out.t]
  {
  }

  /**
   Told from the calls and the configured rates alone: in every run from a fresh
   limiter whose calls are late by at most one clock unit, a call is granted the
   earliest instant from its own now on that the calls granted before it leave
   within every rate; and it is refused exactly when that instant is past its
   deadline.
   */
  lemma GrantsAreEarliestAllowed(limits: Limits, events: seq<Event>, st': State, i: nat)
    requires RatesOk(limits) && IsRun(limits, map[], events, st') && LateByAtMost(events, 1) && i < |events|
    ensures var e, prior := events[i], events[..i];
            match e.out
            case Granted(t) =>
              && e.now <= t && (e.deadline.Until? ==> t <= e.deadline.at)
              && Allowed(limits, prior, e.call, t) && forall u :: e.now <= u < t ==> !Allowed(limits, prior, e.call, u)
            case Refused => e.deadline.Until? && forall u :: e.now <= u <= e.deadline.at ==> !Allowed(limits, prior, e.call, u)
            case NotConverged => true
  {
    hide AllLegal, IsJoint, Charge, Allowed, HistoryOf, RatesOk, KeysOf, SchedOf, AllAdmit, Writes, InTime, ClassKept, ChatKept;
    var e, prior, floor := events[i], events[..i], LeastNow(events);
    RatesComplete(limits);
    EmptyStateLegal(limits, floor);
    BarelyLateIsInTime(events, floor);
    var mid, floor', next := AroundCall(limits, map[], floor, events, st', i);
    hide IsRun;
    assert LateByAtMost(prior, 1) && LateByAtMost(events[..i + 1], 1);
    hide LateByAtMost;
    forall key: Key ensures HistoryOf(limits, prior, mid, key) { HistoryIs(limits, prior, mid, key); }
    var ss := Charge(limits, mid, KeysOf(limits, e.call), e.now);
    forall u | e.now <= u && Allowed(limits, prior, e.call, u)
      ensures AllAdmit(ss, u)
    {
      AllowedByAll(limits, prior, mid, floor', e.call, e.now, u);
    }
    if e.out.Granted? {
      assert events[..i + 1] == prior + [e];
      RatesAreKept(limits, events[..i + 1], next, e.call.cls, e.call.chat);
      GrantKept(limits, prior, e);
      JointIs(ss, e.now, e.out.t);
    }
    if e.out.Refused? {
      var t :| IsJoint(ss, e.now, t) && e.deadline.at < t;
      JointIs(ss, e.now, t);
    }
  }

  lemma JointIs(ss: seq<Sched>, now: int, t: int)
    requires IsJoint(ss, now, t)
    ensures now <= t && forall u :: now <= u < t ==> !AllAdmit(ss, u)
  {
  }

  lemma HistoryIs(limits: Limits, prior: seq<Event>, st: State, key: Key)
    requires RatesOk(limits) && IsRun(limits, map[], prior, st) && LateByAtMost(prior, 1)
    ensures Complete(limits) && HistoryOf(limits, prior, st, key)
  {
    var floor := StateAfter(limits, prior, st, key);
  }

  lemma GrantKept(limits: Limits, prior: seq<Event>, e: Event)
    requires Complete(limits) && e.out.Granted?
    requires ClassKept(limits[e.call.cls].global, GrantsOfClass(prior + [e], e.call.cls))
    requires e.call.chat != ChatNone ==> ChatKept(limits[e.call.cls], GrantsOfChat(prior + [e], e.call.cls, e.call.chat))
    ensures Allowed(limits, prior, e.call, e.out.t)
  {
    hide ClassKept, ChatKept, GrantsOfClass, GrantsOfChat, ClassGrant, ChatGrant;
    GrantsOfMore(prior, e, e.call.cls, e.call.chat);
    OwnGrant(e);
  }
}
