/**
 How late is too late. Callers read their clock before they take the limiter's
 lock, so calls can reach it out of order. A call one clock unit late is
 harmless; one that is two late can find that a grant still inside its window
 has already been forgotten.
 */
module ClockHypothesis {
  import opened GoInt
  import opened SortedSeq
  import opened Windows
  import opened Schedules

  /** Messages at one per per; everything else unbounded. */
  function OnePer(per: int): Limits {
    var none := Rate(0, 0);
    map[Message := ClassLimits(Rate(1, per), none, none), Edit := ClassLimits(none, none, none), Other := ClassLimits(none, none, none)]
  }

  const SEND := Call(Message, ChatNone)

  /** A grant; a call just past its window, refused for its deadline, that forgets it; a call two units late. */
  function Late(per: int): seq<Event> {
    [Event(SEND, 0, NoDeadline, Granted(0)), Event(SEND, per + 1, Until(per), Refused), Event(SEND, per - 1, NoDeadline, Granted(per - 1))]
  }

  function After(per: int, past: seq<int>, grants: seq<int>): State {
    map[GlobalKey(Message) := Sched(false, [Window(1, per)], past, grants)]
  }

  lemma OneWindow(per: int)
    requires 1 <= per
    ensures Complete(OnePer(per)) && WindowsOf(OnePer(per), GlobalKey(Message)) == [Window(1, per)]
    ensures MaxPer([Window(1, per)]) == per
    ensures KeysOf(OnePer(per), SEND) == [GlobalKey(Message)]
  {
    DivBounds(per, 1);
    assert [Window(1, per)][1..] == [];
    forall c: MethodClass ensures c in OnePer(per) { match c case Message => case Edit => case Other => }
  }

  /** One message call at its own now, against a schedule that holds past and grants: its window is free, so only a deadline refuses it. */
  lemma MessageStep(per: int, st: State, past: seq<int>, grants: seq<int>, now: int, deadline: Deadline, past': seq<int>, kept: seq<int>)
    requires 1 <= per
    requires MessageSched(per, st) == Sched(false, [Window(1, per)], past, grants)
    requires st.Keys <= {GlobalKey(Message)}
    requires Evicted(Sched(false, [Window(1, per)], past, grants), now) == Sched(false, [Window(1, per)], past', kept)
    requires Gap(Insert(kept, now), Window(1, per))
    ensures Complete(OnePer(per))
    ensures deadline.NoDeadline? ==> Step(OnePer(per), st, SEND, now, deadline, Granted(now), After(per, past', Insert(kept, now)))
    ensures deadline.Until? && deadline.at < now ==> Step(OnePer(per), st, SEND, now, deadline, Refused, After(per, past', kept))
  {
    OneWindow(per);
    var limits := OnePer(per);
    var s := Sched(false, [Window(1, per)], past', kept);
    var keys := KeysOf(limits, SEND);
    assert Charge(limits, st, keys, now) == [s] by { assert Charge(limits, st, keys[1..], now) == []; }
    assert Admits(s, now);
    assert IsJoint([s], now, now);
  }

  function MessageSched(per: int, st: State): Sched {
    if GlobalKey(Message) in st then st[GlobalKey(Message)] else Sched(false, [Window(1, per)], [], [])
  }

  lemma InsertNone(s: seq<int>, t: int)
    requires s == []
    ensures Insert(s, t) == [t]
  {
  }

  lemma EvictNothing(per: int, past: seq<int>, none: seq<int>, now: int)
    requires none == []
    ensures var s := Sched(false, [Window(1, per)], past, none); Evicted(s, now) == s
  {
    assert Idx(none, now - MaxPer([Window(1, per)])) == 0;
    assert none[..0] == none && none[0..] == none && past + none == past;
  }

  lemma FirstStep(per: int)
    requires 1 <= per
    ensures Complete(OnePer(per)) && Step(OnePer(per), map[], SEND, 0, NoDeadline, Granted(0), After(per, [], [0]))
  {
    hide *;
    FirstStepAt(per, 0, []);
  }

  lemma FirstStepAt(per: int, now: int, none: seq<int>)
    requires 1 <= per && none == []
    ensures Complete(OnePer(per)) && Step(OnePer(per), map[], SEND, now, NoDeadline, Granted(now), After(per, none, [now]))
  {
    hide Step;
    OneWindow(per);
    EvictNothing(per, none, none, now);
    InsertNone(none, now);
    hide Idx, Insert, Evicted;
    MessageStep(per, map[], none, none, now, NoDeadline, none, none);
  }

  lemma RefusedStep(per: int, now: int, deadline: Deadline, none: seq<int>)
    requires 1 <= per && none == [] && now == per + 1 && deadline == Until(per)
    ensures Complete(OnePer(per)) && Step(OnePer(per), After(per, [], [0]), SEND, now, deadline, Refused, After(per, [0], none))
  {
    hide Step;
    OneWindow(per);
    IdxOne(0, 1);
    assert [] + [0][..1] == [0] && [0][1..] == none;
    InsertNone(none, now);
    hide Insert;
    MessageStep(per, After(per, [], [0]), [], [0], now, deadline, [0], none);
  }

  lemma LateStep(per: int, now: int, past: seq<int>, none: seq<int>)
    requires 1 <= per && none == [] && now == per - 1
    ensures Complete(OnePer(per)) && Step(OnePer(per), After(per, past, none), SEND, now, NoDeadline, Granted(now), After(per, past, [now]))
  {
    hide Step;
    OneWindow(per);
    EvictNothing(per, past, none, now);
    InsertNone(none, now);
    hide Idx, Insert, Evicted;
    MessageStep(per, After(per, past, none), past, none, now, NoDeadline, past, none);
  }

  lemma LateRun(per: int)
    requires 1 <= per
    ensures Complete(OnePer(per)) && IsRun(OnePer(per), map[], Late(per), After(per, [0], [per - 1]))
  {
    hide Step;
    var limits, e, none := OnePer(per), Late(per), [];
    var s1, s2, s3 := After(per, [], [0]), After(per, [0], none), After(per, [0], [per - 1]);
    FirstStep(per);
    RefusedStep(per, per + 1, Until(per), none);
    LateStep(per, per - 1, [0], none);
    assert e[1..] == [e[1], e[2]] && e[1..][1..] == [e[2]] && [e[2]][1..] == [];
    assert IsRun(limits, s3, [], s3);
    assert IsRun(limits, s2, [e[2]], s3);
    assert IsRun(limits, s1, e[1..], s3);
  }

  lemma LateGrants(per: int)
    requires 1 <= per
    ensures Complete(OnePer(per)) && GrantedOn(OnePer(per), Late(per), GlobalKey(Message)) == [0, per - 1]
    ensures CountIn([0, per - 1], 0, per) == 2
  {
    OneWindow(per);
    var limits, e, key := OnePer(per), Late(per), GlobalKey(Message);
    hide WindowsOf, KeysOf;
    assert e[1..] == [e[1], e[2]] && e[1..][1..] == [e[2]] && [e[2]][1..] == [];
    assert GrantedOn(limits, [e[2]], key) == [per - 1];
    assert GrantedOn(limits, e[1..], key) == [per - 1];
    assert [0, per - 1][1..] == [per - 1] && [per - 1][1..] == [];
    assert CountIn([per - 1], 0, per) == 1;
  }

  /** A run whose calls are late by at most that much breaks a window of one of its keys. */
  ghost predicate Breaks(limits: Limits, events: seq<Event>, st': State, key: Key, w: Window, late: int) {
    && Complete(limits) && IsRun(limits, map[], events, st') && LateByAtMost(events, late)
    && w in WindowsOf(limits, key) && 0 <= w.per && !AtMost(GrantedOn(limits, events, key), w)
  }

  /** For every window length there is a run, its one late call two units late, that puts two grants in a window of one. */
  lemma TwoLateBreaks(per: int)
    requires 1 <= per
    ensures Breaks(OnePer(per), Late(per), After(per, [0], [per - 1]), GlobalKey(Message), Window(1, per), 2)
  {
    OneWindow(per);
    LateRun(per);
    LateGrants(per);
    LateIsLate(per);
    TwoInOne(per);
    hide *;
    IsBreak(OnePer(per), Late(per), After(per, [0], [per - 1]), GlobalKey(Message), Window(1, per), 2);
  }

  lemma IsBreak(limits: Limits, events: seq<Event>, st': State, key: Key, w: Window, late: int)
    requires Complete(limits) && IsRun(limits, map[], events, st') && LateByAtMost(events, late)
    requires w in WindowsOf(limits, key) && 0 <= w.per && !AtMost(GrantedOn(limits, events, key), w)
    ensures Breaks(limits, events, st', key, w, late)
  {
    hide IsRun, LateByAtMost, WindowsOf, AtMost, GrantedOn;
  }

  lemma LateIsLate(per: int)
    requires 1 <= per
    ensures LateByAtMost(Late(per), 2)
  {
  }

  lemma TwoInOne(per: int)
    requires 1 <= per
    ensures !AtMost([0, per - 1], Window(1, per))
  {
    assert CountIn([0, per - 1], 0, per) == 2 by { LateGrants(per); }
  }

  /** No run of calls that late ever breaks a window, if and only if none comes more than one clock unit late. */
  lemma WindowsKeptExactlyWhenBarelyLate(late: int)
    ensures late <= 1 <==> forall limits, events, st', key, w :: !Breaks(limits, events, st', key, w, late)
  {
    hide IsRun, AtMost, GrantedOn, WindowsOf;
    if late <= 1 {
      forall limits, events, st', key, w
        ensures !Breaks(limits, events, st', key, w, late)
      {
        if Breaks(limits, events, st', key, w, late) { NoWindowEverBroken(limits, events, st', key, w); }
      }
    } else {
      TwoLateBreaks(1);
      assert Breaks(OnePer(1), Late(1), After(1, [0], [0]), GlobalKey(Message), Window(1, 1), late);
    }
  }

  lemma IdxOne(x: int, t: int)
    ensures Idx([x], t) == if t <= x then 0 else 1
  {
  }
}
