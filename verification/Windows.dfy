/**
 Sliding-window schedules: a sorted list of grant instants and the windows it
 must satisfy. Instants and durations are whole nanoseconds.
 */
module Windows {
  import opened GoInt
  import opened SortedSeq

  /** No half-open interval of length per contains more than count grants. */
  datatype Window = Window(count: int, per: int)

  datatype Rate = Rate(count: int, per: int)

  function CeilDuration(w: int, n: int): int
    requires n > 0
  {
    TruncDiv(w + n - 1, n)
  }

  /** Steady emission at count per per: an even pace, and the bound itself. */
  function PaceWindows(r: Rate): seq<Window> {
    if r.count <= 0 then []
    else
      var pace, bound := Window(1, CeilDuration(r.per, r.count)), Window(r.count, r.per);
      if pace == bound then [pace] else [pace, bound]
  }

  function QuotaWindows(r: Rate): seq<Window> {
    if r.count <= 0 then [] else [Window(r.count, r.per)]
  }

  ghost predicate WellFormed(ws: seq<Window>) {
    forall w :: w in ws ==> 1 <= w.count
  }

  ghost predicate Gap(s: seq<int>, w: Window) {
    forall j, k :: 0 <= j < |s| && 0 <= k < |s| && k == j + w.count ==> w.per <= s[k] - s[j]
  }

  /** Every window's invariant on the whole sorted list. */
  ghost predicate AllGaps(s: seq<int>, ws: seq<Window>) {
    forall w :: w in ws ==> Gap(s, w)
  }

  /** One more grant at t keeps every window's invariant on the whole list. */
  ghost predicate Feasible(s: seq<int>, ws: seq<Window>, t: int) {
    AllGaps(Insert(s, t), ws)
  }

  // ---------- What a gap means ----------

  /** How many grants fall in the half-open interval of length len from x. */
  function CountIn(s: seq<int>, x: int, len: int): nat {
    if s == [] then 0 else (if x <= s[0] < x + len then 1 else 0) + CountIn(s[1..], x, len)
  }

  lemma {:induction false} CountByIndex(s: seq<int>, x: int, len: int)
    requires Sorted(s) && 0 <= len
    ensures CountIn(s, x, len) == Idx(s, x + len) - Idx(s, x)
  {
    if s != [] {
      CountByIndex(s[1..], x, len);
    }
  }

  lemma GapBoundsCount(s: seq<int>, w: Window, x: int)
    requires Sorted(s) && 0 <= w.count && 0 <= w.per && Gap(s, w)
    ensures CountIn(s, x, w.per) <= w.count
  {
    CountByIndex(s, x, w.per);
    var i, i' := Idx(s, x), Idx(s, x + w.per);
    if i + w.count < |s| {
      assert w.per <= s[i + w.count] - s[i];
      assert i' <= i + w.count;
    }
  }

  lemma CountForcesGap(s: seq<int>, w: Window, j: nat, k: nat)
    requires Sorted(s) && 0 <= w.count && 0 <= w.per
    requires k < |s| && k == j + w.count && CountIn(s, s[j], w.per) <= w.count
    ensures w.per <= s[k] - s[j]
  {
    CountByIndex(s, s[j], w.per);
    assert Idx(s, s[j]) <= j;
    assert Idx(s, s[j] + w.per) <= k;
  }

  lemma CountsForceGap(s: seq<int>, w: Window)
    requires Sorted(s) && 0 <= w.count && 0 <= w.per
    requires AtMost(s, w)
    ensures Gap(s, w)
  {
    forall j, k | 0 <= j < |s| && 0 <= k < |s| && k == j + w.count
      ensures w.per <= s[k] - s[j]
    {
      CountForcesGap(s, w, j, k);
    }
  }

  /** No half-open interval of length per holds more than count grants. */
  ghost predicate AtMost(s: seq<int>, w: Window) {
    forall x :: CountIn(s, x, w.per) <= w.count
  }

  /** The gap condition checked on sorted grants is the documented one. */
  lemma GapMeansAtMost(s: seq<int>, w: Window)
    requires Sorted(s) && 0 <= w.count && 0 <= w.per
    ensures Gap(s, w) <==> AtMost(s, w)
  {
    if Gap(s, w) {
      forall x ensures CountIn(s, x, w.per) <= w.count { GapBoundsCount(s, w, x); }
    } else if AtMost(s, w) {
      CountsForceGap(s, w);
    }
  }

  /** Grants evenly spaced at ceil(per/count) already satisfy the bound window. */
  lemma PaceImpliesBound(s: seq<int>, r: Rate)
    requires 0 < r.count && 0 <= r.per && Sorted(s)
    requires Gap(s, Window(1, CeilDuration(r.per, r.count)))
    ensures Gap(s, Window(r.count, r.per))
  {
    var step := CeilDuration(r.per, r.count);
    StepsCover(r);
    hide CeilDuration;
    forall j, k | 0 <= j < |s| && 0 <= k < |s| && k == j + r.count
      ensures r.per <= s[k] - s[j]
    {
      hide Gap;
      EvenSpacing(s, step, j, r.count);
    }
  }

  /** count paces are at least one period. */
  lemma StepsCover(r: Rate)
    requires 0 < r.count && 0 <= r.per
    ensures r.per <= r.count * CeilDuration(r.per, r.count)
  {
    DivBounds(r.per + r.count - 1, r.count);
  }

  lemma {:induction false} EvenSpacing(s: seq<int>, step: int, j: nat, n: nat)
    requires Gap(s, Window(1, step)) && j + n < |s|
    ensures n * step <= s[j + n] - s[j]
  {
    if n > 0 {
      EvenSpacing(s, step, j, n - 1);
      assert step <= s[j + n] - s[j + n - 1];
      assert n * step == (n - 1) * step + step;
    }
  }

  // ---------- The incremental check ----------

  /** The k-th instant of the list with t inserted at idx. */
  function AtIndex(s: seq<int>, idx: nat, t: int, k: int): int
    requires idx <= |s| && 0 <= k <= |s|
  {
    if k < idx then s[k] else if k == idx then t else s[k - 1]
  }

  lemma InsertAt(s: seq<int>, t: int, k: nat)
    requires k <= |s|
    ensures Insert(s, t)[k] == AtIndex(s, Idx(s, t), t, k)
  {
  }

  /** Only windows that touch the insertion point can be broken by it. */
  lemma OnlyTouchingWindows(s: seq<int>, w: Window, t: int)
    requires Sorted(s) && Gap(s, w) && 1 <= w.count
    ensures Gap(Insert(s, t), w) <==>
            forall j, k | 0 <= j <= Idx(s, t) <= k <= |s| && k == j + w.count :: w.per <= Insert(s, t)[k] - Insert(s, t)[j]
  {
    var idx, r := Idx(s, t), Insert(s, t);
    if forall j, k | 0 <= j <= idx <= k <= |s| && k == j + w.count :: w.per <= r[k] - r[j] {
      forall j, k | 0 <= j < |r| && 0 <= k < |r| && k == j + w.count
        ensures w.per <= r[k] - r[j]
      {
        UntouchedWindow(s, w, t, j, k);
      }
    }
  }

  lemma UntouchedWindow(s: seq<int>, w: Window, t: int, j: nat, k: nat)
    requires Gap(s, w) && k <= |s| && k == j + w.count && 1 <= w.count
    ensures k < Idx(s, t) || Idx(s, t) < j ==> w.per <= Insert(s, t)[k] - Insert(s, t)[j]
  {
    InsertAt(s, t, j);
    InsertAt(s, t, k);
    if k < Idx(s, t) {
      assert w.per <= s[k] - s[j];
    } else if Idx(s, t) < j {
      assert w.per <= s[k - 1] - s[j - 1];
    }
  }

  // ---------- The earliest instant ----------

  /** Moving the new grant one instant later moves one element of the list. */
  lemma InsertLater(s: seq<int>, t: int)
    requires Sorted(s)
    ensures Insert(s, t - 1)[Idx(s, t)] == t - 1
    ensures Insert(s, t) == Insert(s, t - 1)[Idx(s, t) := t]
  {
    var a, b, ib := Insert(s, t - 1), Insert(s, t), Idx(s, t);
    assert Idx(s, t - 1) <= ib;
    forall k | 0 <= k < |b|
      ensures k != ib ==> a[k] == b[k]
      ensures k == ib ==> a[k] == t - 1 && b[k] == t
    {
      InsertAt(s, t - 1, k);
      InsertAt(s, t, k);
    }
  }

  /** An instant that becomes feasible is some grant's window running out. */
  lemma BecomesFeasibleAtExpiry(s: seq<int>, ws: seq<Window>, t: int)
    requires Sorted(s) && WellFormed(ws)
    requires Feasible(s, ws, t) && !Feasible(s, ws, t - 1)
    ensures exists w, g :: w in ws && g in s && t == g + w.per
  {
    var a, b, ib := Insert(s, t - 1), Insert(s, t), Idx(s, t);
    InsertLater(s, t);
    var w :| w in ws && !Gap(a, w);
    var j, k :| 0 <= j < |a| && 0 <= k < |a| && k == j + w.count && a[k] - a[j] < w.per;
    assert w.per <= b[k] - b[j];
    assert k == ib;
    InsertAt(s, t, j);
    assert b[j] in s;
  }

  /** An instant past every grant's expiry is feasible. */
  lemma FeasibleAfterAllExpire(s: seq<int>, ws: seq<Window>, t: int)
    requires Sorted(s) && AllGaps(s, ws) && WellFormed(ws)
    requires forall w, g :: w in ws && g in s ==> g + w.per <= t
    ensures Feasible(s, ws, t)
  {
    InsertSorted(s, t);
    var r := Insert(s, t);
    forall w | w in ws
      ensures Gap(r, w)
    {
      OnlyTouchingWindows(s, w, t);
      forall j, k | 0 <= j <= Idx(s, t) <= k <= |s| && k == j + w.count
        ensures w.per <= r[k] - r[j]
      {
        InsertAt(s, t, j);
        InsertAt(s, t, k);
        if 0 < w.per {
          forall g | g in s ensures g < t { assert g + w.per <= t; }
          assert Idx(s, t) == |s| by { assert forall i :: 0 <= i < |s| ==> s[i] in s; }
          assert s[j] in s;
        } else {
          assert r[j] <= r[k];
        }
      }
    }
  }

  /** The instants at which some grant's window runs out. */
  function Expiries(s: seq<int>, ws: seq<Window>): (e: set<int>)
    ensures forall x :: x in e <==> exists w, g :: w in ws && g in s && x == g + w.per
  {
    set w, g | w in ws && g in s :: g + w.per
  }

  /** t is the least feasible instant not before from. */
  ghost predicate IsLeastFeasible(s: seq<int>, ws: seq<Window>, from: int, t: int) {
    && from <= t && Feasible(s, ws, t)
    && forall u :: from <= u < t ==> !Feasible(s, ws, u)
  }

  /** Between from and t, if no expiry in (from, t) is feasible and from is not, nothing is. */
  lemma {:induction false} NothingBetweenExpiries(s: seq<int>, ws: seq<Window>, from: int, u: int)
    requires Sorted(s) && WellFormed(ws) && from <= u
    requires !Feasible(s, ws, from)
    requires forall x :: x in Expiries(s, ws) && from < x <= u ==> !Feasible(s, ws, x)
    ensures !Feasible(s, ws, u)
    decreases u - from
  {
    if from < u {
      NothingBetweenExpiries(s, ws, from, u - 1);
      if Feasible(s, ws, u) {
        BecomesFeasibleAtExpiry(s, ws, u);
      }
    }
  }

  // ---------- Forgetting old grants ----------

  function MaxPer(ws: seq<Window>): (m: nat)
    ensures forall w :: w in ws ==> w.per <= m
  {
    if ws == [] then 0
    else
      var m := MaxPer(ws[1..]);
      if ws[0].per > m then ws[0].per else m
  }

  /** Grants more than the longest window in the past constrain no later grant: checking the kept ones is enough. */
  lemma ForgottenDoNotConstrain(past: seq<int>, s: seq<int>, ws: seq<Window>, floor: int, t: int)
    requires WellFormed(ws) && Sorted(past + s) && AllGaps(past + s, ws) && (MaxPer(ws) == 0 ==> past == [])
    requires forall g :: g in past ==> g + MaxPer(ws) <= floor
    requires floor <= t && Feasible(s, ws, t)
    ensures Sorted(past + Insert(s, t)) && AllGaps(past + Insert(s, t), ws)
    ensures past + Insert(s, t) == Insert(past + s, t)
  {
    PastPrefixInsert(past, s, t);
    InsertSorted(past + s, t);
    forall w | w in ws
      ensures Gap(past + Insert(s, t), w)
    {
      assert Gap(past + s, w) && Gap(Insert(s, t), w);
      forall j, k | 0 <= j < |past + Insert(s, t)| && 0 <= k < |past + Insert(s, t)| && k == j + w.count
        ensures w.per <= (past + Insert(s, t))[k] - (past + Insert(s, t))[j]
      {
        WindowOverHistory(past, s, w, t, j, k);
      }
    }
  }

  lemma WindowOverHistory(past: seq<int>, s: seq<int>, w: Window, t: int, j: nat, k: nat)
    requires Sorted(past + s) && Gap(past + s, w) && Gap(Insert(s, t), w) && 1 <= w.count
    requires forall g :: g in past ==> g < t && g + w.per <= t
    requires k == j + w.count && k <= |past| + |s|
    ensures w.per <= (past + Insert(s, t))[k] - (past + Insert(s, t))[j]
  {
    var h, b, p := past + s, Insert(s, t), |past|;
    if p <= j {
      assert w.per <= b[k - p] - b[j - p];
    } else if k < p + Idx(s, t) {
      assert w.per <= h[k] - h[j];
      if p <= k { InsertAt(s, t, k - p); }
    } else {
      InsertAt(s, t, k - p);
      assert past[j] in past;
      if p + Idx(s, t) < k { assert h[p + Idx(s, t)] <= h[k - 1]; }
    }
  }

  lemma {:induction false} IdxSkips(past: seq<int>, s: seq<int>, t: int)
    requires forall g :: g in past ==> g < t
    ensures Idx(past + s, t) == |past| + Idx(s, t)
  {
    if past == [] {
      assert past + s == s;
    } else {
      assert past[0] in past && forall g :: g in past[1..] ==> g in past;
      IdxSkips(past[1..], s, t);
      assert (past + s)[1..] == past[1..] + s;
    }
  }

  lemma PastPrefixInsert(past: seq<int>, s: seq<int>, t: int)
    requires forall g :: g in past ==> g < t
    ensures past + Insert(s, t) == Insert(past + s, t)
  {
    hide Idx;
    var i := Idx(s, t);
    IdxSkips(past, s, t);
    assert (past + s)[..|past| + i] == past + s[..i];
    assert (past + s)[|past| + i..] == s[i..];
    assert past + (s[..i] + [t] + s[i..]) == (past + s[..i]) + [t] + s[i..];
  }
}
