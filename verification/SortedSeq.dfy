/** Sorted integer sequences: searching, inserting and sorting; and counting facts about sequences and sets. */
module SortedSeq {

  ghost predicate Sorted(s: seq<int>) {
    forall i, j :: 0 <= i <= j < |s| ==> s[i] <= s[j]
  }

  /** The least index whose element is not below t, in a sorted sequence. */
  function Idx(s: seq<int>, t: int): (i: nat)
    ensures i <= |s|
    ensures forall k :: 0 <= k < i ==> s[k] < t
    ensures i < |s| ==> t <= s[i]
  {
    if s == [] || t <= s[0] then 0 else 1 + Idx(s[1..], t)
  }

  function Insert(s: seq<int>, t: int): (r: seq<int>)
    ensures |r| == |s| + 1
  {
    var i := Idx(s, t);
    s[..i] + [t] + s[i..]
  }

  lemma InsertSorted(s: seq<int>, t: int)
    requires Sorted(s)
    ensures Sorted(Insert(s, t)) && multiset(Insert(s, t)) == multiset(s) + multiset{t}
    ensures forall x :: x in Insert(s, t) <==> x == t || x in s
  {
    InsertHas(s, t);
    InsertedInOrder(s, t);
    var i := Idx(s, t);
    hide *;
    assert s == s[..i] + s[i..];
    SplitCounts(s[..i], t, s[i..]);
    InsertIs(s, t);
  }

  lemma InsertIs(s: seq<int>, t: int)
    ensures var i := Idx(s, t); Insert(s, t) == s[..i] + [t] + s[i..]
  {
    hide Idx;
  }

  lemma SplitCounts(a: seq<int>, t: int, b: seq<int>)
    ensures multiset(a + [t] + b) == multiset(a + b) + multiset{t}
  {
  }

  lemma InsertedInOrder(s: seq<int>, t: int)
    requires Sorted(s)
    ensures Sorted(Insert(s, t))
  {
    var i := Idx(s, t);
    InsertIs(s, t);
    assert forall k :: i <= k < |s| ==> t <= s[k];
    hide Idx, Insert;
    var r := s[..i] + [t] + s[i..];
    assert forall k :: 0 <= k < |r| ==> r[k] == if k < i then s[k] else if k == i then t else s[k - 1];
  }

  lemma InsertHas(s: seq<int>, t: int)
    ensures forall x :: x in Insert(s, t) <==> x == t || x in s
  {
    hide Idx;
    var i := Idx(s, t);
    assert s == s[..i] + s[i..];
    forall x | x in s ensures x in Insert(s, t) { assert x in s[..i] || x in s[i..]; }
  }

  function Sort(s: seq<int>): seq<int> {
    if s == [] then [] else Insert(Sort(s[1..]), s[0])
  }

  lemma {:induction false} SortSorts(s: seq<int>)
    ensures Sorted(Sort(s)) && multiset(Sort(s)) == multiset(s) && |Sort(s)| == |s|
    ensures forall x :: x in Sort(s) <==> x in s
  {
    if s != [] {
      SortSorts(s[1..]);
      InsertSorted(Sort(s[1..]), s[0]);
      assert s == [s[0]] + s[1..];
    }
  }

  lemma SameSize(s: seq<int>, s': seq<int>)
    requires multiset(s) == multiset(s')
    ensures |s| == |s'| && (s != [] ==> s[0] in s')
  {
    assert |s| == |multiset(s)| && |s'| == |multiset(s')|;
    if s != [] { assert s[0] in multiset(s'); }
  }

  /** Two sorted sequences of the same elements are one. */
  lemma {:induction false} SortedUnique(a: seq<int>, b: seq<int>)
    requires Sorted(a) && Sorted(b) && multiset(a) == multiset(b)
    ensures a == b
  {
    SameSize(a, b);
    SameSize(b, a);
    if a != [] {
      assert a[0] == b[0];
      WithoutFirst(a);
      WithoutFirst(b);
      assert Sorted(a[1..]) && Sorted(b[1..]);
      hide Sorted;
      SortedUnique(a[1..], b[1..]);
    }
  }

  lemma WithoutFirst(s: seq<int>)
    requires s != []
    ensures multiset(s[1..]) == multiset(s) - multiset{s[0]} && s == [s[0]] + s[1..]
  {
    assert s == [s[0]] + s[1..];
  }

  lemma StillDistinct<T>(s: seq<T>, s': seq<T>)
    requires multiset(s) == multiset(s')
    requires forall i, j :: 0 <= i < j < |s'| ==> s'[i] != s'[j]
    ensures |s| == |s'| && forall i, j :: 0 <= i < j < |s| ==> s[i] != s[j]
  {
    assert |s| == |multiset(s)| && |s'| == |multiset(s')|;
    forall x ensures multiset(s')[x] <= 1 { AtMostOnce(s', x); }
    forall i, j | 0 <= i < j < |s|
      ensures s[i] != s[j]
    {
      if s[i] == s[j] { TwiceInMultiset(s, i, j); }
    }
  }

  lemma {:induction false} AtMostOnce<T>(s: seq<T>, x: T)
    requires forall i, j :: 0 <= i < j < |s| ==> s[i] != s[j]
    ensures multiset(s)[x] <= 1
    decreases |s|
  {
    if s != [] {
      var last, rest := s[|s| - 1], s[..|s| - 1];
      assert s == rest + [last];
      AtMostOnce(rest, x);
      if x == last { assert x !in rest; assert x !in multiset(rest); }
    }
  }

  lemma TwiceInMultiset<T>(s: seq<T>, i: nat, j: nat)
    requires i < j < |s| && s[i] == s[j]
    ensures multiset(s)[s[i]] >= 2
  {
    assert s == s[..i] + [s[i]] + s[i + 1..j] + [s[j]] + s[j + 1..];
  }

  /** Leaving out the i-th element. */
  lemma OneOut<T>(s: seq<T>, i: nat)
    requires i < |s|
    ensures multiset(s[..i] + s[i + 1..]) == multiset(s) - multiset{s[i]} && |s[..i] + s[i + 1..]| < |s|
  {
    assert s == (s[..i] + [s[i]]) + s[i + 1..];
  }

  lemma SubsetSize(a: set<int>, b: set<int>)
    requires a <= b
    ensures |a| <= |b|
  {
    assert b == a + (b - a);
  }
}
