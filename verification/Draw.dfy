/**
 Reductions of a keyed stream of 64-bit words: bounded draws by rejection,
 shuffles and weighted picks. A stream is an arbitrary infinite word sequence.
 */
module Draws {
  import opened GoInt
  import opened SortedSeq

  const TWO_POW_32 := 0x1_0000_0000
  const TWO_POW_63 := 0x8000_0000_0000_0000
  const TWO_POW_64 := 0x1_0000_0000_0000_0000
  const MAX_UINT64 := TWO_POW_64 - 1

  type Word = w: int | 0 <= w < TWO_POW_64

  type Words = nat -> Word

  ghost predicate LowFrom(words: Words, p: nat) {
    exists q: nat :: p <= q && words(q) < TWO_POW_63
  }

  /** The stream never runs out of words below 2^63. Rejection sampling ends on every such stream. */
  ghost predicate Fair(words: Words) {
    forall p: nat :: LowFrom(words, p)
  }

  /** The words a draw below n accepts are those below the largest multiple of n. */
  function Limit(n: nat): int
    requires 1 <= n
  {
    MAX_UINT64 - MAX_UINT64 % n
  }

  lemma LimitFacts(n: nat)
    requires 1 <= n <= MAX_UINT64
    ensures Limit(n) == (MAX_UINT64 / n) * n
    ensures TWO_POW_63 <= Limit(n) <= MAX_UINT64
  {
    var k := MAX_UINT64 / n;
    assert MAX_UINT64 == k * n + MAX_UINT64 % n;
    assert 1 <= k;
    Multiples(k, n);
  }

  lemma Multiples(k: nat, n: nat)
    ensures 1 <= k ==> n <= k * n
  {
    if 1 <= k { assert k * n == n + (k - 1) * n; NonNegative(k - 1, n); }
  }

  lemma NonNegative(a: nat, b: nat)
    ensures 0 <= a * b
  {
  }

  /** The first position from p on whose word a draw accepts. */
  ghost function FirstBelow(words: Words, p: nat, limit: int, q: nat): (r: nat)
    requires p <= q && words(q) < limit
    ensures p <= r <= q && words(r) < limit && forall i: nat :: p <= i < r ==> limit <= words(i)
    decreases q - p
  {
    if words(p) < limit then p else FirstBelow(words, p + 1, limit, q)
  }

  /** From position p on the stream has a word that a draw below n accepts. */
  ghost predicate Accepts(words: Words, p: nat, n: nat) {
    n <= 1 || exists q: nat :: p <= q && words(q) < Limit(n)
  }

  lemma FairAccepts(words: Words, p: nat, n: nat)
    requires Fair(words) && n <= MAX_UINT64
    ensures Accepts(words, p, n)
  {
    if 1 < n {
      LimitFacts(n);
      assert LowFrom(words, p);
    }
  }

  /** boundedDraw: its value and the position it leaves the stream at; on a stream it never ends on, nothing is drawn. */
  ghost function Draw(words: Words, p: nat, n: nat): (int, nat) {
    if n <= 1 || !Accepts(words, p, n) then (0, p)
    else
      var q: nat :| p <= q && words(q) < Limit(n);
      var r := FirstBelow(words, p, Limit(n), q);
      (words(r) % n, r + 1)
  }

  lemma DrawIs(words: Words, p: nat, n: nat, r: nat)
    requires 2 <= n <= MAX_UINT64
    requires p <= r && words(r) < Limit(n) && forall i: nat :: p <= i < r ==> Limit(n) <= words(i)
    ensures Draw(words, p, n) == (words(r) % n, r + 1)
  {
  }

  lemma DrawRange(words: Words, p: nat, n: nat)
    ensures 0 <= Draw(words, p, n).0 && (1 <= n ==> Draw(words, p, n).0 < n)
    ensures p <= Draw(words, p, n).1 && (n <= 1 ==> Draw(words, p, n).1 == p)
  {
  }

  /** How many of the words below limit leave remainder r. */
  function ResidueCount(limit: nat, n: nat, r: nat): nat
    requires 1 <= n
  {
    if limit == 0 then 0 else ResidueCount(limit - 1, n, r) + if (limit - 1) % n == r then 1 else 0
  }

  lemma {:induction false} ResidueCountPartial(k: nat, n: nat, r: nat, m: nat)
    requires r < n && m <= n
    ensures ResidueCount(k * n + m, n, r) == ResidueCount(k * n, n, r) + if r < m then 1 else 0
    decreases m
  {
    if m > 0 {
      ResidueCountPartial(k, n, r, m - 1);
      ModOfSum(k, n, m - 1);
      NonNegative(k, n);
    }
  }

  lemma ModOfSum(k: nat, n: nat, v: nat)
    requires v < n
    ensures (k * n + v) % n == v
  {
    var x := k * n + v;
    NonNegative(k, n);
    DivBounds(x, n);
    QuotientUnique(x, n, k, x / n);
  }

  lemma {:induction false} ResidueCountWhole(k: nat, n: nat, r: nat)
    requires r < n
    ensures k * n >= 0 && ResidueCount(k * n, n, r) == k
    decreases k
  {
    if k == 0 {
      assert k * n == 0;
    } else {
      ResidueCountWhole(k - 1, n, r);
      ResidueCountPartial(k - 1, n, r, n);
      assert (k - 1) * n + n == k * n;
    }
  }

  /** The stream that is the one word throughout. */
  function Always(w: Word): Words {
    (p: nat) => w
  }

  /** The words that, met first, give a draw below n the value r at once. */
  ghost function Giving(n: nat, r: nat): set<int> {
    set w: int | 0 <= w < TWO_POW_64 && Draw(Always(w), 0, n) == (r, 1)
  }

  function ResidueSet(limit: nat, n: nat, r: nat): set<int>
    requires 1 <= n
  {
    set w: int | 0 <= w < limit && w % n == r
  }

  lemma {:induction false} ResidueSetCount(limit: nat, n: nat, r: nat)
    requires 1 <= n
    ensures |ResidueSet(limit, n, r)| == ResidueCount(limit, n, r)
  {
    if limit > 0 {
      ResidueSetCount(limit - 1, n, r);
      var less, w := ResidueSet(limit - 1, n, r), limit - 1;
      assert w !in less;
      assert ResidueSet(limit, n, r) == if w % n == r then less + {w} else less;
    }
  }

  lemma AlwaysDraws(w: Word, n: nat)
    requires 2 <= n <= MAX_UINT64
    ensures Draw(Always(w), 0, n) == if w < Limit(n) then (w % n, 1) else (0, 0)
  {
    hide Limit;
    if w < Limit(n) { DrawIs(Always(w), 0, n, 0); }
  }

  /** A draw is unbiased: every value below n has equally many words that give it, MAX/n of them. */
  lemma DrawUnbiased(n: nat, r: nat)
    requires 2 <= n <= MAX_UINT64 && r < n
    ensures |Giving(n, r)| == MAX_UINT64 / n
  {
    LimitFacts(n);
    ResidueCountWhole(MAX_UINT64 / n, n, r);
    hide Draw, Limit, ResidueCount;
    ResidueSetCount(Limit(n), n, r);
    forall w: int | 0 <= w < TWO_POW_64
      ensures w in Giving(n, r) <==> w in ResidueSet(Limit(n), n, r)
    {
      AlwaysDraws(w, n);
    }
    assert Giving(n, r) == ResidueSet(Limit(n), n, r);
  }

  class Stream {
    const words: Words
    var pos: nat

    constructor (words: Words)
      ensures this.words == words && pos == 0
    {
      this.words, pos := words, 0;
    }

    method Uint64() returns (v: Word)
      modifies this
      ensures v == words(old(pos)) && pos == old(pos) + 1
    {
      v := words(pos);
      pos := pos + 1;
    }
  }

  /** boundedDraw, on every stream on which it ends. */
  method BoundedDraw(s: Stream, n: nat) returns (v: nat)
    requires n <= MAX_UINT64 && (Fair(s.words) || Accepts(s.words, s.pos, n))
    modifies s
    ensures (v, s.pos) == Draw(s.words, old(s.pos), n)
    ensures 1 <= n ==> v < n
  {
    if n <= 1 {
      return 0;
    }
    var limit := MAX_UINT64 - (MAX_UINT64 % n);
    if Fair(s.words) { FairAccepts(s.words, s.pos, n); }
    ghost var q: nat :| s.pos <= q && s.words(q) < Limit(n);
    while true
      invariant old(s.pos) <= s.pos <= q
      invariant forall i: nat :: old(s.pos) <= i < s.pos ==> limit <= s.words(i)
      decreases q - s.pos
    {
      var w := s.Uint64();
      if w < limit {
        DrawIs(s.words, old(s.pos), n, s.pos - 1);
        return w % n;
      }
    }
  }

  function Swap<T>(items: seq<T>, i: nat, j: nat): seq<T>
    requires i < |items| && j < |items|
  {
    items[i := items[j]][j := items[i]]
  }

  lemma SwapPermutes<T>(items: seq<T>, i: nat, j: nat)
    requires i < |items| && j < |items|
    ensures multiset(Swap(items, i, j)) == multiset(items)
  {
  }

  /** The rest of a shuffle from index i down, and where it leaves the stream. */
  ghost function ShuffleFrom<T>(words: Words, p: nat, items: seq<T>, i: int): (seq<T>, nat)
    requires i < |items|
    decreases i
  {
    if i <= 0 then (items, p)
    else
      var (j, p') := Draw(words, p, i + 1);
      DrawRange(words, p, i + 1);
      ShuffleFrom(words, p', Swap(items, i, j), i - 1)
  }

  ghost function Shuffled<T>(words: Words, p: nat, items: seq<T>): (seq<T>, nat)
  {
    ShuffleFrom(words, p, items, |items| - 1)
  }

  lemma {:induction false} ShufflePermutes<T>(words: Words, p: nat, items: seq<T>, i: int)
    requires i < |items|
    ensures multiset(ShuffleFrom(words, p, items, i).0) == multiset(items)
    decreases i
  {
    if i > 0 {
      var (j, p') := Draw(words, p, i + 1);
      DrawRange(words, p, i + 1);
      SwapPermutes(items, i, j);
      ShufflePermutes(words, p', Swap(items, i, j), i - 1);
    }
  }

  lemma ShuffleEnds<T>(words: Words, p: nat, items: seq<T>, i: int)
    requires i < |items| && i <= 0
    ensures ShuffleFrom(words, p, items, i) == (items, p)
  {
  }

  lemma ShuffleStep<T>(words: Words, p: nat, items: seq<T>, i: nat)
    requires 0 < i < |items|
    ensures var (j, p') := Draw(words, p, i + 1);
            0 <= j <= i && ShuffleFrom(words, p, items, i) == ShuffleFrom(words, p', Swap(items, i, j), i - 1)
  {
    DrawRange(words, p, i + 1);
  }

  /** shuffle: Fisher-Yates, in place. */
  method Shuffle<T>(s: Stream, items: array<T>)
    requires Fair(s.words) && items.Length <= MAX_UINT64
    modifies s, items
    ensures (items[..], s.pos) == Shuffled(s.words, old(s.pos), old(items[..]))
    ensures multiset(items[..]) == multiset(old(items[..]))
  {
    hide Draw, ShuffleFrom;
    var i := items.Length - 1;
    while i > 0
      invariant -1 <= i < items.Length
      invariant ShuffleFrom(s.words, s.pos, items[..], i) == Shuffled(s.words, old(s.pos), old(items[..]))
      decreases i
    {
      ghost var was := items[..];
      ShuffleStep(s.words, s.pos, was, i);
      var j := BoundedDraw(s, i + 1);
      items[i], items[j] := items[j], items[i];
      assert items[..] == Swap(was, i, j);
      i := i - 1;
    }
    ShuffleEnds(s.words, s.pos, items[..], i);
    ShufflePermutes(s.words, old(s.pos), old(items[..]), items.Length - 1);
  }

  // ---------- Every order has exactly one sequence of draws ----------

  /** One draw for each index from i down to 1, none above its index. */
  ghost predicate DrawsFor(draws: seq<nat>, n: nat) {
    |draws| == n && forall k :: 0 <= k < n ==> draws[k] <= k
  }

  /** The shuffle as a function of the values it draws. */
  function ShuffleBy<T>(items: seq<T>, draws: seq<nat>, i: int): (r: seq<T>)
    requires i < |items| && DrawsFor(draws, |items|)
    ensures |r| == |items| && forall k :: 0 <= k < |items| && i < k ==> r[k] == items[k]
    decreases i
  {
    if i <= 0 then items else ShuffleBy(Swap(items, i, draws[i]), draws, i - 1)
  }

  ghost function DrawsOf(words: Words, p: nat, n: nat, i: int): (draws: seq<nat>)
    requires i < n
    ensures DrawsFor(draws, n)
    decreases i
  {
    if i <= 0 then seq(n, k => 0)
    else
      DrawRange(words, p, i + 1);
      DrawsOf(words, Draw(words, p, i + 1).1, n, i - 1)[i := Draw(words, p, i + 1).0]
  }

  lemma {:induction false} ShuffleByAgrees<T>(items: seq<T>, draws: seq<nat>, draws': seq<nat>, i: int)
    requires i < |items| && DrawsFor(draws, |items|) && DrawsFor(draws', |items|)
    requires forall k :: 1 <= k <= i ==> draws[k] == draws'[k]
    ensures ShuffleBy(items, draws, i) == ShuffleBy(items, draws', i)
    decreases i
  {
    if i > 0 { ShuffleByAgrees(Swap(items, i, draws[i]), draws, draws', i - 1); }
  }

  lemma SwapLength<T>(items: seq<T>, i: nat, j: nat)
    requires i < |items| && j < |items|
    ensures |Swap(items, i, j)| == |items|
  {
  }

  lemma {:induction false} ShuffleIsByDraws<T>(words: Words, p: nat, items: seq<T>, i: int)
    requires i < |items|
    ensures ShuffleFrom(words, p, items, i).0 == ShuffleBy(items, DrawsOf(words, p, |items|, i), i)
    decreases i
  {
    hide Draw, Fair, Swap;
    if i > 0 {
      var (j, p') := Draw(words, p, i + 1);
      ShuffleStep(words, p, items, i);
      var draws, rest := DrawsOf(words, p, |items|, i), DrawsOf(words, p', |items|, i - 1);
      var items' := Swap(items, i, j);
      assert |items'| == |items| by { SwapLength(items, i, j); }
      assert draws == rest[i := j];
      ShuffleIsByDraws(words, p', items', i - 1);
      hide DrawsOf, ShuffleFrom, DrawsFor;
      ShuffleByAgrees(items', draws, rest, i - 1);
    }
  }

  ghost predicate Distinct<T>(items: seq<T>) {
    forall x, y :: 0 <= x < y < |items| ==> items[x] != items[y]
  }

  lemma SwapDistinct<T>(items: seq<T>, i: nat, j: nat)
    requires Distinct(items) && i < |items| && j < |items|
    ensures Distinct(Swap(items, i, j))
  {
  }

  /** Different draws give different orders. */
  lemma {:induction false} ShuffleOneToOne<T>(items: seq<T>, draws: seq<nat>, draws': seq<nat>, i: int)
    requires i < |items| && DrawsFor(draws, |items|) && DrawsFor(draws', |items|) && Distinct(items)
    requires ShuffleBy(items, draws, i) == ShuffleBy(items, draws', i)
    ensures forall k :: 1 <= k <= i ==> draws[k] == draws'[k]
    decreases i
  {
    if i > 0 {
      assert ShuffleBy(items, draws, i)[i] == items[draws[i]];
      assert ShuffleBy(items, draws', i)[i] == items[draws'[i]];
      assert draws[i] == draws'[i];
      SwapDistinct(items, i, draws[i]);
      ShuffleOneToOne(Swap(items, i, draws[i]), draws, draws', i - 1);
    }
  }

  /** Every order is given by some draws; so, each draw being unbiased, all orders are equally likely. */
  lemma {:induction false} ShuffleOnto<T>(items: seq<T>, target: seq<T>, i: int) returns (draws: seq<nat>)
    requires i < |items| && multiset(target) == multiset(items) && Distinct(items)
    requires |target| == |items| && forall k :: 0 <= k < |items| && i < k ==> target[k] == items[k]
    ensures DrawsFor(draws, |items|) && ShuffleBy(items, draws, i) == target
    decreases i
  {
    draws := seq(|items|, k => 0);
    if i <= 0 {
      if i == 0 { OneLeft(items, target); }
      assert items == target;
    } else {
      var j := SourceOf(items, target, i);
      var items' := Swap(items, i, j);
      SwapDistinct(items, i, j);
      SwapPermutes(items, i, j);
      assert forall k :: 0 <= k < |items| && i - 1 < k ==> target[k] == items'[k];
      hide Swap, Distinct;
      var rest := ShuffleOnto(items', target, i - 1);
      draws := rest[i := j];
      ShuffleByAgrees(items', draws, rest, i - 1);
    }
  }

  /** The index, none above i, that the shuffle must draw for target's i-th item. */
  lemma SourceOf<T>(items: seq<T>, target: seq<T>, i: nat) returns (j: nat)
    requires i < |items| == |target| && multiset(target) == multiset(items) && Distinct(items)
    requires forall k :: i < k < |items| ==> target[k] == items[k]
    ensures j <= i && items[j] == target[i]
  {
    assert target[i] in multiset(target);
    assert target[i] in multiset(items);
    j :| 0 <= j < |items| && items[j] == target[i];
    AtMostOnce(items, target[i]);
    if i < j { TwiceInMultiset(target, i, j); }
  }

  lemma OneLeft<T>(items: seq<T>, target: seq<T>)
    requires 0 < |items| == |target| && multiset(target) == multiset(items)
    requires forall k :: 0 < k < |items| ==> target[k] == items[k]
    ensures target[0] == items[0]
  {
    assert items == [items[0]] + items[1..] && target == [target[0]] + items[1..];
    assert multiset(items) == multiset{items[0]} + multiset(items[1..]);
    assert multiset(target) == multiset{target[0]} + multiset(items[1..]);
    assert multiset{items[0]} == multiset(items) - multiset(items[1..]);
    assert multiset{target[0]} == multiset(target) - multiset(items[1..]);
    assert items[0] in multiset{target[0]};
  }

  // ---------- The whole shuffle ----------

  /** The values of one bounded draw after another, of bounds n, n - 1, down to 2; and where they leave the stream. */
  ghost function DrawnDown(words: Words, p: nat, n: nat): (r: (seq<nat>, nat))
    ensures |r.0| == if n <= 1 then 0 else n - 1
    decreases n
  {
    hide Draw;
    if n <= 1 then ([], p)
    else
      DrawRange(words, p, n);
      var (v, p') := Draw(words, p, n);
      var (rest, end) := DrawnDown(words, p', n - 1);
      ([v] + rest, end)
  }

  lemma {:induction false} DrawsAreDrawnDown(words: Words, p: nat, n: nat, i: int)
    requires i < n
    ensures var k := if 0 <= i then i else 0;
            var drawn := DrawnDown(words, p, k + 1).0; forall x :: 1 <= x <= k ==> DrawsOf(words, p, n, i)[x] == drawn[k - x]
    decreases i
  {
    hide Draw;
    if i > 0 {
      DrawRange(words, p, i + 1);
      DrawsAreDrawnDown(words, Draw(words, p, i + 1).1, n, i - 1);
    }
  }

  /** A shuffle consumes its draws' words and no others. */
  lemma {:induction false} ShuffleConsumes<T>(words: Words, p: nat, items: seq<T>, i: int)
    requires i < |items|
    ensures ShuffleFrom(words, p, items, i).1 == DrawnDown(words, p, if i < 0 then 0 else i + 1).1
    decreases i
  {
    hide Draw;
    if i > 0 {
      ShuffleStep(words, p, items, i);
      SwapLength(items, i, Draw(words, p, i + 1).0);
      ShuffleConsumes(words, Draw(words, p, i + 1).1, Swap(items, i, Draw(words, p, i + 1).0), i - 1);
    }
  }

  /**
   A shuffle of n distinct items makes n - 1 bounded draws, of bounds n down to 2,
   and consumes their words alone; and two shuffles give one order exactly when
   they draw the same values.
   */
  lemma ShuffledIsItsDraws<T>(words: Words, p: nat, words': Words, p': nat, items: seq<T>)
    requires Distinct(items)
    ensures Shuffled(words, p, items).1 == DrawnDown(words, p, |items|).1
    ensures Shuffled(words, p, items).0 == Shuffled(words', p', items).0 <==>
            DrawnDown(words, p, |items|).0 == DrawnDown(words', p', |items|).0
  {
    hide ShuffleFrom, Draw, DrawnDown, DrawsOf, Distinct;
    var n, i := |items|, |items| - 1;
    ShuffleConsumes(words, p, items, i);
    ShuffleIsByDraws(words, p, items, i);
    ShuffleIsByDraws(words', p', items, i);
    var draws, draws' := DrawsOf(words, p, n, i), DrawsOf(words', p', n, i);
    DrawsAreDrawnDown(words, p, n, i);
    DrawsAreDrawnDown(words', p', n, i);
    var drawn, drawn' := DrawnDown(words, p, n).0, DrawnDown(words', p', n).0;
    if drawn == drawn' {
      ShuffleByAgrees(items, draws, draws', i);
    }
    if ShuffleBy(items, draws, i) == ShuffleBy(items, draws', i) {
      ShuffleOneToOne(items, draws, draws', i);
      forall k | 0 <= k < |drawn| ensures drawn[k] == drawn'[k] {
        assert draws[i - k] == drawn[i - (i - k)] && draws'[i - k] == drawn'[i - (i - k)];
      }
    }
  }

  /** A stream that begins with the head, goes on with the draws for the indices from n - 1 down, and is zero from there on. */
  function WordsFor(head: seq<Word>, draws: seq<nat>): Words
    requires DrawsFor(draws, |draws|) && |draws| <= MAX_UINT64
  {
    (p: nat) =>
      if p < |head| then head[p]
      else if p < |head| + |draws| then draws[|head| + |draws| - 1 - p] as Word else 0
  }

  lemma WordsForIsFair(head: seq<Word>, draws: seq<nat>)
    requires DrawsFor(draws, |draws|) && |draws| <= MAX_UINT64
    ensures Fair(WordsFor(head, draws))
  {
    forall p: nat ensures LowFrom(WordsFor(head, draws), p) {
      assert WordsFor(head, draws)(p + |head| + |draws|) < TWO_POW_63;
    }
  }

  lemma SmallValueDrawn(words: Words, p: nat, n: nat)
    requires 2 <= n <= MAX_UINT64 && words(p) < n
    ensures Draw(words, p, n) == (words(p), p + 1)
  {
    hide *;
    LimitCovers(n);
    DrawIs(words, p, n, p);
    SmallRemainder(words(p), n);
  }

  lemma SmallRemainder(v: nat, n: nat)
    requires v < n
    ensures v % n == v
  {
  }

  lemma LimitCovers(n: nat)
    requires 1 <= n <= MAX_UINT64
    ensures n <= Limit(n)
  {
    LimitFacts(n);
    Multiples(MAX_UINT64 / n, n);
  }

  lemma {:induction false} WordsForDraw(head: seq<Word>, draws: seq<nat>, i: int)
    requires DrawsFor(draws, |draws|) && |draws| <= MAX_UINT64 && 0 <= i < |draws|
    ensures forall k :: 1 <= k <= i ==> DrawsOf(WordsFor(head, draws), |head| + |draws| - 1 - i, |draws|, i)[k] == draws[k]
    decreases i
  {
    hide Draw;
    if i > 0 {
      SmallValueDrawn(WordsFor(head, draws), |head| + |draws| - 1 - i, i + 1);
      WordsForDraw(head, draws, i - 1);
    }
  }

  /** Every order of distinct items is some fair stream's shuffle of them, whatever words it begins with. */
  lemma EveryOrderIsShuffled<T>(head: seq<Word>, items: seq<T>, target: seq<T>) returns (words: Words)
    requires Distinct(items) && multiset(target) == multiset(items) && |items| <= MAX_UINT64
    ensures Fair(words) && (forall k :: 0 <= k < |head| ==> words(k) == head[k])
    ensures Shuffled(words, |head|, items).0 == target
  {
    assert |target| == |multiset(target)| == |multiset(items)| == |items|;
    hide *;
    var i := |items| - 1;
    var draws := ShuffleOnto(items, target, i);
    DrawsLength(draws, |items|);
    words := WordsFor(head, draws);
    WordsForIsFair(head, draws);
    WordsForHead(head, draws);
    ShuffleIsByDraws(words, |head|, items, i);
    if items != [] { WordsForDraw(head, draws, i); }
    ShuffleByAgrees(items, draws, DrawsOf(words, |head|, |items|, i), i);
    ShuffledIs(words, |head|, items);
  }

  lemma DrawsLength(draws: seq<nat>, n: nat)
    requires DrawsFor(draws, n)
    ensures |draws| == n
  {
  }

  lemma ShuffledIs<T>(words: Words, p: nat, items: seq<T>)
    ensures Shuffled(words, p, items) == ShuffleFrom(words, p, items, |items| - 1)
  {
    hide ShuffleFrom;
  }

  lemma WordsForHead(head: seq<Word>, draws: seq<nat>)
    requires DrawsFor(draws, |draws|) && |draws| <= MAX_UINT64
    ensures forall k :: 0 <= k < |head| ==> WordsFor(head, draws)(k) == head[k]
  {
  }

  /** The running uint64 sum of the first i weights. */
  function Accumulated(weights: seq<Word>, i: nat): Word
    requires i <= |weights|
  {
    if i == 0 then 0 else (Accumulated(weights, i - 1) + weights[i - 1]) % TWO_POW_64
  }

  lemma AccumulatedZero(weights: seq<Word>)
    ensures Accumulated(weights, 0) == 0
  {
  }

  lemma AccumulatedStep(weights: seq<Word>, i: nat)
    requires i < |weights|
    ensures Accumulated(weights, i + 1) == (Accumulated(weights, i) + weights[i]) % TWO_POW_64
    ensures Accumulated(weights, i + 1) > Accumulated(weights, i) ==> weights[i] != 0
  {
  }

  /** The first index from i on whose running sum passes v; when none does, the last. */
  function PickFrom(weights: seq<Word>, v: int, i: nat): (pick: int)
    requires i <= |weights|
    ensures -1 <= pick < |weights| && (0 < |weights| ==> 0 <= pick)
    decreases |weights| - i
  {
    if i == |weights| then |weights| - 1
    else if v < Accumulated(weights, i + 1) then i
    else PickFrom(weights, v, i + 1)
  }

  /** The index weightedPick draws at position p of the stream. */
  ghost function Weighed(words: Words, p: nat, weights: seq<Word>): int {
    PickFrom(weights, Draw(words, p, Accumulated(weights, |weights|)).0, 0)
  }

  lemma {:induction false} NoSumPasses(weights: seq<Word>, i: nat)
    requires i <= |weights| && forall k :: 0 <= k <= i ==> Accumulated(weights, k) <= 0
    ensures forall k :: 0 <= k < i ==> weights[k] == 0
  {
    if i > 0 {
      NoSumPasses(weights, i - 1);
      AccumulatedStep(weights, i - 1);
      assert Accumulated(weights, i) == 0 && Accumulated(weights, i - 1) == 0;
    }
  }

  /**
   What is picked: among weights of which one is positive, a positive one, whose
   stretch of the running uint64 sums holds the drawn value, even when the sums
   wrap and even when they wrap to zero; among zeros, the last.
   */
  lemma WeighedIsPositive(words: Words, p: nat, weights: seq<Word>)
    requires exists i :: 0 <= i < |weights| && weights[i] != 0
    ensures var pick, v := Weighed(words, p, weights), Draw(words, p, Accumulated(weights, |weights|)).0;
            && 0 <= pick < |weights| && weights[pick] != 0
            && v < Accumulated(weights, pick + 1) && forall i :: 0 <= i <= pick ==> Accumulated(weights, i) <= v
  {
    var total := Accumulated(weights, |weights|);
    var v := Draw(words, p, total).0;
    DrawRange(words, p, total);
    hide Draw, Accumulated;
    AccumulatedZero(weights);
    if total == 0 {
      assert v == 0 by { NothingDrawn(words, p); }
      if forall k :: 0 <= k <= |weights| ==> Accumulated(weights, k) <= 0 { NoSumPasses(weights, |weights|); }
    }
    PickPasses(weights, v, 0);
    AccumulatedStep(weights, PickFrom(weights, v, 0));
  }

  lemma NothingDrawn(words: Words, p: nat)
    ensures Draw(words, p, 0) == (0, p)
  {
  }

  lemma {:induction false} PickPasses(weights: seq<Word>, v: int, i: nat)
    requires i <= |weights| && forall k :: 0 <= k <= i ==> Accumulated(weights, k) <= v
    requires exists k :: i < k <= |weights| && v < Accumulated(weights, k)
    ensures var pick := PickFrom(weights, v, i);
            && i <= pick < |weights| && v < Accumulated(weights, pick + 1)
            && forall k :: 0 <= k <= pick ==> Accumulated(weights, k) <= v
    decreases |weights| - i
  {
    hide Accumulated;
    var k :| i < k <= |weights| && v < Accumulated(weights, k);
    if Accumulated(weights, i + 1) <= v { PickPasses(weights, v, i + 1); }
  }

  /** weightedPick. */
  method WeightedPick(s: Stream, weights: seq<Word>) returns (pick: int)
    requires Fair(s.words) || Accepts(s.words, s.pos, Accumulated(weights, |weights|))
    modifies s
    ensures pick == Weighed(s.words, old(s.pos), weights)
    ensures s.pos == Draw(s.words, old(s.pos), Accumulated(weights, |weights|)).1
    ensures (exists i :: 0 <= i < |weights| && weights[i] != 0) ==> 0 <= pick && weights[pick] != 0
  {
    hide Draw, Accumulated, Fair, Accepts;
    if exists i :: 0 <= i < |weights| && weights[i] != 0 { WeighedIsPositive(s.words, s.pos, weights); }
    var total: Word := 0;
    AccumulatedZero(weights);
    for i := 0 to |weights|
      invariant total == Accumulated(weights, i) && s.pos == old(s.pos)
    {
      AccumulatedStep(weights, i);
      total := (total + weights[i]) % TWO_POW_64;
    }
    var v := BoundedDraw(s, total);
    assert (v, s.pos) == Draw(s.words, old(s.pos), Accumulated(weights, |weights|));
    ghost var p := s.pos;
    var acc: Word := 0;
    for i := 0 to |weights|
      invariant s.pos == p
      invariant acc == Accumulated(weights, i)
      invariant PickFrom(weights, v, i) == PickFrom(weights, v, 0)
    {
      AccumulatedStep(weights, i);
      acc := (acc + weights[i]) % TWO_POW_64;
      if v < acc {
        return i;
      }
    }
    return |weights| - 1;
  }

  /** biasedNewest: a zero threshold never takes the newest entry, one of 2^32 always does. */
  method BiasedNewest(s: Stream, threshold: nat) returns (newest: bool)
    modifies s
    ensures s.pos == old(s.pos) + 1
    ensures newest <==> s.words(old(s.pos)) < threshold * TWO_POW_32
    ensures (threshold == 0 ==> !newest) && (threshold == TWO_POW_32 ==> newest)
  {
    var w := s.Uint64();
    var top32 := w / TWO_POW_32;
    newest := top32 < threshold;
  }
}
