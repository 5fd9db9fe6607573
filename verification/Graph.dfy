/** Undirected edge sets over cell indices: paths, cycles and spanning trees. */
module Graphs {

  /** An unordered pair of cell indices, the smaller first. */
  datatype EdgeKey = EdgeKey(a: int, b: int)

  function NewEdgeKey(a: int, b: int): EdgeKey {
    if a > b then EdgeKey(b, a) else EdgeKey(a, b)
  }

  type EdgeSet = set<EdgeKey>

  predicate Has(e: EdgeSet, a: int, b: int) {
    NewEdgeKey(a, b) in e
  }

  /** Every edge of e is kept in the canonical order. */
  ghost predicate Canonical(e: EdgeSet) {
    forall k :: k in e ==> k.a <= k.b
  }

  ghost predicate IsPath(e: EdgeSet, p: seq<int>, u: int, v: int) {
    && 0 < |p| && p[0] == u && p[|p| - 1] == v
    && forall i :: 0 <= i < |p| - 1 ==> Has(e, p[i], p[i + 1])
  }

  ghost predicate Linked(e: EdgeSet, u: int, v: int) {
    exists p :: IsPath(e, p, u, v)
  }

  /** No edge has another way round between its ends. */
  ghost predicate Acyclic(e: EdgeSet) {
    Canonical(e) && forall k :: k in e ==> !Linked(e - {k}, k.a, k.b)
  }

  ghost predicate EdgesWithin(e: EdgeSet, vs: set<int>) {
    forall k :: k in e ==> k.a in vs && k.b in vs
  }

  ghost predicate AllLinked(e: EdgeSet, vs: set<int>) {
    forall u, v :: u in vs && v in vs ==> Linked(e, u, v)
  }

  /** e joins all of vs, and nothing else, without a cycle, by one edge fewer than there are cells. */
  ghost predicate SpanningTree(e: EdgeSet, vs: set<int>) {
    EdgesWithin(e, vs) && AllLinked(e, vs) && Acyclic(e) && |e| + 1 == |vs|
  }

  lemma LinkedSelf(e: EdgeSet, u: int)
    ensures Linked(e, u, u)
  {
    assert IsPath(e, [u], u, u);
  }

  lemma LinkedByEdge(e: EdgeSet, u: int, v: int)
    requires Has(e, u, v)
    ensures Linked(e, u, v)
  {
    assert IsPath(e, [u, v], u, v);
  }

  lemma LinkedThrough(e: EdgeSet, u: int, v: int, w: int)
    requires Linked(e, u, v) && Linked(e, v, w)
    ensures Linked(e, u, w)
  {
    var p, q :| IsPath(e, p, u, v) && IsPath(e, q, v, w);
    var r := p + q[1..];
    forall i | 0 <= i < |r| - 1
      ensures Has(e, r[i], r[i + 1])
    {
      if i < |p| - 1 {
        assert Has(e, p[i], p[i + 1]);
      } else {
        var k := i - (|p| - 1);
        assert Has(e, q[k], q[k + 1]);
      }
    }
    assert IsPath(e, r, u, w);
  }

  lemma {:induction false} LinkedBack(e: EdgeSet, u: int, v: int)
    requires Linked(e, u, v)
    ensures Linked(e, v, u)
  {
    var p :| IsPath(e, p, u, v);
    var r := seq(|p|, i requires 0 <= i < |p| => p[|p| - 1 - i]);
    forall i | 0 <= i < |r| - 1
      ensures Has(e, r[i], r[i + 1])
    {
      var k := |p| - 2 - i;
      assert Has(e, p[k], p[k + 1]);
    }
    assert IsPath(e, r, v, u);
  }

  lemma LinkedInMore(e: EdgeSet, e': EdgeSet, u: int, v: int)
    requires Linked(e, u, v) && e <= e'
    ensures Linked(e', u, v)
  {
    var p :| IsPath(e, p, u, v);
    assert IsPath(e', p, u, v);
  }

  /** A path never leaves the cells its edges lie within. */
  lemma {:induction false} PathStaysWithin(e: EdgeSet, vs: set<int>, p: seq<int>, u: int, v: int)
    requires EdgesWithin(e, vs) && IsPath(e, p, u, v) && u in vs
    ensures v in vs
    decreases |p|
  {
    if |p| > 1 {
      assert Has(e, p[0], p[1]);
      assert IsPath(e, p[1..], p[1], v);
      PathStaysWithin(e, vs, p[1..], p[1], v);
    }
  }

  /** What one more edge links: what was linked, and what it bridges. */
  ghost predicate LinkedWith(e: EdgeSet, a: int, b: int, u: int, v: int) {
    || Linked(e, u, v)
    || (Linked(e, u, a) && Linked(e, b, v))
    || (Linked(e, u, b) && Linked(e, a, v))
  }

  lemma {:induction false} PathWithOneMoreEdge(e: EdgeSet, a: int, b: int, p: seq<int>, u: int, v: int)
    requires IsPath(e + {NewEdgeKey(a, b)}, p, u, v)
    ensures LinkedWith(e, a, b, u, v)
    decreases |p|
  {
    if |p| == 1 {
      LinkedSelf(e, u);
    } else {
      var w := p[1];
      assert Has(e + {NewEdgeKey(a, b)}, p[0], p[1]);
      assert IsPath(e + {NewEdgeKey(a, b)}, p[1..], w, v);
      PathWithOneMoreEdge(e, a, b, p[1..], w, v);
      StepThenLinkedWith(e, a, b, u, w, v);
    }
  }

  lemma StepThenLinkedWith(e: EdgeSet, a: int, b: int, u: int, w: int, v: int)
    requires Has(e + {NewEdgeKey(a, b)}, u, w) && LinkedWith(e, a, b, w, v)
    ensures LinkedWith(e, a, b, u, v)
  {
    if Has(e, u, w) {
      LinkedByEdge(e, u, w);
      if Linked(e, w, v) { LinkedThrough(e, u, w, v); }
      else if Linked(e, w, a) && Linked(e, b, v) { LinkedThrough(e, u, w, a); }
      else { LinkedThrough(e, u, w, b); }
    } else {
      assert (u == a && w == b) || (u == b && w == a);
      LinkedSelf(e, a);
      LinkedSelf(e, b);
    }
  }

  lemma LinkedWithOneMoreEdge(e: EdgeSet, a: int, b: int, u: int, v: int)
    ensures Linked(e + {NewEdgeKey(a, b)}, u, v) <==> LinkedWith(e, a, b, u, v)
  {
    var f := e + {NewEdgeKey(a, b)};
    if Linked(f, u, v) {
      var p :| IsPath(f, p, u, v);
      PathWithOneMoreEdge(e, a, b, p, u, v);
    } else if LinkedWith(e, a, b, u, v) {
      LinkedByEdge(f, a, b);
      LinkedByEdge(f, b, a);
      if Linked(e, u, v) {
        LinkedInMore(e, f, u, v);
      } else if Linked(e, u, a) && Linked(e, b, v) {
        Bridge(e, f, u, a, b, v);
      } else {
        Bridge(e, f, u, b, a, v);
      }
    }
  }

  lemma Bridge(e: EdgeSet, f: EdgeSet, u: int, a: int, b: int, v: int)
    requires e <= f && Linked(e, u, a) && Has(f, a, b) && Linked(e, b, v)
    ensures Linked(f, u, v)
  {
    LinkedInMore(e, f, u, a);
    LinkedInMore(e, f, b, v);
    LinkedByEdge(f, a, b);
    LinkedThrough(f, u, a, b);
    LinkedThrough(f, u, b, v);
  }

  /** An edge between cells not yet linked closes no cycle. */
  lemma AcyclicWithOneMoreEdge(e: EdgeSet, a: int, b: int)
    requires Acyclic(e) && !Linked(e, a, b)
    ensures Acyclic(e + {NewEdgeKey(a, b)}) && NewEdgeKey(a, b) !in e
  {
    var n := NewEdgeKey(a, b);
    var f := e + {n};
    if Has(e, a, b) { LinkedByEdge(e, a, b); }
    forall k | k in f
      ensures !Linked(f - {k}, k.a, k.b)
    {
      if k == n {
        assert f - {n} == e;
        if Linked(e, b, a) { LinkedBack(e, b, a); }
      } else {
        var g := e - {k};
        assert f - {k} == g + {n};
        LinkedWithOneMoreEdge(g, a, b, k.a, k.b);
        if Linked(g, k.a, a) && Linked(g, b, k.b) {
          LinkedBack(g, k.a, a);
          RoundTheEdge(e, k, a, b);
        } else if Linked(g, k.a, b) && Linked(g, a, k.b) {
          LinkedBack(g, k.a, b);
          LinkedBack(g, a, k.b);
          LinkedBack(g, k.b, a);
          LinkedBack(g, b, k.a);
          RoundTheEdgeBack(e, k, a, b);
        }
      }
    }
  }

  lemma RoundTheEdge(e: EdgeSet, k: EdgeKey, a: int, b: int)
    requires k in e && k.a <= k.b && Linked(e - {k}, a, k.a) && Linked(e - {k}, b, k.b)
    ensures Linked(e, a, b)
  {
    LinkedBack(e - {k}, b, k.b);
    Bridge(e - {k}, e, a, k.a, k.b, b);
  }

  lemma RoundTheEdgeBack(e: EdgeSet, k: EdgeKey, a: int, b: int)
    requires k in e && k.a <= k.b && Linked(e - {k}, k.a, b) && Linked(e - {k}, a, k.b)
    ensures Linked(e, a, b)
  {
    Bridge(e - {k}, e, a, k.b, k.a, b);
  }

  /** A single cell is a tree. */
  lemma TreeOfOne(v: int)
    ensures SpanningTree({}, {v})
  {
    LinkedSelf({}, v);
  }

  /** Joining a new cell to a tree by one edge keeps it a tree. */
  lemma TreeGrows(e: EdgeSet, vs: set<int>, c: int, n: int)
    requires SpanningTree(e, vs) && c in vs && n !in vs
    ensures SpanningTree(e + {NewEdgeKey(c, n)}, vs + {n})
  {
    var f, ws := e + {NewEdgeKey(c, n)}, vs + {n};
    if Linked(e, c, n) {
      var p :| IsPath(e, p, c, n);
      PathStaysWithin(e, vs, p, c, n);
    }
    AcyclicWithOneMoreEdge(e, c, n);
    forall u, v | u in ws && v in ws
      ensures Linked(f, u, v)
    {
      JoinedCellLinked(e, vs, c, n, u);
      JoinedCellLinked(e, vs, c, n, v);
      LinkedBack(f, v, c);
      LinkedThrough(f, u, c, v);
    }
  }

  lemma JoinedCellLinked(e: EdgeSet, vs: set<int>, c: int, n: int, u: int)
    requires AllLinked(e, vs) && c in vs && u in vs + {n}
    ensures Linked(e + {NewEdgeKey(c, n)}, u, c)
  {
    var f := e + {NewEdgeKey(c, n)};
    if u == n {
      LinkedByEdge(f, n, c);
    } else {
      LinkedInMore(e, f, u, c);
    }
  }

  /** Cells closed under a connected edge set's edges are all of its cells. */
  lemma {:induction false} ClosedPath(e: EdgeSet, s: set<int>, p: seq<int>, u: int, v: int)
    requires IsPath(e, p, u, v) && u in s
    requires forall x, y :: x in s && Has(e, x, y) ==> y in s
    ensures v in s
    decreases |p|
  {
    if |p| > 1 {
      assert Has(e, p[0], p[1]);
      assert IsPath(e, p[1..], p[1], v);
      ClosedPath(e, s, p[1..], p[1], v);
    }
  }

  lemma ClosedIsAll(e: EdgeSet, vs: set<int>, s: set<int>, u: int)
    requires AllLinked(e, vs) && u in s && s <= vs
    requires forall x, y :: x in s && Has(e, x, y) ==> y in s
    ensures s == vs
  {
    forall v | v in vs
      ensures v in s
    {
      var p :| IsPath(e, p, u, v);
      ClosedPath(e, s, p, u, v);
    }
  }
}
