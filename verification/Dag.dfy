/** Finite directed graphs: reachability and what removing implied edges does to it. */
module Dag {

  type Graph<!V> = map<V, set<V>>

  ghost predicate Closed<V>(g: Graph<V>) {
    forall a :: a in g ==> g[a] <= g.Keys
  }

  /** There is a path of `n + 1` edges from `a` to `b`. */
  ghost predicate Path<V>(g: Graph<V>, n: nat, a: V, b: V) {
    a in g && if n == 0 then b in g[a] else exists c :: c in g[a] && Path(g, n - 1, c, b)
  }

  /** There is a path of at least one edge from `a` to `b`. */
  ghost predicate Reaches<V>(g: Graph<V>, a: V, b: V) {
    exists n: nat :: Path(g, n, a, b)
  }

  ghost predicate Acyclic<V>(g: Graph<V>) {
    forall a :: a in g ==> !Reaches(g, a, a)
  }

  ghost function Below<V>(g: Graph<V>, a: V): set<V> {
    set b | b in g.Keys && Reaches(g, a, b)
  }

  lemma EdgeReaches<V>(g: Graph<V>, a: V, b: V)
    requires a in g && b in g[a]
    ensures Reaches(g, a, b)
  {
    assert Path(g, 0, a, b);
  }

  lemma {:induction false} PathTrans<V>(g: Graph<V>, n: nat, a: V, b: V, c: V)
    requires Path(g, n, a, b) && Reaches(g, b, c)
    ensures Reaches(g, a, c)
  {
    if n == 0 {
      var m: nat :| Path(g, m, b, c);
      assert Path(g, m + 1, a, c);
    } else {
      var d :| d in g[a] && Path(g, n - 1, d, b);
      PathTrans(g, n - 1, d, b, c);
      var m: nat :| Path(g, m, d, c);
      assert Path(g, m + 1, a, c);
    }
  }

  lemma ReachesTrans<V>(g: Graph<V>, a: V, b: V, c: V)
    requires Reaches(g, a, b) && Reaches(g, b, c)
    ensures Reaches(g, a, c)
  {
    var n: nat :| Path(g, n, a, b);
    PathTrans(g, n, a, b, c);
  }

  /** Reaching is one edge, or one edge and then reaching. */
  lemma ReachesUnfolds<V>(g: Graph<V>, a: V, b: V)
    requires a in g
    ensures Reaches(g, a, b) <==> b in g[a] || exists c :: c in g[a] && Reaches(g, c, b)
  {
    if Reaches(g, a, b) {
      var n: nat :| Path(g, n, a, b);
      if n > 0 {
        var c :| c in g[a] && Path(g, n - 1, c, b);
        assert Reaches(g, c, b);
      }
    }
    if b in g[a] {
      EdgeReaches(g, a, b);
    }
    if c :| c in g[a] && Reaches(g, c, b) {
      EdgeReaches(g, a, c);
      ReachesTrans(g, a, c, b);
    }
  }

  lemma {:induction false} PathEndsInside<V>(g: Graph<V>, n: nat, a: V, b: V)
    requires Closed(g) && Path(g, n, a, b)
    ensures b in g
  {
    if n > 0 {
      var c :| c in g[a] && Path(g, n - 1, c, b);
      PathEndsInside(g, n - 1, c, b);
    }
  }

  /** Below a successor there is strictly less. */
  lemma BelowShrinks<V>(g: Graph<V>, a: V, c: V)
    requires Closed(g) && Acyclic(g) && a in g && c in g[a]
    ensures Below(g, c) < Below(g, a)
  {
    EdgeReaches(g, a, c);
    assert c in Below(g, a) && c !in Below(g, c);
    forall b | b in Below(g, c) ensures b in Below(g, a) {
      ReachesTrans(g, a, c, b);
    }
  }

  // ----- fewer edges, same reachability

  lemma {:induction false} PathInLarger<V>(g: Graph<V>, h: Graph<V>, n: nat, a: V, b: V)
    requires Path(h, n, a, b) && forall x :: x in h ==> x in g && h[x] <= g[x]
    ensures Path(g, n, a, b)
  {
    if n > 0 {
      var c :| c in h[a] && Path(h, n - 1, c, b);
      PathInLarger(g, h, n - 1, c, b);
    }
  }

  /** A path that cannot come to `x` does not notice a change of the edges out of `x`. */
  lemma {:induction false} PathAvoids<V>(g: Graph<V>, h: Graph<V>, x: V, n: nat, a: V, b: V)
    requires h.Keys == g.Keys && forall y :: y in g && y != x ==> h[y] == g[y]
    requires Path(g, n, a, b) && a != x && !Reaches(g, a, x)
    ensures Path(h, n, a, b)
  {
    if n > 0 {
      var c :| c in g[a] && Path(g, n - 1, c, b);
      EdgeReaches(g, a, c);
      if Reaches(g, c, x) {
        ReachesTrans(g, a, c, x);
      }
      PathAvoids(g, h, x, n - 1, c, b);
    }
  }

  /** The successors of `x` that no other successor of `x` reaches. */
  ghost function Minimal<V>(g: Graph<V>, x: V): set<V>
    requires x in g
  {
    set b | b in g[x] && forall c :: c in g[x] ==> !Reaches(g, c, b)
  }

  ghost function Above<V>(g: Graph<V>, x: V, b: V): set<V>
    requires x in g
  {
    set c | c in g[x] && Reaches(g, c, b)
  }

  /** Every successor of `x` is minimal or reached from a minimal one. */
  lemma {:induction false} MinimalCovers<V>(g: Graph<V>, x: V, b: V) returns (m: V)
    requires Closed(g) && Acyclic(g) && x in g && b in g[x]
    ensures m in Minimal(g, x) && (m == b || Reaches(g, m, b))
    decreases Above(g, x, b)
  {
    if b in Minimal(g, x) {
      m := b;
    } else {
      var c :| c in g[x] && Reaches(g, c, b);
      assert c in Above(g, x, b) && c !in Above(g, x, c);
      forall d | d in Above(g, x, c) ensures d in Above(g, x, b) {
        ReachesTrans(g, d, c, b);
      }
      m := MinimalCovers(g, x, c);
      if m != c {
        ReachesTrans(g, m, c, b);
      }
    }
  }

  /** Keeping only the minimal successors of `x` keeps every edge of `g` as a path. */
  lemma EdgeSurvives<V>(g: Graph<V>, x: V, a: V, b: V)
    requires Closed(g) && Acyclic(g) && x in g && a in g && b in g[a]
    ensures Reaches(g[x := Minimal(g, x)], a, b)
  {
    var h := g[x := Minimal(g, x)];
    if a != x {
      EdgeReaches(h, a, b);
    } else {
      var m := MinimalCovers(g, x, b);
      EdgeReaches(h, x, m);
      if m != b {
        EdgeReaches(g, x, m);
        if Reaches(g, m, x) {
          ReachesTrans(g, x, m, x);
        }
        var n: nat :| Path(g, n, m, b);
        PathAvoids(g, h, x, n, m, b);
        ReachesTrans(h, x, m, b);
      }
    }
  }

  lemma {:induction false} PathSurvives<V>(g: Graph<V>, x: V, n: nat, a: V, b: V)
    requires Closed(g) && Acyclic(g) && x in g && Path(g, n, a, b)
    ensures Reaches(g[x := Minimal(g, x)], a, b)
  {
    if n == 0 {
      EdgeSurvives(g, x, a, b);
    } else {
      var c :| c in g[a] && Path(g, n - 1, c, b);
      EdgeSurvives(g, x, a, c);
      PathSurvives(g, x, n - 1, c, b);
      ReachesTrans(g[x := Minimal(g, x)], a, c, b);
    }
  }

  ghost predicate SameReach<V>(g: Graph<V>, h: Graph<V>) {
    h.Keys == g.Keys && forall a, b :: a in g && b in g ==> (Reaches(h, a, b) <==> Reaches(g, a, b))
  }

  /** Reachability stays the same when the successors of `x` are cut down to the minimal ones. */
  lemma ReduceOne<V>(g: Graph<V>, x: V)
    requires Closed(g) && Acyclic(g) && x in g
    ensures SameReach(g, g[x := Minimal(g, x)])
  {
    var h := g[x := Minimal(g, x)];
    forall a, b | a in g && b in g ensures Reaches(h, a, b) <==> Reaches(g, a, b) {
      if Reaches(g, a, b) {
        var n: nat :| Path(g, n, a, b);
        PathSurvives(g, x, n, a, b);
      }
      if Reaches(h, a, b) {
        var n: nat :| Path(h, n, a, b);
        PathInLarger(g, h, n, a, b);
      }
    }
  }

  /** The nodes in `done` have been reduced, the others not yet. */
  ghost function Partial<V>(g: Graph<V>, done: set<V>): Graph<V> {
    map a | a in g :: if a in done then Minimal(g, a) else g[a]
  }

  /** The transitive reduction: an edge stays unless another successor reaches its end. */
  ghost function Reduced<V>(g: Graph<V>): Graph<V> {
    map a | a in g :: Minimal(g, a)
  }

  lemma MinimalSameReach<V>(g: Graph<V>, h: Graph<V>, x: V)
    requires Closed(g) && SameReach(g, h) && x in g && h[x] == g[x]
    ensures Minimal(h, x) == Minimal(g, x)
  {
  }

  lemma {:induction false} PartialSameReach<V>(g: Graph<V>, done: set<V>)
    requires Closed(g) && Acyclic(g) && done <= g.Keys
    ensures Closed(Partial(g, done)) && Acyclic(Partial(g, done)) && SameReach(g, Partial(g, done))
    decreases done
  {
    if done == {} {
      assert Partial(g, done) == g;
    } else {
      var x :| x in done;
      var h := Partial(g, done - {x});
      PartialSameReach(g, done - {x});
      MinimalSameReach(g, h, x);
      ReduceOne(h, x);
      assert Partial(g, done) == h[x := Minimal(h, x)];
    }
  }

  /** The reduction of an acyclic graph has the same reachability, and none of its edges is
      implied by a longer path. */
  lemma ReductionIsTight<V>(g: Graph<V>)
    requires Closed(g) && Acyclic(g)
    ensures SameReach(g, Reduced(g))
    ensures forall a, b, c :: a in g && b in Reduced(g)[a] && c in Reduced(g)[a] ==> !Reaches(Reduced(g), c, b)
  {
    PartialSameReach(g, g.Keys);
    assert Partial(g, g.Keys) == Reduced(g);
  }

  /** Every graph with the same reachability contains the reduction. */
  lemma ReductionIsLeast<V>(g: Graph<V>, h: Graph<V>, a: V, b: V)
    requires Closed(g) && Closed(h) && SameReach(g, h) && a in g && b in Reduced(g)[a]
    ensures b in h[a]
  {
    EdgeReaches(g, a, b);
    ReachesUnfolds(h, a, b);
    if b !in h[a] {
      var c :| c in h[a] && Reaches(h, c, b);
      EdgeReaches(h, a, c);
      ReachesUnfolds(g, a, c);
      if c !in g[a] {
        var d :| d in g[a] && Reaches(g, d, c);
        ReachesTrans(g, d, c, b);
      }
    }
  }
}
