/** The library dependency graph of the static-library builder and its in-place pruning. */
module PruneLibs {
  import opened Dag

  class Lib {
    const syms: set<string>
    const neededSyms: set<string>
    var needs: set<Lib>
    var needed: set<Lib>

    constructor (syms: set<string>, neededSyms: set<string>)
      ensures this.syms == syms && this.neededSyms == neededSyms && needs == {} && needed == {}
    {
      this.syms, this.neededSyms := syms, neededSyms;
      needs, needed := {}, {};
    }
  }

  /** `b` needs a symbol that `a` provides. */
  predicate Provides(a: Lib, b: Lib) {
    a != b && !(a.syms !! b.neededSyms)
  }

  /** From each library to those that need it, by their symbols alone. */
  ghost function SymbolGraph(libs: set<Lib>): Graph<Lib> {
    map a | a in libs :: set b | b in libs && Provides(a, b)
  }

  /** The graph held in the `needed` sets. */
  ghost function NeededGraph(libs: set<Lib>): Graph<Lib>
    reads libs`needed
  {
    map a | a in libs :: a.needed
  }

  /** The `needs` sets are the `needed` sets read backwards. */
  ghost predicate Inverse(libs: set<Lib>)
    reads libs`needed, libs`needs
  {
    && (forall a :: a in libs ==> a.needed <= libs && a.needs <= libs)
    && (forall a, b :: a in libs && b in libs ==> (b in a.needed <==> a in b.needs))
  }

  /** The nodes in `d` and everything below them. */
  ghost function Covered(g: Graph<Lib>, d: set<Lib>): set<Lib> {
    set y | y in g.Keys && exists i :: i in d && (y == i || Reaches(g, i, y))
  }

  lemma CoveredAdd(g: Graph<Lib>, d: set<Lib>, i: Lib)
    requires i in g
    ensures Covered(g, d + {i}) == Covered(g, d) + {i} + Below(g, i)
  {
    assert i in d + {i};
  }

  lemma CoveredAll(g: Graph<Lib>, a: Lib)
    requires Closed(g) && a in g
    ensures Covered(g, g[a]) == Below(g, a)
  {
    forall y | y in g ensures y in Covered(g, g[a]) <==> y in Below(g, a) {
      ReachesUnfolds(g, a, y);
    }
  }

  /** What `prune` demands: the graph in the `needed` sets, except those of the library being
      pruned, is the acyclic `g`, and pruning never comes back to that library. */
  ghost predicate Prunable(cur: Lib, toPrune: Lib, libs: set<Lib>, g: Graph<Lib>)
    reads libs`needed
  {
    && cur in libs && toPrune in libs && cur != toPrune
    && g.Keys == libs && Closed(g) && Acyclic(g) && !Reaches(g, cur, toPrune)
    && forall x :: x in libs && x != toPrune ==> x.needed == g[x]
  }

  ghost function Less(n: set<Lib>, p: Lib, x: Lib, c: set<Lib>): set<Lib> {
    if x in c then n - {p} else n
  }

  /** The inner `prune`: removes the edges from `toPrune` to everything below `cur`. It never
      touches the set `cur.needed` that it is iterating over. */
  method Prune(cur: Lib, toPrune: Lib, ghost libs: set<Lib>, ghost g: Graph<Lib>)
    requires Prunable(cur, toPrune, libs, g)
    modifies libs`needs, toPrune`needed
    ensures toPrune.needed == old(toPrune.needed) - Below(g, cur)
    ensures forall x :: x in libs ==> x.needs == Less(old(x.needs), toPrune, x, Below(g, cur))
    decreases Below(g, cur), 1
  {
    var todo := cur.needed;
    ghost var seen: set<Lib> := {};
    assert Covered(g, seen) == {};
    hide Covered, Below, Reaches, Closed, Acyclic;
    while todo != {}
      invariant cur.needed == g[cur] && seen + todo == g[cur] && Prunable(cur, toPrune, libs, g)
      invariant toPrune.needed == old(toPrune.needed) - Covered(g, seen)
      invariant forall x :: x in libs ==> x.needs == Less(old(x.needs), toPrune, x, Covered(g, seen))
      decreases todo
    {
      var i :| i in todo;
      Descend(g, cur, i, toPrune);
      CoveredAdd(g, seen, i);
      PruneThrough(i, toPrune, libs, g);
      seen, todo := seen + {i}, todo - {i};
    }
    assert seen == g[cur];
    CoveredAll(g, cur);
  }

  /** One round of the loop of `prune`. */
  method PruneThrough(i: Lib, toPrune: Lib, ghost libs: set<Lib>, ghost g: Graph<Lib>)
    requires Prunable(i, toPrune, libs, g)
    modifies libs`needs, toPrune`needed
    ensures toPrune.needed == old(toPrune.needed) - ({i} + Below(g, i))
    ensures forall x :: x in libs ==> x.needs == Less(old(x.needs), toPrune, x, {i} + Below(g, i))
    decreases Below(g, i), 2
  {
    hide Below, Reaches, Closed, Acyclic;
    i.needs := i.needs - {toPrune};
    toPrune.needed := toPrune.needed - {i};
    Prune(i, toPrune, libs, g);
  }

  lemma Descend(g: Graph<Lib>, cur: Lib, i: Lib, toPrune: Lib)
    requires Closed(g) && Acyclic(g) && cur in g && i in g[cur] && !Reaches(g, cur, toPrune)
    ensures i in g && i != toPrune && !Reaches(g, i, toPrune) && Below(g, i) < Below(g, cur)
  {
    EdgeReaches(g, cur, i);
    BelowShrinks(g, cur, i);
    if Reaches(g, i, toPrune) {
      ReachesTrans(g, cur, i, toPrune);
    }
  }

  /** Everything strictly below some node in `d`. */
  ghost function BelowAny(g: Graph<Lib>, d: set<Lib>): set<Lib> {
    set y | y in g.Keys && exists i :: i in d && Reaches(g, i, y)
  }

  lemma BelowAnyAdd(g: Graph<Lib>, d: set<Lib>, i: Lib)
    ensures BelowAny(g, d + {i}) == BelowAny(g, d) + Below(g, i)
  {
    assert i in d + {i};
  }

  lemma BelowAnySuccessor(g: Graph<Lib>, x: Lib)
    requires Closed(g) && x in g
    ensures g[x] - BelowAny(g, g[x]) == Minimal(g, x)
  {
  }

  lemma NeverBack(g: Graph<Lib>, cur: Lib, i: Lib)
    requires Closed(g) && Acyclic(g) && cur in g && i in g[cur]
    ensures i in g && i != cur && !Reaches(g, i, cur)
  {
    EdgeReaches(g, cur, i);
    if Reaches(g, i, cur) {
      ReachesTrans(g, cur, i, cur);
    }
  }

  /** The inner loop of `compute_graph`: prunes from every successor that `cur` had. */
  method PruneSuccessors(cur: Lib, ghost libs: set<Lib>, ghost g: Graph<Lib>)
    requires cur in libs && g.Keys == libs && Closed(g) && Acyclic(g) && forall x :: x in libs ==> x.needed == g[x]
    modifies libs`needs, cur`needed
    ensures cur.needed == g[cur] - BelowAny(g, g[cur])
    ensures forall x :: x in libs ==> x.needs == Less(old(x.needs), cur, x, BelowAny(g, g[cur]))
  {
    var todo := cur.needed;
    ghost var seen: set<Lib> := {};
    assert BelowAny(g, seen) == {};
    hide BelowAny, Below, Reaches, Closed, Acyclic;
    while todo != {}
      invariant seen + todo == g[cur]
      invariant cur.needed == g[cur] - BelowAny(g, seen)
      invariant forall x :: x in libs ==> x.needs == Less(old(x.needs), cur, x, BelowAny(g, seen))
      decreases todo
    {
      var i :| i in todo;
      NeverBack(g, cur, i);
      BelowAnyAdd(g, seen, i);
      Prune(i, cur, libs, g);
      seen, todo := seen + {i}, todo - {i};
    }
    assert seen == g[cur];
  }

  /** The body of the outer loop: cuts the successors of `cur` down to the minimal ones. */
  method PruneFrom(cur: Lib, ghost libs: set<Lib>, ghost g: Graph<Lib>)
    requires cur in libs && NeededGraph(libs) == g && Closed(g) && Acyclic(g) && Inverse(libs)
    modifies libs`needs, cur`needed
    ensures NeededGraph(libs) == g[cur := Minimal(g, cur)] && Inverse(libs)
  {
    assert forall x :: x in libs ==> x.needed == g[x];
    ghost var needs0 := map x | x in libs :: x.needs;
    BelowAnySuccessor(g, cur);
    PruneSuccessors(cur, libs, g);
    InverseKept(libs, cur, BelowAny(g, g[cur]), g, needs0);
  }

  /** Removing the same edges on both sides keeps the two sides inverse. */
  lemma InverseKept(libs: set<Lib>, cur: Lib, c: set<Lib>, needed0: map<Lib, set<Lib>>, needs0: map<Lib, set<Lib>>)
    requires cur in libs && needed0.Keys == libs && needs0.Keys == libs
    requires forall a :: a in libs ==> needed0[a] <= libs && needs0[a] <= libs
    requires forall a, b :: a in libs && b in libs ==> (b in needed0[a] <==> a in needs0[b])
    requires cur.needed == needed0[cur] - c && forall x :: x in libs && x != cur ==> x.needed == needed0[x]
    requires forall x :: x in libs ==> x.needs == Less(needs0[x], cur, x, c)
    ensures Inverse(libs)
  {
  }

  // ----- the whole computation

  /** The first loop of `compute_graph`: one edge for every needed symbol. */
  method LinkLibs(libs: set<Lib>)
    requires forall l :: l in libs ==> l.needs == {} && l.needed == {}
    modifies libs`needs, libs`needed
    ensures NeededGraph(libs) == SymbolGraph(libs) && Inverse(libs)
  {
    var left := libs;
    while left != {}
      invariant left <= libs
      invariant forall a, b :: a in libs && b in libs ==> (b in a.needed <==> a !in left && Provides(a, b))
      invariant forall a, b :: a in libs && b in libs ==> (a in b.needs <==> a !in left && Provides(a, b))
      invariant forall a :: a in libs ==> a.needed <= libs && a.needs <= libs
      decreases left
    {
      var a :| a in left;
      LinkFrom(a, libs);
      left := left - {a};
    }
    ghost var g := SymbolGraph(libs);
    forall a | a in libs ensures a.needed == g[a] {
      assert forall b :: b in libs ==> (b in a.needed <==> b in g[a]);
    }
  }

  /** All ordered pairs that start with `a`. */
  method LinkFrom(a: Lib, libs: set<Lib>)
    requires a in libs && a.needed == {}
    modifies libs`needs, a`needed
    ensures a.needed == set b | b in libs && Provides(a, b)
    ensures forall b :: b in libs ==> b.needs == old(b.needs) + if Provides(a, b) then {a} else {}
  {
    var left := libs - {a};
    while left != {}
      invariant left <= libs - {a}
      invariant a.needed == set b | b in libs && b !in left && Provides(a, b)
      invariant forall b :: b in libs ==> b.needs == old(b.needs) + if b !in left && Provides(a, b) then {a} else {}
      decreases left
    {
      var b :| b in left;
      if !(a.syms !! b.neededSyms) {
        b.needs := b.needs + {a};
        a.needed := a.needed + {b};
      }
      left := left - {b};
    }
  }

  /** `compute_graph`: on every acyclic symbol graph, in whatever order the sets are
      iterated, the result is its transitive reduction, with `needs` and `needed` inverse. */
  method ComputeGraph(libs: set<Lib>)
    requires forall l :: l in libs ==> l.needs == {} && l.needed == {}
    requires Acyclic(SymbolGraph(libs))
    modifies libs`needs, libs`needed
    ensures Inverse(libs) && NeededGraph(libs) == Reduced(SymbolGraph(libs))
    ensures SameReach(SymbolGraph(libs), NeededGraph(libs))
    ensures forall a, b, c :: a in libs && b in a.needed && c in a.needed ==> !Reaches(NeededGraph(libs), c, b)
    ensures Orders(libs, NeededGraph(libs))
  {
    ghost var g := SymbolGraph(libs);
    LinkLibs(libs);
    assert NeededGraph(libs) == Partial(g, {});
    PruneAll(libs, g);
    assert Partial(g, libs) == Reduced(g);
    ReductionIsTight(g);
    ReductionOrders(libs);
  }

  /** Some symbol that `b` needs is one of `a`. */
  ghost predicate Shares(a: Lib, b: Lib) {
    exists s :: s in a.syms && s in b.neededSyms
  }

  /** Following the graph from a library leads to every library that needs one of its symbols, and
      every edge is there for such a symbol. */
  ghost predicate Orders(libs: set<Lib>, h: Graph<Lib>) {
    && h.Keys == libs
    && (forall a, b :: a in libs && b in libs && a != b && Shares(a, b) ==> Reaches(h, a, b))
    && (forall a, b :: a in libs && b in h[a] ==> Shares(a, b))
  }

  lemma SharedSymbol(a: Lib, b: Lib)
    ensures Provides(a, b) <==> a != b && Shares(a, b)
  {
    if !Shares(a, b) {
      assert forall s :: s in a.syms ==> s !in b.neededSyms;
      assert a.syms !! b.neededSyms;
    }
  }

  lemma ReductionOrders(libs: set<Lib>)
    requires Acyclic(SymbolGraph(libs))
    ensures Orders(libs, Reduced(SymbolGraph(libs)))
  {
    var g := SymbolGraph(libs);
    ReductionIsTight(g);
    hide Reaches, Acyclic, Provides, Shares;
    forall a, b | a in libs && b in libs ensures Provides(a, b) <==> a != b && Shares(a, b) {
      SharedSymbol(a, b);
    }
    forall a, b | a in libs && b in libs && a != b && Shares(a, b) ensures Reaches(Reduced(g), a, b) {
      EdgeReaches(g, a, b);
    }
  }

  /** The second loop of `compute_graph`. */
  method PruneAll(libs: set<Lib>, ghost g: Graph<Lib>)
    requires g.Keys == libs && Closed(g) && Acyclic(g)
    requires Inverse(libs) && NeededGraph(libs) == Partial(g, {})
    modifies libs`needs, libs`needed
    ensures Inverse(libs) && NeededGraph(libs) == Partial(g, libs)
  {
    hide Inverse, Acyclic, Closed, Partial, Minimal, NeededGraph;
    var left := libs;
    ghost var done: set<Lib> := {};
    while left != {}
      invariant done + left == libs && done !! left && Inverse(libs) && NeededGraph(libs) == Partial(g, done)
      decreases left
    {
      var cur :| cur in left;
      PartialStep(g, done, cur);
      PruneFrom(cur, libs, Partial(g, done));
      left, done := left - {cur}, done + {cur};
    }
    assert done == libs;
  }

  lemma PartialStep(g: Graph<Lib>, done: set<Lib>, x: Lib)
    requires Closed(g) && Acyclic(g) && done <= g.Keys && x in g && x !in done
    ensures Closed(Partial(g, done)) && Acyclic(Partial(g, done))
    ensures Partial(g, done + {x}) == Partial(g, done)[x := Minimal(Partial(g, done), x)]
  {
    PartialSameReach(g, done);
    MinimalSameReach(g, Partial(g, done), x);
  }
}
