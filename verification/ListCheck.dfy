/** The consistency check of ccan/list, on rings that may be corrupt in any way. */
module ListCheck {
  import opened IntrusiveList

  /** The nodes `all` may be linked in any way among themselves. */
  ghost predicate Closed<T>(all: set<Node<T>>)
    reads all
  {
    forall x :: x in all ==> x.next in all
  }

  /** The node reached by following `next` from `x` for `i` steps. */
  ghost function Walk<T>(x: Node<T>, i: nat, all: set<Node<T>>): (y: Node<T>)
    requires Closed(all) && x in all
    reads all
    ensures y in all
  {
    if i == 0 then x else Walk(x, i - 1, all).next
  }

  /** The walk is back after `k` steps and every `prev` on the way matches. */
  ghost predicate ReturnsIn<T>(x: Node<T>, k: nat, all: set<Node<T>>)
    requires Closed(all) && x in all
    reads all
  {
    && k > 0 && Walk(x, k, all) == x
    && forall i :: 0 <= i < k ==> Walk(x, i, all).next.prev == Walk(x, i, all)
  }

  ghost predicate Consistent<T>(x: Node<T>, all: set<Node<T>>)
    requires Closed(all) && x in all
    reads all
  {
    exists k: nat :: ReturnsIn(x, k, all)
  }

  lemma {:induction false} DistinctFits<A>(s: seq<A>, all: set<A>)
    requires Distinct(s) && forall i :: 0 <= i < |s| ==> s[i] in all
    ensures |s| <= |all|
  {
    if s != [] {
      var n := |s| - 1;
      assert forall i :: 0 <= i < n ==> s[..n][i] == s[i];
      DistinctFits(s[..n], all - {s[n]});
    }
  }

  /** `trail` is the walk so far: new nodes only, never back at the start, `prev` matching. */
  ghost predicate Trail<T>(x: Node<T>, trail: seq<Node<T>>, all: set<Node<T>>)
    requires Closed(all) && x in all
    reads all
  {
    && trail != [] && Distinct(trail)
    && (forall i :: 0 <= i < |trail| ==> trail[i] == Walk(x, i, all))
    && (forall i :: 1 <= i < |trail| ==> trail[i].prev == trail[i - 1])
  }

  /** A node whose `prev` is the end of the trail and which is not its start is new. */
  lemma TrailGrows<T>(x: Node<T>, trail: seq<Node<T>>, all: set<Node<T>>)
    requires Closed(all) && x in all && Trail(x, trail, all)
    requires var p := trail[|trail| - 1]; p.next != x && p.next.prev == p
    ensures Trail(x, trail + [trail[|trail| - 1].next], all)
  {
    var n := trail[|trail| - 1].next;
    assert n == Walk(x, |trail|, all);
    assert trail[0] == x;
    forall i | 0 <= i < |trail| ensures trail[i] != n {
      if i > 0 {
        assert trail[i].prev == trail[i - 1] != trail[|trail| - 1];
      }
    }
  }

  /** The walk cannot return before the trail ends, nor past a `prev` that does not match. */
  lemma MismatchIsInconsistent<T>(x: Node<T>, trail: seq<Node<T>>, all: set<Node<T>>)
    requires Closed(all) && x in all && Trail(x, trail, all)
    requires var p := trail[|trail| - 1]; p.next.prev != p
    ensures !Consistent(x, all)
  {
    forall k: nat ensures !ReturnsIn(x, k, all) {
      if 0 < k < |trail| {
        assert trail[k] == Walk(x, k, all) && trail[0] == x;
      } else if k >= |trail| {
        assert trail[|trail| - 1] == Walk(x, |trail| - 1, all);
      }
    }
  }

  /** `list_check_node` without an abort string. It terminates however the nodes are linked,
      and returns the node exactly when the walk along `next` comes back to it with every
      `prev` on the way matching. */
  method CheckNode<T>(node: Node<T>, ghost all: set<Node<T>>) returns (r: Node?<T>)
    requires Closed(all) && node in all
    ensures r == null || r == node
    ensures r != null <==> Consistent(node, all)
  {
    var p, n := node, node.next;
    ghost var trail := [node];
    while n != node
      invariant p in all && n == p.next && p == trail[|trail| - 1] && Trail(node, trail, all)
      decreases |all| - |trail|
    {
      if n.prev != p {
        MismatchIsInconsistent(node, trail, all);
        return null;
      }
      TrailGrows(node, trail, all);
      trail := trail + [n];
      DistinctFits(trail, all);
      p, n := n, n.next;
    }
    if node.prev != p {
      MismatchIsInconsistent(node, trail, all);
      return null;
    }
    TrailCloses(node, trail, all);
    r := node;
  }

  lemma TrailCloses<T>(x: Node<T>, trail: seq<Node<T>>, all: set<Node<T>>)
    requires Closed(all) && x in all && Trail(x, trail, all)
    requires var p := trail[|trail| - 1]; p.next == x && x.prev == p
    ensures ReturnsIn(x, |trail|, all)
  {
    var n := |trail|;
    assert Walk(x, n, all) == Walk(x, n - 1, all).next;
    forall i | 0 <= i < n ensures Walk(x, i, all).next.prev == Walk(x, i, all) {
      assert trail[i] == Walk(x, i, all);
      if i + 1 < n {
        assert trail[i + 1] == Walk(x, i + 1, all);
      }
    }
  }

  /** Any node of a well-formed ring passes the check. */
  lemma RingIsConsistent<T>(s: seq<Node<T>>, all: set<Node<T>>)
    requires Closed(all) && Ring(s) && s[0] in all
    ensures Consistent(s[0], all)
  {
    forall i: nat | i < |s| ensures Walk(s[0], i, all) == s[i] {
      WalkRing(s, i, all);
    }
    assert Joined(s[|s| - 1], s[After(|s| - 1, |s|)]);
    forall i | 0 <= i < |s| ensures Walk(s[0], i, all).next.prev == Walk(s[0], i, all) {
      assert Joined(s[i], s[After(i, |s|)]);
    }
    assert Walk(s[0], |s|, all) == Walk(s[0], |s| - 1, all).next;
    assert ReturnsIn(s[0], |s|, all);
  }

  lemma {:induction false} WalkRing<T>(s: seq<Node<T>>, i: nat, all: set<Node<T>>)
    requires Closed(all) && Ring(s) && s[0] in all && i < |s|
    ensures Walk(s[0], i, all) == s[i]
  {
    if i > 0 {
      WalkRing(s, i - 1, all);
      assert Joined(s[i - 1], s[After(i - 1, |s|)]);
    }
  }

  /** A node that passes the check lies on a well-formed ring. */
  lemma ConsistentIsRing<T>(x: Node<T>, all: set<Node<T>>) returns (s: seq<Node<T>>)
    requires Closed(all) && x in all && Consistent(x, all)
    ensures Ring(s) && s[0] == x
  {
    s := [x];
    while s[|s| - 1].next != x
      invariant Trail(x, s, all)
      decreases |all| - |s|
    {
      PrevMatches(x, s, all);
      TrailGrows(x, s, all);
      s := s + [s[|s| - 1].next];
      DistinctFits(s, all);
    }
    PrevMatches(x, s, all);
    forall i | 0 <= i < |s| ensures Joined(s[i], s[After(i, |s|)]) {
      if i + 1 < |s| {
        assert s[i + 1] == Walk(x, i + 1, all);
      }
    }
  }

  lemma PrevMatches<T>(x: Node<T>, trail: seq<Node<T>>, all: set<Node<T>>)
    requires Closed(all) && x in all && Trail(x, trail, all) && Consistent(x, all)
    ensures var p := trail[|trail| - 1]; p.next.prev == p
  {
    var p := trail[|trail| - 1];
    if p.next.prev != p {
      MismatchIsInconsistent(x, trail, all);
    }
  }
}
