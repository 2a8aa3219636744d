/** The daemon's own loops over its lists, on the linked representation. */
module DaemonLists {
  import opened Basics
  import opened Sockaddr
  import opened PortTable
  import opened MapRequests
  import opened IntrusiveList

  /** The node after position `k` of a list, the head after the last one. */
  lemma NextOf<T>(l: List<T>, k: nat)
    requires l.Valid() && k < |l.nodes|
    ensures l.nodes[k].next == if k + 1 < |l.nodes| then l.nodes[k + 1] else l.head
    ensures l.nodes[k] != l.head
  {
    var s := [l.head] + l.nodes;
    assert Joined(s[k + 1], s[After(k + 1, |s|)]) && s[0] != s[k + 1];
  }

  lemma NeighboursOf<T>(l: List<T>, k: nat)
    requires l.Valid() && k < |l.nodes|
    ensures l.nodes[k].next == l.head || l.nodes[k].next in l.nodes
    ensures l.nodes[k].prev == l.head || l.nodes[k].prev in l.nodes
  {
    NextOf(l, k);
    var s := [l.head] + l.nodes;
    assert Joined(s[k], s[After(k, |s|)]);
  }

  lemma FirstOf<T>(l: List<T>)
    requires l.Valid()
    ensures l.head.next == if l.nodes != [] then l.nodes[0] else l.head
  {
    var s := [l.head] + l.nodes;
    assert Joined(s[0], s[After(0, |s|)]);
  }

  /** `find_iwpm_mapping` */
  method FindPort(l: List<MappedPort>, a: Addr, key: Key) returns (n: Node?<MappedPort>, ghost k: nat)
    requires l.Valid()
    ensures k == FindMapping(l.Contents(), a, key)
    ensures FindMapping(l.Contents(), a, key) == |l.nodes| ==> n == null
    ensures FindMapping(l.Contents(), a, key) < |l.nodes| ==> n == l.nodes[FindMapping(l.Contents(), a, key)]
  {
    FirstOf(l);
    var i := l.head.next;
    k := 0;
    while i != l.head
      invariant k <= |l.nodes| && i == (if k < |l.nodes| then l.nodes[k] else l.head)
      invariant forall j :: 0 <= j < k ==> !Hit(l.Contents()[j], a, key)
      decreases |l.nodes| - k
    {
      if Hit(i.entry, a, key) {
        return i, k;
      }
      NextOf(l, k);
      i := i.next;
      k := k + 1;
    }
    n := null;
    assert k == |l.nodes| by {
      if k < |l.nodes| { NextOf(l, k); }
    }
  }

  /** `find_iwpm_same_mapping` */
  method FindSamePort(l: List<MappedPort>, a: Addr, key: Key) returns (n: Node?<MappedPort>, ghost k: nat)
    requires l.Valid()
    ensures k == FindSame(l.Contents(), a, key)
    ensures FindSame(l.Contents(), a, key) == |l.nodes| ==> n == null
    ensures FindSame(l.Contents(), a, key) < |l.nodes| ==> n == l.nodes[FindSame(l.Contents(), a, key)]
  {
    FirstOf(l);
    var i := l.head.next;
    k := 0;
    while i != l.head
      invariant k <= |l.nodes| && i == (if k < |l.nodes| then l.nodes[k] else l.head)
      invariant forall j :: 0 <= j < k ==> !Same(a, KeyOf(l.Contents()[j], key))
      decreases |l.nodes| - k
    {
      if Same(a, KeyOf(i.entry, key)) {
        return i, k;
      }
      NextOf(l, k);
      i := i.next;
      k := k + 1;
    }
    n := null;
    assert k == |l.nodes| by {
      if k < |l.nodes| { NextOf(l, k); }
    }
  }

  /** `update_iwpm_map_request`: the first matching request, copied out before it is serviced. */
  method UpdateRequest(l: List<MapRequest>, handle: bv64, src: Addr, kinds: set<Kind>, update: bool)
    returns (copy: Option<MapRequest>, ghost k: nat)
    requires l.Valid()
    modifies l.nodes`entry
    ensures l.Valid() && k == FindRequest(old(l.Contents()), handle, src, kinds)
    ensures k == |l.nodes| ==> copy == None && l.Contents() == old(l.Contents())
    ensures k < |l.nodes| ==>
              && copy == Some(old(l.Contents())[k])
              && l.Contents() == if update then old(l.Contents())[k := Serviced(old(l.Contents())[k])] else old(l.Contents())
  {
    FirstOf(l);
    var i := l.head.next;
    k := 0;
    while i != l.head
      invariant k <= |l.nodes| && i == (if k < |l.nodes| then l.nodes[k] else l.head)
      invariant l.Valid() && l.Contents() == old(l.Contents())
      invariant forall j :: 0 <= j < k ==> !Answers(l.Contents()[j], handle, src, kinds)
      decreases |l.nodes| - k
    {
      if Answers(i.entry, handle, src, kinds) {
        copy := Some(i.entry);
        if update && !i.entry.complete {
          if i.entry.kind == AckReq {
            l.SetEntry(i, i.entry.(timeout := REQ_TIMEOUT, complete := false), k);
          } else {
            // the next sweep removes it
            l.SetEntry(i, i.entry.(timeout := 0, complete := true), k);
          }
        }
        return;
      }
      NextOf(l, k);
      i := i.next;
      k := k + 1;
    }
    copy := None;
    assert k == |l.nodes| by {
      if k < |l.nodes| { NextOf(l, k); }
    }
  }

  // ----- the timer sweep

  /** The nodes of the entries that have time left. */
  ghost function Survivors(s: seq<Node<MapRequest>>, q: seq<MapRequest>): seq<Node<MapRequest>>
    requires |s| == |q|
  {
    if s == [] then []
    else Survivors(s[..|s| - 1], q[..|s| - 1]) + if q[|s| - 1].timeout > 0 then [s[|s| - 1]] else []
  }

  /** How far the sweep has come: of the `m` nodes visited, those kept are linked in front
      of the rest and hold the aged entries. */
  ghost predicate SweptTo(l: List<MapRequest>, s: seq<Node<MapRequest>>, q: seq<MapRequest>, m: nat,
                          resent: seq<(nat, Datagram)>)
    requires |s| == |q| && m <= |s|
    reads l`nodes, l.head`next, l.head`prev, l.nodes
  {
    && l.Valid() && l.nodes == Survivors(s[..m], q[..m]) + s[m..]
    && l.Contents() == Sweep(q[..m]) + q[m..]
    && resent == Resent(q[..m])
  }

  lemma SweepPrefix(s: seq<Node<MapRequest>>, q: seq<MapRequest>, m: nat)
    requires |s| == |q| && m < |s|
    ensures Sweep(q[..m + 1]) == Sweep(q[..m]) + Aged(q[m])
    ensures Resent(q[..m + 1]) == Resent(q[..m]) + ResentFor(q[m])
    ensures Survivors(s[..m + 1], q[..m + 1]) == Survivors(s[..m], q[..m]) + if q[m].timeout > 0 then [s[m]] else []
  {
    assert q[..m + 1] == q[..m] + [q[m]];
    SweepConcat(q[..m], [q[m]]);
    ResentConcat(q[..m], [q[m]]);
    assert Sweep([q[m]]) == Aged(q[m]) && Resent([q[m]]) == ResentFor(q[m]);
    assert s[..m + 1][..m] == s[..m] && q[..m + 1][..m] == q[..m];
  }

  /** A request with time left is aged in place. */
  method AgeNode(l: List<MapRequest>, i: Node<MapRequest>, ghost swept: seq<MapRequest>, ghost q: seq<MapRequest>)
    returns (resent: seq<(nat, Datagram)>)
    requires l.Valid() && l.Contents() == swept + q && q != [] && |swept| < |l.nodes|
    requires i == l.nodes[|swept|] && i.entry == q[0] && q[0].timeout > 0
    modifies i`entry
    ensures l.Valid() && l.Contents() == swept + Aged(q[0]) + q[1..] && resent == ResentFor(q[0])
  {
    hide Ring, Entries;
    resent := [];
    if Due(i.entry) && i.entry.resend.Some? {
      resent := [(i.entry.id, i.entry.resend.value)];
    }
    ghost var aged := i.entry.(timeout := i.entry.timeout - 1);
    l.SetEntry(i, i.entry.(timeout := i.entry.timeout - 1), |swept|);
    SetSecond(swept, q, aged);
  }

  /** A request that has run out of time is unlinked. */
  method DropNode(l: List<MapRequest>, i: Node<MapRequest>, ghost kept: seq<Node<MapRequest>>,
                  ghost rest: seq<Node<MapRequest>>, ghost swept: seq<MapRequest>, ghost q: seq<MapRequest>)
    requires l.Valid() && l.nodes == kept + rest && l.Contents() == swept + q
    requires |kept| == |swept| && rest != [] && q != [] && i == rest[0]
    modifies l`nodes, i.next`prev, i.prev`next
    ensures l.Valid() && l.nodes == kept + rest[1..] && l.Contents() == swept + q[1..]
  {
    hide Ring, Entries;
    CutSecond(swept, q);
    CutSecond(kept, rest);
    l.Remove(i, |kept|);
  }

  /** One round of the loop in `iwpm_mapping_reqs_handler`, on the first node `i` of the rest
      of the list. */
  method SweepOne(l: List<MapRequest>, i: Node<MapRequest>,
                  ghost kept: seq<Node<MapRequest>>, ghost rest: seq<Node<MapRequest>>,
                  ghost swept: seq<MapRequest>, ghost q: seq<MapRequest>)
    returns (resent: seq<(nat, Datagram)>)
    requires l.Valid() && l.nodes == kept + rest && l.Contents() == swept + q
    requires |kept| == |swept| && rest != [] && q != [] && i == rest[0]
    modifies l`nodes, i`entry, i.next`prev, i.prev`next
    ensures l.Valid() && l.nodes == kept + (if q[0].timeout > 0 then [i] else []) + rest[1..]
    ensures l.Contents() == swept + Aged(q[0]) + q[1..]
    ensures resent == ResentFor(q[0])
  {
    hide Ring, Entries;
    assert l.nodes[|kept|] == i && l.Contents()[|kept|] == q[0];
    if i.entry.timeout > 0 {
      resent := AgeNode(l, i, swept, q);
      assert kept + rest == kept + [i] + rest[1..];
    } else {
      resent := [];
      DropNode(l, i, kept, rest, swept, q);
      assert swept + [] + q[1..] == swept + q[1..] && kept + [] + rest[1..] == kept + rest[1..];
    }
  }

  lemma SetSecond<A>(a: seq<A>, b: seq<A>, x: A)
    requires b != []
    ensures (a + b)[|a| := x] == a + [x] + b[1..]
  {
  }

  lemma CutSecond<A>(a: seq<A>, b: seq<A>)
    requires b != []
    ensures (a + b)[..|a|] + (a + b)[|a| + 1..] == a + b[1..]
  {
  }

  lemma {:induction false} SurvivorsWithin(s: seq<Node<MapRequest>>, q: seq<MapRequest>)
    requires |s| == |q|
    ensures |Survivors(s, q)| == |Sweep(q)| && forall x :: x in Survivors(s, q) ==> x in s
  {
    if s != [] {
      var n := |s| - 1;
      SurvivorsWithin(s[..n], q[..n]);
      SweepPrefix(s, q, n);
      assert s[..n + 1] == s && q[..n + 1] == q;
    }
  }

  /** The cursor's neighbours are nodes of the list as it was when the sweep began. */
  lemma NextInSweep(l: List<MapRequest>, s: seq<Node<MapRequest>>, q: seq<MapRequest>, m: nat,
                    resent: seq<(nat, Datagram)>)
    requires |s| == |q| && m < |s| && SweptTo(l, s, q, m, resent)
    ensures s[m].next == (if m + 1 < |s| then s[m + 1] else l.head) && s[m] != l.head
    ensures s[m].prev == l.head || s[m].prev in s
    ensures |Survivors(s[..m], q[..m])| == |Sweep(q[..m])|
  {
    var kept := Survivors(s[..m], q[..m]);
    SurvivorsWithin(s[..m], q[..m]);
    hide Survivors, Sweep;
    var k := |kept|;
    assert l.nodes[k] == s[m];
    NextOf(l, k);
    var h := [l.head] + l.nodes;
    assert Joined(h[k], h[After(k, |h|)]);
    if k > 0 {
      assert h[k] == kept[k - 1] && kept[k - 1] in s[..m];
    }
  }

  lemma SweptOnce(l: List<MapRequest>, s: seq<Node<MapRequest>>, q: seq<MapRequest>, m: nat,
                  resent: seq<(nat, Datagram)>, more: seq<(nat, Datagram)>)
    requires |s| == |q| && m < |s| && l.Valid() && resent == Resent(q[..m]) && more == ResentFor(q[m])
    requires l.nodes == Survivors(s[..m], q[..m]) + (if q[m].timeout > 0 then [s[m]] else []) + s[m + 1..]
    requires l.Contents() == Sweep(q[..m]) + Aged(q[m]) + q[m + 1..]
    ensures SweptTo(l, s, q, m + 1, resent + more)
  {
    SweepPrefix(s, q, m);
    hide Ring, Entries, Sweep, Resent, Survivors, Aged, ResentFor;
  }

  /** One round of the sweep, on the `m`-th node of the list as it was at the start. */
  method SweepNode(l: List<MapRequest>, i: Node<MapRequest>, ghost s: seq<Node<MapRequest>>,
                   ghost q: seq<MapRequest>, ghost m: nat, ghost resent: seq<(nat, Datagram)>)
    returns (more: seq<(nat, Datagram)>)
    requires |s| == |q| && m < |s| && SweptTo(l, s, q, m, resent) && i == s[m]
    modifies l`nodes, i`entry, i.next`prev, i.prev`next
    ensures SweptTo(l, s, q, m + 1, resent + more)
  {
    NextInSweep(l, s, q, m, resent);
    hide Ring, Entries, Sweep, Resent, Survivors, Aged, ResentFor;
    more := SweepOne(l, i, Survivors(s[..m], q[..m]), s[m..], Sweep(q[..m]), q[m..]);
    assert s[m..][1..] == s[m + 1..] && q[m..][1..] == q[m + 1..];
    SweptOnce(l, s, q, m, resent, more);
  }

  lemma SweepBegins(l: List<MapRequest>)
    requires l.Valid()
    ensures SweptTo(l, l.nodes, l.Contents(), 0, [])
  {
  }

  /** The sweep over the ring, deleting requests as it goes (`list_for_each_safe`): it visits
      every request once, keeps the nodes with time left in order, each one tick older, and
      queues the retransmissions. */
  method SweepRequests(l: List<MapRequest>) returns (resent: seq<(nat, Datagram)>)
    requires l.Valid()
    modifies l`nodes, l.head`next, l.head`prev, l.nodes
    ensures l.Valid() && l.Contents() == Sweep(old(l.Contents())) && resent == Resent(old(l.Contents()))
    ensures l.nodes == Survivors(old(l.nodes), old(l.Contents()))
    ensures forall j :: 0 <= j < |l.nodes| ==> l.nodes[j] in old(l.nodes)
  {
    hide Ring, Entries, Sweep, Resent, Survivors, SweptTo;
    ghost var s, q, m := l.nodes, l.Contents(), 0;
    FirstOf(l);
    SweepBegins(l);
    var i := l.head.next;
    var nxt := i.next;
    resent := [];
    while i != l.head
      invariant m <= |s| && i == (if m < |s| then s[m] else l.head) && nxt == i.next
      invariant SweptTo(l, s, q, m, resent)
      decreases |s| - m
    {
      NextInSweep(l, s, q, m, resent);
      var more := SweepNode(l, i, s, q, m, resent);
      resent, m := resent + more, m + 1;
      i := nxt;
      nxt := i.next;
    }
    if m < |s| {
      NextInSweep(l, s, q, m, resent);
    }
    SweepEnds(l, s, q, resent);
  }

  lemma SweepEnds(l: List<MapRequest>, s: seq<Node<MapRequest>>, q: seq<MapRequest>, resent: seq<(nat, Datagram)>)
    requires |s| == |q| && SweptTo(l, s, q, |s|, resent)
    ensures l.Valid() && l.Contents() == Sweep(q) && resent == Resent(q) && l.nodes == Survivors(s, q)
    ensures forall j :: 0 <= j < |l.nodes| ==> l.nodes[j] in s
  {
    hide Ring, Entries, Sweep, Resent, Survivors;
    assert s[..|s|] == s && q[..|s|] == q;
    SurvivorsWithin(s, q);
  }

  /** Several sweeps in a row. */
  method SweepTimes(l: List<MapRequest>, n: nat) returns (resent: seq<(nat, Datagram)>)
    requires l.Valid()
    modifies l`nodes, l.head`next, l.head`prev, l.nodes
    ensures l.Valid() && l.Contents() == Sweeps(old(l.Contents()), n) && resent == ResentIn(old(l.Contents()), n)
    ensures forall j :: 0 <= j < |l.nodes| ==> l.nodes[j] in old(l.nodes)
    decreases n
  {
    hide *;
    SweepsUnrolled(l.Contents(), n);
    resent := [];
    if n > 0 {
      ghost var s := l.nodes;
      resent := SweepRequests(l);
      ghost var t := l.nodes;
      var more := SweepTimes(l, n - 1);
      resent := resent + more;
      WithinBoth(l.nodes, t, s);
    }
  }

  lemma SweepsUnrolled(q: seq<MapRequest>, n: nat)
    ensures n == 0 ==> Sweeps(q, n) == q && ResentIn(q, n) == []
    ensures n > 0 ==> Sweeps(q, n) == Sweeps(Sweep(q), n - 1) && ResentIn(q, n) == Resent(q) + ResentIn(Sweep(q), n - 1)
  {
  }

  lemma WithinBoth<A>(r: seq<A>, s: seq<A>, t: seq<A>)
    requires (forall j :: 0 <= j < |r| ==> r[j] in s) && (forall j :: 0 <= j < |s| ==> s[j] in t)
    ensures forall j :: 0 <= j < |r| ==> r[j] in t
  {
  }
}
