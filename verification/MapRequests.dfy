/** The list of requests in flight (`mapping_reqs`): lookup, completion and the timer sweep. */
module MapRequests {
  import opened Basics
  import opened Sockaddr

  const REQ_TIMEOUT := 10

  /** A wire message: association handle, accepting peer, connecting peer, and in a
      request also the mapped address of the connecting peer. */
  datatype Msg =
    | Req(handle: bv64, ap: Addr, cp: Addr, mappedCp: Addr)
    | Acc(handle: bv64, ap: Addr, cp: Addr)
    | Ack(handle: bv64, ap: Addr, cp: Addr)
    | Rej(handle: bv64, ap: Addr, cp: Addr)

  /** A message together with the socket address it is sent to. */
  datatype Datagram = Datagram(to: Addr, msg: Msg)

  datatype Kind = QueryReq | AcceptReq | AckReq

  /** The netlink header fields kept to answer the client later. */
  datatype NlRef = NlRef(nlType: bv16, nlSeq: bv32, nlPid: bv32)

  /** `iwpm_mapping_request`. `id` is the identity of the object. */
  datatype MapRequest = MapRequest(
    id: nat, kind: Kind, src: Addr, remote: Addr, nl: NlRef, handle: bv64,
    resend: Option<Datagram>, timeout: int, complete: bool)

  /** `create_iwpm_map_request`: a zero handle is replaced by the object's own address. */
  function NewRequest(id: nat, kind: Kind, src: Addr, remote: Addr, nl: NlRef, handle: bv64,
                      address: bv64, resend: Option<Datagram>): MapRequest
  {
    MapRequest(id, kind, src, remote, nl, if handle == 0 then address else handle,
               resend, REQ_TIMEOUT, false)
  }

  predicate Answers(r: MapRequest, handle: bv64, src: Addr, kinds: set<Kind>) {
    handle == r.handle && r.kind in kinds && Same(src, r.src)
  }

  /** The search of `update_iwpm_map_request`: first match or the length of the list. */
  function FindRequest(q: seq<MapRequest>, handle: bv64, src: Addr, kinds: set<Kind>): (k: nat)
    ensures k <= |q|
    ensures k < |q| ==> Answers(q[k], handle, src, kinds)
    ensures forall i :: 0 <= i < k ==> !Answers(q[i], handle, src, kinds)
  {
    if q == [] || Answers(q[0], handle, src, kinds) then 0
    else 1 + FindRequest(q[1..], handle, src, kinds)
  }

  /** The update of `update_iwpm_map_request`: an ACK entry is kept alive, any other
      request is done and may be freed by the next sweep. */
  function Serviced(r: MapRequest): MapRequest {
    if r.complete then r
    else if r.kind == AckReq then r.(timeout := REQ_TIMEOUT, complete := false)
    else r.(timeout := 0, complete := true)
  }

  // ----- the timer sweep

  predicate Due(r: MapRequest) {
    0 < r.timeout < REQ_TIMEOUT && r.kind != AckReq
  }

  /** What one sweep makes of one entry: a tick older, or gone. */
  function Aged(r: MapRequest): seq<MapRequest> {
    if r.timeout > 0 then [r.(timeout := r.timeout - 1)] else []
  }

  /** What one sweep leaves of the list. */
  function Sweep(q: seq<MapRequest>): seq<MapRequest> {
    if q == [] then [] else Aged(q[0]) + Sweep(q[1..])
  }

  function ResentFor(r: MapRequest): seq<(nat, Datagram)> {
    if Due(r) && r.resend.Some? then [(r.id, r.resend.value)] else []
  }

  /** The messages one sweep queues for retransmission, with the request they belong to. */
  function Resent(q: seq<MapRequest>): seq<(nat, Datagram)> {
    if q == [] then [] else ResentFor(q[0]) + Resent(q[1..])
  }

  predicate RequestOk(r: MapRequest) {
    && 0 <= r.timeout <= REQ_TIMEOUT
    && (r.complete ==> r.timeout == 0 && r.kind != AckReq)
    && (r.resend.None? <==> r.kind == AckReq)
    && r.handle != 0
  }

  ghost predicate RequestsOk(q: seq<MapRequest>) {
    && (forall i :: 0 <= i < |q| ==> RequestOk(q[i]))
    && (forall i, j :: 0 <= i < j < |q| ==> q[i].id != q[j].id)
  }

  /** The position an entry has after a sweep: the number of survivors before it. */
  function Rank(q: seq<MapRequest>, k: nat): nat
    requires k <= |q|
  {
    |Sweep(q[..k])|
  }

  lemma Unrolled(q: seq<MapRequest>)
    ensures q == [] ==> Sweep(q) == [] && Resent(q) == []
    ensures q != [] ==> Sweep(q) == Aged(q[0]) + Sweep(q[1..]) && Resent(q) == ResentFor(q[0]) + Resent(q[1..])
  {
  }

  lemma Associates<A>(a: seq<A>, b: seq<A>, c: seq<A>)
    ensures a + (b + c) == (a + b) + c && [] + a == a
  {
  }

  lemma {:induction false} SweepConcat(p: seq<MapRequest>, q: seq<MapRequest>)
    ensures Sweep(p + q) == Sweep(p) + Sweep(q)
  {
    hide Aged, Sweep;
    Unrolled(p);
    Unrolled(p + q);
    if p == [] {
      assert p + q == q;
      Associates(Sweep(q), [], []);
    } else {
      assert (p + q)[0] == p[0] && (p + q)[1..] == p[1..] + q;
      SweepConcat(p[1..], q);
      Associates(Aged(p[0]), Sweep(p[1..]), Sweep(q));
    }
  }

  lemma {:induction false} ResentConcat(p: seq<MapRequest>, q: seq<MapRequest>)
    ensures Resent(p + q) == Resent(p) + Resent(q)
  {
    hide ResentFor, Resent;
    Unrolled(p);
    Unrolled(p + q);
    if p == [] {
      assert p + q == q;
      Associates(Resent(q), [], []);
    } else {
      assert (p + q)[0] == p[0] && (p + q)[1..] == p[1..] + q;
      ResentConcat(p[1..], q);
      Associates(ResentFor(p[0]), Resent(p[1..]), Resent(q));
    }
  }

  /** Exactly the entries with time left survive, in order, one tick older. */
  lemma {:induction false} SweepKeeps(q: seq<MapRequest>, k: nat)
    requires k < |q|
    ensures q[k].timeout > 0 ==>
              Rank(q, k) < |Sweep(q)| && Sweep(q)[Rank(q, k)] == q[k].(timeout := q[k].timeout - 1)
    ensures Rank(q, k + 1) == Rank(q, k) + if q[k].timeout > 0 then 1 else 0
  {
    assert q == q[..k] + ([q[k]] + q[k + 1..]);
    assert q[..k + 1] == q[..k] + [q[k]];
    SweepConcat(q[..k], [q[k]] + q[k + 1..]);
    SweepConcat([q[k]], q[k + 1..]);
    SweepConcat(q[..k], [q[k]]);
  }

  /** Nothing appears in the swept list that was not there before. */
  lemma {:induction false} SweepOrigin(q: seq<MapRequest>, j: nat) returns (k: nat)
    requires j < |Sweep(q)|
    ensures k < |q| && q[k].timeout > 0 && Rank(q, k) == j
    ensures Sweep(q)[j] == q[k].(timeout := q[k].timeout - 1)
    decreases |q|
  {
    if q[0].timeout > 0 && j == 0 {
      k := 0;
    } else {
      var d := if q[0].timeout > 0 then 1 else 0;
      k := SweepOrigin(q[1..], j - d);
      k := k + 1;
      assert q[..k] == [q[0]] + q[1..][..k - 1];
      SweepConcat([q[0]], q[1..][..k - 1]);
    }
  }

  lemma {:induction false} RankMonotone(q: seq<MapRequest>, i: nat, j: nat)
    requires i <= j <= |q|
    ensures Rank(q, i) <= Rank(q, j)
    ensures (exists k :: i <= k < j && q[k].timeout > 0) ==> Rank(q, i) < Rank(q, j)
    decreases j - i
  {
    if i < j {
      SweepKeeps(q, i);
      RankMonotone(q, i + 1, j);
    }
  }

  lemma SweepKeepsRequests(q: seq<MapRequest>)
    requires RequestsOk(q)
    ensures RequestsOk(Sweep(q))
  {
    var u := Sweep(q);
    forall i | 0 <= i < |u| ensures RequestOk(u[i]) {
      var k := SweepOrigin(q, i);
    }
    forall i, j | 0 <= i < j < |u| ensures u[i].id != u[j].id {
      var k := SweepOrigin(q, i);
      var l := SweepOrigin(q, j);
    }
  }

  /** A request is retransmitted by a sweep exactly when it is due, and at most once. */
  lemma {:induction false} ResentExactlyDue(q: seq<MapRequest>, id: nat)
    requires RequestsOk(q)
    ensures ResentCount(Resent(q), id) ==
            if exists k :: 0 <= k < |q| && q[k].id == id && Due(q[k]) then 1 else 0
  {
    if q != [] {
      var p := q[1..];
      assert RequestsOk(p);
      ResentExactlyDue(p, id);
      assert forall k :: 0 <= k < |p| ==> p[k] == q[k + 1];
      if exists k :: 0 <= k < |q| && q[k].id == id && Due(q[k]) {
        var k :| 0 <= k < |q| && q[k].id == id && Due(q[k]);
        assert k == 0 || (p[k - 1].id == id && Due(p[k - 1]));
      }
      assert q[0].id == id ==> forall k :: 0 <= k < |p| ==> p[k].id != id;
      CountConcat(ResentFor(q[0]), Resent(p), id);
    }
  }

  function ResentCount(s: seq<(nat, Datagram)>, id: nat): nat {
    if s == [] then 0 else (if s[0].0 == id then 1 else 0) + ResentCount(s[1..], id)
  }

  lemma {:induction false} CountConcat(s: seq<(nat, Datagram)>, t: seq<(nat, Datagram)>, id: nat)
    ensures ResentCount(s + t, id) == ResentCount(s, id) + ResentCount(t, id)
  {
    if s == [] {
      assert s + t == t;
    } else {
      CountConcat(s[1..], t, id);
      assert (s + t)[1..] == s[1..] + t;
    }
  }

  // ----- several sweeps

  function Sweeps(q: seq<MapRequest>, n: nat): seq<MapRequest>
    decreases n
  {
    if n == 0 then q else Sweeps(Sweep(q), n - 1)
  }

  /** The retransmissions of `n` sweeps. */
  function ResentIn(q: seq<MapRequest>, n: nat): seq<(nat, Datagram)>
    decreases n
  {
    if n == 0 then [] else Resent(q) + ResentIn(Sweep(q), n - 1)
  }

  lemma {:induction false} SweepsOrigin(q: seq<MapRequest>, n: nat, j: nat) returns (k: nat)
    requires j < |Sweeps(q, n)|
    ensures k < |q| && (n > 0 ==> q[k].timeout >= n) && Sweeps(q, n)[j] == q[k].(timeout := q[k].timeout - n)
    decreases n
  {
    if n == 0 {
      k := j;
    } else {
      var l := SweepsOrigin(Sweep(q), n - 1, j);
      k := SweepOrigin(q, l);
    }
  }

  lemma {:induction false} SweepsKeepRequests(q: seq<MapRequest>, n: nat)
    requires RequestsOk(q)
    ensures RequestsOk(Sweeps(q, n))
    decreases n
  {
    if n > 0 {
      SweepKeepsRequests(q);
      SweepsKeepRequests(Sweep(q), n - 1);
    }
  }

  /** A request outlives exactly the sweeps it has time for. */
  lemma {:induction false} SweepsFuture(q: seq<MapRequest>, n: nat, k: nat) returns (j: nat)
    requires RequestsOk(q) && k < |q|
    ensures q[k].timeout >= n ==> j < |Sweeps(q, n)| && Sweeps(q, n)[j] == q[k].(timeout := q[k].timeout - n)
    ensures q[k].timeout < n ==> forall l :: 0 <= l < |Sweeps(q, n)| ==> Sweeps(q, n)[l].id != q[k].id
    decreases n
  {
    j := k;
    if q[k].timeout < n {
      forall l | 0 <= l < |Sweeps(q, n)| ensures Sweeps(q, n)[l].id != q[k].id {
        var m := SweepsOrigin(q, n, l);
      }
    } else if n > 0 {
      SweepKeeps(q, k);
      SweepKeepsRequests(q);
      j := SweepsFuture(Sweep(q), n - 1, Rank(q, k));
    }
  }

  /** At how many of `n` sweeps a request with `t` ticks left is sent again. */
  function DueCount(t: int, n: nat): nat
    decreases n
  {
    if n == 0 || t <= 0 then 0 else (if t < REQ_TIMEOUT then 1 else 0) + DueCount(t - 1, n - 1)
  }

  lemma {:induction false} UnlistedIsNotResent(q: seq<MapRequest>, n: nat, id: nat)
    requires RequestsOk(q) && forall k :: 0 <= k < |q| ==> q[k].id != id
    ensures ResentCount(ResentIn(q, n), id) == 0
    decreases n
  {
    if n > 0 {
      ResentExactlyDue(q, id);
      SweepKeepsRequests(q);
      forall j | 0 <= j < |Sweep(q)| ensures Sweep(q)[j].id != id {
        var k := SweepOrigin(q, j);
      }
      UnlistedIsNotResent(Sweep(q), n - 1, id);
      CountConcat(Resent(q), ResentIn(Sweep(q), n - 1), id);
    }
  }

  lemma ResentOnce(q: seq<MapRequest>, k: nat)
    requires RequestsOk(q) && k < |q|
    ensures RequestOk(q[k]) && ResentCount(Resent(q), q[k].id) == if Due(q[k]) then 1 else 0
  {
    hide Resent, ResentCount;
    ResentExactlyDue(q, q[k].id);
    assert forall l :: 0 <= l < |q| && q[l].id == q[k].id ==> l == k;
  }

  lemma SweptAway(q: seq<MapRequest>, k: nat)
    requires RequestsOk(q) && k < |q| && q[k].timeout == 0
    ensures forall j :: 0 <= j < |Sweep(q)| ==> Sweep(q)[j].id != q[k].id
  {
    hide Sweep;
    forall j | 0 <= j < |Sweep(q)| ensures Sweep(q)[j].id != q[k].id {
      var l := SweepOrigin(q, j);
    }
  }

  /** How often `n` sweeps resend a listed request. */
  lemma {:induction false} ResentInCount(q: seq<MapRequest>, n: nat, k: nat)
    requires RequestsOk(q) && k < |q|
    ensures ResentCount(ResentIn(q, n), q[k].id) == if q[k].kind == AckReq then 0 else DueCount(q[k].timeout, n)
    decreases n
  {
    if n == 0 {
      assert ResentIn(q, n) == [];
    } else {
      var r := q[k];
      ResentOnce(q, k);
      SweepKeepsRequests(q);
      CountConcat(Resent(q), ResentIn(Sweep(q), n - 1), r.id);
      hide Sweep, Resent, ResentCount, RequestsOk;
      if r.timeout > 0 {
        SweepKeeps(q, k);
        ResentInCount(Sweep(q), n - 1, Rank(q, k));
      } else {
        SweptAway(q, k);
        UnlistedIsNotResent(Sweep(q), n - 1, r.id);
      }
    }
  }

  /** With no further input the list drains: after `n` sweeps only timeouts of at least
      `n` can be left, so after eleven sweeps nothing is. */
  lemma {:induction false} ListDrains(q: seq<MapRequest>)
    requires RequestsOk(q)
    ensures Sweeps(q, REQ_TIMEOUT + 1) == []
  {
    DrainsBy(q, REQ_TIMEOUT);
  }

  lemma {:induction false} DrainsBy(q: seq<MapRequest>, bound: nat)
    requires forall i :: 0 <= i < |q| ==> q[i].timeout <= bound
    ensures Sweeps(q, bound + 1) == []
    decreases bound
  {
    var u := Sweep(q);
    if bound == 0 {
      if u != [] {
        var k := SweepOrigin(q, 0);
      }
      assert Sweeps(q, 1) == Sweeps(u, 0);
    } else {
      forall i | 0 <= i < |u| ensures u[i].timeout <= bound - 1 {
        var k := SweepOrigin(q, i);
      }
      DrainsBy(u, bound - 1);
    }
  }
}
