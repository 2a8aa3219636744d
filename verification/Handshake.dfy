/** Request, accept and ack of one query complete both ends. */
module Handshake {
  import opened Basics
  import opened Sockaddr
  import opened PortTable
  import opened MapRequests
  import opened PortMapper
  import opened DaemonRuns
  import opened Outcomes
  import opened Suppression
  import opened Lifetime
  import opened Network

  // ----- an open query is the first to meet its handle

  predicate Own(r: MapRequest) {
    r.kind == QueryReq || r.kind == AckReq
  }

  /** Entry `r` does not stand in the way of entry `s` behind it. */
  predicate Clear(r: MapRequest, s: MapRequest) {
    Own(r) && s.kind == QueryReq && !s.complete ==> r.handle != s.handle
  }

  /** No QUERY or ACK entry in front of an open query has its handle. */
  ghost predicate OpenInFront(q: seq<MapRequest>) {
    forall i, k :: 0 <= i < k < |q| ==> Clear(q[i], q[k])
  }

  lemma SweepKeepsFront(q: seq<MapRequest>)
    requires OpenInFront(q)
    ensures OpenInFront(Sweep(q))
  {
    hide Sweep;
    var u := Sweep(q);
    forall i, k | 0 <= i < k < |u| ensures Clear(u[i], u[k]) {
      var l := SweepOrigin(q, i);
      var m := SweepOrigin(q, k);
      if m < l {
        RankMonotone(q, m, l);
      }
      assert Clear(q[l], q[m]);
    }
  }

  lemma {:induction false} SweepsKeepFront(q: seq<MapRequest>, n: nat)
    requires OpenInFront(q)
    ensures OpenInFront(Sweeps(q, n))
    decreases n
  {
    if n > 0 {
      SweepKeepsFront(q);
      SweepsKeepFront(Sweep(q), n - 1);
    }
  }

  lemma ServiceKeepsFront(q: seq<MapRequest>, n: nat)
    requires OpenInFront(q)
    ensures OpenInFront(WithServiced(q, n))
  {
    var u := WithServiced(q, n);
    forall i, k | 0 <= i < k < |u| ensures Clear(u[i], u[k]) {
      assert Clear(q[i], q[k]);
    }
  }

  lemma PushKeepsFront(p: MapRequest, q: seq<MapRequest>)
    requires OpenInFront(q) && forall k :: 0 <= k < |q| ==> Clear(p, q[k])
    ensures OpenInFront([p] + q)
  {
    var u := [p] + q;
    forall i, k | 0 <= i < k < |u| ensures Clear(u[i], u[k]) {
      assert u[k] == q[k - 1] && (i > 0 ==> u[i] == q[i - 1]);
    }
  }

  /** A new query has a handle no open query has; a new ACK entry has that of the query that was
      just completed. */
  lemma NewIsClear(d: Daemon, i: Input, d': Daemon, push: seq<MapRequest>, k: nat)
    requires OpenInFront(d.reqs) && HandleUnused(d, i) && Pushes(d, i, d', push) && push != [] && k < |d.reqs|
    ensures Clear(push[0], Updated(d, i)[k])
  {
    hide Target;
    var n := Target(d, i);
    if push[0].kind == AckReq {
      assert k < n ==> Clear(d.reqs[k], d.reqs[n]);
      assert n < k ==> Clear(d.reqs[n], d.reqs[k]);
    }
  }

  lemma AdvanceKeepsFront(d: Daemon, i: Input, r: Result)
    requires Advance(d, i, r) && OpenInFront(d.reqs) && HandleUnused(d, i)
    ensures OpenInFront(r.d.reqs)
  {
    hide OpenInFront, Pushable, Target, ResentIn;
    var push: seq<MapRequest> :| Shape(d, i, r, push);
    var q := Sweeps(Updated(d, i), SweepsIn(i));
    ServiceKeepsFront(d.reqs, Target(d, i));
    SweepsKeepFront(Updated(d, i), SweepsIn(i));
    hide Sweeps, Updated, HandleUnused;
    if push == [] {
      assert push + q == q;
    } else {
      forall k | 0 <= k < |q| ensures Clear(push[0], q[k]) {
        var l := SweepsOrigin(Updated(d, i), SweepsIn(i), k);
        NewIsClear(d, i, r.d, push, l);
      }
      PushKeepsFront(push[0], q);
      assert push + q == [push[0]] + q;
    }
  }

  lemma ActKeepsFront(acts: seq<Act>, n: nat, h: Host)
    requires n < |acts| && HandleUnused(ActorAt(acts, n), acts[n].input) && OpenInFront(At(WorldAt(acts, n), h).reqs)
    ensures OpenInFront(At(WorldAt(acts, n + 1), h).reqs)
  {
    hide Step, OpenInFront, HandleUnused, DaemonOk, Advance;
    if h == acts[n].host {
      HostsOk(acts, n, h);
      StepAdvances(ActorAt(acts, n), acts[n].input);
      AdvanceKeepsFront(ActorAt(acts, n), acts[n].input, Step(ActorAt(acts, n), acts[n].input));
    }
  }

  lemma {:induction false} OpenStaysInFront(acts: seq<Act>, n: nat, h: Host)
    requires n <= |acts| && LiveHandles(acts)
    ensures OpenInFront(At(WorldAt(acts, n), h).reqs)
  {
    hide Step, OpenInFront, HandleUnused, ActorAt;
    if n == 0 {
      NothingInFront();
    } else {
      OpenStaysInFront(acts, n - 1, h);
      assert HandleUnused(ActorAt(acts, n - 1), acts[n - 1].input);
      ActKeepsFront(acts, n - 1, h);
    }
  }

  lemma NothingInFront()
    ensures OpenInFront([])
  {
  }

  // ----- handles that are never used twice are not in use

  /** Host `h` gave out `handle` before step `n`. */
  ghost predicate GaveOut(acts: seq<Act>, n: nat, h: Host, handle: bv64)
    requires n <= |acts|
  {
    exists m :: 0 <= m < n && Allocates(acts[m], h, handle)
  }

  ghost predicate HandlesKnown(acts: seq<Act>, n: nat, h: Host)
    requires n <= |acts|
  {
    var q := At(WorldAt(acts, n), h).reqs;
    forall k :: 0 <= k < |q| && q[k].kind == QueryReq ==> GaveOut(acts, n, h, q[k].handle)
  }

  lemma {:induction false} QueryHandlesKnown(acts: seq<Act>, n: nat, h: Host)
    requires n <= |acts|
    ensures HandlesKnown(acts, n, h)
  {
    hide Step;
    if n > 0 {
      QueryHandlesKnown(acts, n - 1, h);
      var q := At(WorldAt(acts, n), h).reqs;
      forall j | 0 <= j < |q| && q[j].kind == QueryReq ensures GaveOut(acts, n, h, q[j].handle) {
        if h == acts[n - 1].host {
          var d, i := ActorAt(acts, n - 1), acts[n - 1].input;
          HostsOk(acts, n - 1, h);
          StepAdvances(d, i);
          var added, k := RequestOrigin(d, i, Step(d, i), j);
          if added {
            assert Allocates(acts[n - 1], h, q[j].handle);
          }
        }
      }
    }
  }

  lemma FreshHandlesAreLive(acts: seq<Act>)
    requires FreshHandles(acts)
    ensures LiveHandles(acts)
  {
    hide Step, WorldAt;
    forall n | 0 <= n < |acts| ensures HandleUnused(ActorAt(acts, n), acts[n].input) {
      QueryHandlesKnown(acts, n, acts[n].host);
      var i := acts[n].input;
      if i.NlQuery? && i.env.address.Some? {
        assert Allocates(acts[n], acts[n].host, i.env.address.value);
      }
    }
  }

  // ----- accepts on a network stay unique

  /** Handles on the wire are addresses of query objects, so none is zero. */
  lemma DeliveredNonZero(hostOf: Addr -> Host, acts: seq<Act>, n: nat)
    requires n < |acts| && Valid(hostOf, acts)
    ensures NonZero(acts[n].input)
  {
    hide Step;
    var a := acts[n];
    assert Enabled(hostOf, WorldAt(acts, n), a);
    RunsAreFaithful(hostOf, acts, n);
    if a.input.Wire? {
      var p := Packet(a.input.from, a.to, a.input.msg);
      assert DatagramOk(hostOf, acts, n, hostOf(p.from), Datagram(p.to, p.msg));
    }
  }

  lemma ActKeepsUnique(hostOf: Addr -> Host, acts: seq<Act>, n: nat, h: Host)
    requires n < |acts| && Valid(hostOf, acts) && AcceptsUnique(At(WorldAt(acts, n), h).reqs)
    ensures AcceptsUnique(At(WorldAt(acts, n + 1), h).reqs)
  {
    hide Step, Valid, AcceptsUnique, DaemonOk;
    DeliveredNonZero(hostOf, acts, n);
    HostsOk(acts, n, h);
    if h == acts[n].host {
      StepKeepsUnique(ActorAt(acts, n), acts[n].input);
    }
  }

  lemma {:induction false} NetworkAcceptsUnique(hostOf: Addr -> Host, acts: seq<Act>, n: nat, h: Host)
    requires n <= |acts| && Valid(hostOf, acts)
    ensures AcceptsUnique(At(WorldAt(acts, n), h).reqs)
  {
    hide Step, Valid;
    if n > 0 {
      NetworkAcceptsUnique(hostOf, acts, n - 1, h);
      ActKeepsUnique(hostOf, acts, n - 1, h);
    }
  }

  // ----- a request lives until it is answered

  /** The sweeps of host `h` during the acts `t .. n`. */
  function HostTicks(acts: seq<Act>, t: nat, n: nat, h: Host): nat
    requires t <= n <= |acts|
  {
    if t == n then 0
    else HostTicks(acts, t, n - 1, h) + if acts[n - 1].host == h then SweepsIn(acts[n - 1].input) else 0
  }

  /** Some act in `t .. n` marks request `id` of host `h` complete. */
  ghost predicate Completed(acts: seq<Act>, t: nat, n: nat, h: Host, id: nat)
    requires t <= n <= |acts|
  {
    exists m :: t <= m < n && acts[m].host == h && Completes(ActorAt(acts, m), acts[m].input, id)
  }

  lemma OpenStep(d: Daemon, i: Input, r: MapRequest)
    requires DaemonOk(d) && Holds(d, r) && r.kind != AckReq && !r.complete && SweepsIn(i) <= r.timeout
    ensures Completes(d, i, r.id) || Holds(Step(d, i).d, r.(timeout := r.timeout - SweepsIn(i)))
  {
    hide Step, Target;
    if Meets(d, i, r.id) {
      var k :| 0 <= k < |d.reqs| && d.reqs[k] == r;
      assert k == Target(d, i);
    } else {
      UnansweredStep(d, i, r);
    }
  }

  /** An open request is answered or still listed as long as its time has not run out. */
  lemma {:induction false} Survives(acts: seq<Act>, t: nat, n: nat, h: Host, r: MapRequest)
    requires t <= n <= |acts| && Holds(At(WorldAt(acts, t), h), r)
    requires r.kind != AckReq && !r.complete && HostTicks(acts, t, n, h) <= r.timeout
    ensures || Completed(acts, t, n, h, r.id)
            || Holds(At(WorldAt(acts, n), h), r.(timeout := r.timeout - HostTicks(acts, t, n, h)))
    decreases n
  {
    hide Step, Completes;
    if n > t {
      Survives(acts, t, n - 1, h, r);
      var s := r.(timeout := r.timeout - HostTicks(acts, t, n - 1, h));
      if Completed(acts, t, n - 1, h, r.id) {
        var m :| t <= m < n - 1 && acts[m].host == h && Completes(ActorAt(acts, m), acts[m].input, r.id);
      } else if acts[n - 1].host == h {
        HostsOk(acts, n - 1, h);
        OpenStep(ActorAt(acts, n - 1), acts[n - 1].input, s);
      }
    }
  }

  // ----- the three deliveries

  /** The step put request `r` in front of the list. */
  predicate Files(d: Daemon, i: Input, r: MapRequest) {
    && Step(d, i).d.reqs != [] && Step(d, i).d.reqs[0] == r && r.id == d.nextReq
  }

  lemma FiledIsPushed(d: Daemon, i: Input, r: MapRequest)
    requires DaemonOk(d) && Files(d, i, r)
    ensures Pushable(d, i, r)
  {
    hide Step, Pushable;
    StepAdvances(d, i);
    var added, k := RequestOrigin(d, i, Step(d, i), 0);
  }

  /** A query for a fully specified local address files a request under that address. */
  lemma QueryFiled(d: Daemon, i: Input, q: MapRequest)
    requires DaemonOk(d) && i.NlQuery? && Files(d, i, q)
    requires i.local.family == i.remote.family && !IsWild(i.local)
    ensures Same(i.local, q.src) && q.kind == QueryReq && q.remote == i.remote && Internet(i.remote.family)
    ensures q.resend.Some? && q.resend.value.msg.Req? && q.resend.value.msg.cp == i.local
    ensures q.resend.value.msg.ap == i.remote && q.resend.value.msg.handle == q.handle
    ensures !q.complete && q.timeout == REQ_TIMEOUT
  {
    hide Step, IsWild;
    FiledIsPushed(d, i, q);
  }

  /** An accept that meets an open query completes it and is acknowledged with the same
      handle and the same mapped address. */
  lemma AcceptCompletes(d: Daemon, i: Input, q: MapRequest)
    requires OpenInFront(d.reqs) && Holds(d, q) && q.kind == QueryReq && !q.complete
    requires i.Wire? && i.msg.Acc? && i.msg.handle == q.handle && Same(i.msg.cp, q.src)
    requires FindSame(d.ports, i.msg.cp, Local) < |d.ports|
    ensures Completes(d, i, q.id)
    ensures i.env.delivered && i.env.address.Some? && i.env.queued ==>
              Step(d, i).out.sent == [Datagram(i.from, Ack(q.handle, i.msg.ap, i.msg.cp))]
  {
    hide Step, Target, OpenInFront, FindSame;
    OpenIsTarget(d, i, q);
    if i.env.delivered && i.env.address.Some? && i.env.queued {
      AcceptIsAcknowledged(d, i);
    }
  }

  /** An answer to an open query meets it. */
  lemma OpenIsTarget(d: Daemon, i: Input, q: MapRequest)
    requires OpenInFront(d.reqs) && Holds(d, q) && q.kind == QueryReq && !q.complete
    requires i.Wire? && (i.msg.Acc? || i.msg.Rej?) && i.msg.handle == q.handle && Same(i.msg.cp, q.src)
    requires FindSame(d.ports, i.msg.cp, Local) < |d.ports|
    ensures Target(d, i) < |d.reqs| && d.reqs[Target(d, i)] == q
  {
    var m, kinds := i.msg, if i.msg.Acc? then {QueryReq, AckReq} else {QueryReq};
    var k :| 0 <= k < |d.reqs| && d.reqs[k] == q;
    var e := d.ports[FindSame(d.ports, m.cp, Local)];
    var n := FindRequest(d.reqs, m.handle, e.local, kinds);
    assert Answers(d.reqs[k], m.handle, e.local, kinds);
    assert n < k ==> Clear(d.reqs[n], d.reqs[k]);
  }

  lemma AcceptIsAcknowledged(d: Daemon, i: Input)
    requires i.Wire? && i.msg.Acc? && Target(d, i) < |d.reqs|
    requires d.reqs[Target(d, i)].kind == QueryReq && !d.reqs[Target(d, i)].complete
    requires i.env.delivered && i.env.address.Some? && i.env.queued
    ensures Step(d, i).out.sent == [Datagram(i.from, Ack(i.msg.handle, i.msg.ap, i.msg.cp))]
  {
    hide Step, Handler, Sweeps, ResentIn, Serviced;
    StepIs(d, i);
    HandlerIs(d, i);
  }

  lemma AckCompletes(d: Daemon, i: Input, s: MapRequest)
    requires AcceptsUnique(d.reqs) && Holds(d, s) && s.kind == AcceptReq && !s.complete
    requires i.Wire? && i.msg.Ack? && i.msg.handle == s.handle && Same(i.msg.ap, s.src)
    requires FindMapping(d.ports, i.msg.ap, Mapped) < |d.ports|
    ensures Completes(d, i, s.id)
  {
    var m := i.msg;
    var k :| 0 <= k < |d.reqs| && d.reqs[k] == s;
    var n := FindRequest(d.reqs, m.handle, m.ap, {AcceptReq});
    assert Answers(d.reqs[k], m.handle, m.ap, {AcceptReq});
    assert forall j :: 0 <= j < k ==> !SameAccept(d.reqs[j], d.reqs[k]);
    assert Target(d, i) == n == k;
  }

  /** One query `q` filed at act `t0`, its request delivered at `t1` where it is answered
      from entry `e` and filed as `s`, that accept delivered at `t2`, its ack at `t3`. */
  datatype Exchange = Exchange(t0: nat, t1: nat, t2: nat, t3: nat,
                               q: MapRequest, s: MapRequest, e: MappedPort)

  predicate Delivers(acts: seq<Act>, t: nat, h: Host, m: Msg)
    requires t < |acts|
  {
    acts[t].host == h && acts[t].input.Wire? && acts[t].input.msg == m
  }

  ghost predicate HalfOpen(acts: seq<Act>, x: Exchange) {
    && x.t0 < x.t1 < x.t2 < x.t3 < |acts|
    && acts[x.t0].input.NlQuery? && Files(ActorAt(acts, x.t0), acts[x.t0].input, x.q)
    && acts[x.t0].input.local.family == acts[x.t0].input.remote.family
    && !IsWild(acts[x.t0].input.local) && !IsWild(acts[x.t0].input.remote)
    && x.q.resend.Some? && Delivers(acts, x.t1, acts[x.t1].host, x.q.resend.value.msg)
    && Files(ActorAt(acts, x.t1), acts[x.t1].input, x.s)
    && var t := ActorAt(acts, x.t1).ports;
       var k := FindMapping(t, x.q.remote, Local);
       k < |t| && x.e == t[k]
  }

  /** The other two messages arrive while the tables keep the entries and before either
      request has run out of time. */
  ghost predicate Exchanged(acts: seq<Act>, x: Exchange) {
    && HalfOpen(acts, x)
    && x.s.resend.Some? && Delivers(acts, x.t2, acts[x.t0].host, x.s.resend.value.msg)
    && FindSame(ActorAt(acts, x.t2).ports, acts[x.t0].input.local, Local) < |ActorAt(acts, x.t2).ports|
    && HostTicks(acts, x.t0 + 1, x.t2, acts[x.t0].host) <= REQ_TIMEOUT
    && Delivers(acts, x.t3, acts[x.t1].host, Ack(x.q.handle, x.s.src, acts[x.t0].input.local))
    && (exists k :: 0 <= k < |ActorAt(acts, x.t3).ports|
          && ActorAt(acts, x.t3).ports[k].local == x.e.local
          && ActorAt(acts, x.t3).ports[k].mapped == x.e.mapped)
    && HostTicks(acts, x.t1 + 1, x.t3, acts[x.t1].host) <= REQ_TIMEOUT
  }

  /** The accepting side filed its entry under the mapped address it put in the accept. */
  lemma AcceptFiled(acts: seq<Act>, x: Exchange)
    requires HalfOpen(acts, x)
    ensures x.s.kind == AcceptReq && !x.s.complete && x.s.timeout == REQ_TIMEOUT
    ensures x.s.handle == x.q.handle && x.s.src.family == x.q.remote.family && Internet(x.s.src.family)
    ensures x.s.src == if x.e.wcard then x.q.remote.(port := PortOf(x.e.mapped)) else x.e.mapped
    ensures x.s.resend == Some(Datagram(acts[x.t1].input.from, Acc(x.q.handle, x.s.src, acts[x.t0].input.local)))
  {
    hide Step;
    var d0, i0 := ActorAt(acts, x.t0), acts[x.t0].input;
    HostsOk(acts, x.t0, acts[x.t0].host);
    QueryFiled(d0, i0, x.q);
    StepKeeps(d0, i0);
    assert RequestOk(x.q);
    var d1, i1 := ActorAt(acts, x.t1), acts[x.t1].input;
    HostsOk(acts, x.t1, acts[x.t1].host);
    FiledIsPushed(d1, i1, x.s);
    assert EntryOk(x.e);
  }

  /** The mapped address an accept was filed under is found again by its ack. */
  lemma AckFindsEntry(t: seq<MappedPort>, k: nat, e: MappedPort, remote: Addr, mapped: Addr)
    requires TableOk(t) && k < |t| && t[k].local == e.local && t[k].mapped == e.mapped
    requires EntryOk(e) && Internet(remote.family)
    requires mapped == if e.wcard then remote.(port := PortOf(e.mapped)) else e.mapped
    requires mapped.family == remote.family
    ensures FindMapping(t, mapped, Mapped) < |t|
  {
    assert EntryOk(t[k]);
    assert Hit(t[k], mapped, Mapped);
  }

  /** Request `r` is listed with some time left and has not been answered. */
  ghost predicate OpenIn(d: Daemon, r: MapRequest) {
    exists t: int :: Holds(d, r.(timeout := t))
  }

  lemma FiledIsHeld(acts: seq<Act>, t: nat, r: MapRequest)
    requires t < |acts| && Files(ActorAt(acts, t), acts[t].input, r)
    ensures Holds(At(WorldAt(acts, t + 1), acts[t].host), r)
  {
    hide Step;
  }

  lemma QueryOpenAtAccept(acts: seq<Act>, x: Exchange)
    requires Exchanged(acts, x)
    ensures Completed(acts, x.t0 + 1, x.t2, acts[x.t0].host, x.q.id) || OpenIn(ActorAt(acts, x.t2), x.q)
    ensures x.q.kind == QueryReq && !x.q.complete && Same(acts[x.t0].input.local, x.q.src)
  {
    hide Step, DaemonOk, Completes;
    HostsOk(acts, x.t0, acts[x.t0].host);
    QueryFiled(ActorAt(acts, x.t0), acts[x.t0].input, x.q);
    FiledIsHeld(acts, x.t0, x.q);
    Survives(acts, x.t0 + 1, x.t2, acts[x.t0].host, x.q);
  }

  lemma AcceptMeetsOpenQuery(acts: seq<Act>, x: Exchange)
    requires LiveHandles(acts) && Exchanged(acts, x) && OpenIn(ActorAt(acts, x.t2), x.q)
    ensures Completes(ActorAt(acts, x.t2), acts[x.t2].input, x.q.id)
    ensures var i := acts[x.t2].input;
            i.env.delivered && i.env.address.Some? && i.env.queued ==>
              OutOf(acts, x.t2).sent == [Datagram(i.from, Ack(x.q.handle, x.s.src, acts[x.t0].input.local))]
  {
    hide Step, DaemonOk, Completes, LiveHandles, OpenInFront;
    AcceptFiled(acts, x);
    QueryOpenAtAccept(acts, x);
    OpenStaysInFront(acts, x.t2, acts[x.t2].host);
    var t: int :| Holds(ActorAt(acts, x.t2), x.q.(timeout := t));
    AcceptCompletes(ActorAt(acts, x.t2), acts[x.t2].input, x.q.(timeout := t));
  }

  lemma ConnectingSideCompletes(acts: seq<Act>, x: Exchange)
    requires LiveHandles(acts) && Exchanged(acts, x)
    ensures Completed(acts, x.t0 + 1, x.t2 + 1, acts[x.t0].host, x.q.id)
  {
    hide Step, LiveHandles, Completes;
    var a := acts[x.t0].host;
    QueryOpenAtAccept(acts, x);
    if Completed(acts, x.t0 + 1, x.t2, a, x.q.id) {
      var m :| x.t0 + 1 <= m < x.t2 && acts[m].host == a && Completes(ActorAt(acts, m), acts[m].input, x.q.id);
    } else {
      AcceptMeetsOpenQuery(acts, x);
    }
  }

  lemma AckMeetsOpenAccept(hostOf: Addr -> Host, acts: seq<Act>, x: Exchange)
    requires Valid(hostOf, acts) && Exchanged(acts, x) && OpenIn(ActorAt(acts, x.t3), x.s)
    ensures Completes(ActorAt(acts, x.t3), acts[x.t3].input, x.s.id)
  {
    hide Step, Completes, Valid, AcceptsUnique;
    var d := ActorAt(acts, x.t3);
    AcceptFiled(acts, x);
    HostsOk(acts, x.t1, acts[x.t1].host);
    HostsOk(acts, x.t3, acts[x.t3].host);
    NetworkAcceptsUnique(hostOf, acts, x.t3, acts[x.t3].host);
    QueryOpenAtAccept(acts, x);
    var k :| 0 <= k < |d.ports| && d.ports[k].local == x.e.local && d.ports[k].mapped == x.e.mapped;
    AckFindsEntry(d.ports, k, x.e, x.q.remote, x.s.src);
    var t: int :| Holds(d, x.s.(timeout := t));
    AckCompletes(d, acts[x.t3].input, x.s.(timeout := t));
  }

  lemma AcceptingSideCompletes(hostOf: Addr -> Host, acts: seq<Act>, x: Exchange)
    requires Valid(hostOf, acts) && Exchanged(acts, x)
    ensures Completed(acts, x.t1 + 1, x.t3 + 1, acts[x.t1].host, x.s.id)
  {
    hide Step, Valid, Completes, WorldAt;
    var b := acts[x.t1].host;
    AcceptFiled(acts, x);
    FiledIsHeld(acts, x.t1, x.s);
    Survives(acts, x.t1 + 1, x.t3, b, x.s);
    if Completed(acts, x.t1 + 1, x.t3, b, x.s.id) {
      var m :| x.t1 + 1 <= m < x.t3 && acts[m].host == b && Completes(ActorAt(acts, m), acts[m].input, x.s.id);
    } else {
      AckMeetsOpenAccept(hostOf, acts, x);
    }
  }

  /** Handshake completion. Among arbitrary other activity of any number of daemons, if the
      request, the accept and the ack of one query are delivered while the tables keep the
      entries and before ten sweeps have passed at either end, then the connecting side's
      QUERY and the accepting side's ACCEPT are both marked complete. */
  lemma HandshakeCompletes(hostOf: Addr -> Host, acts: seq<Act>, x: Exchange)
    requires Valid(hostOf, acts) && LiveHandles(acts) && Exchanged(acts, x)
    ensures Completed(acts, x.t0 + 1, x.t2 + 1, acts[x.t0].host, x.q.id)
    ensures Completed(acts, x.t1 + 1, x.t3 + 1, acts[x.t1].host, x.s.id)
  {
    hide Step;
    ConnectingSideCompletes(acts, x);
    AcceptingSideCompletes(hostOf, acts, x);
  }
}
