/**
  Any number of daemons over a network that may lose, duplicate, delay and reorder
  datagrams but not invent them.
 */
module Network {
  import opened Basics
  import opened Sockaddr
  import opened PortTable
  import opened MapRequests
  import opened PortMapper
  import opened DaemonRuns
  import opened Outcomes

  type Host = nat

  datatype Packet = Packet(from: Addr, to: Addr, msg: Msg)

  /** All datagrams ever put on the wire stay available for (repeated) delivery. */
  datatype World = World(hosts: map<Host, Daemon>, net: set<Packet>)

  /** Host `host` processes `input`; a wire input is a packet addressed to `to`, one of the
      addresses of the host. Of what the step sends, `emitted` reaches the network. */
  datatype Act = Act(host: Host, input: Input, to: Addr, emitted: set<Packet>)

  function At(w: World, h: Host): Daemon {
    if h in w.hosts then w.hosts[h] else Start()
  }

  predicate Sends(o: Out, dg: Datagram) {
    || dg in o.sent
    || exists k :: 0 <= k < |o.resent| && o.resent[k].1 == dg
  }

  /** Which host owns an address is a parameter of the network. */
  ghost predicate Enabled(hostOf: Addr -> Host, w: World, a: Act) {
    && (a.input.Wire? ==> hostOf(a.to) == a.host && Packet(a.input.from, a.to, a.input.msg) in w.net)
    && (forall p :: p in a.emitted ==>
          hostOf(p.from) == a.host && Sends(Step(At(w, a.host), a.input).out, Datagram(p.to, p.msg)))
  }

  function Perform(w: World, a: Act): World {
    World(w.hosts[a.host := Step(At(w, a.host), a.input).d], w.net + a.emitted)
  }

  function WorldAt(acts: seq<Act>, n: nat): World
    requires n <= |acts|
  {
    if n == 0 then World(map[], {}) else Perform(WorldAt(acts, n - 1), acts[n - 1])
  }

  /** The state in which the daemon performing act `n` meets its input. */
  function ActorAt(acts: seq<Act>, n: nat): Daemon
    requires n < |acts|
  {
    At(WorldAt(acts, n), acts[n].host)
  }

  function OutOf(acts: seq<Act>, n: nat): Out
    requires n < |acts|
  {
    Step(ActorAt(acts, n), acts[n].input).out
  }

  /** What act `n` changes, and where a run begins. */
  lemma Unfold(acts: seq<Act>, n: nat)
    requires n < |acts|
    ensures var a := acts[n];
            forall h :: At(WorldAt(acts, n + 1), h) ==
                        if h == a.host then Step(At(WorldAt(acts, n), h), a.input).d else At(WorldAt(acts, n), h)
    ensures WorldAt(acts, n + 1).net == WorldAt(acts, n).net + acts[n].emitted
    ensures WorldAt(acts, 0) == World(map[], {})
  {
    hide Step;
  }

  ghost predicate Valid(hostOf: Addr -> Host, acts: seq<Act>) {
    forall n :: 0 <= n < |acts| ==> Enabled(hostOf, WorldAt(acts, n), acts[n])
  }

  predicate Allocates(a: Act, h: Host, handle: bv64) {
    a.host == h && a.input.NlQuery? && a.input.env.address == Some(handle)
  }

  /** No host uses the address of a query object as a handle twice. */
  ghost predicate FreshHandles(acts: seq<Act>) {
    forall m, n, handle :: 0 <= m < n < |acts| && Allocates(acts[m], acts[n].host, handle)
                           ==> !Allocates(acts[n], acts[n].host, handle)
  }

  /** The new query of input `i` does not get the address that a listed query has as its handle. */
  predicate HandleUnused(d: Daemon, i: Input) {
    i.NlQuery? && i.env.address.Some? ==>
      forall k :: 0 <= k < |d.reqs| && d.reqs[k].kind == QueryReq ==> d.reqs[k].handle != i.env.address.value
  }

  /** No address of a request object is given out again while a query at that address is listed;
      this is what an allocator guarantees. */
  ghost predicate LiveHandles(acts: seq<Act>) {
    forall n :: 0 <= n < |acts| ==> HandleUnused(ActorAt(acts, n), acts[n].input)
  }

  /** An answer to query `i` can be taken for one to query `j`: they share their handle, and the
      answer names the local address of `j`, or `j` left its local address open. */
  predicate Confusable(i: Input, j: Input) {
    && i.NlQuery? && j.NlQuery? && i.env.address.Some? && i.env.address == j.env.address
    && (IsWild(j.local) || Same(SentAs(i), j.local))
  }

  /** Queries of one host that can be confused ask about the same address. */
  ghost predicate NoConfusion(acts: seq<Act>) {
    forall m, n ::
      0 <= m < |acts| && 0 <= n < |acts| && acts[m].host == acts[n].host && Confusable(acts[m].input, acts[n].input)
      ==> acts[m].input.remote == acts[n].input.remote
  }

  lemma FreshHandlesDoNotConfuse(acts: seq<Act>)
    requires FreshHandles(acts)
    ensures NoConfusion(acts)
  {
    forall m, n | 0 <= m < |acts| && 0 <= n < |acts| && acts[m].host == acts[n].host
                  && Confusable(acts[m].input, acts[n].input)
      ensures m == n
    {
      var handle: bv64 := acts[m].input.env.address.value;
      assert Allocates(acts[m], acts[n].host, handle) && Allocates(acts[n], acts[m].host, handle);
    }
  }

  lemma {:induction false} HostsOk(acts: seq<Act>, n: nat, h: Host)
    requires n <= |acts|
    ensures DaemonOk(At(WorldAt(acts, n), h))
  {
    hide Step;
    if n > 0 {
      HostsOk(acts, n - 1, h);
      StepKeeps(At(WorldAt(acts, n - 1), h), acts[n - 1].input);
    }
  }

  // ----- where datagrams come from

  /** Requests and accepts on the wire are always the message a request object holds. */
  ghost predicate FromRequest(d: Daemon, r: Result, dg: Datagram) {
    exists q: MapRequest :: (q in d.reqs || q in r.d.reqs) && q.resend == Some(dg)
  }

  lemma {:induction false} ResentFrom(q: seq<MapRequest>, k: nat) returns (m: nat)
    requires k < |Resent(q)|
    ensures m < |q| && q[m].resend == Some(Resent(q)[k].1)
  {
    if k < |ResentFor(q[0])| {
      m := 0;
    } else {
      m := ResentFrom(q[1..], k - |ResentFor(q[0])|);
      m := m + 1;
    }
  }

  lemma {:induction false} ResentInFrom(q: seq<MapRequest>, n: nat, k: nat) returns (m: nat)
    requires k < |ResentIn(q, n)|
    ensures m < |q| && q[m].resend == Some(ResentIn(q, n)[k].1)
    decreases n
  {
    hide Resent, Sweep;
    if k < |Resent(q)| {
      m := ResentFrom(q, k);
    } else {
      var l := ResentInFrom(Sweep(q), n - 1, k - |Resent(q)|);
      m := SweepOrigin(q, l);
    }
  }

  lemma SweptSends(d: Daemon, i: Input, k: nat)
    requires DaemonOk(d) && k < |Step(d, i).out.resent|
    ensures FromRequest(d, Step(d, i), Step(d, i).out.resent[k].1)
  {
    hide Step, Target, DaemonOk, Sweeps, ResentIn;
    StepAdvances(d, i);
    UpdatedOk(d, i);
    var push :| Shape(d, i, Step(d, i), push);
    var m := ResentInFrom(Updated(d, i), SweepsIn(i), k);
    assert Evolves(d.reqs[m], Updated(d, i)[m]);
    assert d.reqs[m] in d.reqs;
  }

  /** The handler filed a request that holds this message. */
  predicate FiledWith(d: Daemon, h: Result, dg: Datagram) {
    h.d.nextReq > d.nextReq && h.d.reqs != [] && h.d.reqs[0].resend == Some(dg)
  }

  lemma QueryingSends(d: Daemon, i: Input, dg: Datagram)
    requires i.NlQuery? && dg in QueryMapping(d, i).out.sent
    ensures FiledWith(d, QueryMapping(d, i), dg)
  {
    hide FindMapping, Create;
  }

  lemma RequestSends(d: Daemon, i: Input, dg: Datagram)
    requires i.Wire? && i.msg.Req? && dg in WireRequest(d, i.from, i.msg, i.env).out.sent
    ensures Rejects(d, i, dg) || FiledWith(d, WireRequest(d, i.from, i.msg, i.env), dg)
  {
    hide FindMapping, FindRequest, MappedFor;
  }

  /** A reject goes out at once, when no entry answers the request. */
  predicate Rejects(d: Daemon, i: Input, dg: Datagram) {
    && i.Wire? && i.msg.Req? && FindMapping(d.ports, i.msg.ap, Local) == |d.ports|
    && dg == Datagram(i.from, Rej(i.msg.handle, i.msg.ap, i.msg.cp))
  }

  lemma NothingElseSends(d: Daemon, i: Input, dg: Datagram)
    requires dg in Handler(d, i).out.sent && !dg.msg.Ack?
    ensures i.NlQuery? || (i.Wire? && i.msg.Req?)
  {
    hide Handler, FindMapping, FindSame, FindRequest, Create, Reopen, Commit, Serviced;
    HandlerIs(d, i);
  }

  lemma HandlerSends(d: Daemon, i: Input, dg: Datagram)
    requires dg in Handler(d, i).out.sent && !dg.msg.Ack?
    ensures FiledWith(d, Handler(d, i), dg) || Rejects(d, i, dg)
  {
    hide Handler, QueryMapping, WireRequest, FiledWith, Rejects;
    NothingElseSends(d, i, dg);
    HandlerIs(d, i);
    if i.NlQuery? {
      QueryingSends(d, i, dg);
    } else {
      RequestSends(d, i, dg);
    }
  }

  lemma SendsFromRequest(d: Daemon, i: Input, dg: Datagram)
    requires DaemonOk(d) && Sends(Step(d, i).out, dg) && !dg.msg.Ack?
    ensures FromRequest(d, Step(d, i), dg) || (Rejects(d, i, dg) && dg in Step(d, i).out.sent)
  {
    hide Step, Handler, Rejects, Sweeps, ResentIn;
    StepIs(d, i);
    if dg in Step(d, i).out.sent {
      HandlerSends(d, i, dg);
      if FiledWith(d, Handler(d, i), dg) {
        assert Step(d, i).d.reqs[0] == Handler(d, i).d.reqs[0];
        assert Step(d, i).d.reqs[0] in Step(d, i).d.reqs;
      }
    } else {
      var k :| 0 <= k < |Step(d, i).out.resent| && Step(d, i).out.resent[k].1 == dg;
      SweptSends(d, i, k);
    }
  }

  // ----- what every run keeps

  /** Act `m` of host `h` filed a query about `remote`: the entry in front of its list, with the
      next number, carries `handle`. */
  predicate QueriesAt(acts: seq<Act>, m: nat, h: Host, handle: bv64, remote: Addr)
    requires m < |acts|
  {
    var q := Step(ActorAt(acts, m), acts[m].input).d.reqs;
    && Allocates(acts[m], h, handle) && acts[m].input.remote == remote
    && q != [] && q[0].id == ActorAt(acts, m).nextReq && q[0].kind == QueryReq
    && q[0].handle == handle && q[0].remote == remote
  }

  predicate AsksAt(acts: seq<Act>, m: nat, h: Host, handle: bv64, remote: Addr, cp: Addr)
    requires m < |acts|
  {
    QueriesAt(acts, m, h, handle, remote) && SentAs(acts[m].input) == cp
  }

  /** Before step `n`, host `h` filed a query about `remote` under `handle` whose request names `cp`
      as the local address. */
  ghost predicate Asked(acts: seq<Act>, n: nat, h: Host, handle: bv64, remote: Addr, cp: Addr)
    requires n <= |acts|
  {
    exists m :: 0 <= m < n && AsksAt(acts, m, h, handle, remote, cp)
  }

  /** Act `m` of host `h` filed request `id`, a query about `remote`, under `src` and `handle`. */
  predicate FilesAt(acts: seq<Act>, m: nat, h: Host, handle: bv64, remote: Addr, src: Addr, id: nat)
    requires m < |acts|
  {
    && QueriesAt(acts, m, h, handle, remote) && ActorAt(acts, m).nextReq == id
    && (IsWild(acts[m].input.local) || src == acts[m].input.local)
  }

  ghost predicate Filed(acts: seq<Act>, n: nat, h: Host, handle: bv64, remote: Addr, src: Addr, id: nat)
    requires n <= |acts|
  {
    exists m :: 0 <= m < n && FilesAt(acts, m, h, handle, remote, src, id)
  }

  /** Act `i` is the request `handle` of host `h` about `remote` reaching the host that owns
      `remote`, and the query behind it was made before. */
  ghost predicate MeetsAt(hostOf: Addr -> Host, acts: seq<Act>, i: nat, h: Host, handle: bv64, remote: Addr)
    requires i < |acts|
  {
    && acts[i].input.Wire? && acts[i].input.msg.Req?
    && acts[i].input.msg.handle == handle && acts[i].input.msg.ap == remote
    && hostOf(acts[i].input.from) == h && acts[i].host == hostOf(PmAddress(remote))
    && Asked(acts, i, h, handle, remote, acts[i].input.msg.cp)
  }

  /** Act `i` filed an ACCEPT entry under `mapped` that holds the accept for the request it met. */
  predicate AcceptsAt(acts: seq<Act>, i: nat, mapped: Addr)
    requires i < |acts| && acts[i].input.Wire? && acts[i].input.msg.Req?
  {
    var input, q := acts[i].input, Step(ActorAt(acts, i), acts[i].input).d.reqs;
    && q != [] && q[0].id == ActorAt(acts, i).nextReq && q[0].kind == AcceptReq && q[0].src == mapped
    && q[0].resend == Some(Datagram(input.from, Acc(input.msg.handle, mapped, input.msg.cp)))
  }

  /** Act `i` formed the accept with `mapped` for a query with `handle` of host `h` about `remote`:
      it is performed by the host that owns `remote`, whose table at that moment gives `mapped`
      for `remote`. */
  ghost predicate GrantsAt(hostOf: Addr -> Host, acts: seq<Act>, i: nat, h: Host, handle: bv64,
                           remote: Addr, mapped: Addr)
    requires i < |acts|
  {
    var t := ActorAt(acts, i).ports;
    var k := FindMapping(t, remote, Local);
    && MeetsAt(hostOf, acts, i, h, handle, remote)
    && k < |t| && mapped == MappedFor(t[k], remote, acts[i].input.env.alienMapped)
    && AcceptsAt(acts, i, mapped)
  }

  /** Act `i` sent the reject for a query with `handle` of host `h` about `remote`: the table of the
      host that owns `remote` has no entry for it. */
  ghost predicate DeniesAt(hostOf: Addr -> Host, acts: seq<Act>, i: nat, h: Host, handle: bv64, remote: Addr)
    requires i < |acts|
  {
    var t := ActorAt(acts, i).ports;
    && MeetsAt(hostOf, acts, i, h, handle, remote) && FindMapping(t, remote, Local) == |t|
    && Datagram(acts[i].input.from, Rej(handle, remote, acts[i].input.msg.cp)) in OutOf(acts, i).sent
  }

  ghost predicate Granted(hostOf: Addr -> Host, acts: seq<Act>, n: nat, h: Host, handle: bv64,
                          mapped: Addr, cp: Addr)
    requires n <= |acts|
  {
    exists i, remote :: 0 <= i < n && GrantsAt(hostOf, acts, i, h, handle, remote, mapped) && acts[i].input.msg.cp == cp
  }

  ghost predicate Denied(hostOf: Addr -> Host, acts: seq<Act>, n: nat, h: Host, handle: bv64,
                         remote: Addr, cp: Addr)
    requires n <= |acts|
  {
    exists i :: 0 <= i < n && DeniesAt(hostOf, acts, i, h, handle, remote) && acts[i].input.msg.cp == cp
  }

  ghost predicate DatagramOk(hostOf: Addr -> Host, acts: seq<Act>, n: nat, h: Host, dg: Datagram)
    requires n <= |acts|
  {
    match dg.msg
    case Req(handle, ap, cp, _) => dg.to == PmAddress(ap) && Asked(acts, n, h, handle, ap, cp)
    case Acc(handle, ap, cp) => Granted(hostOf, acts, n, hostOf(dg.to), handle, ap, cp)
    case Rej(handle, ap, cp) => Denied(hostOf, acts, n, hostOf(dg.to), handle, ap, cp)
    case Ack(_, _, _) => true
  }

  ghost predicate EntryFaithful(hostOf: Addr -> Host, acts: seq<Act>, n: nat, h: Host, r: MapRequest)
    requires n <= |acts|
  {
    && (r.kind == QueryReq ==> Filed(acts, n, h, r.handle, r.remote, r.src, r.id))
    && (r.resend.Some? ==> DatagramOk(hostOf, acts, n, h, r.resend.value))
  }

  /** Packets and stored messages tell the truth about what was asked, granted and denied. */
  ghost predicate Faithful(hostOf: Addr -> Host, acts: seq<Act>, n: nat)
    requires n <= |acts|
  {
    && (forall p :: p in WorldAt(acts, n).net ==>
          DatagramOk(hostOf, acts, n, hostOf(p.from), Datagram(p.to, p.msg)))
    && (forall h, k :: 0 <= k < |At(WorldAt(acts, n), h).reqs| ==>
          EntryFaithful(hostOf, acts, n, h, At(WorldAt(acts, n), h).reqs[k]))
  }

  lemma EntryMonotone(hostOf: Addr -> Host, acts: seq<Act>, n: nat, h: Host, r: MapRequest, r': MapRequest)
    requires n < |acts| && EntryFaithful(hostOf, acts, n, h, r) && Evolves(r, r')
    ensures EntryFaithful(hostOf, acts, n + 1, h, r')
  {
    hide DatagramOk, FilesAt;
    if r.resend.Some? {
      DatagramMonotone(hostOf, acts, n, h, r.resend.value);
    }
  }

  lemma DatagramMonotone(hostOf: Addr -> Host, acts: seq<Act>, n: nat, h: Host, dg: Datagram)
    requires n < |acts| && DatagramOk(hostOf, acts, n, h, dg)
    ensures DatagramOk(hostOf, acts, n + 1, h, dg)
  {
    hide Step, AsksAt, GrantsAt, DeniesAt;
  }

  /** The request that reaches an act was made by a query. */
  lemma RequestMeets(hostOf: Addr -> Host, acts: seq<Act>, n: nat)
    requires n < |acts| && Faithful(hostOf, acts, n) && Enabled(hostOf, WorldAt(acts, n), acts[n])
    requires acts[n].input.Wire? && acts[n].input.msg.Req?
    ensures var i := acts[n].input;
            MeetsAt(hostOf, acts, n, hostOf(i.from), i.msg.handle, i.msg.ap)
  {
    hide Step;
    var p := Packet(acts[n].input.from, acts[n].to, acts[n].input.msg);
    assert DatagramOk(hostOf, acts, n, hostOf(p.from), Datagram(p.to, p.msg));
  }

  /** A request object put in front by act `n` is faithful. */
  lemma PushFaithful(hostOf: Addr -> Host, acts: seq<Act>, n: nat, r: MapRequest)
    requires n < |acts| && Faithful(hostOf, acts, n) && Enabled(hostOf, WorldAt(acts, n), acts[n])
    requires Pushable(ActorAt(acts, n), acts[n].input, r)
    requires var q := Step(ActorAt(acts, n), acts[n].input).d.reqs;
             q != [] && q[0] == r
    ensures EntryFaithful(hostOf, acts, n + 1, acts[n].host, r)
  {
    hide Step, Faithful, Enabled, MeetsAt;
    var a := acts[n];
    if r.kind == QueryReq {
      assert AsksAt(acts, n, a.host, r.handle, r.remote, r.resend.value.msg.cp);
      assert FilesAt(acts, n, a.host, r.handle, r.remote, r.src, r.id);
    } else if r.kind == AcceptReq {
      RequestMeets(hostOf, acts, n);
      assert GrantsAt(hostOf, acts, n, hostOf(a.input.from), a.input.msg.handle, a.input.msg.ap, r.src);
    }
  }

  lemma ActorFaithful(hostOf: Addr -> Host, acts: seq<Act>, n: nat, j: nat)
    requires n < |acts| && Faithful(hostOf, acts, n) && Enabled(hostOf, WorldAt(acts, n), acts[n])
    requires j < |Step(ActorAt(acts, n), acts[n].input).d.reqs|
    ensures EntryFaithful(hostOf, acts, n + 1, acts[n].host, Step(ActorAt(acts, n), acts[n].input).d.reqs[j])
  {
    hide Step, Enabled, EntryFaithful, Pushable, DaemonOk;
    var d, i := ActorAt(acts, n), acts[n].input;
    HostsOk(acts, n, acts[n].host);
    StepAdvances(d, i);
    var added, k := RequestOrigin(d, i, Step(d, i), j);
    if added {
      PushFaithful(hostOf, acts, n, Step(d, i).d.reqs[j]);
    } else {
      EntryMonotone(hostOf, acts, n, acts[n].host, d.reqs[k], Step(d, i).d.reqs[j]);
    }
  }

  lemma RejectFaithful(hostOf: Addr -> Host, acts: seq<Act>, n: nat, dg: Datagram)
    requires n < |acts| && Faithful(hostOf, acts, n) && Enabled(hostOf, WorldAt(acts, n), acts[n])
    requires Rejects(ActorAt(acts, n), acts[n].input, dg) && dg in OutOf(acts, n).sent
    ensures DatagramOk(hostOf, acts, n + 1, acts[n].host, dg)
  {
    hide Step, Faithful, Enabled, MeetsAt;
    RequestMeets(hostOf, acts, n);
    var i := acts[n].input;
    assert DeniesAt(hostOf, acts, n, hostOf(i.from), i.msg.handle, i.msg.ap);
  }

  lemma HeldFaithful(hostOf: Addr -> Host, acts: seq<Act>, n: nat, dg: Datagram)
    requires n < |acts| && Faithful(hostOf, acts, n) && Enabled(hostOf, WorldAt(acts, n), acts[n])
    requires FromRequest(ActorAt(acts, n), Step(ActorAt(acts, n), acts[n].input), dg)
    ensures DatagramOk(hostOf, acts, n + 1, acts[n].host, dg)
  {
    hide Step, DatagramOk, Enabled;
    var d, i := ActorAt(acts, n), acts[n].input;
    var q: MapRequest :| (q in d.reqs || q in Step(d, i).d.reqs) && q.resend == Some(dg);
    if q in d.reqs {
      var k :| 0 <= k < |d.reqs| && d.reqs[k] == q;
      assert EntryFaithful(hostOf, acts, n, acts[n].host, At(WorldAt(acts, n), acts[n].host).reqs[k]);
      DatagramMonotone(hostOf, acts, n, acts[n].host, dg);
    } else {
      var j :| 0 <= j < |Step(d, i).d.reqs| && Step(d, i).d.reqs[j] == q;
      ActorFaithful(hostOf, acts, n, j);
    }
  }

  lemma EmittedFaithful(hostOf: Addr -> Host, acts: seq<Act>, n: nat, p: Packet)
    requires n < |acts| && Faithful(hostOf, acts, n) && Enabled(hostOf, WorldAt(acts, n), acts[n])
    requires p in acts[n].emitted
    ensures DatagramOk(hostOf, acts, n + 1, hostOf(p.from), Datagram(p.to, p.msg))
  {
    hide Step, Faithful, FromRequest, Rejects, Sends, Granted, Denied, Asked;
    var dg := Datagram(p.to, p.msg);
    if !dg.msg.Ack? {
      HostsOk(acts, n, acts[n].host);
      SendsFromRequest(ActorAt(acts, n), acts[n].input, dg);
      if Rejects(ActorAt(acts, n), acts[n].input, dg) && dg in OutOf(acts, n).sent {
        RejectFaithful(hostOf, acts, n, dg);
      } else {
        HeldFaithful(hostOf, acts, n, dg);
      }
    }
  }

  lemma NetStaysFaithful(hostOf: Addr -> Host, acts: seq<Act>, n: nat, p: Packet)
    requires n < |acts| && Faithful(hostOf, acts, n) && Enabled(hostOf, WorldAt(acts, n), acts[n])
    requires p in WorldAt(acts, n + 1).net
    ensures DatagramOk(hostOf, acts, n + 1, hostOf(p.from), Datagram(p.to, p.msg))
  {
    hide Step, DatagramOk, Enabled;
    if p in WorldAt(acts, n).net {
      DatagramMonotone(hostOf, acts, n, hostOf(p.from), Datagram(p.to, p.msg));
    } else {
      EmittedFaithful(hostOf, acts, n, p);
    }
  }

  lemma EntriesStayFaithful(hostOf: Addr -> Host, acts: seq<Act>, n: nat, h: Host, k: nat)
    requires n < |acts| && Faithful(hostOf, acts, n) && Enabled(hostOf, WorldAt(acts, n), acts[n])
    requires k < |At(WorldAt(acts, n + 1), h).reqs|
    ensures EntryFaithful(hostOf, acts, n + 1, h, At(WorldAt(acts, n + 1), h).reqs[k])
  {
    hide Step, EntryFaithful, Enabled;
    if h == acts[n].host {
      ActorFaithful(hostOf, acts, n, k);
    } else {
      var r := At(WorldAt(acts, n), h).reqs[k];
      EntryMonotone(hostOf, acts, n, h, r, r);
    }
  }

  lemma {:induction false} RunsAreFaithful(hostOf: Addr -> Host, acts: seq<Act>, n: nat)
    requires n <= |acts| && Valid(hostOf, acts)
    ensures Faithful(hostOf, acts, n)
  {
    hide Step, DatagramOk, EntryFaithful, Perform, Enabled;
    if n > 0 {
      RunsAreFaithful(hostOf, acts, n - 1);
      assert Enabled(hostOf, WorldAt(acts, n - 1), acts[n - 1]);
      forall p | p in WorldAt(acts, n).net
        ensures DatagramOk(hostOf, acts, n, hostOf(p.from), Datagram(p.to, p.msg))
      {
        NetStaysFaithful(hostOf, acts, n - 1, p);
      }
      forall h, k | 0 <= k < |At(WorldAt(acts, n), h).reqs|
        ensures EntryFaithful(hostOf, acts, n, h, At(WorldAt(acts, n), h).reqs[k])
      {
        EntriesStayFaithful(hostOf, acts, n - 1, h, k);
      }
    }
  }
}
