/** What is reported to a querying client is what the host it asked about said. */
module Agreement {
  import opened Sockaddr
  import opened PortTable
  import opened MapRequests
  import opened PortMapper
  import opened DaemonRuns
  import opened Outcomes
  import opened Network

  /** An outcome is reported only by the handler of an accept or of a reject. */
  lemma OutcomeFromAnswer(d: Daemon, i: Input, c: Notice)
    requires c in Step(d, i).out.notices && c.ConnInfo?
    ensures i.Wire? && (i.msg.Acc? || i.msg.Rej?)
    ensures i.msg.Acc? ==> c in WireAccept(d, i.from, i.msg, i.env).out.notices && c.err == 0
    ensures i.msg.Rej? ==> c in WireReject(d, i.msg, i.env).out.notices && c.err == REMOTE_QUERY_REJECT
  {
    hide Step, Handler, WireAccept, WireReject;
    StepIs(d, i);
    HandlerIs(d, i);
    assert Reports(Handler(d, i).out, c.req);
    if !i.Wire? {
      NetlinkReportsNothing(d, i, c.req);
    } else if i.msg.Acc? {
      AcceptErr(d, i, c);
    } else if i.msg.Rej? {
      RejectErr(d, i, c);
    } else {
      RequestReportsNothing(d, i, c.req);
    }
  }

  lemma AcceptErr(d: Daemon, i: Input, c: Notice)
    requires i.Wire? && i.msg.Acc? && c in WireAccept(d, i.from, i.msg, i.env).out.notices && c.ConnInfo?
    ensures c.err == 0
  {
    hide FindSame, FindRequest, Serviced;
  }

  lemma RejectErr(d: Daemon, i: Input, c: Notice)
    requires i.Wire? && i.msg.Rej? && c in WireReject(d, i.msg, i.env).out.notices && c.ConnInfo?
    ensures c.err == REMOTE_QUERY_REJECT
  {
    hide FindSame, FindRequest, Serviced;
  }

  /** A success is reported only on an accept, for a listed query with the handle and the local
      address of the accept, and passes on the address the accept carries. */
  lemma SuccessFromAccept(d: Daemon, i: Input, c: Notice) returns (n: nat)
    requires c in Step(d, i).out.notices && c.ConnInfo? && c.err == 0
    ensures i.Wire? && i.msg.Acc? && c.mappedRemote == i.msg.ap
    ensures n < |d.reqs| && d.reqs[n].kind == QueryReq && d.reqs[n].handle == i.msg.handle
    ensures d.reqs[n].remote == c.remote && d.reqs[n].id == c.req && Same(i.msg.cp, d.reqs[n].src)
  {
    hide Step, Handler, Sweeps, ResentIn;
    OutcomeFromAnswer(d, i, c);
    n := FindRequest(d.reqs, i.msg.handle, d.ports[FindSame(d.ports, i.msg.cp, Local)].local, {QueryReq, AckReq});
  }

  /** A rejection is reported only on a reject, for a listed query with its handle and local address. */
  lemma FailureFromReject(d: Daemon, i: Input, c: Notice) returns (n: nat)
    requires c in Step(d, i).out.notices && c.ConnInfo? && c.err != 0
    ensures i.Wire? && i.msg.Rej? && c.err == REMOTE_QUERY_REJECT
    ensures n < |d.reqs| && d.reqs[n].kind == QueryReq && d.reqs[n].handle == i.msg.handle
    ensures d.reqs[n].remote == c.remote && d.reqs[n].id == c.req && Same(i.msg.cp, d.reqs[n].src)
  {
    hide Step, Handler, Sweeps, ResentIn;
    OutcomeFromAnswer(d, i, c);
    n := FindRequest(d.reqs, i.msg.handle, d.ports[FindSame(d.ports, i.msg.cp, Local)].local, {QueryReq});
  }

  lemma SameQuery(acts: seq<Act>, m: nat, n: nat, h: Host, handle: bv64, a: Addr, cp: Addr, r: MapRequest)
    requires m <= |acts| && n <= |acts| && NoConfusion(acts) && Same(cp, r.src)
    requires Asked(acts, m, h, handle, a, cp) && Filed(acts, n, h, handle, r.remote, r.src, r.id)
    ensures a == r.remote
  {
    hide ActorAt;
    var i :| 0 <= i < m && AsksAt(acts, i, h, handle, a, cp);
    var j :| 0 <= j < n && FilesAt(acts, j, h, handle, r.remote, r.src, r.id);
    assert Confusable(acts[i].input, acts[j].input);
  }

  /** Act `i` of the host that owns the queried address formed the accept, with the address that
      act `j` reports, for a query with the handle and the address of the one reported on. */
  ghost predicate Backs(hostOf: Addr -> Host, acts: seq<Act>, i: nat, j: nat, c: Notice)
    requires i < j < |acts| && c.ConnInfo?
  {
    exists n :: 0 <= n < |ActorAt(acts, j).reqs| && ActorAt(acts, j).reqs[n].id == c.req
      && GrantsAt(hostOf, acts, i, acts[j].host, ActorAt(acts, j).reqs[n].handle, c.remote, c.mappedRemote)
  }

  /** Act `i` of the host that owns the queried address sent the reject for a query with the handle
      and the address of the one whose rejection act `j` reports. */
  ghost predicate Refuses(hostOf: Addr -> Host, acts: seq<Act>, i: nat, j: nat, c: Notice)
    requires i < j < |acts| && c.ConnInfo?
  {
    exists n :: 0 <= n < |ActorAt(acts, j).reqs| && ActorAt(acts, j).reqs[n].id == c.req
      && DeniesAt(hostOf, acts, i, acts[j].host, ActorAt(acts, j).reqs[n].handle, c.remote)
  }

  /** The packet act `j` processes and the entries it meets are faithful. */
  lemma ActMeetsFaithful(hostOf: Addr -> Host, acts: seq<Act>, j: nat, n: nat)
    requires Valid(hostOf, acts) && j < |acts| && acts[j].input.Wire? && n < |ActorAt(acts, j).reqs|
    ensures DatagramOk(hostOf, acts, j, hostOf(acts[j].input.from), Datagram(acts[j].to, acts[j].input.msg))
    ensures hostOf(acts[j].to) == acts[j].host
    ensures EntryFaithful(hostOf, acts, j, acts[j].host, ActorAt(acts, j).reqs[n])
  {
    hide Step, DatagramOk, EntryFaithful;
    RunsAreFaithful(hostOf, acts, j);
    assert Enabled(hostOf, WorldAt(acts, j), acts[j]);
    var p := Packet(acts[j].input.from, acts[j].to, acts[j].input.msg);
    assert p in WorldAt(acts, j).net;
    assert EntryFaithful(hostOf, acts, j, acts[j].host, At(WorldAt(acts, j), acts[j].host).reqs[n]);
  }

  /** Agreement. In every run of any number of daemons in which queries that can be confused ask
      about the same address: whenever act `j` reports a success to a client, an earlier act `i`
      of the host that owns the queried address formed the accept for a query with this handle and
      address, and the address reported is the one that host's table gave for the queried address
      at act `i`. */
  lemma Agreement(hostOf: Addr -> Host, acts: seq<Act>, j: nat, c: Notice)
    requires Valid(hostOf, acts) && NoConfusion(acts) && j < |acts|
    requires c in OutOf(acts, j).notices && c.ConnInfo? && c.err == 0
    ensures exists i :: 0 <= i < j && Backs(hostOf, acts, i, j, c)
  {
    hide Step, Valid, NoConfusion, Asked, Filed;
    var a := acts[j];
    var n := SuccessFromAccept(ActorAt(acts, j), a.input, c);
    ActMeetsFaithful(hostOf, acts, j, n);
    var r := ActorAt(acts, j).reqs[n];
    var i, remote :| 0 <= i < j && GrantsAt(hostOf, acts, i, a.host, r.handle, remote, c.mappedRemote)
                     && acts[i].input.msg.cp == a.input.msg.cp;
    SameQuery(acts, i, j, a.host, r.handle, remote, a.input.msg.cp, r);
    assert Backs(hostOf, acts, i, j, c);
  }

  /** The same for failures: whenever act `j` reports that a query was rejected, an earlier act of
      the host that owns the queried address sent the reject for a query with this handle and
      address, having no entry for the address. */
  lemma Rejection(hostOf: Addr -> Host, acts: seq<Act>, j: nat, c: Notice)
    requires Valid(hostOf, acts) && NoConfusion(acts) && j < |acts|
    requires c in OutOf(acts, j).notices && c.ConnInfo? && c.err != 0
    ensures c.err == REMOTE_QUERY_REJECT && exists i :: 0 <= i < j && Refuses(hostOf, acts, i, j, c)
  {
    hide Step, Valid, NoConfusion, Asked, Filed;
    var a := acts[j];
    var n := FailureFromReject(ActorAt(acts, j), a.input, c);
    ActMeetsFaithful(hostOf, acts, j, n);
    var r := ActorAt(acts, j).reqs[n];
    var i :| 0 <= i < j && DeniesAt(hostOf, acts, i, a.host, r.handle, a.input.msg.ap)
             && acts[i].input.msg.cp == a.input.msg.cp;
    SameQuery(acts, i, j, a.host, r.handle, a.input.msg.ap, a.input.msg.cp, r);
    assert Refuses(hostOf, acts, i, j, c);
  }

  // ----- the very query, when handles are not used twice

  /** Act `m` made the query that act `j` reports on: it filed request `c.req` at the same host. */
  ghost predicate Made(acts: seq<Act>, m: nat, j: nat, c: Notice)
    requires m < |acts| && j < |acts| && c.ConnInfo?
  {
    exists handle :: QueriesAt(acts, m, acts[j].host, handle, c.remote) && ActorAt(acts, m).nextReq == c.req
  }

  /** A query that was asked before act `i` with the handle of the listed query `r` is that query. */
  lemma AskedIsFiled(acts: seq<Act>, i: nat, j: nat, handle: bv64, remote: Addr, cp: Addr, r: MapRequest, c: Notice)
    requires FreshHandles(acts) && i <= j < |acts| && c.ConnInfo? && c.req == r.id && c.remote == r.remote
    requires Asked(acts, i, acts[j].host, handle, remote, cp)
    requires Filed(acts, j, acts[j].host, handle, r.remote, r.src, r.id)
    ensures exists m :: 0 <= m < i && Made(acts, m, j, c)
  {
    hide ActorAt;
    var m :| 0 <= m < i && AsksAt(acts, m, acts[j].host, handle, remote, cp);
    var n :| 0 <= n < j && FilesAt(acts, n, acts[j].host, handle, r.remote, r.src, r.id);
    assert Allocates(acts[m], acts[n].host, handle) && Allocates(acts[n], acts[m].host, handle);
    assert m == n;
    assert QueriesAt(acts, n, acts[j].host, handle, c.remote) && Made(acts, n, j, c);
  }

  /** When no host uses a handle twice, the accept behind a reported success was formed after the
      query reported on was made, so it answers this very query. */
  lemma AgreementOnThisQuery(hostOf: Addr -> Host, acts: seq<Act>, j: nat, c: Notice)
    requires Valid(hostOf, acts) && FreshHandles(acts) && j < |acts|
    requires c in OutOf(acts, j).notices && c.ConnInfo? && c.err == 0
    ensures exists m, i :: 0 <= m < i < j && Made(acts, m, j, c) && Backs(hostOf, acts, i, j, c)
  {
    hide Step, Valid, FreshHandles, Asked, Filed, Made, AcceptsAt;
    FreshHandlesDoNotConfuse(acts);
    Agreement(hostOf, acts, j, c);
    var i :| 0 <= i < j && Backs(hostOf, acts, i, j, c);
    var n := SuccessFromAccept(ActorAt(acts, j), acts[j].input, c);
    ActMeetsFaithful(hostOf, acts, j, n);
    var r := ActorAt(acts, j).reqs[n];
    UniqueRequest(acts, j, c.req, n);
    AskedIsFiled(acts, i, j, r.handle, c.remote, acts[i].input.msg.cp, r, c);
    var m :| 0 <= m < i && Made(acts, m, j, c);
  }

  lemma RejectionOfThisQuery(hostOf: Addr -> Host, acts: seq<Act>, j: nat, c: Notice)
    requires Valid(hostOf, acts) && FreshHandles(acts) && j < |acts|
    requires c in OutOf(acts, j).notices && c.ConnInfo? && c.err != 0
    ensures exists m, i :: 0 <= m < i < j && Made(acts, m, j, c) && Refuses(hostOf, acts, i, j, c)
  {
    hide Step, Valid, FreshHandles, Asked, Filed, Made;
    FreshHandlesDoNotConfuse(acts);
    Rejection(hostOf, acts, j, c);
    var i :| 0 <= i < j && Refuses(hostOf, acts, i, j, c);
    var n := FailureFromReject(ActorAt(acts, j), acts[j].input, c);
    ActMeetsFaithful(hostOf, acts, j, n);
    var r := ActorAt(acts, j).reqs[n];
    UniqueRequest(acts, j, c.req, n);
    AskedIsFiled(acts, i, j, r.handle, c.remote, acts[i].input.msg.cp, r, c);
    var m :| 0 <= m < i && Made(acts, m, j, c);
  }

  lemma UniqueRequest(acts: seq<Act>, j: nat, id: nat, n: nat)
    requires j < |acts| && n < |ActorAt(acts, j).reqs| && ActorAt(acts, j).reqs[n].id == id
    ensures forall k :: 0 <= k < |ActorAt(acts, j).reqs| && ActorAt(acts, j).reqs[k].id == id ==> k == n
  {
    hide Step;
    HostsOk(acts, j, acts[j].host);
  }

  /** Entry `k` of table `t` is the only one that answers `remote`, and `mapped` is its
      mapped address, or for a wildcard listener the queried IP with its mapped port. */
  predicate Names(t: seq<MappedPort>, k: nat, remote: Addr, mapped: Addr) {
    && k < |t|
    && (forall l :: 0 <= l < |t| ==> (Hit(t[l], remote, Local) <==> l == k))
    && mapped == if t[k].wcard then Addr(remote.family, remote.ip, t[k].mapped.port) else t[k].mapped
  }

  lemma AnswerIsNamed(t: seq<MappedPort>, remote: Addr, alien: Addr)
    requires TableOk(t) && !IsWild(remote) && FindMapping(t, remote, Local) < |t|
    ensures var k := FindMapping(t, remote, Local);
            Names(t, k, remote, MappedFor(t[k], remote, alien))
  {
    var k := FindMapping(t, remote, Local);
    forall l | 0 <= l < |t| ensures Hit(t[l], remote, Local) <==> l == k {
      HitIsUnique(t, remote, l, k);
    }
    assert EntryOk(t[k]);
  }

  /** The same in plain terms for a fully specified address. */
  lemma AgreementPlain(hostOf: Addr -> Host, acts: seq<Act>, j: nat, c: Notice)
    requires Valid(hostOf, acts) && NoConfusion(acts) && j < |acts|
    requires c in OutOf(acts, j).notices && c.ConnInfo? && c.err == 0 && !IsWild(c.remote)
    ensures exists i, k :: 0 <= i < j && acts[i].host == hostOf(PmAddress(c.remote))
              && acts[i].input.Wire? && acts[i].input.msg.Req? && AcceptsAt(acts, i, c.mappedRemote)
              && Names(ActorAt(acts, i).ports, k, c.remote, c.mappedRemote)
  {
    hide Step, ActorAt, OutOf, Valid, NoConfusion, Names, Hit, IsWild, AcceptsAt;
    Agreement(hostOf, acts, j, c);
    var i :| 0 <= i < j && Backs(hostOf, acts, i, j, c);
    HostTable(acts, i);
    AnswerIsNamed(ActorAt(acts, i).ports, c.remote, acts[i].input.env.alienMapped);
  }

  lemma HostTable(acts: seq<Act>, n: nat)
    requires n < |acts|
    ensures TableOk(ActorAt(acts, n).ports)
  {
    hide Step;
    HostsOk(acts, n, acts[n].host);
  }
}
