/** The other direction of the agreement: what the accepting daemon tells its client about the
    connecting peer is what the connecting daemon's table said. */
module RemoteAgreement {
  import opened Basics
  import opened Sockaddr
  import opened PortTable
  import opened MapRequests
  import opened PortMapper
  import opened DaemonRuns
  import opened Outcomes
  import opened Network
  import opened Agreement

  /** The request `m` is the one query `i` makes: it carries the queried address, and of the
      querying side the local address and what the table `t` maps it to. */
  predicate Offers(t: seq<MappedPort>, i: Input, m: Msg) {
    && i.NlQuery? && m.Req?
    && m.ap == i.remote && m.cp == CopyAs(i.remote.family, i.local, i.env.alienLocal)
    && (Internet(i.local.family) ==>
          var k := FindMapping(t, i.local, Local);
          && k < |t| && !t[k].wcard
          && m.mappedCp == CopyAs(i.remote.family, t[k].mapped, i.env.alienMapped))
  }

  /** Act `m` of host `h` made the request, with the table it left behind. */
  ghost predicate OffersAt(acts: seq<Act>, m: nat, h: Host, msg: Msg)
    requires m < |acts|
  {
    acts[m].host == h && Offers(TableAfter(acts, m), acts[m].input, msg)
  }

  function TableAfter(acts: seq<Act>, m: nat): seq<MappedPort>
    requires m < |acts|
  {
    Step(ActorAt(acts, m), acts[m].input).d.ports
  }

  ghost predicate Offered(acts: seq<Act>, n: nat, h: Host, msg: Msg)
    requires n <= |acts|
  {
    msg.Req? ==> exists m :: 0 <= m < n && OffersAt(acts, m, h, msg)
  }

  ghost predicate HeldOffer(acts: seq<Act>, n: nat, h: Host, r: MapRequest)
    requires n <= |acts|
  {
    r.resend.Some? ==> Offered(acts, n, h, r.resend.value.msg)
  }

  /** Every request on the wire or held for retransmission was made by a query. */
  ghost predicate Honest(hostOf: Addr -> Host, acts: seq<Act>, n: nat)
    requires n <= |acts|
  {
    && (forall p :: p in WorldAt(acts, n).net ==> Offered(acts, n, hostOf(p.from), p.msg))
    && (forall h, k :: 0 <= k < |At(WorldAt(acts, n), h).reqs| ==>
          HeldOffer(acts, n, h, At(WorldAt(acts, n), h).reqs[k]))
  }

  // ----- one query

  /** After a claim is committed, the lookup that led to it finds the claimed entry. */
  lemma ListedClaimIsFound(d: Daemon, a: Addr)
    requires DaemonOk(d) && FindMapping(d.ports, a, Local) < |d.ports|
    ensures var c := ClaimListed(d, FindMapping(d.ports, a, Local));
            var t := Commit(d, c).ports;
            FindMapping(t, a, Local) == c.at < |t| && t[c.at] == c.port
  {
    var k := FindMapping(d.ports, a, Local);
    var t := Commit(d, ClaimListed(d, k)).ports;
    assert EntryOk(d.ports[k]);
    assert forall i :: 0 <= i < |t| ==> t[i].local == d.ports[i].local && t[i].wcard == d.ports[i].wcard;
    assert forall i :: 0 <= i < |t| ==> (Hit(t[i], a, Local) <==> Hit(d.ports[i], a, Local));
  }

  lemma NewClaimIsFound(d: Daemon, e: MappedPort)
    requires e.refCnt == 1 && Internet(e.local.family)
    ensures var t := Commit(d, ClaimNew(d, e)).ports;
            |t| > 0 && FindMapping(t, e.local, Local) == 0 && t[0] == e
  {
    var t := Commit(d, ClaimNew(d, e)).ports;
    assert Hit(t[0], e.local, Local);
  }

  lemma FiledQueryOffers(d: Daemon, c: Claim, i: Input, r: MapRequest)
    requires i.NlQuery? && r in FinishQuery(d, c, i).d.reqs && r !in d.reqs
    requires Internet(i.local.family) ==>
               var t := Commit(d, c).ports;
               var k := FindMapping(t, i.local, Local);
               k < |t| && t[k] == c.port
    ensures r.resend.Some? && Offers(FinishQuery(d, c, i).d.ports, i, r.resend.value.msg)
  {
  }

  /** The request object a query adds holds the message the query makes. */
  lemma QueryOffers(d: Daemon, i: Input, r: MapRequest)
    requires DaemonOk(d) && i.NlQuery? && r in QueryMapping(d, i).d.reqs && r !in d.reqs
    ensures r.resend.Some? && Offers(QueryMapping(d, i).d.ports, i, r.resend.value.msg)
  {
    hide FinishQuery, DaemonOk, Offers, Commit;
    var k := FindMapping(d.ports, i.local, Local);
    if k < |d.ports| {
      ListedClaimIsFound(d, i.local);
      FiledQueryOffers(d, ClaimListed(d, k), i, r);
    } else {
      var e := Create(d.nextPort, i.client, i.local, i.noMap, i.portEnv).value;
      if Internet(i.local.family) {
        NewClaimIsFound(d, e);
      }
      FiledQueryOffers(d, ClaimNew(d, e), i, r);
    }
  }

  lemma PushOffers(d: Daemon, i: Input, r: MapRequest)
    requires DaemonOk(d) && Pushable(d, i, r) && Step(d, i).d.reqs != [] && Step(d, i).d.reqs[0] == r
    requires r.resend.Some? && r.resend.value.msg.Req?
    ensures Offers(Step(d, i).d.ports, i, r.resend.value.msg)
  {
    assert Handled(d) && r !in d.reqs;
    hide Step, Handler, QueryMapping, Offers, Sweeps, ResentIn, Target;
    StepIs(d, i);
    HandlerIs(d, i);
    StepKeeps(d, i);
    var push := HandlerHasShape(d, i);
    assert push != [];
    assert Handler(d, i).d.reqs[0] == r;
    QueryOffers(d, i, r);
  }

  // ----- every run

  lemma OfferedStays(acts: seq<Act>, n: nat, h: Host, msg: Msg)
    requires n < |acts| && Offered(acts, n, h, msg)
    ensures Offered(acts, n + 1, h, msg)
  {
    hide OffersAt;
  }

  lemma ActorHonest(hostOf: Addr -> Host, acts: seq<Act>, n: nat, j: nat)
    requires n < |acts| && Honest(hostOf, acts, n) && j < |Step(ActorAt(acts, n), acts[n].input).d.reqs|
    ensures HeldOffer(acts, n + 1, acts[n].host, Step(ActorAt(acts, n), acts[n].input).d.reqs[j])
  {
    hide Step, Offers, DaemonOk, Advance, Pushable;
    var d, i, h := ActorAt(acts, n), acts[n].input, acts[n].host;
    var r := Step(d, i).d.reqs[j];
    HostsOk(acts, n, h);
    StepAdvances(d, i);
    var added, k := RequestOrigin(d, i, Step(d, i), j);
    if added {
      if r.resend.Some? && r.resend.value.msg.Req? {
        PushOffers(d, i, r);
        assert OffersAt(acts, n, h, r.resend.value.msg);
      }
    } else if r.resend.Some? {
      assert HeldOffer(acts, n, h, At(WorldAt(acts, n), h).reqs[k]);
      OfferedStays(acts, n, h, r.resend.value.msg);
    }
  }

  lemma SenderHonest(hostOf: Addr -> Host, acts: seq<Act>, n: nat, dg: Datagram)
    requires n < |acts| && Honest(hostOf, acts, n)
    requires FromRequest(ActorAt(acts, n), Step(ActorAt(acts, n), acts[n].input), dg)
    ensures Offered(acts, n + 1, acts[n].host, dg.msg)
  {
    hide Step, Offered;
    var d, i, h := ActorAt(acts, n), acts[n].input, acts[n].host;
    var q: MapRequest :| (q in d.reqs || q in Step(d, i).d.reqs) && q.resend == Some(dg);
    if q in d.reqs {
      var k :| 0 <= k < |d.reqs| && d.reqs[k] == q;
      assert HeldOffer(acts, n, h, At(WorldAt(acts, n), h).reqs[k]);
      OfferedStays(acts, n, h, dg.msg);
    } else {
      var j :| 0 <= j < |Step(d, i).d.reqs| && Step(d, i).d.reqs[j] == q;
      ActorHonest(hostOf, acts, n, j);
    }
  }

  lemma EmittedHonest(hostOf: Addr -> Host, acts: seq<Act>, n: nat, p: Packet)
    requires n < |acts| && Honest(hostOf, acts, n) && Enabled(hostOf, WorldAt(acts, n), acts[n])
    requires p in acts[n].emitted
    ensures Offered(acts, n + 1, hostOf(p.from), p.msg)
  {
    hide Step, Offered, Honest, FromRequest, Sends;
    var dg := Datagram(p.to, p.msg);
    if p.msg.Req? {
      HostsOk(acts, n, acts[n].host);
      SendsFromRequest(ActorAt(acts, n), acts[n].input, dg);
      SenderHonest(hostOf, acts, n, dg);
    } else {
      NoOffer(acts, n + 1, hostOf(p.from), p.msg);
    }
  }

  lemma NoOffer(acts: seq<Act>, n: nat, h: Host, msg: Msg)
    requires n <= |acts| && !msg.Req?
    ensures Offered(acts, n, h, msg)
  {
  }

  lemma NetStaysHonest(hostOf: Addr -> Host, acts: seq<Act>, n: nat, p: Packet)
    requires n < |acts| && Honest(hostOf, acts, n) && Enabled(hostOf, WorldAt(acts, n), acts[n])
    requires p in WorldAt(acts, n + 1).net
    ensures Offered(acts, n + 1, hostOf(p.from), p.msg)
  {
    hide Step, Offered, Enabled;
    if p in WorldAt(acts, n).net {
      OfferedStays(acts, n, hostOf(p.from), p.msg);
    } else {
      EmittedHonest(hostOf, acts, n, p);
    }
  }

  lemma HoldersStayHonest(hostOf: Addr -> Host, acts: seq<Act>, n: nat, h: Host, k: nat)
    requires n < |acts| && Honest(hostOf, acts, n) && k < |At(WorldAt(acts, n + 1), h).reqs|
    ensures HeldOffer(acts, n + 1, h, At(WorldAt(acts, n + 1), h).reqs[k])
  {
    hide Step, Offered;
    if h == acts[n].host {
      ActorHonest(hostOf, acts, n, k);
    } else {
      var r := At(WorldAt(acts, n), h).reqs[k];
      assert HeldOffer(acts, n, h, r);
      if r.resend.Some? {
        OfferedStays(acts, n, h, r.resend.value.msg);
      }
    }
  }

  lemma {:induction false} RunsAreHonest(hostOf: Addr -> Host, acts: seq<Act>, n: nat)
    requires n <= |acts| && Valid(hostOf, acts)
    ensures Honest(hostOf, acts, n)
  {
    hide Step, Offered, HeldOffer, Perform, Enabled, OffersAt;
    if n > 0 {
      RunsAreHonest(hostOf, acts, n - 1);
      assert Enabled(hostOf, WorldAt(acts, n - 1), acts[n - 1]);
      forall p | p in WorldAt(acts, n).net ensures Offered(acts, n, hostOf(p.from), p.msg) {
        NetStaysHonest(hostOf, acts, n - 1, p);
      }
      forall h, k | 0 <= k < |At(WorldAt(acts, n), h).reqs|
        ensures HeldOffer(acts, n, h, At(WorldAt(acts, n), h).reqs[k])
      {
        HoldersStayHonest(hostOf, acts, n - 1, h, k);
      }
    }
  }

  // ----- the agreement

  lemma NetlinkTellsOfNoPeer(d: Daemon, i: Input, c: Notice)
    requires !i.Wire? && c in Handler(d, i).out.notices
    ensures !c.RemoteInfo?
  {
    hide Handler, FindMapping, FindSame, Create, Reopen, Commit;
    HandlerIs(d, i);
  }

  /** A remote-info notice passes on what a request carries and what the own table holds for the
      requested address. */
  lemma NoticeFromRequest(d: Daemon, i: Input, c: Notice)
    requires c in Step(d, i).out.notices && c.RemoteInfo?
    ensures i.Wire? && i.msg.Req? && c.remote == i.msg.cp && c.mappedRemote == i.msg.mappedCp
    ensures var k := FindMapping(d.ports, i.msg.ap, Local);
            && k < |d.ports| && c.client == d.ports[k].owner
            && c.local == d.ports[k].local && c.mappedLocal == d.ports[k].mapped
  {
    hide Step, Handler, FindMapping, FindSame, FindRequest, Serviced, Sweeps, ResentIn, MappedFor;
    hide AddMapping, QueryMapping, RemoveMapping, Mapinfo;
    StepIs(d, i);
    HandlerIs(d, i);
    if !i.Wire? {
      NetlinkTellsOfNoPeer(d, i, c);
    }
  }

  /** A query with a fully specified local address of the family it asks about. */
  predicate PlainQuery(i: Input) {
    i.NlQuery? && Internet(i.local.family) && i.remote.family == i.local.family && !IsWild(i.local)
  }

  /** The query of act `m` used the local address `remote`, and the only entry of the table it
      left that answers `remote` maps it to `mapped`. */
  predicate TableSaid(acts: seq<Act>, m: nat, remote: Addr, mapped: Addr)
    requires m < |acts|
  {
    && acts[m].input.NlQuery? && acts[m].input.local == remote
    && Names(TableAfter(acts, m), FindMapping(TableAfter(acts, m), remote, Local), remote, mapped)
  }

  lemma OfferIsNamed(t: seq<MappedPort>, i: Input, m: Msg)
    requires TableOk(t) && Offers(t, i, m) && PlainQuery(i)
    ensures m.cp == i.local && Names(t, FindMapping(t, i.local, Local), i.local, m.mappedCp)
  {
    var k := FindMapping(t, i.local, Local);
    AnswerIsNamed(t, i.local, i.env.alienMapped);
    assert EntryOk(t[k]) && Hit(t[k], i.local, Local);
  }

  /** In every run of any number of daemons, whenever act `j` tells a client about a connecting
      peer, an earlier act of the host the request came from made that request; and if it was a
      plain query, it was made with exactly the local address named, and the mapped address named
      is the one its table then held for it. */
  lemma RemoteInfoAgrees(hostOf: Addr -> Host, acts: seq<Act>, j: nat, c: Notice)
    requires Valid(hostOf, acts) && j < |acts| && c in OutOf(acts, j).notices && c.RemoteInfo?
    ensures acts[j].input.Wire? && acts[j].input.msg.Req?
    ensures exists m :: 0 <= m < j && OffersAt(acts, m, hostOf(acts[j].input.from), acts[j].input.msg)
              && (PlainQuery(acts[m].input) ==> TableSaid(acts, m, c.remote, c.mappedRemote))
  {
    hide Step, Offers, Names, PlainQuery;
    var d, a := ActorAt(acts, j), acts[j];
    NoticeFromRequest(d, a.input, c);
    RunsAreHonest(hostOf, acts, j);
    assert Enabled(hostOf, WorldAt(acts, j), a);
    var p := Packet(a.input.from, a.to, a.input.msg);
    assert Offered(acts, j, hostOf(p.from), p.msg);
    var m :| 0 <= m < j && OffersAt(acts, m, hostOf(p.from), p.msg);
    OfferWasQuery(acts, m, hostOf(p.from), p.msg);
    if PlainQuery(acts[m].input) {
      HostsOk(acts, m, acts[m].host);
      StepKeeps(ActorAt(acts, m), acts[m].input);
      OfferIsNamed(TableAfter(acts, m), acts[m].input, p.msg);
    }
  }

  lemma OfferWasQuery(acts: seq<Act>, m: nat, h: Host, msg: Msg)
    requires m < |acts| && OffersAt(acts, m, h, msg)
    ensures acts[m].input.NlQuery?
  {
  }
}
