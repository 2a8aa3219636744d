/**
  When agreement fails. A handle is the address of a request object, and an allocator may hand
  the address of a freed object out again: then a late copy of the accept for one query answers
  a later query about another address.
 */
module RecycledHandle {
  import opened Basics
  import opened Sockaddr
  import opened PortTable
  import opened MapRequests
  import opened PortMapper
  import opened DaemonRuns
  import opened Network
  import opened Agreement

  /** A query between fully specified addresses of one family, for which nothing goes wrong. */
  predicate Served(i: Input) {
    && i.NlQuery? && Internet(i.local.family) && i.remote.family == i.local.family
    && !IsWild(i.local) && !IsWild(i.remote)
    && (i.noMap || i.portEnv.bind.Some?) && i.portEnv.alloc
    && i.env.buffer && i.env.address.Some? && i.env.queued
  }

  // ----- the run of two such queries

  const ANY := Addr(Inet, [], 0)

  function Env(address: Option<Pointer>): WireEnv {
    WireEnv(true, address, true, true, 0, ANY, ANY)
  }

  /** The address the querying host sends from. */
  function Back(i: Input): Addr
    requires i.NlQuery?
  {
    i.remote.(port := 0)
  }

  function Owner(i: Input, h: Host): Addr -> Host
    requires i.NlQuery?
  {
    a => if a == PmAddress(i.remote) then h + 1 else h
  }

  function Listen(a: Addr): Input {
    NlAdd(0, 0, a, false, PortEnv(Some(5000), true), true)
  }

  function Listener(a: Addr): MappedPort {
    MappedPort(0, 0, true, a, a.(port := 5000), false, 1)
  }

  /** The entry a query from scratch creates. */
  function Opened(i: Input): MappedPort
    requires Served(i)
  {
    Create(0, i.client, i.local, i.noMap, i.portEnv).value
  }

  function Request(i: Input): Msg
    requires Served(i)
  {
    Req(i.env.address.value, i.remote, i.local, Opened(i).mapped)
  }

  function Accept(i: Input): Msg
    requires Served(i)
  {
    Acc(i.env.address.value, Listener(i.remote).mapped, i.local)
  }

  /** A query with the mapped local address `mapped`, as it is filed. */
  function Pending(i: Input, id: nat, mapped: Addr, timeout: int, complete: bool): MapRequest
    requires Served(i)
  {
    MapRequest(id, QueryReq, i.local, i.remote, i.nl, i.env.address.value,
               Some(Datagram(PmAddress(i.remote), Req(i.env.address.value, i.remote, i.local, mapped))),
               timeout, complete)
  }

  function Serving(a: Addr): Daemon {
    Daemon([Listener(a)], 1, [], 0, NoCounts())
  }

  function Asking(e: MappedPort, reqs: seq<MapRequest>, next: nat): Daemon {
    Daemon([e], 1, reqs, next, NoCounts())
  }

  /** The ACK entry a client files for a query it was answered. */
  function Acknowledged(i: Input, timeout: int): MapRequest
    requires Served(i)
  {
    MapRequest(1, AckReq, i.local, i.remote, NlRef(0, 0, 0), i.env.address.value, None, timeout, false)
  }

  /** A server listens, a client asks it, is answered, and its query object goes at the next sweep;
      then it asks about another address, and a copy of the first answer arrives. */
  function Acts(i: Input, j: Input, h: Host): seq<Act>
    requires Served(i)
  {
    var pm := PmAddress(i.remote);
    [ Act(h + 1, Listen(i.remote), pm, {}),
      Act(h, i, pm, {Packet(Back(i), pm, Request(i))}),
      Act(h + 1, Wire(Back(i), Request(i), Env(Some(2))), pm, {Packet(pm, Back(i), Accept(i))}),
      Act(h, Wire(pm, Accept(i), Env(Some(3))), Back(i), {}),
      Act(h, Tick, pm, {}),
      Act(h, j, pm, {}),
      Act(h, Wire(pm, Accept(i), Env(Some(4))), Back(i), {}) ]
  }

  // ----- its steps

  lemma {:induction false} NothingToSweep(n: nat)
    ensures Sweeps([], n) == [] && ResentIn([], n) == []
  {
    if n > 0 {
      NothingToSweep(n - 1);
    }
  }

  lemma ServerListens(a: Addr)
    requires Internet(a.family) && !IsWild(a)
    ensures Step(Start(), Listen(a)).d == Serving(a)
  {
    hide Step;
    StepIs(Start(), Listen(a));
  }

  lemma FirstQuery(i: Input)
    requires Served(i)
    ensures Opened(i).local == i.local && Opened(i).refCnt == 1 && !Opened(i).wcard
    ensures var h := Handler(Start(), i);
            && h.d == Asking(Opened(i), [Pending(i, 0, Opened(i).mapped, REQ_TIMEOUT, false)], 1)
            && h.out.sent == [Datagram(PmAddress(i.remote), Request(i))]
  {
  }

  lemma ClientAsks(i: Input)
    requires Served(i)
    ensures Opened(i).local == i.local && Opened(i).refCnt == 1 && !Opened(i).wcard
    ensures Step(Start(), i).d == Asking(Opened(i), [Pending(i, 0, Opened(i).mapped, REQ_TIMEOUT, false)], 1)
    ensures Datagram(PmAddress(i.remote), Request(i)) in Step(Start(), i).out.sent
  {
    hide Step, Handler, Create;
    FirstQuery(i);
    StepIs(Start(), i);
    NothingToSweep(SweepsIn(i));
  }

  lemma ServerAccepts(i: Input)
    requires Served(i)
    ensures Datagram(Back(i), Accept(i)) in Step(Serving(i.remote), Wire(Back(i), Request(i), Env(Some(2)))).out.sent
  {
    hide Step, Create;
    StepIs(Serving(i.remote), Wire(Back(i), Request(i), Env(Some(2))));
  }

  /** An accept is taken for whatever query first in the list has its handle and local address. */
  lemma ClientTakesAccept(i: Input, j: Input, e: MappedPort, id: nat, rest: seq<MapRequest>, next: nat,
                          address: Option<Pointer>)
    requires Served(i) && Served(j) && i.local == j.local && i.env.address == j.env.address && e.local == i.local
    ensures var r := Step(Asking(e, [Pending(j, id, e.mapped, REQ_TIMEOUT, false)] + rest, next),
                          Wire(PmAddress(i.remote), Accept(i), Env(address)));
            r.out.notices == [ConnInfo(id, e.owner, j.nl, i.local, j.remote, e.mapped, Listener(i.remote).mapped, 0)]
  {
    hide Step, Create;
    var d, input := Asking(e, [Pending(j, id, e.mapped, REQ_TIMEOUT, false)] + rest, next),
                    Wire(PmAddress(i.remote), Accept(i), Env(address));
    StepIs(d, input);
    assert d.reqs[0] == Pending(j, id, e.mapped, REQ_TIMEOUT, false);
    assert Answers(d.reqs[0], i.env.address.value, i.local, {QueryReq, AckReq});
  }

  lemma ClientFilesAck(i: Input, e: MappedPort)
    requires Served(i) && e.local == i.local
    ensures var r := Step(Asking(e, [Pending(i, 0, e.mapped, REQ_TIMEOUT, false)], 1),
                          Wire(PmAddress(i.remote), Accept(i), Env(Some(3))));
            && r.d == Asking(e, [Acknowledged(i, REQ_TIMEOUT), Pending(i, 0, e.mapped, 0, true)], 2)
            && r.out.sent == [Datagram(PmAddress(i.remote), Ack(i.env.address.value, Listener(i.remote).mapped, i.local))]
  {
    hide Step, Create;
    StepIs(Asking(e, [Pending(i, 0, e.mapped, REQ_TIMEOUT, false)], 1),
           Wire(PmAddress(i.remote), Accept(i), Env(Some(3))));
  }

  /** The completed query goes, its ACK entry stays. */
  lemma ClientForgets(i: Input, e: MappedPort)
    requires Served(i)
    ensures var q := [Acknowledged(i, REQ_TIMEOUT), Pending(i, 0, e.mapped, 0, true)];
            Step(Asking(e, q, 2), Tick).d == Asking(e, [Acknowledged(i, REQ_TIMEOUT - 1)], 2)
  {
    hide Step, Create;
    var q := [Acknowledged(i, REQ_TIMEOUT), Pending(i, 0, e.mapped, 0, true)];
    StepIs(Asking(e, q, 2), Tick);
    assert q[1..] == [q[1]] && [q[1]][1..] == [];
    Unrolled(q);
    Unrolled([q[1]]);
    Unrolled([]);
    assert Sweeps(q, 1) == Sweeps(Sweep(q), 0) == Sweep(q);
    assert q[0..] == q && [] + Sweeps(q, 1) == Sweeps(q, 1);
  }

  lemma ClientAsksAgain(j: Input, e: MappedPort, q: seq<MapRequest>)
    requires Served(j) && e.local == j.local && !e.wcard && e.refCnt == 1 && e.mapped.family == e.local.family
    ensures Step(Asking(e, q, 2), j).d
            == Asking(e.(refCnt := 2), [Pending(j, 2, e.mapped, REQ_TIMEOUT, false)] + Sweeps(q, j.env.sweeps), 3)
  {
    hide Step, Create, Sweeps, ResentIn;
    assert FindMapping([e], j.local, Local) == 0;
    var d := Asking(e, q, 2);
    StepIs(d, j);
    var h := Handler(d, j);
    assert h.d == Asking(e.(refCnt := 2), [Pending(j, 2, e.mapped, REQ_TIMEOUT, false)] + q, 3);
    assert h.d.reqs[..1] == [h.d.reqs[0]] && h.d.reqs[1..] == q;
  }

  lemma TheRun(i: Input, j: Input, h: Host)
    requires Served(i) && Served(j) && Confusable(i, j)
    ensures var e, q := Opened(i), [Acknowledged(i, REQ_TIMEOUT - 1)];
            var acts := Acts(i, j, h);
            && ActorAt(acts, 0) == Start() && ActorAt(acts, 1) == Start() && ActorAt(acts, 2) == Serving(i.remote)
            && ActorAt(acts, 5) == Asking(e, q, 2)
            && ActorAt(acts, 6) == Asking(e.(refCnt := 2),
                                          [Pending(j, 2, e.mapped, REQ_TIMEOUT, false)] + Sweeps(q, j.env.sweeps), 3)
  {
    hide Step, WorldAt, Create, Served, IsWild, Sweeps;
    var acts, e := Acts(i, j, h), Opened(i);
    Confused(i, j);
    Plain(i);
    Unfold(acts, 0);
    assert At(WorldAt(acts, 0), h) == Start() && At(WorldAt(acts, 0), h + 1) == Start();
    ServerListens(i.remote);
    Unfold(acts, 1);
    ClientAsks(i);
    Unfold(acts, 2);
    Unfold(acts, 3);
    ClientFilesAck(i, e);
    Unfold(acts, 4);
    ClientForgets(i, e);
    Unfold(acts, 5);
    ClientAsksAgain(j, e, [Acknowledged(i, REQ_TIMEOUT - 1)]);
  }

  lemma Confused(i: Input, j: Input)
    requires Served(i) && Served(j) && Confusable(i, j)
    ensures i.local == j.local && i.env.address == j.env.address
  {
  }

  lemma Plain(i: Input)
    requires Served(i)
    ensures i.NlQuery? && Internet(i.remote.family) && !IsWild(i.remote) && i.env.address.Some?
    ensures Opened(i).mapped.family == i.local.family
  {
  }

  lemma TheRunIsValid(i: Input, j: Input, h: Host)
    requires Served(i) && Served(j) && Confusable(i, j)
    ensures Valid(Owner(i, h), Acts(i, j, h)) && LiveHandles(Acts(i, j, h))
  {
    hide Step, WorldAt, Served, IsWild, Create, Sweeps;
    var acts := Acts(i, j, h);
    TheRun(i, j, h);
    Unfold(acts, 0);
    Unfold(acts, 1);
    Unfold(acts, 2);
    Unfold(acts, 3);
    Unfold(acts, 4);
    Unfold(acts, 5);
    ClientAsks(i);
    ServerAccepts(i);
  }

  // ----- exactly when agreement fails

  /** Some success is reported that no act of the host owning the queried address backs. */
  ghost predicate Misled(hostOf: Addr -> Host, acts: seq<Act>) {
    exists k, c :: 0 <= k < |acts| && c in OutOf(acts, k).notices && c.ConnInfo? && c.err == 0
      && !exists m :: 0 <= m < k && Backs(hostOf, acts, m, k, c)
  }

  /** The only queries of the run are copies of `i` and `j` at host `h`. */
  ghost predicate OnlyQueries(acts: seq<Act>, h: Host, i: Input, j: Input) {
    forall n :: 0 <= n < |acts| && acts[n].input.NlQuery? ==> acts[n].host == h && acts[n].input in {i, j}
  }

  /** Two queries that can be confused and ask about different addresses mislead a client: the
      last act of their run reports the mapped address of the first as that of the second. Nothing
      goes wrong in this run, and the handle is not given out again before the first query object
      is freed. */
  lemma ConfusionMisleads(i: Input, j: Input, h: Host)
    requires Served(i) && Served(j) && Confusable(i, j) && i.remote != j.remote
    ensures Valid(Owner(i, h), Acts(i, j, h)) && OnlyQueries(Acts(i, j, h), h, i, j)
    ensures Misled(Owner(i, h), Acts(i, j, h)) && LiveHandles(Acts(i, j, h))
  {
    hide Step, WorldAt, Served, IsWild, Valid, LiveHandles, Create, Sweeps;
    TheRun(i, j, h);
    TheRunIsValid(i, j, h);
    var acts, e := Acts(i, j, h), Opened(i).(refCnt := 2);
    ClientAsks(i);
    Confused(i, j);
    ClientTakesAccept(i, j, e, 2, Sweeps([Acknowledged(i, REQ_TIMEOUT - 1)], j.env.sweeps), 3, Some(4));
    var c := ConnInfo(2, e.owner, j.nl, i.local, j.remote, e.mapped, Listener(i.remote).mapped, 0);
    assert c in OutOf(acts, 6).notices;
    assert forall m :: 0 <= m < 6 ==> !(acts[m].input.Wire? && acts[m].input.msg.Req? && acts[m].input.msg.ap == j.remote);
  }

  /** Agreement holds of any two such queries, in every run, exactly when they cannot be confused
      or ask about the same address; and it is enough to look at runs in which no handle is given
      out again while its query is listed. */
  lemma AgreementExactly(i: Input, j: Input, h: Host)
    requires Served(i) && Served(j)
    ensures (exists hostOf: Addr -> Host, acts ::
               Valid(hostOf, acts) && OnlyQueries(acts, h, i, j) && Misled(hostOf, acts))
            <==> Confusable(i, j) && i.remote != j.remote
    ensures (exists hostOf: Addr -> Host, acts ::
               Valid(hostOf, acts) && LiveHandles(acts) && OnlyQueries(acts, h, i, j) && Misled(hostOf, acts))
            <==> Confusable(i, j) && i.remote != j.remote
  {
    hide Valid, Misled, LiveHandles, OnlyQueries;
    if Confusable(i, j) && i.remote != j.remote {
      ConfusionMisleads(i, j, h);
    } else {
      forall hostOf: Addr -> Host, acts | Valid(hostOf, acts) && OnlyQueries(acts, h, i, j)
        ensures !Misled(hostOf, acts)
      {
        NotMisled(hostOf, acts, h, i, j);
      }
    }
  }

  lemma NotMisled(hostOf: Addr -> Host, acts: seq<Act>, h: Host, i: Input, j: Input)
    requires Served(i) && Served(j) && !(Confusable(i, j) && i.remote != j.remote)
    requires Valid(hostOf, acts) && OnlyQueries(acts, h, i, j)
    ensures !Misled(hostOf, acts)
  {
    hide Step, Valid, Backs, WorldAt;
    assert NoConfusion(acts);
    forall k, c | 0 <= k < |acts| && c in OutOf(acts, k).notices && c.ConnInfo? && c.err == 0
      ensures exists m :: 0 <= m < k && Backs(hostOf, acts, m, k, c)
    {
      Agreement.Agreement(hostOf, acts, k, c);
    }
  }
}
