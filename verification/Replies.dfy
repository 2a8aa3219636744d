/** Queries are answered: what the client of a query is told when an answer to it arrives. */
module Replies {
  import opened Basics
  import opened Sockaddr
  import opened PortTable
  import opened MapRequests
  import opened PortMapper
  import opened DaemonRuns
  import opened Outcomes
  import opened Lifetime
  import opened Network
  import opened Handshake
  import opened Answers
  import opened RecycledHandle

  /** A query with a fully specified local address of the family it asks about, filed at act `t` as `q`. */
  ghost predicate PlainQueryAt(acts: seq<Act>, t: nat, q: MapRequest)
    requires t < |acts|
  {
    && acts[t].input.NlQuery? && Files(ActorAt(acts, t), acts[t].input, q)
    && acts[t].input.local.family == acts[t].input.remote.family
    && !IsWild(acts[t].input.local)
  }

  /** The answer `m` to query `q` of act `t` arrives at act `n`, while its local address is mapped and
      its time has not run out. */
  ghost predicate AnswerArrives(acts: seq<Act>, t: nat, n: nat, q: MapRequest, m: Msg)
    requires t < n < |acts|
  {
    && PlainQueryAt(acts, t, q)
    && (m.Acc? || m.Rej?) && m.handle == q.handle && m.cp == acts[t].input.local
    && Delivers(acts, n, acts[t].host, m)
    && FindSame(ActorAt(acts, n).ports, m.cp, Local) < |ActorAt(acts, n).ports|
    && HostTicks(acts, t + 1, n, acts[t].host) <= REQ_TIMEOUT
  }

  lemma QueryIsOpen(acts: seq<Act>, t: nat, n: nat, q: MapRequest, m: Msg)
    requires t < n < |acts| && AnswerArrives(acts, t, n, q, m)
    ensures Completed(acts, t + 1, n, acts[t].host, q.id) || OpenIn(ActorAt(acts, n), q)
    ensures OpenQuery(q) && q.src == acts[t].input.local && q.remote == acts[t].input.remote && q.nl == acts[t].input.nl
    ensures Same(q.src, q.src)
  {
    hide Step, DaemonOk, Completes, WorldAt;
    HostsOk(acts, t, acts[t].host);
    QueryFiled(ActorAt(acts, t), acts[t].input, q);
    FiledIsPushed(ActorAt(acts, t), acts[t].input, q);
    FiledIsHeld(acts, t, q);
    Survives(acts, t + 1, n, acts[t].host, q);
  }

  /** Among arbitrary other activity of any number of daemons, the first answer to a query that
      arrives in time completes it, and its client, if it can be told, is told exactly this: the
      netlink reference of the query and its two addresses, the mapping the table has for the local
      one, and for an accept the address it carries, for a reject the address asked about with the
      reject as error. */
  lemma FirstAnswerIsTold(acts: seq<Act>, t: nat, n: nat, q: MapRequest, m: Msg)
    requires LiveHandles(acts) && t < n < |acts| && AnswerArrives(acts, t, n, q, m)
    requires !Completed(acts, t + 1, n, acts[t].host, q.id)
    ensures Completes(ActorAt(acts, n), acts[n].input, q.id)
    ensures var i, d := acts[t].input, ActorAt(acts, n);
            var e := d.ports[FindSame(d.ports, i.local, Local)];
            acts[n].input.env.delivered ==>
              OutOf(acts, n).notices ==
              [ConnInfo(q.id, e.owner, i.nl, i.local, i.remote, e.mapped, if m.Acc? then m.ap else i.remote,
                        if m.Acc? then 0 else 16)]
  {
    hide Step, DaemonOk, LiveHandles, OpenInFront, WorldAt, Completed, FindSame, Target;
    var d, i := ActorAt(acts, n), acts[n].input;
    QueryIsOpen(acts, t, n, q, m);
    OpenStaysInFront(acts, n, acts[n].host);
    HostsOk(acts, n, acts[n].host);
    var left: int :| Holds(d, q.(timeout := left));
    OpenIsTarget(d, i, q.(timeout := left));
    if m.Acc? {
      AnsweredQuery(d, i);
    } else {
      RejectedQuery(d, i);
    }
  }

  /** Either way a query to which some answer arrives in time ends complete. */
  lemma AnswerCompletes(acts: seq<Act>, t: nat, n: nat, q: MapRequest, m: Msg)
    requires LiveHandles(acts) && t < n < |acts| && AnswerArrives(acts, t, n, q, m)
    ensures Completed(acts, t + 1, n + 1, acts[t].host, q.id)
  {
    hide Step, LiveHandles, Completes;
    if Completed(acts, t + 1, n, acts[t].host, q.id) {
      var k :| t + 1 <= k < n && acts[k].host == acts[t].host && Completes(ActorAt(acts, k), acts[k].input, q.id);
    } else {
      FirstAnswerIsTold(acts, t, n, q, m);
    }
  }

  // ----- the refused query

  /** A host whose table has nothing for the address rejects the request of a query with the very
      message that refuses it. */
  lemma RequestIsRefused(acts: seq<Act>, t: nat, n: nat, q: MapRequest)
    requires t < n < |acts| && PlainQueryAt(acts, t, q) && q.resend.Some?
    requires Delivers(acts, n, acts[n].host, q.resend.value.msg)
    requires FindMapping(ActorAt(acts, n).ports, q.remote, Local) == |ActorAt(acts, n).ports|
    ensures acts[n].input.env.queued ==>
              OutOf(acts, n).sent == [Datagram(acts[n].input.from, Rej(q.handle, q.remote, acts[t].input.local))]
  {
    hide Step, DaemonOk, WorldAt;
    HostsOk(acts, t, acts[t].host);
    QueryFiled(ActorAt(acts, t), acts[t].input, q);
    RequestOutcome(ActorAt(acts, n), acts[n].input);
  }

  function Reject(i: Input): Msg
    requires Served(i)
  {
    Rej(i.env.address.value, i.remote, i.local)
  }

  /** A client asks, the other side listens to nothing and rejects, the client is told. */
  function RefusedRun(i: Input, h: Host): seq<Act>
    requires Served(i)
  {
    var pm := PmAddress(i.remote);
    [ Act(h, i, pm, {Packet(Back(i), pm, Request(i))}),
      Act(h + 1, Wire(Back(i), Request(i), Env(None)), pm, {Packet(pm, Back(i), Reject(i))}),
      Act(h, Wire(pm, Reject(i), Env(None)), Back(i), {}) ]
  }

  lemma NobodyListens(i: Input)
    requires Served(i)
    ensures Step(Start(), Wire(Back(i), Request(i), Env(None))).out.sent == [Datagram(Back(i), Reject(i))]
  {
    hide Step, Create;
    RequestOutcome(Start(), Wire(Back(i), Request(i), Env(None)));
  }

  lemma RefusedStates(i: Input, h: Host)
    requires Served(i)
    ensures var acts, q := RefusedRun(i, h), Pending(i, 0, Opened(i).mapped, REQ_TIMEOUT, false);
            && ActorAt(acts, 0) == Start() && ActorAt(acts, 1) == Start()
            && ActorAt(acts, 2) == Asking(Opened(i), [q], 1)
            && PlainQueryAt(acts, 0, q)
  {
    hide Step, WorldAt, Create, IsWild;
    var acts := RefusedRun(i, h);
    Unfold(acts, 0);
    assert At(WorldAt(acts, 0), h) == Start() && At(WorldAt(acts, 0), h + 1) == Start();
    ClientAsks(i);
    Unfold(acts, 1);
  }

  lemma RefusedRunIsValid(i: Input, h: Host)
    requires Served(i)
    ensures Valid(Owner(i, h), RefusedRun(i, h)) && FreshHandles(RefusedRun(i, h))
  {
    hide Step, WorldAt, IsWild, Served;
    var acts := RefusedRun(i, h);
    Plain(i);
    RefusedStates(i, h);
    Unfold(acts, 0);
    Unfold(acts, 1);
    ClientAsks(i);
    NobodyListens(i);
  }

  /** Any query for which nothing goes wrong but that nobody listens: there is a run in which it is
      refused, and its client is told so. */
  lemma RefusalHappens(i: Input, h: Host)
    requires Served(i)
    ensures Valid(Owner(i, h), RefusedRun(i, h)) && FreshHandles(RefusedRun(i, h))
    ensures OutOf(RefusedRun(i, h), 2).notices ==
            [ConnInfo(0, i.client, i.nl, i.local, i.remote, Opened(i).mapped, i.remote, REMOTE_QUERY_REJECT)]
    ensures Completed(RefusedRun(i, h), 1, 3, h, 0)
  {
    hide Step, WorldAt, Valid, FreshHandles, LiveHandles, Completed, IsWild, Create, PlainQueryAt;
    var acts, q := RefusedRun(i, h), Pending(i, 0, Opened(i).mapped, REQ_TIMEOUT, false);
    RefusedRunIsValid(i, h);
    FreshHandlesAreLive(acts);
    RefusedStates(i, h);
    ClientAsks(i);
    OpenedBy(i);
    assert Same(i.local, ActorAt(acts, 2).ports[0].local);
    assert HostTicks(acts, 1, 2, h) == 0;
    assert AnswerArrives(acts, 0, 2, q, Reject(i));
    NotAnswered(i, h);
    FirstAnswerIsTold(acts, 0, 2, q, Reject(i));
    AnswerCompletes(acts, 0, 2, q, Reject(i));
  }

  lemma OpenedBy(i: Input)
    requires Served(i)
    ensures Opened(i).owner == i.client
  {
  }

  lemma NotAnswered(i: Input, h: Host)
    requires Served(i)
    ensures !Completed(RefusedRun(i, h), 1, 2, h, 0)
  {
    hide Step, WorldAt, Create;
  }
}
