/** One complete exchange for any query for which nothing goes wrong: the assumptions of the
    theorems about runs of several daemons are met together, and the run shows what they promise. */
module CompleteRun {
  import opened Basics
  import opened Sockaddr
  import opened PortTable
  import opened MapRequests
  import opened PortMapper
  import opened DaemonRuns
  import opened Network
  import opened RecycledHandle
  import opened Handshake

  function AckOf(i: Input): Msg
    requires Served(i)
  {
    Ack(i.env.address.value, Listener(i.remote).mapped, i.local)
  }

  /** A server listens, a client asks, the server accepts, the client takes the accept, the
      server takes the ack. */
  function Run(i: Input, h: Host): seq<Act>
    requires Served(i)
  {
    var pm := PmAddress(i.remote);
    [ Act(h + 1, Listen(i.remote), pm, {}),
      Act(h, i, pm, {Packet(Back(i), pm, Request(i))}),
      Act(h + 1, Wire(Back(i), Request(i), Env(Some(2))), pm, {Packet(pm, Back(i), Accept(i))}),
      Act(h, Wire(pm, Accept(i), Env(Some(3))), Back(i), {Packet(Back(i), pm, AckOf(i))}),
      Act(h + 1, Wire(Back(i), AckOf(i), Env(None)), pm, {}) ]
  }

  function Accepted(i: Input): MapRequest
    requires Served(i)
  {
    MapRequest(0, AcceptReq, Listener(i.remote).mapped, i.local, NlRef(0, 0, 0), i.env.address.value,
               Some(Datagram(Back(i), Accept(i))), REQ_TIMEOUT, false)
  }

  function Filed(i: Input): MapRequest
    requires Served(i)
  {
    Pending(i, 0, Opened(i).mapped, REQ_TIMEOUT, false)
  }

  function Accepting(i: Input): Daemon
    requires Served(i)
  {
    Daemon([Listener(i.remote)], 1, [Accepted(i)], 1, NoCounts())
  }

  function RemoteNotice(i: Input): Notice
    requires Served(i)
  {
    RemoteInfo(0, i.remote, i.local, Listener(i.remote).mapped, Opened(i).mapped)
  }

  function LocalNotice(i: Input): Notice
    requires Served(i)
  {
    ConnInfo(0, i.client, i.nl, i.local, i.remote, Opened(i).mapped, Listener(i.remote).mapped, 0)
  }

  lemma ServerFilesAccept(i: Input)
    requires Served(i)
    ensures var r := Step(Serving(i.remote), Wire(Back(i), Request(i), Env(Some(2))));
            r.d == Accepting(i) && r.out.sent == [Datagram(Back(i), Accept(i))] && r.out.notices == [RemoteNotice(i)]
  {
    hide Step, Create;
    StepIs(Serving(i.remote), Wire(Back(i), Request(i), Env(Some(2))));
  }

  lemma ClientAnswersAccept(i: Input)
    requires Served(i)
    ensures var r := Step(Asking(Opened(i), [Filed(i)], 1), Wire(PmAddress(i.remote), Accept(i), Env(Some(3))));
            r.out.sent == [Datagram(PmAddress(i.remote), AckOf(i))] && r.out.notices == [LocalNotice(i)]
  {
    hide Step, Create;
    StepIs(Asking(Opened(i), [Filed(i)], 1), Wire(PmAddress(i.remote), Accept(i), Env(Some(3))));
    ClientAsks(i);
    OpenedFor(i);
  }

  lemma OpenedFor(i: Input)
    requires Served(i)
    ensures Opened(i).owner == i.client
  {
  }

  lemma States(i: Input, h: Host)
    requires Served(i)
    ensures var acts := Run(i, h);
            && ActorAt(acts, 0) == Start() && ActorAt(acts, 1) == Start() && ActorAt(acts, 2) == Serving(i.remote)
            && ActorAt(acts, 3) == Asking(Opened(i), [Filed(i)], 1) && ActorAt(acts, 4) == Accepting(i)
  {
    hide Step, WorldAt, Create, Served, IsWild;
    var acts := Run(i, h);
    Plain(i);
    Unfold(acts, 0);
    assert At(WorldAt(acts, 0), h) == Start() && At(WorldAt(acts, 0), h + 1) == Start();
    ServerListens(i.remote);
    Unfold(acts, 1);
    ClientAsks(i);
    Unfold(acts, 2);
    ServerFilesAccept(i);
    Unfold(acts, 3);
  }

  lemma RunIsValid(i: Input, h: Host)
    requires Served(i)
    ensures Valid(Owner(i, h), Run(i, h)) && FreshHandles(Run(i, h))
  {
    hide Step, WorldAt, IsWild, Served;
    var acts := Run(i, h);
    Plain(i);
    States(i, h);
    Unfold(acts, 0);
    Unfold(acts, 1);
    Unfold(acts, 2);
    Unfold(acts, 3);
    ClientAsks(i);
    ServerFilesAccept(i);
    ClientAnswersAccept(i);
  }

  function TheExchange(i: Input): Exchange
    requires Served(i)
  {
    Exchange(1, 2, 3, 4, Filed(i), Accepted(i), Listener(i.remote))
  }

  lemma RunIsExchange(i: Input, h: Host)
    requires Served(i)
    ensures Exchanged(Run(i, h), TheExchange(i))
  {
    hide Step, WorldAt, IsWild, Create;
    States(i, h);
    ClientAsks(i);
    ServerFilesAccept(i);
    var acts := Run(i, h);
    assert ActorAt(acts, 4).ports[0] == Listener(i.remote);
    assert Hit(ActorAt(acts, 2).ports[0], i.remote, Local) && Same(i.local, ActorAt(acts, 3).ports[0].local);
    assert HalfOpen(acts, TheExchange(i));
    assert HostTicks(acts, 2, 2, h) == 0 && HostTicks(acts, 3, 3, h + 1) == 0;
  }

  /** The assumptions hold together: both clients are told, each end names the other's mapped
      address, and both requests end complete. */
  lemma ExchangeHappens(i: Input, h: Host)
    requires Served(i)
    ensures Valid(Owner(i, h), Run(i, h)) && FreshHandles(Run(i, h))
    ensures NoConfusion(Run(i, h)) && LiveHandles(Run(i, h))
    ensures Exchanged(Run(i, h), TheExchange(i))
    ensures OutOf(Run(i, h), 2).notices == [RemoteNotice(i)] && OutOf(Run(i, h), 3).notices == [LocalNotice(i)]
    ensures Completed(Run(i, h), 2, 4, h, 0) && Completed(Run(i, h), 3, 5, h + 1, 0)
  {
    hide Step, WorldAt, Valid, FreshHandles, NoConfusion, LiveHandles, Exchanged, Completed, IsWild;
    RunIsValid(i, h);
    FreshHandlesDoNotConfuse(Run(i, h));
    FreshHandlesAreLive(Run(i, h));
    RunIsExchange(i, h);
    States(i, h);
    ServerFilesAccept(i);
    ClientAnswersAccept(i);
    HandshakeCompletes(Owner(i, h), Run(i, h), TheExchange(i));
  }
}
