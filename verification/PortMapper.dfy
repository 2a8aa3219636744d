/**
  One port mapper daemon as a transition function: what a netlink request, a wire message
  or a timer tick does to the two lists, and what it sends. Allocation, bind, netlink
  and queueing outcomes are parameters of the input.
 */
module PortMapper {
  import opened Basics
  import opened Sockaddr
  import opened PortTable
  import opened MapRequests

  const CREATE_MAPPING_ERR := 11
  const DUPLICATE_MAPPING_ERR := 12
  const REMOTE_QUERY_REJECT := 16

  /** The address of an allocated request object, used as its association handle. */
  type Pointer = p: bv64 | p != 0 witness 1

  /** Netlink messages to the clients. */
  datatype Notice =
    | AddReply(client: Client, nlSeq: bv32, local: Addr, mapped: Addr)
    | ErrorNotice(client: Client, nlSeq: bv32, code: nat)
    | ConnInfo(req: nat, client: Client, nl: NlRef, local: Addr, remote: Addr,
               mappedLocal: Addr, mappedRemote: Addr, err: nat)
    | RemoteInfo(client: Client, local: Addr, remote: Addr, mappedLocal: Addr, mappedRemote: Addr)

  /** What happened to the reference count of a mapped-port object. */
  datatype Event = Kept(id: nat) | Dropped(id: nat) | Freed(id: nat)

  datatype Out = Out(sent: seq<Datagram>, resent: seq<(nat, Datagram)>,
                     notices: seq<Notice>, events: seq<Event>)

  const QUIET := Out([], [], [], [])

  /** Per client, the number of mapinfo messages processed (`mapinfo_num_list`). */
  type Counts = s: seq<nat> | |s| == MAX_CLIENTS witness seq(MAX_CLIENTS, _ => 0)

  datatype Daemon = Daemon(ports: seq<MappedPort>, nextPort: nat,
                           reqs: seq<MapRequest>, nextReq: nat, mapinfo: Counts)

  function NoCounts(): Counts {
    seq(MAX_CLIENTS, _ => 0)
  }

  /** A daemon that has just started. */
  function Start(): Daemon {
    Daemon([], 0, [], 0, NoCounts())
  }

  /** Outcome of opening a TCP port and allocating the port object. */
  datatype PortEnv = PortEnv(bind: Option<TcpPort>, alloc: bool)

  /** Outcomes met while a query or a wire message is processed: message buffer, request
      object, queueing of the outgoing message, netlink delivery; the timer sweeps that run
      between the critical sections of its handler; and what a sockaddr of the wrong family
      reads as. */
  datatype WireEnv = WireEnv(buffer: bool, address: Option<Pointer>, queued: bool, delivered: bool,
                             sweeps: nat, alienLocal: Addr, alienMapped: Addr)

  datatype Input =
    | NlAdd(client: Client, nlSeq: bv32, local: Addr, noMap: bool, portEnv: PortEnv, delivered: bool)
    | NlQuery(client: Client, nl: NlRef, local: Addr, remote: Addr, noMap: bool,
              portEnv: PortEnv, env: WireEnv)
    | NlRemove(client: Client, local: Addr)
    | NlMapinfo(client: Client, nlSeq: bv32, local: Addr, mapped: Addr, noMap: bool, portEnv: PortEnv)
    | Wire(from: Addr, msg: Msg, env: WireEnv)
    | Tick

  datatype Result = Result(d: Daemon, out: Out)

  // ----- mapped-port objects

  /** `get_iwpm_tcp_port`: a wanted port is bound as it is, port 0 lets the host choose. */
  function OpenTcpPort(f: Family, want: bv16, bind: Option<TcpPort>): Option<bv16> {
    if !Internet(f) || bind.None? then None
    else if want != 0 then Some(want) else Some(bind.value)
  }

  function NewPort(id: nat, client: Client, local: Addr, mapped: Addr, bound: bool): MappedPort {
    MappedPort(id, client, bound, local, mapped, IsWild(local), 1)
  }

  /** `create_iwpm_mapped_port` */
  function Create(id: nat, client: Client, local: Addr, noMap: bool, env: PortEnv): Option<MappedPort> {
    var port := if noMap then Some(local.port) else OpenTcpPort(local.family, 0, env.bind);
    if port.None? || !env.alloc then None
    else Some(NewPort(id, client, local, local.(port := port.value), !noMap))
  }

  /** `reopen_iwpm_mapped_port` */
  function Reopen(id: nat, client: Client, local: Addr, mapped: Addr, noMap: bool, env: PortEnv)
    : Option<MappedPort>
  {
    var port := if noMap then Some(mapped.port) else OpenTcpPort(local.family, mapped.port, env.bind);
    if local.family != mapped.family || port.None? || !env.alloc then None
    else Some(NewPort(id, client, local, mapped.(port := port.value), !noMap))
  }

  /** A reference taken on a port object that the handler may still give back: the object
      at position `at` of the list, or a new one not yet linked (`at` past the end). */
  datatype Claim = Claim(ports: seq<MappedPort>, at: nat, port: MappedPort, nextPort: nat)

  function ClaimListed(d: Daemon, k: nat): Claim
    requires k < |d.ports|
  {
    var e := d.ports[k].(refCnt := d.ports[k].refCnt + 1);
    Claim(d.ports[k := e], k, e, d.nextPort)
  }

  function ClaimNew(d: Daemon, e: MappedPort): Claim {
    Claim(d.ports, |d.ports|, e, d.nextPort + 1)
  }

  function Commit(d: Daemon, c: Claim): Daemon {
    d.(ports := Enlist(c.ports, c.port), nextPort := c.nextPort)
  }

  /** The error exits: give the reference back and free the object if it was the last. */
  function Abort(d: Daemon, c: Claim): Result {
    var e := c.port.(refCnt := c.port.refCnt - 1);
    Result(
      d.(ports := if c.at < |c.ports| then c.ports[c.at := e] else c.ports, nextPort := c.nextPort),
      QUIET.(events := if c.port.refCnt == 1 then [Freed(c.port.id)] else []))
  }

  // ----- netlink requests

  function Error(d: Daemon, client: Client, nlSeq: bv32, code: nat): Result {
    Result(d, QUIET.(notices := [ErrorNotice(client, nlSeq, code)]))
  }

  function FinishAdd(d: Daemon, c: Claim, i: Input): Result
    requires i.NlAdd?
  {
    if i.delivered then
      Result(Commit(d, c), QUIET.(events := [Kept(c.port.id)],
             notices := [AddReply(i.client, i.nlSeq, c.port.local, c.port.mapped)]))
    else
      Abort(d, c)
  }

  /** `process_iwpm_add_mapping` */
  function AddMapping(d: Daemon, i: Input): Result
    requires i.NlAdd?
  {
    var k := FindMapping(d.ports, i.local, Local);
    if k < |d.ports| then
      if Same(i.local, d.ports[k].local) && d.ports[k].wcard then FinishAdd(d, ClaimListed(d, k), i)
      else Error(d, i.client, i.nlSeq, DUPLICATE_MAPPING_ERR)
    else
      match Create(d.nextPort, i.client, i.local, i.noMap, i.portEnv)
      case None => Error(d, i.client, i.nlSeq, CREATE_MAPPING_ERR)
      case Some(e) => FinishAdd(d, ClaimNew(d, e), i)
  }

  function PmAddress(remote: Addr): Addr {
    remote.(port := PM_PORT)
  }

  /** The request message of a query. */
  function QueryMsg(i: Input, handle: bv64, mapped: Addr): Msg
    requires i.NlQuery?
  {
    Req(handle, i.remote, CopyAs(i.remote.family, i.local, i.env.alienLocal),
        CopyAs(i.remote.family, mapped, i.env.alienMapped))
  }

  function QueryRequest(d: Daemon, e: MappedPort, i: Input): MapRequest
    requires i.NlQuery? && i.env.address.Some?
  {
    var dgram := Datagram(PmAddress(i.remote), QueryMsg(i, i.env.address.value, e.mapped));
    NewRequest(d.nextReq, QueryReq, e.local, i.remote, i.nl, 0, i.env.address.value, Some(dgram))
  }

  function FinishQuery(d: Daemon, c: Claim, i: Input): Result
    requires i.NlQuery?
  {
    if c.port.wcard then
      var r := Abort(d, c);
      r.(out := r.out.(notices := [ErrorNotice(i.client, i.nl.nlSeq, CREATE_MAPPING_ERR)]))
    else if !Internet(i.remote.family) || !i.env.buffer || i.env.address.None? then
      Abort(d, c)
    else
      var r := QueryRequest(d, c.port, i);
      Result(Commit(d, c).(reqs := [r] + d.reqs, nextReq := d.nextReq + 1),
             QUIET.(events := [Kept(c.port.id)], sent := if i.env.queued then [r.resend.value] else []))
  }

  /** `process_iwpm_query_mapping` */
  function QueryMapping(d: Daemon, i: Input): Result
    requires i.NlQuery?
  {
    var k := FindMapping(d.ports, i.local, Local);
    if k < |d.ports| then FinishQuery(d, ClaimListed(d, k), i)
    else
      match Create(d.nextPort, i.client, i.local, i.noMap, i.portEnv)
      case None => Error(d, i.client, i.nl.nlSeq, CREATE_MAPPING_ERR)
      case Some(e) => FinishQuery(d, ClaimNew(d, e), i)
  }

  /** `process_iwpm_remove_mapping` */
  function RemoveMapping(d: Daemon, i: Input): Result
    requires i.NlRemove?
  {
    var k := FindSame(d.ports, i.local, Local);
    if k == |d.ports| || d.ports[k].owner != i.client then Result(d, QUIET)
    else
      var e := d.ports[k];
      if e.refCnt == 1 then
        Result(d.(ports := Without(d.ports, k)), QUIET.(events := [Dropped(e.id), Freed(e.id)]))
      else
        Result(d.(ports := d.ports[k := e.(refCnt := e.refCnt - 1)]), QUIET.(events := [Dropped(e.id)]))
  }

  function Counted(d: Daemon, client: Client): Daemon {
    d.(mapinfo := d.mapinfo[client := d.mapinfo[client] + 1])
  }

  /** `process_iwpm_mapinfo` */
  function Mapinfo(d: Daemon, i: Input): Result
    requires i.NlMapinfo?
  {
    var k := FindMapping(d.ports, i.local, Local);
    if k < |d.ports| then
      if Same(d.ports[k].local, i.local) && Same(d.ports[k].mapped, i.mapped)
      then Result(Counted(d, i.client), QUIET)
      else Error(d, i.client, i.nlSeq, DUPLICATE_MAPPING_ERR)
    else
      match Reopen(d.nextPort, i.client, i.local, i.mapped, i.noMap, i.portEnv)
      case None => Error(d, i.client, i.nlSeq, CREATE_MAPPING_ERR)
      case Some(e) =>
        Result(Counted(Commit(d, ClaimNew(d, e)), i.client), QUIET.(events := [Kept(e.id)]))
  }

  // ----- wire messages

  /** The address an accepting daemon answers with for the requested address `ap`: a
      wildcard listener answers with the requested IP and its own mapped port. */
  function MappedFor(e: MappedPort, ap: Addr, alien: Addr): Addr {
    if e.wcard then ap.(port := PortOf(e.mapped)) else CopyAs(ap.family, e.mapped, alien)
  }

  function AcceptRequest(d: Daemon, from: Addr, m: Msg, mapped: Addr, address: bv64): MapRequest
    requires m.Req?
  {
    NewRequest(d.nextReq, AcceptReq, mapped, m.cp, NlRef(0, 0, 0), m.handle, address,
               Some(Datagram(from, Acc(m.handle, mapped, m.cp))))
  }

  /** `process_iwpm_wire_request` */
  function WireRequest(d: Daemon, from: Addr, m: Msg, env: WireEnv): Result
    requires m.Req?
  {
    var k := FindMapping(d.ports, m.ap, Local);
    if k == |d.ports| then
      Result(d, QUIET.(sent := if env.queued then [Datagram(from, Rej(m.handle, m.ap, m.cp))] else []))
    else
      var e := d.ports[k];
      var mapped := MappedFor(e, m.ap, env.alienMapped);
      if FindRequest(d.reqs, m.handle, mapped, {AcceptReq}) < |d.reqs| || !env.buffer || env.address.None?
      then Result(d, QUIET)
      else
        var r := AcceptRequest(d, from, m, mapped, env.address.value);
        Result(d.(reqs := [r] + d.reqs, nextReq := d.nextReq + 1),
          if !env.queued then QUIET
          else QUIET.(sent := [r.resend.value],
            notices := if env.delivered
                       then [RemoteInfo(e.owner, e.local, m.cp, e.mapped, m.mappedCp)] else []))
  }

  function AckRequest(d: Daemon, r: MapRequest, address: bv64): MapRequest {
    NewRequest(d.nextReq, AckReq, r.src, r.remote, NlRef(0, 0, 0), r.handle, address, None)
  }

  function AckTo(from: Addr, m: Msg, env: WireEnv): seq<Datagram>
    requires m.Acc?
  {
    if env.queued then [Datagram(from, Ack(m.handle, m.ap, m.cp))] else []
  }

  /** `process_iwpm_wire_accept` */
  function WireAccept(d: Daemon, from: Addr, m: Msg, env: WireEnv): Result
    requires m.Acc?
  {
    var k := FindSame(d.ports, m.cp, Local);
    if k == |d.ports| then Result(d, QUIET)
    else
      var e := d.ports[k];
      var n := FindRequest(d.reqs, m.handle, e.local, {QueryReq, AckReq});
      if n == |d.reqs| then Result(d, QUIET)
      else
        var r := d.reqs[n];
        var d1 := d.(reqs := d.reqs[n := Serviced(r)]);
        if r.complete then Result(d1, QUIET)
        else if r.kind == AckReq then Result(d1, QUIET.(sent := AckTo(from, m, env)))
        else if !env.delivered then Result(d1, QUIET)
        else
          var notice := ConnInfo(r.id, e.owner, r.nl, e.local, r.remote, e.mapped, m.ap, 0);
          if env.address.None? then Result(d1, QUIET.(notices := [notice]))
          else
            Result(d1.(reqs := [AckRequest(d, r, env.address.value)] + d1.reqs, nextReq := d.nextReq + 1),
                   QUIET.(notices := [notice], sent := AckTo(from, m, env)))
  }

  /** `process_iwpm_wire_reject` */
  function WireReject(d: Daemon, m: Msg, env: WireEnv): Result
    requires m.Rej?
  {
    var k := FindSame(d.ports, m.cp, Local);
    if k == |d.ports| then Result(d, QUIET)
    else
      var e := d.ports[k];
      var n := FindRequest(d.reqs, m.handle, e.local, {QueryReq});
      if n == |d.reqs| then Result(d, QUIET)
      else
        var r := d.reqs[n];
        var d1 := d.(reqs := d.reqs[n := Serviced(r)]);
        if r.complete || !env.delivered then Result(d1, QUIET)
        else Result(d1, QUIET.(notices :=
          [ConnInfo(r.id, e.owner, r.nl, e.local, r.remote, e.mapped, r.remote, REMOTE_QUERY_REJECT)]))
  }

  /** `process_iwpm_wire_ack` */
  function WireAck(d: Daemon, m: Msg): Result
    requires m.Ack?
  {
    if FindMapping(d.ports, m.ap, Mapped) == |d.ports| then Result(d, QUIET)
    else
      var n := FindRequest(d.reqs, m.handle, m.ap, {AcceptReq});
      if n == |d.reqs| then Result(d, QUIET)
      else Result(d.(reqs := d.reqs[n := Serviced(d.reqs[n])]), QUIET)
  }

  function OnWire(d: Daemon, from: Addr, m: Msg, env: WireEnv): Result {
    match m
    case Req(_, _, _, _) => WireRequest(d, from, m, env)
    case Acc(_, _, _) => WireAccept(d, from, m, env)
    case Rej(_, _, _) => WireReject(d, m, env)
    case Ack(_, _, _) => WireAck(d, m)
  }

  /** What the handler of an input does when no sweep falls inside it. */
  function Handler(d: Daemon, i: Input): Result {
    match i
    case NlAdd(_, _, _, _, _, _) => AddMapping(d, i)
    case NlQuery(_, _, _, _, _, _, _) => QueryMapping(d, i)
    case NlRemove(_, _) => RemoveMapping(d, i)
    case NlMapinfo(_, _, _, _, _, _) => Mapinfo(d, i)
    case Wire(from, m, env) => OnWire(d, from, m, env)
    case Tick => Result(d, QUIET)
  }

  /** The sweeps that fall inside an input; a tick is one. */
  function SweepsIn(i: Input): nat {
    match i
    case NlAdd(_, _, _, _, _, _) => 0
    case NlQuery(_, _, _, _, _, _, env) => env.sweeps
    case NlRemove(_, _) => 0
    case NlMapinfo(_, _, _, _, _, _) => 0
    case Wire(_, _, env) => env.sweeps
    case Tick => 1
  }

  /** How many requests the handler that made `r` of `d` filed. */
  function FiledBy(d: Daemon, r: Result): (c: nat)
    ensures c <= |r.d.reqs|
  {
    if r.d.nextReq > d.nextReq && r.d.reqs != [] then 1 else 0
  }

  /** A handler locks the request list once to search or update it and, if it files a request,
      once more to link it in front. Sweeps in between do not meet the new request. */
  function Interrupted(d: Daemon, r: Result, n: nat): Result {
    var c := FiledBy(d, r);
    Result(r.d.(reqs := r.d.reqs[..c] + Sweeps(r.d.reqs[c..], n)), r.out.(resent := ResentIn(r.d.reqs[c..], n)))
  }

  /** One input, with the sweeps that fall inside it. */
  function Step(d: Daemon, i: Input): Result {
    Interrupted(d, Handler(d, i), SweepsIn(i))
  }
}
