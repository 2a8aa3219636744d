/**
  The daemon as the program runs it: two linked lists updated in place. Every handler is
  proved to do exactly what the transition function `PortMapper.Step` does, and a whole run of
  the object is a run of `Step`, so whatever is proved about runs of `Step` holds of it.
 */
module DaemonImpl {
  import opened Basics
  import opened Sockaddr
  import opened PortTable
  import opened MapRequests
  import opened PortMapper
  import opened DaemonRuns
  import opened IntrusiveList
  import opened DaemonLists

  lemma ListedIsClaimable(d: Daemon, k: nat)
    requires k < |d.ports|
    ensures ClaimOk(d, ClaimListed(d, k))
  {
  }

  lemma CreatedIsClaimable(d: Daemon, client: Client, local: Addr, noMap: bool, env: PortEnv)
    requires FindMapping(d.ports, local, Local) == |d.ports|
    ensures var e := Create(d.nextPort, client, local, noMap, env);
            e.Some? ==> ClaimOk(d, ClaimNew(d, e.value))
  {
  }

  class PortMapperDaemon {
    const ports: List<MappedPort>
    const reqs: List<MapRequest>
    const mapinfo: array<nat>
    var nextPort: nat
    var nextReq: nat

    ghost function State(): Daemon
      requires mapinfo.Length == MAX_CLIENTS
      reads this, ports`nodes, ports.nodes`entry, reqs`nodes, reqs.nodes`entry, mapinfo
    {
      Daemon(ports.Contents(), nextPort, reqs.Contents(), nextReq, mapinfo[..])
    }

    /** Both rings are well formed. */
    ghost predicate Linked()
      reads ports`nodes, ports.head`next, ports.head`prev, ports.nodes`next, ports.nodes`prev,
            reqs`nodes, reqs.head`next, reqs.head`prev, reqs.nodes`next, reqs.nodes`prev
    {
      ports.Valid() && reqs.Valid() && mapinfo.Length == MAX_CLIENTS
    }

    ghost predicate Valid()
      reads this, ports, ports.head, ports.nodes, reqs, reqs.head, reqs.nodes, mapinfo
    {
      Linked() && DaemonOk(State())
    }

    /** Everything a step may write to. */
    ghost function Footprint(): set<object>
      reads ports`nodes, reqs`nodes
    {
      {this, ports, ports.head, reqs, reqs.head, mapinfo}
      + (set n | n in ports.nodes :: n as object) + (set n | n in reqs.nodes :: n as object)
    }

    lemma NodesInFootprint()
      ensures forall j :: 0 <= j < |ports.nodes| ==> ports.nodes[j] as object in Footprint()
      ensures forall j :: 0 <= j < |reqs.nodes| ==> reqs.nodes[j] as object in Footprint()
    {
      forall j | 0 <= j < |ports.nodes| ensures ports.nodes[j] as object in Footprint() {
        assert ports.nodes[j] in ports.nodes;
      }
      forall j | 0 <= j < |reqs.nodes| ensures reqs.nodes[j] as object in Footprint() {
        assert reqs.nodes[j] in reqs.nodes;
      }
    }

    constructor ()
      ensures Valid() && State() == Start()
      ensures fresh(Footprint())
    {
      var addr := Addr(Inet, [], 0);
      ports := new List(MappedPort(0, 0, false, addr, addr, false, 0));
      reqs := new List(MapRequest(0, AckReq, addr, addr, NlRef(0, 0, 0), 0, None, 0, false));
      mapinfo := new nat[MAX_CLIENTS](_ => 0);
      nextPort, nextReq := 0, 0;
      new;
      assert mapinfo[..] == NoCounts();
    }

    // ----- references to port objects

    /** Node `n` is the object claimed by `c`. */
    ghost predicate Claims(c: Claim, n: Node<MappedPort>)
      reads this, ports, ports.head, ports.nodes, n
    {
      && ports.Valid() && ports.Contents() == c.ports && nextPort == c.nextPort && n.entry == c.port
      && (c.at < |c.ports| ==> n == ports.nodes[c.at])
      && (c.at >= |c.ports| ==> n !in ports.nodes && n != ports.head)
    }

    method ClaimExisting(n: Node<MappedPort>, ghost k: nat)
      requires Valid() && k < |ports.nodes| && n == ports.nodes[k]
      modifies n`entry
      ensures Linked() && Claims(ClaimListed(old(State()), k), n)
    {
      ports.SetEntry(n, n.entry.(refCnt := n.entry.refCnt + 1), k);
    }

    method ClaimFresh(e: MappedPort) returns (n: Node<MappedPort>)
      requires Valid()
      modifies this`nextPort
      ensures Linked() && fresh(n) && Claims(ClaimNew(old(State()), e), n)
    {
      n := new Node(e);
      nextPort := nextPort + 1;
    }

    /** `add_iwpm_mapped_port` */
    method CommitClaim(n: Node<MappedPort>, ghost d: Daemon, ghost c: Claim)
      requires DaemonOk(d) && ClaimOk(d, c) && Linked() && Claims(c, n)
      modifies ports`nodes, n`next, n`prev, ports.head`next, ports.head`prev, ports.nodes`prev
      ensures Linked() && ports.Contents() == Commit(d, c).ports
      ensures ports.nodes == old(ports.nodes) || ports.nodes == [n] + old(ports.nodes)
    {
      if n.entry.refCnt > 1 {
        return;
      }
      FirstOf(ports);
      ports.Add(n);
    }

    /** The error exits: drop the reference, free the object if it was the last one. */
    method AbortClaim(n: Node<MappedPort>, ghost d: Daemon, ghost c: Claim) returns (events: seq<Event>)
      requires DaemonOk(d) && ClaimOk(d, c) && Linked() && Claims(c, n)
      modifies n`entry
      ensures Linked() && ports.Contents() == Abort(d, c).d.ports && events == Abort(d, c).out.events
    {
      if n.entry.refCnt == 1 {
        // the object is freed; it was never linked
        events := [Freed(n.entry.id)];
      } else {
        ports.SetEntry(n, n.entry.(refCnt := n.entry.refCnt - 1), c.at);
        events := [];
      }
    }

    // ----- netlink requests

    /** `process_iwpm_add_mapping` */
    method OnAdd(i: Input) returns (out: Out)
      requires Valid() && i.NlAdd?
      modifies this, ports, ports.head, ports.nodes
      ensures Linked() && Result(State(), out) == AddMapping(old(State()), i)
      ensures forall x :: x in ports.nodes ==> x in old(ports.nodes) || fresh(x)
    {
      hide Ring, DaemonOk, Entries;
      ghost var d := State();
      var n, k := FindPort(ports, i.local, Local);
      ghost var c;
      if n != null {
        if !(Same(i.local, n.entry.local) && n.entry.wcard) {
          return QUIET.(notices := [ErrorNotice(i.client, i.nlSeq, DUPLICATE_MAPPING_ERR)]);
        }
        ClaimExisting(n, k);
        c := ClaimListed(d, k);
      } else {
        var e := Create(nextPort, i.client, i.local, i.noMap, i.portEnv);
        if e.None? {
          return QUIET.(notices := [ErrorNotice(i.client, i.nlSeq, CREATE_MAPPING_ERR)]);
        }
        n := ClaimFresh(e.value);
        c := ClaimNew(d, e.value);
      }
      out := FinishAdding(n, i, d, c);
    }

    method FinishAdding(n: Node<MappedPort>, i: Input, ghost d: Daemon, ghost c: Claim) returns (out: Out)
      requires i.NlAdd? && DaemonOk(d) && ClaimOk(d, c) && Linked() && Claims(c, n)
      requires reqs.Contents() == d.reqs && nextReq == d.nextReq && mapinfo[..] == d.mapinfo
      modifies ports, ports.head, ports.nodes, n
      ensures Linked() && Result(State(), out) == FinishAdd(d, c, i)
      ensures forall x :: x in ports.nodes ==> x == n || x in old(ports.nodes)
    {
      hide Ring, DaemonOk, Entries;
      if i.delivered {
        out := QUIET.(events := [Kept(n.entry.id)],
                      notices := [AddReply(i.client, i.nlSeq, n.entry.local, n.entry.mapped)]);
        CommitClaim(n, d, c);
      } else {
        var events := AbortClaim(n, d, c);
        out := QUIET.(events := events);
      }
    }

    /** `add_iwpm_map_request` */
    method Post(r: MapRequest)
      requires Linked()
      modifies this`nextReq, reqs`nodes, reqs.head`next, reqs.head`prev, reqs.nodes`prev
      ensures Linked() && reqs.Contents() == [r] + old(reqs.Contents()) && nextReq == old(nextReq) + 1
      ensures forall x :: x in reqs.nodes ==> x in old(reqs.nodes) || fresh(x)
    {
      hide Ring;
      var n := new Node(r);
      FirstOf(reqs);
      reqs.Add(n);
      nextReq := nextReq + 1;
    }

    /** The timer thread gets the lock `n` times. */
    method Pause(n: nat) returns (resent: seq<(nat, Datagram)>)
      requires Linked()
      modifies reqs, reqs.head, reqs.nodes
      ensures Linked() && State() == old(State()).(reqs := Sweeps(old(State()).reqs, n))
      ensures resent == ResentIn(old(State()).reqs, n)
      ensures forall j :: 0 <= j < |reqs.nodes| ==> reqs.nodes[j] in old(reqs.nodes)
    {
      hide Ring, Entries, Sweeps, ResentIn;
      resent := SweepTimes(reqs, n);
    }

    /** `process_iwpm_query_mapping` */
    method OnQuery(i: Input) returns (out: Out)
      requires Valid() && i.NlQuery?
      modifies this, ports, ports.head, ports.nodes, reqs, reqs.head, reqs.nodes
      ensures Linked() && Result(State(), out) == Interrupted(old(State()), QueryMapping(old(State()), i), i.env.sweeps)
      ensures forall x :: x in ports.nodes ==> x in old(ports.nodes) || fresh(x)
      ensures forall x :: x in reqs.nodes ==> x in old(reqs.nodes) || fresh(x)
    {
      hide Ring, DaemonOk, ClaimOk, Entries, Interrupted, Sweeps, ResentIn, FinishQuery, Create, FindMapping;
      ghost var d := State();
      var n, k := FindPort(ports, i.local, Local);
      ghost var c;
      if n != null {
        ListedIsClaimable(d, k);
        ClaimExisting(n, k);
        c := ClaimListed(d, k);
      } else {
        var e := Create(nextPort, i.client, i.local, i.noMap, i.portEnv);
        if e.None? {
          InterruptedQuiet(d, QueryMapping(d, i), i.env.sweeps);
          var resent := Pause(i.env.sweeps);
          return QUIET.(notices := [ErrorNotice(i.client, i.nl.nlSeq, CREATE_MAPPING_ERR)], resent := resent);
        }
        CreatedIsClaimable(d, i.client, i.local, i.noMap, i.portEnv);
        n := ClaimFresh(e.value);
        c := ClaimNew(d, e.value);
      }
      out := FinishQuerying(n, i, d, c);
    }

    method FinishQuerying(n: Node<MappedPort>, i: Input, ghost d: Daemon, ghost c: Claim) returns (out: Out)
      requires i.NlQuery? && DaemonOk(d) && ClaimOk(d, c) && Linked() && Claims(c, n)
      requires reqs.Contents() == d.reqs && nextReq == d.nextReq && mapinfo[..] == d.mapinfo
      modifies this`nextReq, ports, ports.head, ports.nodes, n, reqs, reqs.head, reqs.nodes
      ensures Linked() && Result(State(), out) == Interrupted(d, FinishQuery(d, c, i), i.env.sweeps)
      ensures forall x :: x in ports.nodes ==> x == n || x in old(ports.nodes)
      ensures forall x :: x in reqs.nodes ==> x in old(reqs.nodes) || fresh(x)
    {
      hide Ring, DaemonOk, ClaimOk, Entries, Interrupted, Sweeps, ResentIn;
      if n.entry.wcard || !Internet(i.remote.family) || !i.env.buffer || i.env.address.None? {
        out := GiveUpQuery(n, i, d, c);
        return;
      }
      InterruptedFiling(d, FinishQuery(d, c, i), QueryRequest(d, c.port, i), d.reqs, i.env.sweeps);
      out := FileQuery(n, i, d, c);
    }

    method GiveUpQuery(n: Node<MappedPort>, i: Input, ghost d: Daemon, ghost c: Claim) returns (out: Out)
      requires i.NlQuery? && DaemonOk(d) && ClaimOk(d, c) && Linked() && Claims(c, n)
      requires n.entry.wcard || !Internet(i.remote.family) || !i.env.buffer || i.env.address.None?
      requires reqs.Contents() == d.reqs && nextReq == d.nextReq && mapinfo[..] == d.mapinfo
      modifies n`entry, reqs, reqs.head, reqs.nodes
      ensures Linked() && Result(State(), out) == Interrupted(d, FinishQuery(d, c, i), i.env.sweeps)
      ensures forall j :: 0 <= j < |reqs.nodes| ==> reqs.nodes[j] in old(reqs.nodes)
    {
      hide Ring, DaemonOk, ClaimOk, Entries, Interrupted, Sweeps, ResentIn;
      out := QUIET;
      if n.entry.wcard {
        out := QUIET.(notices := [ErrorNotice(i.client, i.nl.nlSeq, CREATE_MAPPING_ERR)]);
      }
      InterruptedQuiet(d, FinishQuery(d, c, i), i.env.sweeps);
      var events := AbortClaim(n, d, c);
      var resent := Pause(i.env.sweeps);
      out := out.(events := events, resent := resent);
    }

    method FileQuery(n: Node<MappedPort>, i: Input, ghost d: Daemon, ghost c: Claim) returns (out: Out)
      requires i.NlQuery? && i.env.address.Some? && DaemonOk(d) && ClaimOk(d, c) && Linked() && Claims(c, n)
      requires reqs.Contents() == d.reqs && nextReq == d.nextReq
      modifies this`nextReq, ports, ports.head, ports.nodes, n, reqs, reqs.head, reqs.nodes
      ensures Linked() && ports.Contents() == Commit(d, c).ports
      ensures reqs.Contents() == [QueryRequest(d, c.port, i)] + Sweeps(d.reqs, i.env.sweeps)
      ensures nextReq == d.nextReq + 1 && out.resent == ResentIn(d.reqs, i.env.sweeps)
      ensures out.sent == if i.env.queued then [QueryRequest(d, c.port, i).resend.value] else []
      ensures out == QUIET.(events := [Kept(c.port.id)], sent := out.sent, resent := out.resent)
      ensures forall x :: x in ports.nodes ==> x == n || x in old(ports.nodes)
      ensures forall x :: x in reqs.nodes ==> x in old(reqs.nodes) || fresh(x)
    {
      hide Ring, DaemonOk, ClaimOk, Entries, Sweeps, ResentIn, Commit;
      var dgram := Datagram(PmAddress(i.remote), QueryMsg(i, i.env.address.value, n.entry.mapped));
      var r := NewRequest(nextReq, QueryReq, n.entry.local, i.remote, i.nl, 0, i.env.address.value, Some(dgram));
      out := QUIET.(events := [Kept(n.entry.id)], sent := if i.env.queued then [dgram] else []);
      var resent := PauseAndPost(r, i.env.sweeps);
      out := out.(resent := resent);
      CommitClaim(n, d, c);
    }

    /** Lets the timer thread go first `n` times, then files a request. */
    method PauseAndPost(r: MapRequest, n: nat) returns (resent: seq<(nat, Datagram)>)
      requires Linked()
      modifies this`nextReq, reqs, reqs.head, reqs.nodes
      ensures Linked() && reqs.Contents() == [r] + Sweeps(old(reqs.Contents()), n) && nextReq == old(nextReq) + 1
      ensures resent == ResentIn(old(reqs.Contents()), n)
      ensures forall x :: x in reqs.nodes ==> x in old(reqs.nodes) || fresh(x)
    {
      hide Ring, Entries, Sweeps, ResentIn;
      resent := Pause(n);
      Post(r);
    }

    /** `process_iwpm_remove_mapping` */
    method OnRemove(i: Input) returns (out: Out)
      requires Valid() && i.NlRemove?
      modifies ports, ports.head, ports.nodes
      ensures Linked() && Result(State(), out) == RemoveMapping(old(State()), i)
      ensures forall x :: x in ports.nodes ==> x in old(ports.nodes)
    {
      hide Ring, DaemonOk, Entries, FindSame, Without;
      var n, k := FindSamePort(ports, i.local, Local);
      if n == null || n.entry.owner != i.client {
        return QUIET;
      }
      var events := DropReference(n, k);
      out := QUIET.(events := events);
    }

    method DropReference(n: Node<MappedPort>, ghost k: nat) returns (events: seq<Event>)
      requires Linked() && k < |ports.nodes| && n == ports.nodes[k]
      modifies ports, ports.head, ports.nodes
      ensures Linked()
      ensures forall x :: x in ports.nodes ==> x in old(ports.nodes)
      ensures var t, e := old(ports.Contents()), old(n.entry);
              && ports.Contents() == (if e.refCnt == 1 then Without(t, k) else t[k := e.(refCnt := e.refCnt - 1)])
              && events == if e.refCnt == 1 then [Dropped(e.id), Freed(e.id)] else [Dropped(e.id)]
    {
      var id := n.entry.id;
      if n.entry.refCnt == 1 {
        NeighboursOf(ports, k);
        hide Ring;
        ports.Remove(n, k);
        events := [Dropped(id), Freed(id)];
      } else {
        hide Ring;
        ports.SetEntry(n, n.entry.(refCnt := n.entry.refCnt - 1), k);
        events := [Dropped(id)];
      }
    }

    /** `process_iwpm_mapinfo` */
    method OnMapinfo(i: Input) returns (out: Out)
      requires Valid() && i.NlMapinfo?
      modifies this, ports, ports.head, ports.nodes, mapinfo
      ensures Linked() && Result(State(), out) == Mapinfo(old(State()), i)
      ensures forall x :: x in ports.nodes ==> x in old(ports.nodes) || fresh(x)
    {
      hide Ring, DaemonOk, Entries;
      ghost var d := State();
      var n, k := FindPort(ports, i.local, Local);
      out := QUIET;
      if n != null {
        if !(Same(n.entry.local, i.local) && Same(n.entry.mapped, i.mapped)) {
          return QUIET.(notices := [ErrorNotice(i.client, i.nlSeq, DUPLICATE_MAPPING_ERR)]);
        }
      } else {
        var e := Reopen(nextPort, i.client, i.local, i.mapped, i.noMap, i.portEnv);
        if e.None? {
          return QUIET.(notices := [ErrorNotice(i.client, i.nlSeq, CREATE_MAPPING_ERR)]);
        }
        LinkNew(e.value);
        out := QUIET.(events := [Kept(e.value.id)]);
      }
      CountMapinfo(i.client);
    }

    method CountMapinfo(client: Client)
      requires Linked()
      modifies mapinfo
      ensures Linked() && State() == Counted(old(State()), client)
    {
      hide Ring;
      mapinfo[client] := mapinfo[client] + 1;
    }

    method LinkNew(e: MappedPort)
      requires Valid() && ClaimOk(State(), ClaimNew(State(), e))
      modifies this, ports, ports.head, ports.nodes
      ensures Linked() && State() == Commit(old(State()), ClaimNew(old(State()), e))
      ensures forall x :: x in ports.nodes ==> x in old(ports.nodes) || fresh(x)
    {
      hide Ring, DaemonOk, Entries;
      ghost var d := State();
      var n := ClaimFresh(e);
      CommitClaim(n, d, ClaimNew(d, e));
    }

    // ----- wire messages

    method Lookup(a: Addr, key: Key) returns (e: Option<MappedPort>, ghost k: nat)
      requires Linked()
      ensures k == FindMapping(State().ports, a, key)
      ensures FindMapping(State().ports, a, key) == |State().ports| ==> e == None
      ensures FindMapping(State().ports, a, key) < |State().ports| ==>
                e == Some(State().ports[FindMapping(State().ports, a, key)])
    {
      var n;
      n, k := FindPort(ports, a, key);
      e := if n == null then None else Some(n.entry);
    }

    method LookupSame(a: Addr, key: Key) returns (e: Option<MappedPort>, ghost k: nat)
      requires Linked()
      ensures k == FindSame(State().ports, a, key)
      ensures FindSame(State().ports, a, key) == |State().ports| ==> e == None
      ensures FindSame(State().ports, a, key) < |State().ports| ==>
                e == Some(State().ports[FindSame(State().ports, a, key)])
    {
      var n;
      n, k := FindSamePort(ports, a, key);
      e := if n == null then None else Some(n.entry);
    }

    method Service(handle: bv64, src: Addr, kinds: set<Kind>, update: bool)
      returns (copy: Option<MapRequest>, ghost k: nat)
      requires Linked()
      modifies reqs.nodes`entry
      ensures Linked() && k == FindRequest(old(State()).reqs, handle, src, kinds)
      ensures copy == if k < |old(State()).reqs| then Some(old(State()).reqs[k]) else None
      ensures State() == if copy.Some? && update
                         then old(State()).(reqs := old(State()).reqs[k := Serviced(copy.value)])
                         else old(State())
    {
      hide Ring, Serviced;
      copy, k := UpdateRequest(reqs, handle, src, kinds, update);
    }

    /** Searches or updates the request list, then lets the timer thread go first `n` times. */
    method ServiceAndPause(handle: bv64, src: Addr, kinds: set<Kind>, update: bool, n: nat)
      returns (copy: Option<MapRequest>, resent: seq<(nat, Datagram)>, ghost k: nat)
      requires Linked()
      modifies reqs, reqs.head, reqs.nodes
      ensures Linked() && k == FindRequest(old(State()).reqs, handle, src, kinds)
      ensures copy == if k < |old(State()).reqs| then Some(old(State()).reqs[k]) else None
      ensures var q := old(State()).reqs;
              var u := if copy.Some? && update then q[k := Serviced(copy.value)] else q;
              State() == old(State()).(reqs := Sweeps(u, n)) && resent == ResentIn(u, n)
      ensures forall j :: 0 <= j < |reqs.nodes| ==> reqs.nodes[j] in old(reqs.nodes)
    {
      hide Ring, Entries, Serviced, Sweeps, ResentIn, FindRequest;
      copy, k := Service(handle, src, kinds, update);
      resent := Pause(n);
    }

    method File(r: MapRequest)
      requires Linked()
      modifies this`nextReq, reqs, reqs.head, reqs.nodes
      ensures Linked() && State() == old(State()).(reqs := [r] + old(State()).reqs, nextReq := old(nextReq) + 1)
      ensures forall x :: x in reqs.nodes ==> x in old(reqs.nodes) || fresh(x)
    {
      hide Ring;
      Post(r);
    }

    /** `process_iwpm_wire_request` */
    method OnRequest(from: Addr, m: Msg, env: WireEnv) returns (out: Out)
      requires Valid() && m.Req?
      modifies this`nextReq, reqs, reqs.head, reqs.nodes
      ensures Linked()
      ensures Result(State(), out) == Interrupted(old(State()), WireRequest(old(State()), from, m, env), env.sweeps)
      ensures forall x :: x in reqs.nodes ==> x in old(reqs.nodes) || fresh(x)
    {
      hide DaemonOk, FindMapping, FindRequest, MappedFor, Ring, Entries, Interrupted, Sweeps, ResentIn;
      var found, k := Lookup(m.ap, Local);
      ghost var d := State();
      if found.None? {
        InterruptedQuiet(d, WireRequest(d, from, m, env), env.sweeps);
        var resent := Pause(env.sweeps);
        return QUIET.(sent := if env.queued then [Datagram(from, Rej(m.handle, m.ap, m.cp))] else [], resent := resent);
      }
      var e := found.value;
      var mapped := MappedFor(e, m.ap, env.alienMapped);
      var copy, resent, j := ServiceAndPause(m.handle, mapped, {AcceptReq}, false, env.sweeps);
      if copy.Some? || !env.buffer || env.address.None? {
        InterruptedQuiet(d, WireRequest(d, from, m, env), env.sweeps);
        return QUIET.(resent := resent);
      }
      InterruptedFiling(d, WireRequest(d, from, m, env),
                        AcceptRequest(d, from, m, mapped, env.address.value), d.reqs, env.sweeps);
      var dgram := Datagram(from, Acc(m.handle, mapped, m.cp));
      File(NewRequest(nextReq, AcceptReq, mapped, m.cp, NlRef(0, 0, 0), m.handle, env.address.value, Some(dgram)));
      out := QUIET.(resent := resent);
      if env.queued {
        out := out.(sent := [dgram]);
        if env.delivered {
          out := out.(notices := [RemoteInfo(e.owner, e.local, m.cp, e.mapped, m.mappedCp)]);
        }
      }
    }

    /** `process_iwpm_wire_accept` */
    method OnAccept(from: Addr, m: Msg, env: WireEnv) returns (out: Out)
      requires Valid() && m.Acc?
      modifies this`nextReq, reqs, reqs.head, reqs.nodes
      ensures Linked()
      ensures Result(State(), out) == Interrupted(old(State()), WireAccept(old(State()), from, m, env), env.sweeps)
      ensures forall x :: x in reqs.nodes ==> x in old(reqs.nodes) || fresh(x)
    {
      hide DaemonOk, FindSame, FindRequest, Serviced, Ring, Entries, Interrupted, Sweeps, ResentIn;
      ghost var d := State();
      var found, k := LookupSame(m.cp, Local);
      if found.None? {
        InterruptedQuiet(d, WireAccept(d, from, m, env), env.sweeps);
        var resent := Pause(env.sweeps);
        return QUIET.(resent := resent);
      }
      var e := found.value;
      var copy, resent, j := ServiceAndPause(m.handle, e.local, {QueryReq, AckReq}, true, env.sweeps);
      out := QUIET.(resent := resent);
      if copy.None? || copy.value.complete {
        InterruptedQuiet(d, WireAccept(d, from, m, env), env.sweeps);
        return;
      }
      var r := copy.value;
      if r.kind == AckReq || !env.delivered || env.address.None? {
        InterruptedQuiet(d, WireAccept(d, from, m, env), env.sweeps);
      } else {
        InterruptedFiling(d, WireAccept(d, from, m, env), AckRequest(d, r, env.address.value),
                          d.reqs[j := Serviced(r)], env.sweeps);
      }
      if r.kind != AckReq {
        if !env.delivered {
          return;
        }
        out := out.(notices := [ConnInfo(r.id, e.owner, r.nl, e.local, r.remote, e.mapped, m.ap, 0)]);
        if env.address.None? {
          return;
        }
        File(NewRequest(nextReq, AckReq, r.src, r.remote, NlRef(0, 0, 0), r.handle, env.address.value, None));
      }
      out := out.(sent := AckTo(from, m, env));
    }

    /** `process_iwpm_wire_reject` */
    method OnReject(m: Msg, env: WireEnv) returns (out: Out)
      requires Valid() && m.Rej?
      modifies reqs, reqs.head, reqs.nodes
      ensures Linked()
      ensures Result(State(), out) == Interrupted(old(State()), WireReject(old(State()), m, env), env.sweeps)
      ensures forall j :: 0 <= j < |reqs.nodes| ==> reqs.nodes[j] in old(reqs.nodes)
    {
      hide DaemonOk, FindSame, FindRequest, Serviced, Ring, Entries, Interrupted, Sweeps, ResentIn;
      ghost var d := State();
      InterruptedQuiet(d, WireReject(d, m, env), env.sweeps);
      var found, k := LookupSame(m.cp, Local);
      if found.None? {
        var resent := Pause(env.sweeps);
        return QUIET.(resent := resent);
      }
      var e := found.value;
      var copy, resent, j := ServiceAndPause(m.handle, e.local, {QueryReq}, true, env.sweeps);
      if copy.None? || copy.value.complete || !env.delivered {
        return QUIET.(resent := resent);
      }
      var r := copy.value;
      out := QUIET.(resent := resent, notices :=
        [ConnInfo(r.id, e.owner, r.nl, e.local, r.remote, e.mapped, r.remote, REMOTE_QUERY_REJECT)]);
    }

    /** `process_iwpm_wire_ack` */
    method OnAck(m: Msg, sweeps: nat) returns (out: Out)
      requires Valid() && m.Ack?
      modifies reqs, reqs.head, reqs.nodes
      ensures Linked() && Result(State(), out) == Interrupted(old(State()), WireAck(old(State()), m), sweeps)
      ensures forall j :: 0 <= j < |reqs.nodes| ==> reqs.nodes[j] in old(reqs.nodes)
    {
      hide DaemonOk, FindMapping, FindRequest, Serviced, Ring, Entries, Interrupted, Sweeps, ResentIn;
      ghost var d := State();
      InterruptedQuiet(d, WireAck(d, m), sweeps);
      var found, k := Lookup(m.ap, Mapped);
      if found.Some? {
        var copy, j := Service(m.handle, m.ap, {AcceptReq}, true);
      }
      var resent := Pause(sweeps);
      out := QUIET.(resent := resent);
    }

    /** One pass of `iwpm_mapping_reqs_handler` */
    method OnTick() returns (out: Out)
      requires Valid()
      modifies reqs, reqs.head, reqs.nodes
      ensures Linked() && Result(State(), out) == Interrupted(old(State()), Result(old(State()), QUIET), 1)
      ensures forall j :: 0 <= j < |reqs.nodes| ==> reqs.nodes[j] in old(reqs.nodes)
    {
      hide Ring, DaemonOk, Entries, Interrupted, Sweeps, ResentIn;
      InterruptedQuiet(State(), Result(State(), QUIET), 1);
      var resent := Pause(1);
      out := QUIET.(resent := resent);
    }

    method OnWireMsg(i: Input) returns (out: Out)
      requires Valid() && i.Wire?
      modifies this`nextReq, reqs, reqs.head, reqs.nodes
      ensures Linked()
      ensures Result(State(), out) == Interrupted(old(State()), OnWire(old(State()), i.from, i.msg, i.env), i.env.sweeps)
      ensures forall x :: x in reqs.nodes ==> x in old(reqs.nodes) || fresh(x)
    {
      hide Ring, DaemonOk, Entries, WireRequest, WireAccept, WireReject, WireAck, Interrupted;
      match i.msg
      case Req(_, _, _, _) => out := OnRequest(i.from, i.msg, i.env);
      case Acc(_, _, _) => out := OnAccept(i.from, i.msg, i.env);
      case Rej(_, _, _) => out := OnReject(i.msg, i.env);
      case Ack(_, _, _) => out := OnAck(i.msg, i.env.sweeps);
    }

    method Dispatch(i: Input) returns (out: Out)
      requires Valid()
      modifies this, ports, ports.head, ports.nodes, reqs, reqs.head, reqs.nodes, mapinfo
      ensures Linked() && Result(State(), out) == Step(old(State()), i)
      ensures forall x :: x in ports.nodes ==> x in old(ports.nodes) || fresh(x)
      ensures forall x :: x in reqs.nodes ==> x in old(reqs.nodes) || fresh(x)
    {
      hide Ring, DaemonOk, Entries, AddMapping, QueryMapping, RemoveMapping, Mapinfo, OnWire;
      hide Interrupted, Sweeps, ResentIn;
      UninterruptedIsHandler(State(), i);
      match i
      case NlAdd(_, _, _, _, _, _) => out := OnAdd(i);
      case NlQuery(_, _, _, _, _, _, _) => out := OnQuery(i);
      case NlRemove(_, _) => out := OnRemove(i);
      case NlMapinfo(_, _, _, _, _, _) => out := OnMapinfo(i);
      case Wire(_, _, _) => out := OnWireMsg(i);
      case Tick => out := OnTick();
    }

    /** The object refines the transition function: one input, one `Step`. */
    method Handle(i: Input) returns (out: Out)
      requires Valid()
      modifies Footprint()
      ensures Valid() && Result(State(), out) == Step(old(State()), i)
      ensures fresh(Footprint() - old(Footprint()))
    {
      hide Ring, DaemonOk, Entries, Step;
      StepKeeps(State(), i);
      NodesInFootprint();
      out := Dispatch(i);
    }

    /** A whole run: the object passes through the states of the run and puts out what it puts out. */
    method Run(ins: seq<Input>) returns (outs: seq<Out>)
      requires Valid() && State() == Start()
      modifies Footprint()
      ensures fresh(Footprint() - old(Footprint()))
      ensures Valid() && State() == StateAt(ins, |ins|)
      ensures |outs| == |ins| && forall n :: 0 <= n < |ins| ==> outs[n] == OutAt(ins, n)
    {
      hide Ring, DaemonOk, Entries, Step;
      outs := [];
      for m := 0 to |ins|
        invariant Valid() && State() == StateAt(ins, m)
        invariant |outs| == m && forall n :: 0 <= n < m ==> outs[n] == OutAt(ins, n)
        invariant fresh(Footprint() - old(Footprint()))
      {
        ghost var before := Footprint();
        var out := Handle(ins[m]);
        outs := outs + [out];
        assert Footprint() - old(Footprint()) <= (Footprint() - before) + (before - old(Footprint()));
      }
    }
  }

  /** A daemon from its start on: every run of `Step` is a run of the object, and the other way round. */
  method RunDaemon(ins: seq<Input>) returns (d: PortMapperDaemon, outs: seq<Out>)
    ensures fresh(d.Footprint()) && d.Valid() && d.State() == StateAt(ins, |ins|)
    ensures |outs| == |ins| && forall n :: 0 <= n < |ins| ==> outs[n] == OutAt(ins, n)
  {
    hide Ring, DaemonOk, Entries, Step, StateAt, OutAt;
    d := new PortMapperDaemon();
    outs := d.Run(ins);
  }
}
