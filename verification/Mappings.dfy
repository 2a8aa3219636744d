/** What clients are told about mappings, and how long it holds. */
module Mappings {
  import opened Basics
  import opened Sockaddr
  import opened PortTable
  import opened MapRequests
  import opened PortMapper
  import opened DaemonRuns

  /** A port object can be had: there is memory, and unless the port is to be kept, a TCP port of
      an Internet family. */
  predicate Obtainable(f: Family, noMap: bool, env: PortEnv) {
    env.alloc && (noMap || (Internet(f) && env.bind.Some?))
  }

  /** Some entry answers the address. */
  predicate Taken(t: seq<MappedPort>, a: Addr) {
    exists k :: 0 <= k < |t| && Hit(t[k], a, Local)
  }

  predicate Maps(t: seq<MappedPort>, local: Addr, mapped: Addr) {
    exists k :: 0 <= k < |t| && t[k].local == local && t[k].mapped == mapped
  }

  /** The wildcard address itself is mapped already. */
  predicate SharedWildcard(t: seq<MappedPort>, a: Addr) {
    IsWild(a) && exists k :: 0 <= k < |t| && t[k].local == a
  }

  /** Entry `e` is what input `i` asks to be mapped: the local address with the port that was
      bound, the local address itself when it is not to be mapped, or the address recalled. */
  predicate NewFor(i: Input, e: MappedPort) {
    && (i.NlAdd? || i.NlQuery? || i.NlMapinfo?)
    && Obtainable(i.local.family, i.noMap, i.portEnv)
    && e.owner == i.client && e.local == i.local && e.bound == !i.noMap
    && e.wcard == IsWild(i.local) && e.refCnt == 1
    && (i.noMap ==> e.mapped == if i.NlMapinfo? then i.mapped else i.local)
    && (!i.noMap && !i.NlMapinfo? ==> e.mapped == i.local.(port := i.portEnv.bind.value))
    && (!i.noMap && i.NlMapinfo? ==>
          && e.mapped == i.mapped.(port := e.mapped.port)
          && e.mapped.port == if i.mapped.port != 0 then i.mapped.port else i.portEnv.bind.value)
  }

  // ----- what one input does to the table

  datatype Change = Unchanged | Recounted(at: nat, more: int) | Linked(e: MappedPort) | Unlinked(at: nat)

  function Changed(t: seq<MappedPort>, c: Change): seq<MappedPort>
    requires c.Recounted? || c.Unlinked? ==> c.at < |t|
  {
    match c
    case Unchanged => t
    case Recounted(k, n) => t[k := t[k].(refCnt := t[k].refCnt + n)]
    case Linked(e) => [e] + t
    case Unlinked(k) => Without(t, k)
  }

  /** The owner of entry `e` asks for its removal. */
  predicate Removes(i: Input, e: MappedPort) {
    i.NlRemove? && i.client == e.owner && Same(i.local, e.local)
  }

  /** An entry is counted once more for an add of the same wildcard or a query it answers, linked
      for an address nothing answers, counted down or unlinked for its owner's removal. */
  predicate ChangedBy(d: Daemon, i: Input, c: Change) {
    match c
    case Unchanged => true
    case Recounted(k, n) =>
      && k < |d.ports|
      && ((n == 1 && i.NlAdd? && IsWild(i.local) && d.ports[k].local == i.local)
          || (n == 1 && i.NlQuery? && Hit(d.ports[k], i.local, Local) && !d.ports[k].wcard)
          || (n == -1 && Removes(i, d.ports[k]) && d.ports[k].refCnt > 1))
    case Linked(e) => NewFor(i, e) && e.id == d.nextPort && !Taken(d.ports, i.local)
    case Unlinked(k) => k < |d.ports| && Removes(i, d.ports[k]) && d.ports[k].refCnt == 1
  }

  /** A wildcard entry is the only answer to its own address. */
  lemma WildcardIsFirst(t: seq<MappedPort>, a: Addr, k: nat)
    requires TableOk(t) && IsWild(a) && k < |t| && t[k].local == a
    ensures FindMapping(t, a, Local) == k
  {
    assert Hit(t[k], a, Local) && EntryOk(t[k]);
    forall j | 0 <= j < |t| ensures Hit(t[j], a, Local) ==> j == k {
      assert j < k ==> Compatible(t[j], t[k]);
      assert k < j ==> Compatible(t[k], t[j]);
    }
  }

  lemma FoundIffTaken(t: seq<MappedPort>, a: Addr)
    ensures FindMapping(t, a, Local) < |t| <==> Taken(t, a)
  {
  }

  /** What an add or a query makes of its claim. */
  lemma ClaimSettles(d: Daemon, c: Claim)
    requires DaemonOk(d) && ClaimOk(d, c)
    ensures Abort(d, c).d.ports == d.ports && c.at <= |d.ports|
    ensures c.at < |d.ports| ==> Commit(d, c).ports == Changed(d.ports, Recounted(c.at, 1))
    ensures c.at == |d.ports| ==> Commit(d, c).ports == Changed(d.ports, Linked(c.port))
  {
    AbortRestores(d, c);
    if c.at < |d.ports| {
      assert EntryOk(d.ports[c.at]);
    }
  }

  lemma CreatedFor(d: Daemon, i: Input)
    requires DaemonOk(d) && (i.NlAdd? || i.NlQuery?)
    ensures var e := Create(d.nextPort, i.client, i.local, i.noMap, i.portEnv);
            && (e.Some? <==> Obtainable(i.local.family, i.noMap, i.portEnv))
            && (e.Some? ==> NewFor(i, e.value) && e.value.id == d.nextPort)
            && (e.Some? ==> e.value.local == i.local && e.value.wcard == IsWild(i.local))
            && (e.Some? && !Taken(d.ports, i.local) ==> ClaimOk(d, ClaimNew(d, e.value)))
  {
    hide DaemonOk, Hit;
    FoundIffTaken(d.ports, i.local);
  }

  lemma ReopenedFor(d: Daemon, i: Input)
    requires i.NlMapinfo?
    ensures var e := Reopen(d.nextPort, i.client, i.local, i.mapped, i.noMap, i.portEnv);
            && (e.Some? <==> i.local.family == i.mapped.family && Obtainable(i.local.family, i.noMap, i.portEnv))
            && (e.Some? ==> NewFor(i, e.value) && e.value.id == d.nextPort)
  {
  }

  // ----- adding a mapping

  /** The reply to an add: exactly the address asked for, with its mapping in the table. */
  predicate AddGranted(d: Daemon, i: Input)
    requires i.NlAdd?
  {
    var r := Step(d, i);
    && |r.out.notices| == 1 && r.out.notices[0].AddReply?
    && r.out.notices[0].client == i.client && r.out.notices[0].nlSeq == i.nlSeq
    && r.out.notices[0].local == i.local && Maps(r.d.ports, i.local, r.out.notices[0].mapped)
  }

  predicate Refused(d: Daemon, i: Input, client: Client, nlSeq: bv32, code: nat) {
    Step(d, i).out.notices == [ErrorNotice(client, nlSeq, code)] && Step(d, i).d.ports == d.ports
  }

  lemma FinishAddSettles(d: Daemon, c: Claim, i: Input)
    requires DaemonOk(d) && ClaimOk(d, c) && i.NlAdd?
    ensures var r := FinishAdd(d, c, i);
            && r.out.sent == []
            && (!i.delivered ==> r.d.ports == d.ports && r.out.notices == [])
            && (i.delivered ==> r.out.notices == [AddReply(i.client, i.nlSeq, c.port.local, c.port.mapped)])
            && (i.delivered && c.at < |d.ports| ==> r.d.ports == Changed(d.ports, Recounted(c.at, 1)))
            && (i.delivered && c.at == |d.ports| ==> r.d.ports == Changed(d.ports, Linked(c.port)))
  {
    hide DaemonOk, ClaimOk, Commit;
    ClaimSettles(d, c);
  }

  /** How an add ends: it is granted for a wildcard that is mapped already and for an address that
      nothing answers and a port can be had for, and then only if the reply reaches the client;
      it is refused as a duplicate or for want of a port; and it sends nothing to any peer. */
  lemma AddOutcome(d: Daemon, i: Input) returns (c: Change)
    requires DaemonOk(d) && i.NlAdd?
    ensures var again, port := SharedWildcard(d.ports, i.local), Obtainable(i.local.family, i.noMap, i.portEnv);
            && Step(d, i).out.sent == []
            && (Taken(d.ports, i.local) && !again ==> Refused(d, i, i.client, i.nlSeq, 12))
            && (!Taken(d.ports, i.local) && !port ==> Refused(d, i, i.client, i.nlSeq, 11))
            && (again || (!Taken(d.ports, i.local) && port) ==>
                  if i.delivered then AddGranted(d, i)
                  else Step(d, i).out.notices == [] && Step(d, i).d.ports == d.ports)
    ensures ChangedBy(d, i, c) && Step(d, i).d.ports == Changed(d.ports, c)
    ensures AddGranted(d, i) <==> c != Unchanged
    ensures c != Unchanged ==>
              Step(d, i).out.notices[0].mapped == if c.Linked? then c.e.mapped else d.ports[c.at].mapped
  {
    hide Step, Handler, FindMapping, FinishAdd, Create, Obtainable, NewFor, ClaimOk, Hit;
    UninterruptedIsHandler(d, i);
    HandlerIs(d, i);
    FoundIffTaken(d.ports, i.local);
    CreatedFor(d, i);
    c := Unchanged;
    var k := FindMapping(d.ports, i.local, Local);
    var e := Create(d.nextPort, i.client, i.local, i.noMap, i.portEnv);
    if SharedWildcard(d.ports, i.local) {
      var w :| 0 <= w < |d.ports| && d.ports[w].local == i.local;
      WildcardIsFirst(d.ports, i.local, w);
    }
    if k < |d.ports| {
      assert EntryOk(d.ports[k]);
      if SharedWildcard(d.ports, i.local) {
        ListedClaim(d, k);
        FinishAddSettles(d, ClaimListed(d, k), i);
        if i.delivered {
          c := Recounted(k, 1);
          assert Step(d, i).d.ports[k].local == i.local;
        }
      }
    } else if e.Some? {
      FinishAddSettles(d, ClaimNew(d, e.value), i);
      if i.delivered {
        c := Linked(e.value);
        assert Step(d, i).d.ports[0] == e.value;
      }
    }
  }

  lemma ListedClaim(d: Daemon, k: nat)
    requires k < |d.ports|
    ensures ClaimOk(d, ClaimListed(d, k))
  {
  }

  // ----- mapping for a query

  /** The entry that answers the local address of a query, or the one to be created for it, is a
      wildcard. */
  predicate WildcardQuery(d: Daemon, i: Input)
    requires i.NlQuery?
  {
    var k := FindMapping(d.ports, i.local, Local);
    if k < |d.ports| then d.ports[k].wcard else IsWild(i.local)
  }

  /** The local address of a query can be mapped. */
  predicate Mappable(d: Daemon, i: Input)
    requires i.NlQuery?
  {
    !WildcardQuery(d, i) && (Taken(d.ports, i.local) || Obtainable(i.local.family, i.noMap, i.portEnv))
  }

  /** A query is filed if its local address can be mapped, the remote one is an Internet address
      and message and request object can be had. */
  predicate Files(d: Daemon, i: Input)
    requires i.NlQuery?
  {
    Mappable(d, i) && Internet(i.remote.family) && i.env.buffer && i.env.address.Some?
  }

  /** Request `r` is query `i` as it is filed, under the local address of an entry of `t`. */
  predicate FiledFor(t: seq<MappedPort>, i: Input, r: MapRequest) {
    && i.NlQuery? && i.env.address.Some?
    && r.kind == QueryReq && r.remote == i.remote && r.nl == i.nl && r.handle == i.env.address.value
    && r.timeout == REQ_TIMEOUT && !r.complete
    && r.resend.Some? && r.resend.value.to == i.remote.(port := 3935) && r.resend.value.msg.Req?
    && r.resend.value.msg.handle == r.handle
    && exists k :: 0 <= k < |t| && t[k].local == r.src && (t[k].local == i.local || Hit(t[k], i.local, Local))
  }

  lemma FinishQuerySettles(d: Daemon, c: Claim, i: Input)
    requires DaemonOk(d) && ClaimOk(d, c) && i.NlQuery?
    ensures var r := FinishQuery(d, c, i);
            var ok := !c.port.wcard && Internet(i.remote.family) && i.env.buffer && i.env.address.Some?;
            && r.out.resent == []
            && r.out.notices == (if c.port.wcard then [ErrorNotice(i.client, i.nl.nlSeq, CREATE_MAPPING_ERR)] else [])
            && (!ok ==> r.d == d.(nextPort := r.d.nextPort) && r.out.sent == [])
            && (ok ==>
                  && r.d.nextReq == d.nextReq + 1 && r.d.reqs == [QueryRequest(d, c.port, i)] + d.reqs
                  && r.out.sent == (if i.env.queued then [r.d.reqs[0].resend.value] else [])
                  && r.d.ports == Changed(d.ports, if c.at < |d.ports| then Recounted(c.at, 1) else Linked(c.port)))
  {
    hide DaemonOk, ClaimOk, Commit;
    AbortRestores(d, c);
    ClaimSettles(d, c);
  }

  lemma QueryRequestIsFiled(d: Daemon, e: MappedPort, t: seq<MappedPort>, k: nat, i: Input)
    requires i.NlQuery? && i.env.address.Some? && k < |t| && t[k].local == e.local
    requires e.local == i.local || Hit(t[k], i.local, Local)
    ensures FiledFor(t, i, QueryRequest(d, e, i)) && QueryRequest(d, e, i).id == d.nextReq
  {
  }

  /** What the handler of a query does, from the claim it makes. */
  lemma QuerySettles(d: Daemon, i: Input) returns (c: Change)
    requires DaemonOk(d) && i.NlQuery?
    ensures var r := QueryMapping(d, i);
            && r.out.resent == []
            && r.out.notices == (if Mappable(d, i) then [] else [ErrorNotice(i.client, i.nl.nlSeq, CREATE_MAPPING_ERR)])
            && (!Files(d, i) ==> r.d == d.(nextPort := r.d.nextPort) && r.out.sent == [] && c == Unchanged)
            && (Files(d, i) ==>
                  && r.d.nextReq == d.nextReq + 1 && r.d.reqs != [] && r.d.reqs == [r.d.reqs[0]] + d.reqs
                  && r.d.reqs[0].id == d.nextReq && FiledFor(r.d.ports, i, r.d.reqs[0])
                  && r.out.sent == (if i.env.queued then [r.d.reqs[0].resend.value] else []))
            && ChangedBy(d, i, c) && r.d.ports == Changed(d.ports, c)
  {
    hide FindMapping, FinishQuery, Create, Obtainable, NewFor, ClaimOk, Hit, QueryRequest, FiledFor, DaemonOk;
    FoundIffTaken(d.ports, i.local);
    CreatedFor(d, i);
    c := Unchanged;
    var k := FindMapping(d.ports, i.local, Local);
    var e := Create(d.nextPort, i.client, i.local, i.noMap, i.portEnv);
    if k < |d.ports| {
      ListedClaim(d, k);
      FinishQuerySettles(d, ClaimListed(d, k), i);
      if Files(d, i) {
        c := Recounted(k, 1);
        FoundIsHit(d.ports, i.local);
        QueryRequestIsFiled(d, ClaimListed(d, k).port, Changed(d.ports, c), k, i);
      }
    } else if e.Some? {
      FinishQuerySettles(d, ClaimNew(d, e.value), i);
      if Files(d, i) {
        c := Linked(e.value);
        QueryRequestIsFiled(d, e.value, Changed(d.ports, c), 0, i);
      }
    }
  }

  lemma FoundIsHit(t: seq<MappedPort>, a: Addr)
    requires FindMapping(t, a, Local) < |t|
    ensures var k := FindMapping(t, a, Local);
            forall e: MappedPort :: e == t[k].(refCnt := e.refCnt) ==> Hit(e, a, Local)
  {
  }

  /** How a query ends: with an error for its client if its local address cannot be mapped; filed,
      and sent, if everything can be had; and otherwise with nothing. */
  lemma QueryOutcome(d: Daemon, i: Input) returns (c: Change)
    requires DaemonOk(d) && i.NlQuery?
    ensures var r := Step(d, i);
            && r.out.notices == (if Mappable(d, i) then [] else [ErrorNotice(i.client, i.nl.nlSeq, 11)])
            && (!Files(d, i) ==>
                  r.d == d.(reqs := Sweeps(d.reqs, i.env.sweeps), nextPort := r.d.nextPort) && r.out.sent == [])
            && (Files(d, i) ==>
                  && r.d.nextReq == d.nextReq + 1 && r.d.reqs != []
                  && r.d.reqs == [r.d.reqs[0]] + Sweeps(d.reqs, i.env.sweeps)
                  && r.d.reqs[0].id == d.nextReq && FiledFor(r.d.ports, i, r.d.reqs[0])
                  && r.out.sent == (if i.env.queued then [r.d.reqs[0].resend.value] else []))
    ensures ChangedBy(d, i, c) && Step(d, i).d.ports == Changed(d.ports, c)
  {
    hide Handler, QueryMapping, Mappable, FiledFor, ChangedBy, Changed, Sweeps, ResentIn, DaemonOk;
    HandlerIs(d, i);
    c := QuerySettles(d, i);
    var h := QueryMapping(d, i);
    if Files(d, i) {
      InterruptedFiling(d, h, h.d.reqs[0], d.reqs, i.env.sweeps);
    } else {
      InterruptedQuiet(d, h, i.env.sweeps);
    }
  }

  // ----- mapinfo and removal

  /** The entry that answers the recalled address is exactly the recalled one. */
  predicate Known(d: Daemon, i: Input)
    requires i.NlMapinfo?
  {
    var k := FindMapping(d.ports, i.local, Local);
    k < |d.ports| && Same(d.ports[k].local, i.local) && Same(d.ports[k].mapped, i.mapped)
  }

  /** How a mapinfo message ends: counted, with the entry in the table already or linked by it; or
      refused as a duplicate or for want of a port. */
  lemma MapinfoOutcome(d: Daemon, i: Input) returns (c: Change)
    requires DaemonOk(d) && i.NlMapinfo?
    ensures var r, taken := Step(d, i), Taken(d.ports, i.local);
            var port := i.local.family == i.mapped.family && Obtainable(i.local.family, i.noMap, i.portEnv);
            && r.out.sent == []
            && (Known(d, i) || (!taken && port) ==>
                  && r.out.notices == []
                  && r.d.mapinfo == d.mapinfo[i.client := d.mapinfo[i.client] + 1]
                  && (c.Linked? <==> !taken))
            && (!(Known(d, i) || (!taken && port)) ==> c == Unchanged && r.d.mapinfo == d.mapinfo)
            && (taken && !Known(d, i) ==> Refused(d, i, i.client, i.nlSeq, 12))
            && (!taken && !port ==> Refused(d, i, i.client, i.nlSeq, 11))
    ensures ChangedBy(d, i, c) && Step(d, i).d.ports == Changed(d.ports, c) && (c.Linked? || c == Unchanged)
  {
    hide Step, Handler, FindMapping, Reopen, Obtainable, NewFor, Hit, DaemonOk;
    UninterruptedIsHandler(d, i);
    HandlerIs(d, i);
    FoundIffTaken(d.ports, i.local);
    ReopenedFor(d, i);
    c := Unchanged;
    if FindMapping(d.ports, i.local, Local) == |d.ports| {
      var e := Reopen(d.nextPort, i.client, i.local, i.mapped, i.noMap, i.portEnv);
      if e.Some? {
        c := Linked(e.value);
        assert e.value.refCnt == 1;
      }
    }
  }

  /** How a removal ends: it tells nobody, and changes the table only for the owner of an entry with
      exactly this address, which loses one reference and goes with its last. */
  lemma RemoveOutcome(d: Daemon, i: Input) returns (c: Change)
    requires DaemonOk(d) && i.NlRemove?
    ensures Step(d, i).out.sent == [] && Step(d, i).out.notices == []
    ensures c == Unchanged <==> forall k :: 0 <= k < |d.ports| ==> !Removes(i, d.ports[k])
    ensures ChangedBy(d, i, c) && Step(d, i).d.ports == Changed(d.ports, c)
  {
    hide Step, Handler;
    UninterruptedIsHandler(d, i);
    HandlerIs(d, i);
    var k := FindSame(d.ports, i.local, Local);
    if k < |d.ports| {
      SameIsUnique(d.ports, i.local, k);
      assert EntryOk(d.ports[k]);
    }
    c := if k == |d.ports| || d.ports[k].owner != i.client then Unchanged
         else if d.ports[k].refCnt == 1 then Unlinked(k) else Recounted(k, -1);
  }

  lemma SameIsUnique(t: seq<MappedPort>, a: Addr, k: nat)
    requires TableOk(t) && k < |t| && Same(a, t[k].local)
    ensures forall j :: 0 <= j < |t| && Same(a, t[j].local) ==> j == k
  {
    forall j | 0 <= j < |t| ensures Same(a, t[j].local) ==> j == k {
      assert j < k ==> Compatible(t[j], t[k]);
      assert k < j ==> Compatible(t[k], t[j]);
    }
  }

  // ----- the table over runs

  /** Every input changes the table in one of these ways; wire messages and ticks never do. */
  lemma TableStep(d: Daemon, i: Input) returns (c: Change)
    requires DaemonOk(d)
    ensures ChangedBy(d, i, c) && Step(d, i).d.ports == Changed(d.ports, c)
  {
    hide Step, DaemonOk, ChangedBy, Changed;
    match i
    case NlAdd(_, _, _, _, _, _) => c := AddOutcome(d, i);
    case NlQuery(_, _, _, _, _, _, _) => c := QueryOutcome(d, i);
    case NlRemove(_, _) => c := RemoveOutcome(d, i);
    case NlMapinfo(_, _, _, _, _, _) => c := MapinfoOutcome(d, i);
    case Wire(_, _, _) => c := QuietTable(d, i);
    case Tick => c := QuietTable(d, i);
  }

  lemma QuietTable(d: Daemon, i: Input) returns (c: Change)
    requires i.Wire? || i.Tick?
    ensures c == Unchanged && ChangedBy(d, i, c) && Step(d, i).d.ports == Changed(d.ports, c)
  {
    hide Step, Handler, FindMapping, FindSame, FindRequest, Serviced, Sweeps, ResentIn;
    StepIs(d, i);
    HandlerIs(d, i);
    c := Unchanged;
  }

  lemma PairStays(d: Daemon, i: Input, owner: Client, local: Addr, mapped: Addr)
    requires DaemonOk(d) && Pair(d.ports, owner, local, mapped)
    requires !(i.NlRemove? && i.client == owner && Same(i.local, local))
    ensures Pair(Step(d, i).d.ports, owner, local, mapped)
  {
    hide Step, DaemonOk;
    var c := TableStep(d, i);
    var t := Step(d, i).d.ports;
    var k :| 0 <= k < |d.ports|
      && d.ports[k].owner == owner && d.ports[k].local == local && d.ports[k].mapped == mapped;
    var j := match c
      case Unchanged => k
      case Recounted(_, _) => k
      case Linked(_) => k + 1
      case Unlinked(l) => if k < l then k else k - 1;
    assert t[j].owner == owner && t[j].local == local && t[j].mapped == mapped;
  }

  /** In every run a mapping stays in the table, with its owner and both addresses, until its owner
      asks for its removal. */
  lemma {:induction false} MappingStays(ins: seq<Input>, m: nat, n: nat, owner: Client, local: Addr, mapped: Addr)
    requires m <= n <= |ins| && Pair(StateAt(ins, m).ports, owner, local, mapped)
    requires forall k :: m <= k < n ==> !(ins[k].NlRemove? && ins[k].client == owner && Same(ins[k].local, local))
    ensures Pair(StateAt(ins, n).ports, owner, local, mapped)
  {
    hide Step, Pair;
    if m < n {
      MappingStays(ins, m, n - 1, owner, local, mapped);
      ReachableOk(ins, n - 1);
      PairStays(StateAt(ins, n - 1), ins[n - 1], owner, local, mapped);
    }
  }

  /** In every run a granted add holds: the mapping the client is told is in the table, its own
      unless it shares a wildcard, and stays there until its owner asks for its removal. */
  lemma GrantHolds(ins: seq<Input>, j: nat, n: nat) returns (owner: Client)
    requires j < n <= |ins| && ins[j].NlAdd? && AddGranted(StateAt(ins, j), ins[j])
    ensures var local, mapped := ins[j].local, OutAt(ins, j).notices[0].mapped;
            && (SharedWildcard(StateAt(ins, j).ports, local) || owner == ins[j].client)
            && Pair(StateAt(ins, j + 1).ports, owner, local, mapped)
            && ((forall k :: j < k < n ==> !(ins[k].NlRemove? && ins[k].client == owner && Same(ins[k].local, local)))
                ==> Pair(StateAt(ins, n).ports, owner, local, mapped))
  {
    hide Step, NewFor, Taken, Maps;
    var d, local, mapped := StateAt(ins, j), ins[j].local, OutAt(ins, j).notices[0].mapped;
    ReachableOk(ins, j);
    var c := AddOutcome(d, ins[j]);
    var at := if c.Linked? then 0 else c.at;
    var e := StateAt(ins, j + 1).ports[at];
    owner := e.owner;
    NewEntry(ins[j], c);
    assert e.local == local && e.mapped == mapped;
    if forall k :: j < k < n ==> !(ins[k].NlRemove? && ins[k].client == owner && Same(ins[k].local, local)) {
      MappingStays(ins, j + 1, n, owner, local, mapped);
    }
  }

  lemma NewEntry(i: Input, c: Change)
    requires c.Linked? ==> NewFor(i, c.e)
    ensures c.Linked? ==> (i.NlAdd? || i.NlQuery? || i.NlMapinfo?) && c.e.owner == i.client && c.e.local == i.local
  {
  }
}
