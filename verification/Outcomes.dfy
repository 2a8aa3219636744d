/** How one step changes the request list, and what that means for client notices. */
module Outcomes {
  import opened Basics
  import opened Sockaddr
  import opened PortTable
  import opened MapRequests
  import opened PortMapper
  import opened DaemonRuns

  // ----- the shape of one step

  /** The local address of a query as its request message carries it. */
  function SentAs(i: Input): Addr
    requires i.NlQuery?
  {
    CopyAs(i.remote.family, i.local, i.env.alienLocal)
  }

  /** The request objects a step may add. */
  predicate Pushable(d: Daemon, i: Input, r: MapRequest) {
    && r.id == d.nextReq && !r.complete && r.timeout == REQ_TIMEOUT
    && match r.kind
       case QueryReq =>
         && i.NlQuery? && i.env.address.Some? && r.handle == i.env.address.value
         && r.remote == i.remote && Internet(i.remote.family) && r.nl == i.nl
         && r.resend.Some? && r.resend.value.to == PmAddress(i.remote)
         && r.resend.value.msg.Req? && r.resend.value.msg.handle == r.handle
         && r.resend.value.msg.ap == i.remote && r.resend.value.msg.cp == SentAs(i)
         && (IsWild(i.local) || r.src == i.local)
       case AcceptReq =>
         && i.Wire? && i.msg.Req? && i.env.address.Some?
         && (i.msg.handle != 0 ==> r.handle == i.msg.handle)
         && r.resend == Some(Datagram(i.from, Acc(i.msg.handle, r.src, i.msg.cp)))
         && FindMapping(d.ports, i.msg.ap, Local) < |d.ports|
         && r.src == MappedFor(d.ports[FindMapping(d.ports, i.msg.ap, Local)], i.msg.ap, i.env.alienMapped)
         && FindRequest(d.reqs, i.msg.handle, r.src, {AcceptReq}) == |d.reqs|
       case AckReq => i.Wire? && i.msg.Acc? && r.resend.None?
  }

  /** The request object a step may mark as serviced. */
  predicate Serviceable(i: Input, r: MapRequest) {
    && i.Wire? && i.msg.handle == r.handle
    && (i.msg.Acc? || i.msg.Rej? || i.msg.Ack?)
    && (i.msg.Acc? ==> r.kind != AcceptReq)
    && (i.msg.Rej? ==> r.kind == QueryReq)
    && (i.msg.Ack? ==> r.kind == AcceptReq && Same(i.msg.ap, r.src))
  }

  function WithServiced(q: seq<MapRequest>, n: nat): seq<MapRequest> {
    if n < |q| then q[n := Serviced(q[n])] else q
  }

  /** The position of the request a wire message services, or the length of the list. */
  function Target(d: Daemon, i: Input): (n: nat)
    ensures n <= |d.reqs| && (n < |d.reqs| ==> Serviceable(i, d.reqs[n]))
  {
    if !i.Wire? then |d.reqs|
    else
      match i.msg
      case Req(_, _, _, _) => |d.reqs|
      case Acc(handle, _, cp) =>
        var k := FindSame(d.ports, cp, Local);
        if k == |d.ports| then |d.reqs| else FindRequest(d.reqs, handle, d.ports[k].local, {QueryReq, AckReq})
      case Rej(handle, _, cp) =>
        var k := FindSame(d.ports, cp, Local);
        if k == |d.ports| then |d.reqs| else FindRequest(d.reqs, handle, d.ports[k].local, {QueryReq})
      case Ack(handle, ap, _) =>
        if FindMapping(d.ports, ap, Mapped) == |d.ports| then |d.reqs|
        else FindRequest(d.reqs, handle, ap, {AcceptReq})
  }

  /** The list once an input has serviced what it services. */
  function Updated(d: Daemon, i: Input): (q: seq<MapRequest>)
    ensures |q| == |d.reqs|
  {
    WithServiced(d.reqs, Target(d, i))
  }

  /** An input may put one request in front of the list. */
  predicate Pushes(d: Daemon, i: Input, d': Daemon, push: seq<MapRequest>) {
    && |push| <= 1 && d'.nextReq == d.nextReq + |push|
    && (push != [] ==> Pushable(d, i, push[0]))
    && (push != [] && push[0].kind == AckReq ==>
          var n := Target(d, i);
          && n < |d.reqs| && d.reqs[n].kind == QueryReq && !d.reqs[n].complete
          && push[0].handle == d.reqs[n].handle && push[0].src == d.reqs[n].src)
  }

  /** What the handler of an input makes of the list. */
  predicate HandlerShape(d: Daemon, i: Input, h: Result, push: seq<MapRequest>) {
    h.d.reqs == push + Updated(d, i) && Pushes(d, i, h.d, push)
  }

  predicate Handled(d: Daemon) {
    forall k :: 0 <= k < |d.reqs| ==> d.reqs[k].handle != 0
  }

  lemma QuietShape(d: Daemon, i: Input, h: Result)
    requires h.d.reqs == Updated(d, i) && h.d.nextReq == d.nextReq
    ensures HandlerShape(d, i, h, [])
  {
    assert [] + Updated(d, i) == Updated(d, i);
  }

  lemma FinishQueryShape(d: Daemon, c: Claim, i: Input) returns (push: seq<MapRequest>)
    requires i.NlQuery? && (c.port.wcard || IsWild(i.local) || c.port.local == i.local)
    ensures HandlerShape(d, i, FinishQuery(d, c, i), push)
  {
    var r := FinishQuery(d, c, i);
    if c.port.wcard || !Internet(i.remote.family) || !i.env.buffer || i.env.address.None? {
      push := [];
      QuietShape(d, i, r);
    } else {
      push := [QueryRequest(d, c.port, i)];
    }
  }

  lemma QueryShape(d: Daemon, i: Input) returns (push: seq<MapRequest>)
    requires i.NlQuery?
    ensures HandlerShape(d, i, QueryMapping(d, i), push)
  {
    var k := FindMapping(d.ports, i.local, Local);
    var e := Create(d.nextPort, i.client, i.local, i.noMap, i.portEnv);
    if k < |d.ports| {
      push := FinishQueryShape(d, ClaimListed(d, k), i);
    } else if e.Some? {
      push := FinishQueryShape(d, ClaimNew(d, e.value), i);
    } else {
      push := [];
      QuietShape(d, i, QueryMapping(d, i));
    }
  }

  lemma RequestShape(d: Daemon, i: Input) returns (push: seq<MapRequest>)
    requires i.Wire? && i.msg.Req?
    ensures HandlerShape(d, i, WireRequest(d, i.from, i.msg, i.env), push)
  {
    var r := WireRequest(d, i.from, i.msg, i.env);
    if r.d == d {
      push := [];
      QuietShape(d, i, r);
    } else {
      var e := d.ports[FindMapping(d.ports, i.msg.ap, Local)];
      push := [AcceptRequest(d, i.from, i.msg, MappedFor(e, i.msg.ap, i.env.alienMapped), i.env.address.value)];
    }
  }

  lemma AcceptShape(d: Daemon, i: Input) returns (push: seq<MapRequest>)
    requires i.Wire? && i.msg.Acc? && Handled(d)
    ensures HandlerShape(d, i, WireAccept(d, i.from, i.msg, i.env), push)
  {
    var r := WireAccept(d, i.from, i.msg, i.env);
    if r.d.nextReq == d.nextReq {
      push := [];
      QuietShape(d, i, r);
    } else {
      push := [AckRequest(d, d.reqs[Target(d, i)], i.env.address.value)];
    }
  }

  lemma AnswerShape(d: Daemon, i: Input)
    requires i.Wire? && (i.msg.Rej? || i.msg.Ack?)
    ensures HandlerShape(d, i, OnWire(d, i.from, i.msg, i.env), [])
  {
    QuietShape(d, i, OnWire(d, i.from, i.msg, i.env));
  }

  lemma HandlerHasShape(d: Daemon, i: Input) returns (push: seq<MapRequest>)
    requires Handled(d)
    ensures HandlerShape(d, i, Handler(d, i), push)
  {
    push := [];
    match i
    case NlQuery(_, _, _, _, _, _, _) => push := QueryShape(d, i);
    case Wire(_, Req(_, _, _, _), _) => push := RequestShape(d, i);
    case Wire(_, Acc(_, _, _), _) => push := AcceptShape(d, i);
    case Wire(_, Rej(_, _, _), _) => AnswerShape(d, i);
    case Wire(_, Ack(_, _, _), _) => AnswerShape(d, i);
    case NlAdd(_, _, _, _, _, _) => QuietShape(d, i, AddMapping(d, i));
    case NlRemove(_, _) => QuietShape(d, i, RemoveMapping(d, i));
    case NlMapinfo(_, _, _, _, _, _) => QuietShape(d, i, Mapinfo(d, i));
    case Tick => QuietShape(d, i, Result(d, QUIET));
  }

  // ----- following one request object through a step

  /** What a step makes of the list: one request may be serviced, then the list is swept as often
      as sweeps fall inside the input, and then one request may be put in front. */
  predicate Shape(d: Daemon, i: Input, r: Result, push: seq<MapRequest>) {
    && r.d.reqs == push + Sweeps(Updated(d, i), SweepsIn(i)) && Pushes(d, i, r.d, push)
    && r.out.resent == ResentIn(Updated(d, i), SweepsIn(i))
  }

  /** The request list after a step, seen without the rest of the step. */
  ghost predicate Advance(d: Daemon, i: Input, r: Result) {
    exists push :: Shape(d, i, r, push)
  }

  lemma StepShape(d: Daemon, i: Input) returns (push: seq<MapRequest>)
    requires DaemonOk(d)
    ensures Shape(d, i, Step(d, i), push)
  {
    assert Handled(d);
    hide Step, Handler, Pushable, Updated;
    push := HandlerHasShape(d, i);
    StepIs(d, i);
    var h := Handler(d, i);
    assert h.d.reqs[..|push|] == push && h.d.reqs[|push|..] == Updated(d, i);
  }

  lemma StepAdvances(d: Daemon, i: Input)
    requires DaemonOk(d)
    ensures Advance(d, i, Step(d, i))
  {
    hide Step, Shape;
    var push := StepShape(d, i);
  }

  /** Same object, possibly serviced or aged. */
  predicate Evolves(r: MapRequest, r': MapRequest) {
    && r' == r.(timeout := r'.timeout, complete := r'.complete)
    && (r.complete ==> r'.complete)
  }

  lemma UpdatedOk(d: Daemon, i: Input)
    requires DaemonOk(d)
    ensures RequestsOk(Updated(d, i))
    ensures forall k :: 0 <= k < |d.reqs| ==> Evolves(d.reqs[k], Updated(d, i)[k])
  {
    hide Target;
    if Target(d, i) < |d.reqs| {
      ServiceKeeps(d, Target(d, i));
    }
  }

  /** Every request listed after a step was put in front by it, or was listed before and then
      serviced or aged. */
  lemma RequestOrigin(d: Daemon, i: Input, r: Result, j: nat) returns (added: bool, k: nat)
    requires DaemonOk(d) && Advance(d, i, r) && j < |r.d.reqs|
    ensures added ==> j == 0 && Pushable(d, i, r.d.reqs[j])
    ensures !added ==> k < |d.reqs| && Evolves(d.reqs[k], r.d.reqs[j])
    ensures !added ==> var s := Updated(d, i)[k];
                       && r.d.reqs[j] == s.(timeout := s.timeout - SweepsIn(i))
                       && (SweepsIn(i) > 0 ==> s.timeout >= SweepsIn(i) && !s.complete)
  {
    hide DaemonOk, Pushable, Updated, Sweeps, ResentIn;
    UpdatedOk(d, i);
    var push :| Shape(d, i, r, push);
    if j < |push| {
      added, k := true, 0;
    } else {
      added := false;
      k := SweepsOrigin(Updated(d, i), SweepsIn(i), j - |push|);
      assert r.d.reqs[j] == Sweeps(Updated(d, i), SweepsIn(i))[j - |push|];
    }
  }

  /** Where a listed request is after a step, unless the sweeps inside it removed it. */
  lemma RequestFuture(d: Daemon, i: Input, r: Result, k: nat) returns (j: nat)
    requires DaemonOk(d) && Advance(d, i, r) && k < |d.reqs|
    ensures var s, n := Updated(d, i)[k], SweepsIn(i);
            && (s.timeout >= n ==> j < |r.d.reqs| && r.d.reqs[j] == s.(timeout := s.timeout - n))
            && (s.timeout < n ==> !ListedReq(r.d, s.id))
  {
    hide Updated, Sweeps, ResentIn, RequestOk;
    UpdatedOk(d, i);
    var push :| Shape(d, i, r, push);
    var l := SweepsFuture(Updated(d, i), SweepsIn(i), k);
    j := |push| + l;
  }

  predicate ListedReq(d: Daemon, id: nat) {
    exists k :: 0 <= k < |d.reqs| && d.reqs[k].id == id
  }

  /** Request numbers are never reused: what is gone stays gone. */
  lemma GoneStaysGone(d: Daemon, i: Input, r: Result, id: nat)
    requires DaemonOk(d) && Advance(d, i, r) && id < d.nextReq && !ListedReq(d, id)
    ensures id < r.d.nextReq && !ListedReq(r.d, id)
  {
    forall j | 0 <= j < |r.d.reqs| ensures r.d.reqs[j].id != id {
      var added, k := RequestOrigin(d, i, r, j);
    }
  }

  // ----- at most one outcome per query

  predicate Reports(o: Out, id: nat) {
    exists k :: 0 <= k < |o.notices| && o.notices[k].ConnInfo? && o.notices[k].req == id
  }

  /** The query `id` existed and cannot be reported any more. */
  predicate Closed(d: Daemon, id: nat) {
    && id < d.nextReq
    && (forall k :: 0 <= k < |d.reqs| && d.reqs[k].id == id ==> d.reqs[k].complete)
  }

  lemma ClosedStays(d: Daemon, i: Input, r: Result, id: nat)
    requires DaemonOk(d) && Advance(d, i, r) && Closed(d, id)
    ensures Closed(r.d, id)
  {
    forall j | 0 <= j < |r.d.reqs| && r.d.reqs[j].id == id ensures r.d.reqs[j].complete {
      var added, k := RequestOrigin(d, i, r, j);
    }
  }

  /** The input meets request `id`: it is the one the input services. */
  predicate Meets(d: Daemon, i: Input, id: nat) {
    var n := Target(d, i);
    n < |d.reqs| && d.reqs[n].id == id
  }

  /** The input marks request `id` complete. */
  predicate Completes(d: Daemon, i: Input, id: nat) {
    var n := Target(d, i);
    n < |d.reqs| && d.reqs[n].id == id && !d.reqs[n].complete && d.reqs[n].kind != AckReq
  }

  lemma AcceptReports(d: Daemon, i: Input, id: nat)
    requires i.Wire? && i.msg.Acc? && Reports(WireAccept(d, i.from, i.msg, i.env).out, id)
    ensures Completes(d, i, id) && |WireAccept(d, i.from, i.msg, i.env).out.notices| == 1
  {
  }

  lemma RejectReports(d: Daemon, i: Input, id: nat)
    requires i.Wire? && i.msg.Rej? && Reports(WireReject(d, i.msg, i.env).out, id)
    ensures Completes(d, i, id) && |WireReject(d, i.msg, i.env).out.notices| == 1
  {
  }

  lemma NetlinkReportsNothing(d: Daemon, i: Input, id: nat)
    requires !i.Wire?
    ensures !Reports(Handler(d, i).out, id)
  {
    hide Handler, FindMapping, FindSame, Create, Reopen, Commit;
    HandlerIs(d, i);
  }

  lemma RequestReportsNothing(d: Daemon, i: Input, id: nat)
    requires i.Wire? && (i.msg.Req? || i.msg.Ack?)
    ensures !Reports(Handler(d, i).out, id)
  {
    hide Handler, FindMapping, FindRequest, MappedFor;
    HandlerIs(d, i);
  }

  /** Only an accept or a reject that meets an incomplete query is reported, and it
      completes that query. */
  lemma ReportCompletes(d: Daemon, i: Input, id: nat)
    requires Reports(Step(d, i).out, id)
    ensures Completes(d, i, id) && |Step(d, i).out.notices| == 1
  {
    hide Step, Completes, Handler, WireAccept, WireReject;
    StepIs(d, i);
    HandlerIs(d, i);
    assert Reports(Handler(d, i).out, id);
    if !i.Wire? {
      NetlinkReportsNothing(d, i, id);
    } else if i.msg.Acc? {
      AcceptReports(d, i, id);
    } else if i.msg.Rej? {
      RejectReports(d, i, id);
    } else {
      RequestReportsNothing(d, i, id);
    }
  }

  lemma CompletionCloses(d: Daemon, i: Input, r: Result, id: nat)
    requires DaemonOk(d) && Advance(d, i, r) && Completes(d, i, id)
    ensures !Closed(d, id) && Closed(r.d, id)
  {
    hide Target;
    var push :| Shape(d, i, r, push);
    var n := Target(d, i);
    forall j | 0 <= j < |r.d.reqs| && r.d.reqs[j].id == id ensures r.d.reqs[j].complete {
      var added, k := RequestOrigin(d, i, r, j);
      assert !added;
      assert k == n && Updated(d, i)[n] == Serviced(d.reqs[n]);
    }
  }

  lemma {:induction false} NoLaterReport(ins: seq<Input>, m: nat, j: nat, id: nat)
    requires m <= j < |ins| && Closed(StateAt(ins, m), id)
    ensures !Reports(OutAt(ins, j), id)
    decreases j - m
  {
    hide Step;
    var d := StateAt(ins, m);
    ReachableOk(ins, m);
    if m < j {
      StepAdvances(d, ins[m]);
      ClosedStays(d, ins[m], Step(d, ins[m]), id);
      NoLaterReport(ins, m + 1, j, id);
    } else if Reports(OutAt(ins, j), id) {
      ReportCompletes(d, ins[m], id);
      StepAdvances(d, ins[m]);
      CompletionCloses(d, ins[m], Step(d, ins[m]), id);
    }
  }

  lemma ReportCloses(ins: seq<Input>, i: nat, id: nat)
    requires i < |ins| && Reports(OutAt(ins, i), id)
    ensures |OutAt(ins, i).notices| == 1 && Closed(StateAt(ins, i + 1), id)
  {
    hide Step;
    var d := StateAt(ins, i);
    ReachableOk(ins, i);
    ReportCompletes(d, ins[i], id);
    StepAdvances(d, ins[i]);
    CompletionCloses(d, ins[i], Step(d, ins[i]), id);
  }

  /** In every run a query object is answered at most once: the step that reports it sends
      one notice only, and no later step reports it again. So a client never sees two
      successes, two rejects, or a success and a reject for the same query. */
  lemma AtMostOneOutcome(ins: seq<Input>, i: nat, j: nat, id: nat)
    requires i < j < |ins| && Reports(OutAt(ins, i), id)
    ensures |OutAt(ins, i).notices| == 1 && !Reports(OutAt(ins, j), id)
  {
    hide Step;
    ReportCloses(ins, i, id);
    NoLaterReport(ins, i + 1, j, id);
  }
}
