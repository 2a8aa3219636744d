/** What wire messages are answered, to the peer and to the client concerned. */
module Answers {
  import opened Basics
  import opened Sockaddr
  import opened PortTable
  import opened MapRequests
  import opened PortMapper
  import opened DaemonRuns
  import opened Outcomes
  import opened Suppression

  /** The list once sweeps inside the input have run. */
  function SweptList(q: seq<MapRequest>, i: Input): seq<MapRequest> {
    Sweeps(q, SweepsIn(i))
  }

  /** The step sends nothing, tells nobody and files nothing. */
  predicate Silent(d: Daemon, i: Input) {
    && Step(d, i).out.sent == [] && Step(d, i).out.notices == []
    && Step(d, i).d == d.(reqs := SweptList(d.reqs, i))
  }

  // ----- a request

  /** The address given out for `ap` by entry `e`: its mapped address, or for a wildcard entry the
      address asked for with the mapped port. */
  predicate GivenOut(e: MappedPort, ap: Addr, mapped: Addr) {
    && (e.wcard ==> mapped.family == ap.family && mapped.ip == ap.ip && mapped.port == PortOf(e.mapped))
    && (!e.wcard && e.mapped.family == ap.family ==> mapped == e.mapped)
  }

  /** Request `r` is the ACCEPT entry for message `m` of `from` with the address `mapped`. */
  predicate AcceptFor(r: MapRequest, from: Addr, m: Msg, mapped: Addr) {
    && m.Req? && r.kind == AcceptReq && r.src == mapped && r.remote == m.cp && !r.complete && r.timeout == REQ_TIMEOUT
    && (m.handle != 0 ==> r.handle == m.handle)
    && r.resend == Some(Datagram(from, Acc(m.handle, mapped, m.cp)))
  }

  /** What a request that is answered with `mapped` from entry `e`, and filed, makes the daemon do. */
  predicate AcceptedWith(d: Daemon, i: Input, r: Result, e: MappedPort, mapped: Addr) {
    && i.Wire? && i.msg.Req?
    && r.d.reqs != [] && AcceptFor(r.d.reqs[0], i.from, i.msg, mapped) && r.d.nextReq == d.nextReq + 1
    && r.d.ports == d.ports
    && r.out.sent == (if i.env.queued then [Datagram(i.from, Acc(i.msg.handle, mapped, i.msg.cp))] else [])
    && r.out.notices == (if i.env.queued && i.env.delivered
                         then [RemoteInfo(e.owner, e.local, i.msg.cp, e.mapped, i.msg.mappedCp)] else [])
  }

  function RejectTo(i: Input): seq<Datagram>
    requires i.Wire? && i.msg.Req?
  {
    if i.env.queued then [Datagram(i.from, Rej(i.msg.handle, i.msg.ap, i.msg.cp))] else []
  }

  lemma RequestSettles(d: Daemon, i: Input)
    requires i.Wire? && i.msg.Req?
    ensures var h, env, answer := Handler(d, i), i.env, AnswerTo(d, i.msg, i.env.alienMapped);
            && (answer.None? ==>
                  h == Result(d, QUIET.(sent := RejectTo(i))))
            && (answer.Some? ==>
                  var e := d.ports[FindMapping(d.ports, i.msg.ap, Local)];
                  var unseen := FindRequest(d.reqs, i.msg.handle, answer.value, {AcceptReq}) == |d.reqs|;
                  && GivenOut(e, i.msg.ap, answer.value)
                  && (!(unseen && env.buffer && env.address.Some?) ==> h == Result(d, QUIET))
                  && (unseen && env.buffer && env.address.Some? ==>
                        AcceptedWith(d, i, h, e, answer.value) && h.d.reqs == [h.d.reqs[0]] + d.reqs))
  {
    hide Handler, FindMapping, FindRequest, MappedFor, GivenOut, WireRequest;
    HandlerIs(d, i);
    if FindMapping(d.ports, i.msg.ap, Local) == |d.ports| {
      UnansweredRequest(d, i);
    } else {
      AnsweredRequest(d, i);
    }
  }

  lemma UnansweredRequest(d: Daemon, i: Input)
    requires i.Wire? && i.msg.Req? && FindMapping(d.ports, i.msg.ap, Local) == |d.ports|
    ensures WireRequest(d, i.from, i.msg, i.env) ==
            Result(d, QUIET.(sent := RejectTo(i)))
  {
    hide FindMapping;
  }

  lemma AnsweredRequest(d: Daemon, i: Input)
    requires i.Wire? && i.msg.Req? && FindMapping(d.ports, i.msg.ap, Local) < |d.ports|
    ensures var h, env := WireRequest(d, i.from, i.msg, i.env), i.env;
            var e := d.ports[FindMapping(d.ports, i.msg.ap, Local)];
            var mapped := MappedFor(e, i.msg.ap, env.alienMapped);
            var unseen := FindRequest(d.reqs, i.msg.handle, mapped, {AcceptReq}) == |d.reqs|;
            && GivenOut(e, i.msg.ap, mapped)
            && (!(unseen && env.buffer && env.address.Some?) ==> h == Result(d, QUIET))
            && (unseen && env.buffer && env.address.Some? ==>
                  AcceptedWith(d, i, h, e, mapped) && h.d.reqs == [h.d.reqs[0]] + d.reqs)
  {
    hide FindMapping, FindRequest;
  }

  /** How a wire request ends: rejected if no entry answers its address; accepted with the address
      given out for it, filed, sent and told to the owner of the entry; and otherwise, when it is a
      copy or something could not be had, with nothing. */
  lemma RequestOutcome(d: Daemon, i: Input)
    requires i.Wire? && i.msg.Req?
    ensures var r, env, answer := Step(d, i), i.env, AnswerTo(d, i.msg, i.env.alienMapped);
            && (answer.None? ==>
                  && r.out.sent == RejectTo(i)
                  && r.out.notices == [] && r.d == d.(reqs := SweptList(d.reqs, i)))
            && (answer.Some? ==>
                  var e := d.ports[FindMapping(d.ports, i.msg.ap, Local)];
                  var unseen := FindRequest(d.reqs, i.msg.handle, answer.value, {AcceptReq}) == |d.reqs|;
                  && GivenOut(e, i.msg.ap, answer.value)
                  && (!(unseen && env.buffer && env.address.Some?) ==> Silent(d, i))
                  && (unseen && env.buffer && env.address.Some? ==>
                        && AcceptedWith(d, i, r, e, answer.value)
                        && r.d.reqs == [r.d.reqs[0]] + SweptList(d.reqs, i)))
  {
    hide Handler, AnswerTo, FindMapping, FindRequest, GivenOut, AcceptFor, Sweeps, ResentIn;
    var h := Handler(d, i);
    RequestSettles(d, i);
    if h.d.nextReq == d.nextReq {
      InterruptedQuiet(d, h, SweepsIn(i));
    } else {
      InterruptedFiling(d, h, h.d.reqs[0], d.reqs, SweepsIn(i));
    }
  }

  // ----- an accept

  /** The step acknowledges the accept it meets. */
  predicate Acknowledges(d: Daemon, i: Input)
    requires i.Wire? && i.msg.Acc?
  {
    Step(d, i).out.sent == [Datagram(i.from, Ack(i.msg.handle, i.msg.ap, i.msg.cp))]
  }

  /** Request `r` is the ACK entry for the answered query `q`. */
  predicate AckFor(r: MapRequest, q: MapRequest) {
    && r.kind == AckReq && r.src == q.src && r.remote == q.remote && r.handle == q.handle
    && r.resend.None? && !r.complete && r.timeout == REQ_TIMEOUT
  }

  /** An accept that no open query and no ACK entry waits for. */
  lemma StrayAccept(d: Daemon, i: Input)
    requires i.Wire? && i.msg.Acc?
    requires Target(d, i) == |d.reqs| || d.reqs[Target(d, i)].complete
    ensures Silent(d, i)
  {
    hide Handler, FindSame, FindRequest, Sweeps, ResentIn;
    HandlerIs(d, i);
    var h := Handler(d, i);
    assert h.d.reqs == d.reqs;
    InterruptedQuiet(d, h, SweepsIn(i));
  }

  /** A copy of an accept that was acknowledged before: acknowledged again, nobody is told again, and
      the ACK entry gets its full time once more. */
  lemma RepeatedAccept(d: Daemon, i: Input)
    requires i.Wire? && i.msg.Acc? && Target(d, i) < |d.reqs|
    requires d.reqs[Target(d, i)].kind == AckReq && !d.reqs[Target(d, i)].complete
    ensures Step(d, i).out.notices == [] && (if i.env.queued then Acknowledges(d, i) else Step(d, i).out.sent == [])
    ensures var n := Target(d, i);
            Step(d, i).d == d.(reqs := SweptList(d.reqs[n := d.reqs[n].(timeout := REQ_TIMEOUT)], i))
  {
    hide Handler, FindSame, FindRequest, Sweeps, ResentIn;
    HandlerIs(d, i);
    InterruptedQuiet(d, Handler(d, i), SweepsIn(i));
  }

  /** What the client of query `q` is told: the references of the query, the entry `e` of its local
      address, and the address `mapped` of the other side. */
  function Told(q: MapRequest, e: MappedPort, mapped: Addr, err: nat): Notice {
    ConnInfo(q.id, e.owner, q.nl, e.local, q.remote, e.mapped, mapped, err)
  }

  predicate OpenQuery(r: MapRequest) {
    r.kind == QueryReq && !r.complete
  }

  lemma AcceptSettles(d: Daemon, i: Input)
    requires DaemonOk(d) && i.Wire? && i.msg.Acc? && Target(d, i) < |d.reqs| && OpenQuery(d.reqs[Target(d, i)])
    ensures FindSame(d.ports, i.msg.cp, Local) < |d.ports|
    ensures var h, q, done := Handler(d, i), d.reqs[Target(d, i)], Updated(d, i);
            && done == d.reqs[Target(d, i) := q.(timeout := 0, complete := true)]
            && h.d.ports == d.ports
            && h.out.notices == (if i.env.delivered
                                 then [Told(q, d.ports[FindSame(d.ports, i.msg.cp, Local)], i.msg.ap, 0)] else [])
            && (if i.env.delivered && i.env.address.Some? then
                  && h.d.nextReq == d.nextReq + 1 && h.d.reqs != [] && h.d.reqs == [h.d.reqs[0]] + done
                  && h.d.reqs[0].id == d.nextReq && AckFor(h.d.reqs[0], q)
                  && h.out.sent ==
                     if i.env.queued then [Datagram(i.from, Ack(i.msg.handle, i.msg.ap, i.msg.cp))] else []
                else
                  h.d == d.(reqs := done) && h.out.sent == [])
  {
    hide Handler, FindSame, FindRequest;
    HandlerIs(d, i);
    assert RequestOk(d.reqs[Target(d, i)]);
  }

  /** An accept that meets an open query completes it. If its client can be told, it is told the
      address the accept carries; and if then an ACK entry can be had, it is filed and the accept
      is acknowledged. */
  lemma AnsweredQuery(d: Daemon, i: Input)
    requires DaemonOk(d) && i.Wire? && i.msg.Acc? && Target(d, i) < |d.reqs| && OpenQuery(d.reqs[Target(d, i)])
    ensures FindSame(d.ports, i.msg.cp, Local) < |d.ports|
    ensures var r, q := Step(d, i), d.reqs[Target(d, i)];
            var done := d.reqs[Target(d, i) := q.(timeout := 0, complete := true)];
            && r.d.ports == d.ports
            && r.out.notices == (if i.env.delivered
                                 then [Told(q, d.ports[FindSame(d.ports, i.msg.cp, Local)], i.msg.ap, 0)] else [])
            && (i.env.delivered && i.env.address.Some? ==>
                  && r.d.reqs != [] && r.d.reqs == [r.d.reqs[0]] + SweptList(done, i)
                  && r.d.nextReq == d.nextReq + 1 && r.d.reqs[0].id == d.nextReq && AckFor(r.d.reqs[0], q)
                  && (if i.env.queued then Acknowledges(d, i) else r.out.sent == []))
            && (!(i.env.delivered && i.env.address.Some?) ==>
                  r.d == d.(reqs := SweptList(done, i)) && r.out.sent == [])
  {
    hide Handler, FindSame, Target, Updated, AckFor, Told, Sweeps, ResentIn, DaemonOk;
    AcceptSettles(d, i);
    var h := Handler(d, i);
    if i.env.delivered && i.env.address.Some? {
      InterruptedFiling(d, h, h.d.reqs[0], Updated(d, i), SweepsIn(i));
    } else {
      InterruptedQuiet(d, h, SweepsIn(i));
    }
  }

  /** Exactly when an accept is acknowledged: the message can be queued, and it meets an ACK entry,
      or an open query whose client can be told and for which an ACK entry can be had. */
  lemma AcknowledgedExactly(d: Daemon, i: Input)
    requires DaemonOk(d) && i.Wire? && i.msg.Acc?
    ensures Acknowledges(d, i) <==>
            && i.env.queued && Target(d, i) < |d.reqs|
            && (|| d.reqs[Target(d, i)].kind == AckReq
                || (OpenQuery(d.reqs[Target(d, i)]) && i.env.delivered && i.env.address.Some?))
  {
    hide Step, Target, FindSame, Told, AckFor, SweptList;
    var n := Target(d, i);
    if n == |d.reqs| || d.reqs[n].complete {
      assert n < |d.reqs| ==> RequestOk(d.reqs[n]);
      StrayAccept(d, i);
    } else if d.reqs[n].kind == AckReq {
      RepeatedAccept(d, i);
    } else {
      AcceptTargets(d, i);
      AnsweredQuery(d, i);
    }
  }

  lemma AcceptTargets(d: Daemon, i: Input)
    requires i.Wire? && i.msg.Acc? && Target(d, i) < |d.reqs|
    ensures d.reqs[Target(d, i)].kind == QueryReq || d.reqs[Target(d, i)].kind == AckReq
  {
  }

  // ----- a reject and an ack

  /** A reject that meets an open query completes it, and its client is told, if it can be, that
      the address it asked about is rejected; nothing is sent. */
  lemma RejectedQuery(d: Daemon, i: Input)
    requires i.Wire? && i.msg.Rej? && Target(d, i) < |d.reqs| && OpenQuery(d.reqs[Target(d, i)])
    ensures FindSame(d.ports, i.msg.cp, Local) < |d.ports|
    ensures var r, q := Step(d, i), d.reqs[Target(d, i)];
            var e := d.ports[FindSame(d.ports, i.msg.cp, Local)];
            && r.d == d.(reqs := SweptList(d.reqs[Target(d, i) := q.(timeout := 0, complete := true)], i))
            && r.out.sent == []
            && r.out.notices == (if i.env.delivered then [Told(q, e, q.remote, 16)] else [])
  {
    hide Handler, FindSame, FindRequest, Sweeps, ResentIn;
    HandlerIs(d, i);
    InterruptedQuiet(d, Handler(d, i), SweepsIn(i));
  }

  lemma StrayReject(d: Daemon, i: Input)
    requires i.Wire? && i.msg.Rej? && (Target(d, i) == |d.reqs| || d.reqs[Target(d, i)].complete)
    ensures Silent(d, i)
  {
    hide Handler, FindSame, FindRequest, Sweeps, ResentIn;
    HandlerIs(d, i);
    var h := Handler(d, i);
    assert h.d.reqs == d.reqs;
    InterruptedQuiet(d, h, SweepsIn(i));
  }

  /** An ack is never answered; it completes the ACCEPT entry it meets. */
  lemma AckOutcome(d: Daemon, i: Input)
    requires i.Wire? && i.msg.Ack?
    ensures Step(d, i).out.sent == [] && Step(d, i).out.notices == []
    ensures Step(d, i).d == d.(reqs := SweptList(Updated(d, i), i))
    ensures var n := Target(d, i);
            n < |d.reqs| && !d.reqs[n].complete ==> Updated(d, i)[n] == d.reqs[n].(timeout := 0, complete := true)
  {
    hide Handler, FindMapping, FindRequest, Sweeps, ResentIn;
    HandlerIs(d, i);
    InterruptedQuiet(d, Handler(d, i), SweepsIn(i));
  }

  // ----- every copy of an accept is acknowledged

  /** No QUERY or ACK entry for this handle and address stands in front of entry `id`. */
  ghost predicate InFront(q: seq<MapRequest>, id: nat, handle: bv64, src: Addr) {
    forall j, k :: 0 <= j < k < |q| && q[k].id == id ==> !Answers(q[j], handle, src, {QueryReq, AckReq})
  }

  lemma SweepKeepsInFront(q: seq<MapRequest>, id: nat, handle: bv64, src: Addr)
    requires InFront(q, id, handle, src)
    ensures InFront(Sweep(q), id, handle, src)
  {
    hide Sweep;
    var u := Sweep(q);
    forall j, k | 0 <= j < k < |u| && u[k].id == id ensures !Answers(u[j], handle, src, {QueryReq, AckReq}) {
      var l := SweepOrigin(q, j);
      var m := SweepOrigin(q, k);
      if m < l {
        RankMonotone(q, m, l);
      }
    }
  }

  lemma {:induction false} SweepsKeepInFront(q: seq<MapRequest>, n: nat, id: nat, handle: bv64, src: Addr)
    requires InFront(q, id, handle, src)
    ensures InFront(Sweeps(q, n), id, handle, src)
    decreases n
  {
    hide InFront, Sweep;
    if n > 0 {
      SweepKeepsInFront(q, id, handle, src);
      SweepsKeepInFront(Sweep(q), n - 1, id, handle, src);
    }
  }

  lemma ServiceKeepsInFront(q: seq<MapRequest>, n: nat, id: nat, handle: bv64, src: Addr)
    requires InFront(q, id, handle, src)
    ensures InFront(WithServiced(q, n), id, handle, src)
  {
    var u := WithServiced(q, n);
    forall j, k | 0 <= j < k < |u| && u[k].id == id ensures !Answers(u[j], handle, src, {QueryReq, AckReq}) {
      assert u[j].kind == q[j].kind && u[j].handle == q[j].handle && u[j].src == q[j].src && u[k].id == q[k].id;
    }
  }

  /** The input does not file a query under this handle. */
  predicate LeavesHandle(i: Input, handle: bv64) {
    !(i.NlQuery? && i.env.address == Some(handle))
  }

  /** An accept that an ACK entry in front answers meets no query behind it. */
  lemma AckIsMetFirst(d: Daemon, i: Input, k: nat, handle: bv64, src: Addr)
    requires k < |d.reqs| && d.reqs[k].kind == AckReq && d.reqs[k].handle == handle && d.reqs[k].src == src
    requires InFront(d.reqs, d.reqs[k].id, handle, src)
    requires i.Wire? && i.msg.Acc? && Target(d, i) < |d.reqs|
    ensures Answers(d.reqs[Target(d, i)], handle, src, {QueryReq, AckReq}) ==> Target(d, i) == k
  {
    hide FindSame;
    var n := Target(d, i);
    if Answers(d.reqs[n], handle, src, {QueryReq, AckReq}) {
      var e := d.ports[FindSame(d.ports, i.msg.cp, Local)];
      assert Answers(d.reqs[k], i.msg.handle, e.local, {QueryReq, AckReq});
      assert n <= k;
    }
  }

  lemma PushedBehind(d: Daemon, i: Input, d': Daemon, push: seq<MapRequest>, k: nat, handle: bv64, src: Addr)
    requires Pushes(d, i, d', push) && push != [] && LeavesHandle(i, handle)
    requires k < |d.reqs| && d.reqs[k].kind == AckReq && d.reqs[k].handle == handle && d.reqs[k].src == src
    requires InFront(d.reqs, d.reqs[k].id, handle, src)
    ensures !Answers(push[0], handle, src, {QueryReq, AckReq})
  {
    hide InFront, Target;
    if push[0].kind == AckReq {
      AckIsMetFirst(d, i, k, handle, src);
    }
  }

  lemma AdvanceKeepsInFront(d: Daemon, i: Input, r: Result, id: nat, handle: bv64, src: Addr)
    requires DaemonOk(d) && Advance(d, i, r) && LeavesHandle(i, handle)
    requires FiledAs(d, id, AckReq, handle, src) && ListedReq(d, id) && InFront(d.reqs, id, handle, src)
    ensures InFront(r.d.reqs, id, handle, src)
  {
    hide Sweeps, Target, DaemonOk, Pushes, LeavesHandle;
    var push :| Shape(d, i, r, push);
    var q := Sweeps(Updated(d, i), SweepsIn(i));
    ServiceKeepsInFront(d.reqs, Target(d, i), id, handle, src);
    SweepsKeepInFront(Updated(d, i), SweepsIn(i), id, handle, src);
    var k :| 0 <= k < |d.reqs| && d.reqs[k].id == id;
    if push != [] {
      PushedBehind(d, i, r.d, push, k, handle, src);
    }
    PushedIsOne(d, i, r.d, push);
    forall j, l | 0 <= j < l < |r.d.reqs| && r.d.reqs[l].id == id
      ensures !Answers(r.d.reqs[j], handle, src, {QueryReq, AckReq})
    {
      assert j >= |push| ==> r.d.reqs[j] == q[j - |push|];
      assert r.d.reqs[l] == q[l - |push|];
    }
  }

  lemma PushedIsOne(d: Daemon, i: Input, d': Daemon, push: seq<MapRequest>)
    requires Pushes(d, i, d', push)
    ensures |push| <= 1
  {
  }

  lemma {:induction false} AckStaysInFront(ins: seq<Input>, m: nat, n: nat, id: nat, handle: bv64, src: Addr)
    requires m <= n <= |ins| && FiledAs(StateAt(ins, m), id, AckReq, handle, src)
    requires InFront(StateAt(ins, m).reqs, id, handle, src) && forall k :: m <= k < n ==> LeavesHandle(ins[k], handle)
    ensures ListedReq(StateAt(ins, n), id) ==> InFront(StateAt(ins, n).reqs, id, handle, src)
  {
    hide Step, FiledAs, InFront, Advance, DaemonOk, ListedReq, LeavesHandle;
    if m < n {
      var d, i := StateAt(ins, n - 1), ins[n - 1];
      AckStaysInFront(ins, m, n - 1, id, handle, src);
      ReachableOk(ins, n - 1);
      FiledForGood(ins, m, n - 1, id, AckReq, handle, src);
      StepAdvances(d, i);
      if ListedReq(d, id) {
        AdvanceKeepsInFront(d, i, Step(d, i), id, handle, src);
      } else {
        FiledIsOld(d, id, handle, src);
        GoneStaysGone(d, i, Step(d, i), id);
      }
    }
  }

  lemma FiledIsOld(d: Daemon, id: nat, handle: bv64, src: Addr)
    requires FiledAs(d, id, AckReq, handle, src)
    ensures id < d.nextReq
  {
  }

  /** Input `a` is an accept that completed a query whose client was told, with an ACK entry. */
  predicate Succeeds(ins: seq<Input>, a: nat)
    requires a < |ins|
  {
    && ins[a].Wire? && ins[a].msg.Acc?
    && StateAt(ins, a + 1).nextReq == StateAt(ins, a).nextReq + 1
  }

  lemma SuccessFilesAck(d: Daemon, i: Input)
    requires DaemonOk(d) && i.Wire? && i.msg.Acc? && Step(d, i).d.nextReq == d.nextReq + 1
    ensures FiledAs(Step(d, i).d, d.nextReq, AckReq, i.msg.handle, i.msg.cp)
    ensures InFront(Step(d, i).d.reqs, d.nextReq, i.msg.handle, i.msg.cp)
  {
    hide Step, Sweeps;
    StepAdvances(d, i);
    StepKeeps(d, i);
    var push :| Shape(d, i, Step(d, i), push);
    var q := Step(d, i).d.reqs;
    assert q[0] == push[0] && q[0].kind == AckReq;
    assert forall k :: 0 <= k < |q| && q[k].id == d.nextReq ==> k == 0;
  }

  /** In every run, a copy of an accept that was answered with a success is acknowledged again and
      tells nobody again, as long as the ACK entry is listed, the local address is mapped and the
      handle has not been given to another query; and the entry gets its full time once more. */
  lemma EveryCopyIsAcknowledged(ins: seq<Input>, a: nat, b: nat)
    requires a < b < |ins| && Succeeds(ins, a) && ins[b].Wire? && ins[b].msg == ins[a].msg
    requires forall k :: a < k < b ==> LeavesHandle(ins[k], ins[a].msg.handle)
    requires ListedReq(StateAt(ins, b), StateAt(ins, a).nextReq)
    requires FindSame(StateAt(ins, b).ports, ins[b].msg.cp, Local) < |StateAt(ins, b).ports|
    ensures var d, i := StateAt(ins, b), ins[b];
            && OutAt(ins, b).notices == [] && (i.env.queued ==> Acknowledges(d, i))
            && Target(d, i) < |d.reqs| && d.reqs[Target(d, i)].id == StateAt(ins, a).nextReq
            && Updated(d, i)[Target(d, i)].timeout == REQ_TIMEOUT
  {
    hide Step, DaemonOk, FiledAs, InFront, Target, FindSame;
    var d, id, m := StateAt(ins, b), StateAt(ins, a).nextReq, ins[a].msg;
    ReachableOk(ins, a);
    SuccessFilesAck(StateAt(ins, a), ins[a]);
    FiledForGood(ins, a + 1, b, id, AckReq, m.handle, m.cp);
    AckStaysInFront(ins, a + 1, b, id, m.handle, m.cp);
    ReachableOk(ins, b);
    var k := AckIsTarget(d, ins[b], id);
    RepeatedAccept(d, ins[b]);
  }

  lemma AckIsTarget(d: Daemon, i: Input, id: nat) returns (k: nat)
    requires DaemonOk(d) && i.Wire? && i.msg.Acc? && FindSame(d.ports, i.msg.cp, Local) < |d.ports|
    requires FiledAs(d, id, AckReq, i.msg.handle, i.msg.cp) && ListedReq(d, id)
    requires InFront(d.reqs, id, i.msg.handle, i.msg.cp)
    ensures k == Target(d, i) < |d.reqs| && d.reqs[k].id == id && d.reqs[k].kind == AckReq && !d.reqs[k].complete
    ensures Updated(d, i)[k].timeout == REQ_TIMEOUT
  {
    hide FindSame;
    k :| 0 <= k < |d.reqs| && d.reqs[k].id == id;
    assert RequestOk(d.reqs[k]);
    assert Answers(d.reqs[k], i.msg.handle, i.msg.cp, {QueryReq, AckReq});
    AckIsMetFirst(d, i, k, i.msg.handle, i.msg.cp);
  }

  // ----- a report is about a query of a client

  /** Input `m` is the query that was filed as request `r`. */
  predicate QueryOf(ins: seq<Input>, m: nat, r: MapRequest)
    requires m < |ins|
  {
    && ins[m].NlQuery? && StateAt(ins, m).nextReq == r.id && StateAt(ins, m + 1).nextReq == r.id + 1
    && r.nl == ins[m].nl && r.remote == ins[m].remote && (IsWild(ins[m].local) || r.src == ins[m].local)
  }

  ghost predicate Asked(ins: seq<Input>, n: nat, r: MapRequest)
    requires n <= |ins|
  {
    exists m :: 0 <= m < n && QueryOf(ins, m, r)
  }

  lemma AskedBefore(ins: seq<Input>, n: nat, r: MapRequest, s: MapRequest)
    requires n < |ins| && Asked(ins, n, r) && Evolves(r, s)
    ensures Asked(ins, n + 1, s)
  {
    hide Step, StateAt;
    var m :| 0 <= m < n && QueryOf(ins, m, r);
    assert QueryOf(ins, m, s);
  }

  /** In every run each listed query is one that a client made. */
  lemma {:induction false} QueriesAreAsked(ins: seq<Input>, n: nat, k: nat)
    requires n <= |ins| && k < |StateAt(ins, n).reqs| && StateAt(ins, n).reqs[k].kind == QueryReq
    ensures Asked(ins, n, StateAt(ins, n).reqs[k])
    decreases n
  {
    hide Step, Asked, Advance, DaemonOk;
    var d, i := StateAt(ins, n - 1), ins[n - 1];
    ReachableOk(ins, n - 1);
    StepAdvances(d, i);
    var added, l := RequestOrigin(d, i, Step(d, i), k);
    if added {
      NewQueryIsAsked(ins, n - 1, k);
    } else {
      QueriesAreAsked(ins, n - 1, l);
      AskedBefore(ins, n - 1, d.reqs[l], Step(d, i).d.reqs[k]);
    }
  }

  lemma NewQueryIsAsked(ins: seq<Input>, n: nat, k: nat)
    requires n < |ins| && k < |StateAt(ins, n + 1).reqs| && StateAt(ins, n + 1).reqs[k].kind == QueryReq
    requires Pushable(StateAt(ins, n), ins[n], StateAt(ins, n + 1).reqs[k])
    ensures Asked(ins, n + 1, StateAt(ins, n + 1).reqs[k])
  {
    hide Step;
    ReachableOk(ins, n + 1);
    ReachableOk(ins, n);
    var push := StepShape(StateAt(ins, n), ins[n]);
    assert QueryOf(ins, n, StateAt(ins, n + 1).reqs[k]);
  }

  /** In every run, whenever a client is told how a query ended, some earlier input was that query,
      and it is told with the netlink reference of the query, the address it asked about, its local
      address unless it left that open, and the mapping the table then has for it. */
  lemma ReportNamesQuery(ins: seq<Input>, j: nat, c: Notice)
    requires j < |ins| && c in OutAt(ins, j).notices && c.ConnInfo?
    ensures exists m :: 0 <= m < j && ins[m].NlQuery? && StateAt(ins, m).nextReq == c.req
              && StateAt(ins, m + 1).nextReq == c.req + 1
              && c.nl == ins[m].nl && c.remote == ins[m].remote
              && (IsWild(ins[m].local) || c.local == ins[m].local)
    ensures Pair(StateAt(ins, j).ports, c.client, c.local, c.mappedLocal)
  {
    hide Step, Asked, QueryOf, DaemonOk;
    var d := StateAt(ins, j);
    var n := ReportedQuery(d, ins[j], c);
    QueriesAreAsked(ins, j, n);
    FoundQuery(ins, j, d.reqs[n]);
    var m :| 0 <= m < j && QueryOf(ins, m, d.reqs[n]);
    QueryFacts(ins, m, d.reqs[n]);
  }

  lemma FoundQuery(ins: seq<Input>, n: nat, r: MapRequest)
    requires n <= |ins| && Asked(ins, n, r)
    ensures exists m :: 0 <= m < n && QueryOf(ins, m, r)
  {
  }

  lemma QueryFacts(ins: seq<Input>, m: nat, r: MapRequest)
    requires m < |ins| && QueryOf(ins, m, r)
    ensures ins[m].NlQuery? && StateAt(ins, m).nextReq == r.id && StateAt(ins, m + 1).nextReq == r.id + 1
    ensures r.nl == ins[m].nl && r.remote == ins[m].remote && (IsWild(ins[m].local) || r.src == ins[m].local)
  {
  }

  lemma ReportedQuery(d: Daemon, i: Input, c: Notice) returns (n: nat)
    requires c in Step(d, i).out.notices && c.ConnInfo?
    ensures n < |d.reqs| && d.reqs[n].kind == QueryReq && d.reqs[n].id == c.req && d.reqs[n].nl == c.nl
    ensures d.reqs[n].remote == c.remote && d.reqs[n].src == c.local
    ensures Pair(d.ports, c.client, c.local, c.mappedLocal)
  {
    hide Handler, AddMapping, QueryMapping, RemoveMapping, Mapinfo, FindSame, FindRequest, FindMapping;
    hide MappedFor, Serviced, Sweeps, ResentIn;
    HandlerIs(d, i);
    assert c in Handler(d, i).out.notices;
    if !i.Wire? {
      assert Reports(Handler(d, i).out, c.req);
      NetlinkReportsNothing(d, i, c.req);
    }
    n := Target(d, i);
    var k := FindSame(d.ports, i.msg.cp, Local);
    assert d.ports[k].owner == c.client && d.ports[k].local == c.local && d.ports[k].mapped == c.mappedLocal;
  }
}
