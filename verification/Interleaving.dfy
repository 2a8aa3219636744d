/**
  Sweeps that fall between the critical sections of a handler, compared with sweeps before or
  after it: only for a wire accept does it make a difference.
 */
module Interleaving {
  import opened Basics
  import opened Sockaddr
  import opened PortTable
  import opened MapRequests
  import opened PortMapper
  import opened DaemonRuns

  function Then(a: Result, b: Result): Result {
    Result(b.d, Out(a.out.sent + b.out.sent, a.out.resent + b.out.resent,
                    a.out.notices + b.out.notices, a.out.events + b.out.events))
  }

  /** `n` expiries of the timer. */
  function Ticks(d: Daemon, n: nat): Result
    decreases n
  {
    if n == 0 then Result(d, QUIET)
    else
      var a := Step(d, Tick);
      Then(a, Ticks(a.d, n - 1))
  }

  function TicksThen(d: Daemon, n: nat, i: Input): Result {
    var a := Ticks(d, n);
    Then(a, Step(a.d, i))
  }

  function ThenTicks(d: Daemon, i: Input, n: nat): Result {
    var a := Step(d, i);
    Then(a, Ticks(a.d, n))
  }

  /** The input with `n` sweeps inside it. */
  function WithSweeps(i: Input, n: nat): Input
    requires i.NlQuery? || i.Wire?
  {
    i.(env := i.env.(sweeps := n))
  }

  function Swept(d: Daemon, n: nat): Daemon {
    d.(reqs := Sweeps(d.reqs, n))
  }

  lemma TickSweeps(d: Daemon)
    ensures Step(d, Tick) == Result(d.(reqs := Sweep(d.reqs)), QUIET.(resent := Resent(d.reqs)))
  {
    hide Step, Sweep, Resent;
    StepIs(d, Tick);
    assert Sweeps(d.reqs, 1) == Sweeps(Sweep(d.reqs), 0);
    assert ResentIn(d.reqs, 1) == Resent(d.reqs) + ResentIn(Sweep(d.reqs), 0);
    assert d.reqs[0..] == d.reqs && d.reqs[..0] + Sweep(d.reqs) == Sweep(d.reqs);
  }

  lemma {:induction false} TicksSweep(d: Daemon, n: nat)
    ensures Ticks(d, n) == Result(Swept(d, n), QUIET.(resent := ResentIn(d.reqs, n)))
    decreases n
  {
    hide Step, Sweep, Resent;
    if n > 0 {
      TickSweeps(d);
      TicksSweep(d.(reqs := Sweep(d.reqs)), n - 1);
    }
  }

  lemma NoSweep(q: seq<MapRequest>)
    ensures Sweeps(q, 0) == q && ResentIn(q, 0) == []
  {
  }

  /** A handler that files nothing: sweeps inside it are sweeps after it. */
  lemma QuietIsSequential(d: Daemon, i: Input, i0: Input)
    requires SweepsIn(i0) == 0 && Handler(d, i) == Handler(d, i0)
    requires Handler(d, i).d.nextReq == d.nextReq
    ensures Step(d, i) == ThenTicks(d, i0, SweepsIn(i))
  {
    hide Handler, Sweeps, ResentIn, Ticks, SweepsIn;
    var h := Handler(d, i);
    InterruptedQuiet(d, h, SweepsIn(i));
    InterruptedQuiet(d, h, 0);
    NoSweep(h.d.reqs);
    TicksSweep(h.d, SweepsIn(i));
  }

  /** A handler that files a request and does nothing else to the list, and does so alike after
      `n` sweeps: sweeps inside it are sweeps before it. */
  lemma FilingIsSequential(d: Daemon, i: Input, i0: Input, r: MapRequest)
    requires SweepsIn(i0) == 0
    requires var h := Handler(d, i);
             && h.d.nextReq == d.nextReq + 1 && h.d.reqs == [r] + d.reqs
             && Handler(Swept(d, SweepsIn(i)), i0) == h.(d := h.d.(reqs := [r] + Sweeps(d.reqs, SweepsIn(i))))
    ensures Step(d, i) == TicksThen(d, SweepsIn(i), i0)
  {
    hide Handler, Sweeps, ResentIn, Ticks, SweepsIn;
    var n, h := SweepsIn(i), Handler(d, i);
    InterruptedFiling(d, h, r, d.reqs, n);
    InterruptedFiling(Swept(d, n), Handler(Swept(d, n), i0), r, Sweeps(d.reqs, n), 0);
    NoSweep(Sweeps(d.reqs, n));
    TicksSweep(d, n);
    assert h.out.sent == [] + h.out.sent && h.out.notices == [] + h.out.notices && h.out.events == [] + h.out.events;
  }

  // ----- a wire request: the search for an ACCEPT entry, then the filing of one

  lemma SweepsFindNoMore(q: seq<MapRequest>, n: nat, handle: bv64, src: Addr, kinds: set<Kind>)
    requires FindRequest(q, handle, src, kinds) == |q|
    ensures FindRequest(Sweeps(q, n), handle, src, kinds) == |Sweeps(q, n)|
  {
    hide Sweeps;
    forall j | 0 <= j < |Sweeps(q, n)|
      ensures !Answers(Sweeps(q, n)[j], handle, src, kinds)
    {
      var k := SweepsOrigin(q, n, j);
    }
  }

  /** A request that is accepted, is accepted alike after any sweeps. */
  lemma SweptRequestFiles(d: Daemon, i: Input, n: nat)
    requires i.Wire? && i.msg.Req? && WireRequest(d, i.from, i.msg, i.env).d.nextReq != d.nextReq
    ensures var h, s := WireRequest(d, i.from, i.msg, i.env), WireRequest(Swept(d, n), i.from, i.msg, i.env);
            && h.d.reqs != [] && h.d.reqs == [h.d.reqs[0]] + d.reqs && h.d.nextReq == d.nextReq + 1
            && s == h.(d := h.d.(reqs := [h.d.reqs[0]] + Sweeps(d.reqs, n)))
  {
    hide Sweeps;
    var mapped := MappedFor(d.ports[FindMapping(d.ports, i.msg.ap, Local)], i.msg.ap, i.env.alienMapped);
    SweepsFindNoMore(d.reqs, n, i.msg.handle, mapped, {AcceptReq});
  }

  lemma RequestIgnoresSweeps(d: Daemon, i: Input)
    requires i.Wire? && i.msg.Req?
    ensures Handler(d, WithSweeps(i, 0)) == Handler(d, i) == WireRequest(d, i.from, i.msg, i.env)
  {
    hide FindMapping, FindRequest, MappedFor;
  }

  /** Sweeps inside a wire request might as well have run before or after it. */
  lemma SweptRequestIsSequential(d: Daemon, i: Input)
    requires i.Wire? && i.msg.Req?
    ensures Step(d, i) == TicksThen(d, i.env.sweeps, WithSweeps(i, 0))
            || Step(d, i) == ThenTicks(d, WithSweeps(i, 0), i.env.sweeps)
  {
    hide Handler, WireRequest, Sweeps, ResentIn, Step, TicksThen, ThenTicks;
    var i0, h := WithSweeps(i, 0), Handler(d, i);
    RequestIgnoresSweeps(d, i);
    if h.d.nextReq == d.nextReq {
      QuietIsSequential(d, i, i0);
    } else {
      SweptRequestFiles(d, i, i.env.sweeps);
      RequestIgnoresSweeps(Swept(d, i.env.sweeps), i);
      FilingIsSequential(d, i, i0, h.d.reqs[0]);
    }
  }

  // ----- a query: the use of the port list, the filing, the linking of a new port

  lemma FilingIgnoresRequests(d: Daemon, c: Claim, i: Input, q: seq<MapRequest>)
    requires i.NlQuery?
    ensures var h := FinishQuery(d, c, i);
            var g := FinishQuery(d.(reqs := q), c, WithSweeps(i, 0));
            && (h.d.nextReq == d.nextReq ==> h.d.reqs == d.reqs && g == h.(d := h.d.(reqs := q)))
            && (h.d.nextReq != d.nextReq ==>
                  && h.d.nextReq == d.nextReq + 1 && h.d.reqs != [] && h.d.reqs == [h.d.reqs[0]] + d.reqs
                  && g == h.(d := h.d.(reqs := [h.d.reqs[0]] + q)))
  {
  }

  /** A query does not read the request list. */
  lemma QueryIgnoresRequests(d: Daemon, i: Input, q: seq<MapRequest>)
    requires i.NlQuery?
    ensures var h := Handler(d, i);
            var g := Handler(d.(reqs := q), WithSweeps(i, 0));
            && (h.d.nextReq == d.nextReq ==> h.d.reqs == d.reqs && g == h.(d := h.d.(reqs := q)))
            && (h.d.nextReq != d.nextReq ==>
                  && h.d.nextReq == d.nextReq + 1 && h.d.reqs != [] && h.d.reqs == [h.d.reqs[0]] + d.reqs
                  && g == h.(d := h.d.(reqs := [h.d.reqs[0]] + q)))
  {
    hide FinishQuery, Create, FindMapping;
    var k := FindMapping(d.ports, i.local, Local);
    var e := Create(d.nextPort, i.client, i.local, i.noMap, i.portEnv);
    if k < |d.ports| {
      FilingIgnoresRequests(d, ClaimListed(d, k), i, q);
    } else if e.Some? {
      FilingIgnoresRequests(d, ClaimNew(d, e.value), i, q);
    }
  }

  /** Sweeps inside a query might as well have run before or after it. */
  lemma SweptQueryIsSequential(d: Daemon, i: Input)
    requires i.NlQuery?
    ensures Step(d, i) == TicksThen(d, i.env.sweeps, WithSweeps(i, 0))
            || Step(d, i) == ThenTicks(d, WithSweeps(i, 0), i.env.sweeps)
  {
    hide Handler, Sweeps, ResentIn, Step, TicksThen, ThenTicks;
    var i0, h := WithSweeps(i, 0), Handler(d, i);
    QueryIgnoresRequests(d, i, d.reqs);
    QueryIgnoresRequests(d, i, Sweeps(d.reqs, i.env.sweeps));
    if h.d.nextReq == d.nextReq {
      QuietIsSequential(d, i, i0);
    } else {
      FilingIsSequential(d, i, i0, h.d.reqs[0]);
    }
  }

  // ----- a wire accept: the update of the query, then the filing of an ACK entry

  lemma AcceptFilesAck(d: Daemon, i: Input)
    requires i.Wire? && i.msg.Acc?
    ensures var h := Handler(d, i);
            && Handler(d, WithSweeps(i, 0)) == h
            && (h.d.nextReq != d.nextReq ==>
                  && h.d.nextReq == d.nextReq + 1 && h.d.reqs != []
                  && h.d.reqs[0].kind == AckReq && h.d.reqs[0].timeout == REQ_TIMEOUT)
  {
    hide FindSame, FindRequest, Serviced;
  }

  /** What `n` sweeps make of an ACK entry. */
  function AgedBy(ack: MapRequest, n: nat): seq<MapRequest> {
    if n <= ack.timeout then [ack.(timeout := ack.timeout - n)] else []
  }

  /** An ACK entry in front ages and goes on its own, and nothing is sent for it. */
  lemma {:induction false} AckAges(ack: MapRequest, q: seq<MapRequest>, n: nat)
    requires ack.kind == AckReq && ack.timeout >= 0
    ensures Sweeps([ack] + q, n) == AgedBy(ack, n) + Sweeps(q, n) && ResentIn([ack] + q, n) == ResentIn(q, n)
    decreases n
  {
    hide Sweep, Resent;
    if n > 0 {
      Unrolled([ack] + q);
      assert ([ack] + q)[1..] == q;
      if ack.timeout > 0 {
        AckAges(ack.(timeout := ack.timeout - 1), Sweep(q), n - 1);
      } else {
        assert Sweep([ack] + q) == Sweep(q) && AgedBy(ack, n) + Sweeps(q, n) == Sweeps(q, n);
      }
    }
  }

  /** Sweeps inside a wire accept might as well have run after it, but that they then would have
      aged the new ACK entry too. */
  lemma SweptAcceptIsSequential(d: Daemon, i: Input)
    requires i.Wire? && i.msg.Acc?
    ensures var s, t := Step(d, i), ThenTicks(d, WithSweeps(i, 0), i.env.sweeps);
            && s.out == t.out
            && (s.d == t.d
                || (&& s.d.reqs != [] && s.d.reqs[0].kind == AckReq && s.d.reqs[0].timeout == REQ_TIMEOUT
                    && t.d == s.d.(reqs := AgedBy(s.d.reqs[0], i.env.sweeps) + s.d.reqs[1..])))
  {
    hide Handler, Sweeps, ResentIn, Ticks, AgedBy;
    var i0, h := WithSweeps(i, 0), Handler(d, i);
    AcceptFilesAck(d, i);
    if h.d.nextReq == d.nextReq {
      QuietIsSequential(d, i, i0);
    } else {
      var ack, q := h.d.reqs[0], h.d.reqs[1..];
      InterruptedFiling(d, h, ack, q, i.env.sweeps);
      InterruptedFiling(d, h, ack, q, 0);
      NoSweep(q);
      TicksSweep(h.d, i.env.sweeps);
      AckAges(ack, q, i.env.sweeps);
    }
  }
}
