/** What every run of one daemon keeps, whatever clients, peers and the timer do. */
module DaemonRuns {
  import opened Sockaddr
  import opened PortTable
  import opened MapRequests
  import opened PortMapper

  function StateAt(ins: seq<Input>, n: nat): Daemon
    requires n <= |ins|
  {
    if n == 0 then Start() else Step(StateAt(ins, n - 1), ins[n - 1]).d
  }

  function OutAt(ins: seq<Input>, n: nat): Out
    requires n < |ins|
  {
    Step(StateAt(ins, n), ins[n]).out
  }

  /** Which handler an input has. */
  lemma HandlerIs(d: Daemon, i: Input)
    ensures i.NlAdd? ==> Handler(d, i) == AddMapping(d, i)
    ensures i.NlQuery? ==> Handler(d, i) == QueryMapping(d, i)
    ensures i.NlRemove? ==> Handler(d, i) == RemoveMapping(d, i)
    ensures i.NlMapinfo? ==> Handler(d, i) == Mapinfo(d, i)
    ensures i.Wire? && i.msg.Req? ==> Handler(d, i) == WireRequest(d, i.from, i.msg, i.env)
    ensures i.Wire? && i.msg.Acc? ==> Handler(d, i) == WireAccept(d, i.from, i.msg, i.env)
    ensures i.Wire? && i.msg.Rej? ==> Handler(d, i) == WireReject(d, i.msg, i.env)
    ensures i.Wire? && i.msg.Ack? ==> Handler(d, i) == WireAck(d, i.msg)
    ensures i.Tick? ==> Handler(d, i) == Result(d, QUIET)
  {
    hide AddMapping, QueryMapping, RemoveMapping, Mapinfo, WireRequest, WireAccept, WireReject, WireAck;
  }

  /** What a step takes over from its handler. */
  lemma StepIs(d: Daemon, i: Input)
    ensures var r, h := Step(d, i), Handler(d, i);
            && r.d == h.d.(reqs := r.d.reqs) && r.out == h.out.(resent := r.out.resent)
            && r.d.reqs == h.d.reqs[..FiledBy(d, h)] + Sweeps(h.d.reqs[FiledBy(d, h)..], SweepsIn(i))
            && r.out.resent == ResentIn(h.d.reqs[FiledBy(d, h)..], SweepsIn(i))
            && (SweepsIn(i) == 0 ==> r.d == h.d && r.out.resent == [])
  {
    hide Handler, FiledBy;
    var h := Handler(d, i);
    assert h.d.reqs[..FiledBy(d, h)] + h.d.reqs[FiledBy(d, h)..] == h.d.reqs;
  }

  /** Sweeps inside a handler that files nothing sweep the whole list. */
  lemma InterruptedQuiet(d: Daemon, h: Result, n: nat)
    requires h.d.nextReq == d.nextReq
    ensures Interrupted(d, h, n)
            == Result(h.d.(reqs := Sweeps(h.d.reqs, n)), h.out.(resent := ResentIn(h.d.reqs, n)))
  {
    hide Sweeps, ResentIn;
    assert h.d.reqs[0..] == h.d.reqs && h.d.reqs[..0] + Sweeps(h.d.reqs, n) == Sweeps(h.d.reqs, n);
  }

  /** Sweeps inside a handler that files `r` sweep the rest of the list. */
  lemma InterruptedFiling(d: Daemon, h: Result, r: MapRequest, q: seq<MapRequest>, n: nat)
    requires h.d.nextReq > d.nextReq && h.d.reqs == [r] + q
    ensures Interrupted(d, h, n) == Result(h.d.(reqs := [r] + Sweeps(q, n)), h.out.(resent := ResentIn(q, n)))
  {
    hide Sweeps, ResentIn;
    assert h.d.reqs[..1] == [r] && h.d.reqs[1..] == q;
  }

  lemma NetlinkResendsNothing(d: Daemon, i: Input)
    requires !i.Wire?
    ensures Handler(d, i).out.resent == []
  {
    hide Handler, FindMapping, FindSame, Create, Reopen, Commit;
    HandlerIs(d, i);
  }

  /** No sweep falls inside the handlers that leave the request list alone. */
  lemma UninterruptedIsHandler(d: Daemon, i: Input)
    ensures i.NlAdd? || i.NlRemove? || i.NlMapinfo? ==> Step(d, i) == Handler(d, i)
  {
    hide Step, Handler;
    StepIs(d, i);
    if !i.Wire? {
      NetlinkResendsNothing(d, i);
    }
  }

  // ----- the invariant of both lists

  ghost predicate DaemonOk(d: Daemon) {
    && TableOk(d.ports)
    && RequestsOk(d.reqs)
    && (forall k :: 0 <= k < |d.ports| ==> d.ports[k].id < d.nextPort)
    && (forall k :: 0 <= k < |d.reqs| ==> d.reqs[k].id < d.nextReq)
  }

  /** A claim on a consistent table: a listed entry counted once more, or a new entry whose
      address nothing in the table answers. */
  ghost predicate ClaimOk(d: Daemon, c: Claim) {
    || (c.at < |d.ports| && c == ClaimListed(d, c.at))
    || (c == ClaimNew(d, c.port) && c.port.id == d.nextPort && EntryOk(c.port) && c.port.refCnt == 1
        && FindMapping(d.ports, c.port.local, Local) == |d.ports|)
  }

  lemma CommitKeeps(d: Daemon, c: Claim)
    requires DaemonOk(d) && ClaimOk(d, c)
    ensures DaemonOk(Commit(d, c))
  {
    if c.at < |d.ports| {
      RefChangeKeepsTable(d.ports, c.at, d.ports[c.at].refCnt + 1);
    } else {
      EnlistKeepsTable(d.ports, c.port);
    }
  }

  /** An error exit leaves the listed objects exactly as they were. */
  lemma AbortRestores(d: Daemon, c: Claim)
    requires DaemonOk(d) && ClaimOk(d, c)
    ensures Abort(d, c).d == d.(nextPort := c.nextPort)
  {
    if c.at < |d.ports| {
      assert c.ports[c.at := d.ports[c.at]] == d.ports;
    }
  }

  lemma PushKeeps(d: Daemon, r: MapRequest)
    requires DaemonOk(d) && RequestOk(r) && r.id == d.nextReq
    ensures DaemonOk(d.(reqs := [r] + d.reqs, nextReq := d.nextReq + 1))
  {
  }

  lemma ServiceKeeps(d: Daemon, n: nat)
    requires DaemonOk(d) && n < |d.reqs|
    ensures DaemonOk(d.(reqs := d.reqs[n := Serviced(d.reqs[n])]))
  {
  }

  lemma AddKeeps(d: Daemon, i: Input)
    requires DaemonOk(d) && i.NlAdd?
    ensures DaemonOk(AddMapping(d, i).d)
  {
    var k := FindMapping(d.ports, i.local, Local);
    if k < |d.ports| {
      FinishKeeps(d, ClaimListed(d, k));
    } else {
      var e := Create(d.nextPort, i.client, i.local, i.noMap, i.portEnv);
      if e.Some? {
        FinishKeeps(d, ClaimNew(d, e.value));
      }
    }
  }

  lemma FinishKeeps(d: Daemon, c: Claim)
    requires DaemonOk(d) && ClaimOk(d, c)
    ensures DaemonOk(Commit(d, c)) && DaemonOk(Abort(d, c).d)
  {
    CommitKeeps(d, c);
    AbortRestores(d, c);
  }

  lemma QueryKeeps(d: Daemon, i: Input)
    requires DaemonOk(d) && i.NlQuery?
    ensures DaemonOk(QueryMapping(d, i).d)
  {
    var k := FindMapping(d.ports, i.local, Local);
    if k < |d.ports| {
      FinishQueryKeeps(d, ClaimListed(d, k), i);
    } else {
      var e := Create(d.nextPort, i.client, i.local, i.noMap, i.portEnv);
      if e.Some? {
        FinishQueryKeeps(d, ClaimNew(d, e.value), i);
      }
    }
  }

  lemma FinishQueryKeeps(d: Daemon, c: Claim, i: Input)
    requires DaemonOk(d) && ClaimOk(d, c) && i.NlQuery?
    ensures DaemonOk(FinishQuery(d, c, i).d)
  {
    FinishKeeps(d, c);
    if i.env.address.Some? {
      PushKeeps(Commit(d, c), QueryRequest(d, c.port, i));
    }
  }

  lemma RemoveKeeps(d: Daemon, i: Input)
    requires DaemonOk(d) && i.NlRemove?
    ensures DaemonOk(RemoveMapping(d, i).d)
  {
    var k := FindSame(d.ports, i.local, Local);
    if k < |d.ports| {
      WithoutKeepsTable(d.ports, k);
      if d.ports[k].refCnt > 1 {
        RefChangeKeepsTable(d.ports, k, d.ports[k].refCnt - 1);
      }
    }
  }

  lemma CountingKeeps(d: Daemon, client: Client)
    requires DaemonOk(d)
    ensures DaemonOk(Counted(d, client))
  {
  }

  lemma ReopenedIsClaimable(d: Daemon, i: Input)
    requires DaemonOk(d) && i.NlMapinfo? && FindMapping(d.ports, i.local, Local) == |d.ports|
    ensures var e := Reopen(d.nextPort, i.client, i.local, i.mapped, i.noMap, i.portEnv);
            e.Some? ==> ClaimOk(d, ClaimNew(d, e.value))
  {
    hide FindMapping, DaemonOk;
  }

  lemma MapinfoKeeps(d: Daemon, i: Input)
    requires DaemonOk(d) && i.NlMapinfo?
    ensures DaemonOk(Mapinfo(d, i).d)
  {
    hide DaemonOk, ClaimOk, FindMapping, Reopen, Counted, Commit, ClaimNew;
    CountingKeeps(d, i.client);
    if FindMapping(d.ports, i.local, Local) == |d.ports| {
      var e := Reopen(d.nextPort, i.client, i.local, i.mapped, i.noMap, i.portEnv);
      ReopenedIsClaimable(d, i);
      if e.Some? {
        CommitKeeps(d, ClaimNew(d, e.value));
        CountingKeeps(Commit(d, ClaimNew(d, e.value)), i.client);
      }
    }
  }

  lemma RequestKeeps(d: Daemon, from: Addr, m: Msg, env: WireEnv)
    requires DaemonOk(d) && m.Req?
    ensures DaemonOk(WireRequest(d, from, m, env).d)
  {
    var k := FindMapping(d.ports, m.ap, Local);
    if k < |d.ports| && env.address.Some? {
      var r := AcceptRequest(d, from, m, MappedFor(d.ports[k], m.ap, env.alienMapped), env.address.value);
      PushKeeps(d, r);
    }
  }

  lemma AcceptKeeps(d: Daemon, from: Addr, m: Msg, env: WireEnv)
    requires DaemonOk(d) && m.Acc?
    ensures DaemonOk(WireAccept(d, from, m, env).d)
  {
    var k := FindSame(d.ports, m.cp, Local);
    if k < |d.ports| {
      var n := FindRequest(d.reqs, m.handle, d.ports[k].local, {QueryReq, AckReq});
      if n < |d.reqs| {
        ServiceKeeps(d, n);
        if env.address.Some? {
          assert RequestOk(d.reqs[n]);
          var d1, r := d.(reqs := d.reqs[n := Serviced(d.reqs[n])]), AckRequest(d, d.reqs[n], env.address.value);
          assert RequestOk(r);
          hide DaemonOk, FindRequest, FindSame;
          PushKeeps(d1, r);
        }
      }
    }
  }

  lemma AnswerKeeps(d: Daemon, from: Addr, m: Msg, env: WireEnv)
    requires DaemonOk(d) && (m.Rej? || m.Ack?)
    ensures DaemonOk(OnWire(d, from, m, env).d)
  {
    forall n: nat | n < |d.reqs| ensures DaemonOk(d.(reqs := d.reqs[n := Serviced(d.reqs[n])])) {
      ServiceKeeps(d, n);
    }
    hide DaemonOk;
  }

  lemma WireKeeps(d: Daemon, from: Addr, m: Msg, env: WireEnv)
    requires DaemonOk(d)
    ensures DaemonOk(OnWire(d, from, m, env).d)
  {
    hide DaemonOk, WireRequest, WireAccept;
    match m
    case Req(_, _, _, _) => RequestKeeps(d, from, m, env);
    case Acc(_, _, _) => AcceptKeeps(d, from, m, env);
    case Rej(_, _, _) => AnswerKeeps(d, from, m, env);
    case Ack(_, _, _) => AnswerKeeps(d, from, m, env);
  }

  lemma HandlerKeeps(d: Daemon, i: Input)
    requires DaemonOk(d)
    ensures DaemonOk(Handler(d, i).d)
  {
    hide DaemonOk, AddMapping, QueryMapping, RemoveMapping, Mapinfo, OnWire;
    match i
    case NlAdd(_, _, _, _, _, _) => AddKeeps(d, i);
    case NlQuery(_, _, _, _, _, _, _) => QueryKeeps(d, i);
    case NlRemove(_, _) => RemoveKeeps(d, i);
    case NlMapinfo(_, _, _, _, _, _) => MapinfoKeeps(d, i);
    case Wire(from, m, env) => WireKeeps(d, from, m, env);
    case Tick =>
  }

  ghost predicate Carries(q: seq<MapRequest>, id: nat) {
    exists k :: 0 <= k < |q| && q[k].id == id
  }

  /** What sweeps leave carries numbers the list carried before. */
  lemma SweepsCarryNumbers(q: seq<MapRequest>, n: nat)
    ensures forall j :: 0 <= j < |Sweeps(q, n)| ==> Carries(q, Sweeps(q, n)[j].id)
  {
    hide Sweeps;
    forall j | 0 <= j < |Sweeps(q, n)| ensures Carries(q, Sweeps(q, n)[j].id) {
      var k := SweepsOrigin(q, n, j);
    }
  }

  /** A list may be replaced behind a point by one that carries no other numbers. */
  lemma BehindReplaced(d: Daemon, c: nat, kept: seq<MapRequest>)
    requires DaemonOk(d) && c <= |d.reqs| && RequestsOk(kept)
    requires forall j :: 0 <= j < |kept| ==> Carries(d.reqs[c..], kept[j].id)
    ensures DaemonOk(d.(reqs := d.reqs[..c] + kept))
  {
    hide RequestOk, TableOk;
    var q := d.reqs[..c] + kept;
    forall j | 0 <= j < |q| ensures RequestOk(q[j]) && q[j].id < d.nextReq {
      assert j >= c ==> q[j] == kept[j - c];
    }
    forall i, j | 0 <= i < j < |q| ensures q[i].id != q[j].id {
      assert j >= c ==> q[j] == kept[j - c];
      assert i >= c ==> q[i] == kept[i - c];
    }
  }

  /** Sweeps of the older part of the list keep the invariant. */
  lemma SweepingKeeps(d: Daemon, c: nat, n: nat)
    requires DaemonOk(d) && c <= |d.reqs|
    ensures DaemonOk(d.(reqs := d.reqs[..c] + Sweeps(d.reqs[c..], n)))
  {
    hide Sweeps, RequestOk, TableOk, Carries;
    var rest := d.reqs[c..];
    assert RequestsOk(rest);
    SweepsKeepRequests(rest, n);
    SweepsCarryNumbers(rest, n);
    BehindReplaced(d, c, Sweeps(rest, n));
  }

  /** Every step keeps the invariant. */
  lemma StepKeeps(d: Daemon, i: Input)
    requires DaemonOk(d)
    ensures DaemonOk(Step(d, i).d)
  {
    hide Step, Handler, DaemonOk;
    StepIs(d, i);
    HandlerKeeps(d, i);
    SweepingKeeps(Handler(d, i).d, FiledBy(d, Handler(d, i)), SweepsIn(i));
  }

  /** In every reachable state both lists are consistent. */
  lemma {:induction false} ReachableOk(ins: seq<Input>, n: nat)
    requires n <= |ins|
    ensures DaemonOk(StateAt(ins, n))
  {
    hide Step;
    if n > 0 {
      ReachableOk(ins, n - 1);
      StepKeeps(StateAt(ins, n - 1), ins[n - 1]);
    }
  }

  /** In every reachable table a fully specified address has at most one hit, wherever the
      entries stand in the list, and what the exact lookup finds is what the wildcard-aware
      lookup finds. */
  lemma ReachableLookups(ins: seq<Input>, n: nat, a: Addr)
    requires n <= |ins|
    ensures var t := StateAt(ins, n).ports;
            && (!IsWild(a) ==> forall i, j ::
                  0 <= i < |t| && 0 <= j < |t| && Hit(t[i], a, Local) && Hit(t[j], a, Local) ==> i == j)
            && (FindSame(t, a, Local) < |t| ==> FindMapping(t, a, Local) == FindSame(t, a, Local))
  {
    hide Step, StateAt;
    ReachableOk(ins, n);
    var t := StateAt(ins, n).ports;
    forall i, j | !IsWild(a) && 0 <= i < |t| && 0 <= j < |t| && Hit(t[i], a, Local) && Hit(t[j], a, Local)
      ensures i == j
    {
      HitIsUnique(t, a, i, j);
    }
    if FindSame(t, a, Local) < |t| {
      ExactImpliesLookup(t, a);
    }
  }
}
