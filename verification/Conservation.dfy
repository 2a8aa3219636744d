/** Reference counting of mapped-port objects over whole runs. */
module Conservation {
  import opened Sockaddr
  import opened PortTable
  import opened MapRequests
  import opened PortMapper
  import opened DaemonRuns

  function EventsUpTo(ins: seq<Input>, n: nat): seq<Event>
    requires n <= |ins|
  {
    if n == 0 then [] else EventsUpTo(ins, n - 1) + OutAt(ins, n - 1).events
  }

  function KeptCount(h: seq<Event>, id: nat): nat { multiset(h)[Kept(id)] }

  function DroppedCount(h: seq<Event>, id: nat): nat { multiset(h)[Dropped(id)] }

  function FreedCount(h: seq<Event>, id: nat): nat { multiset(h)[Freed(id)] }

  predicate Listed(t: seq<MappedPort>, id: nat) {
    exists k :: 0 <= k < |t| && t[k].id == id
  }

  /** The books of one object: while linked, its count is references kept minus references
      dropped and it was never freed; once unlinked, the references cancel and an object
      that ever existed was freed exactly once. */
  ghost predicate Account(d: Daemon, h: seq<Event>, id: nat) {
    && (forall k :: 0 <= k < |d.ports| && d.ports[k].id == id ==>
          d.ports[k].refCnt == KeptCount(h, id) - DroppedCount(h, id))
    && (Listed(d.ports, id) ==> FreedCount(h, id) == 0)
    && (!Listed(d.ports, id) ==>
          && KeptCount(h, id) == DroppedCount(h, id)
          && FreedCount(h, id) == if id < d.nextPort then 1 else 0)
  }

  ghost predicate Conserved(d: Daemon, h: seq<Event>) {
    forall id: nat :: Account(d, h, id)
  }

  lemma CountsAfter(h: seq<Event>, x: Event, id: nat)
    ensures KeptCount(h + [x], id) == KeptCount(h, id) + if x == Kept(id) then 1 else 0
    ensures DroppedCount(h + [x], id) == DroppedCount(h, id) + if x == Dropped(id) then 1 else 0
    ensures FreedCount(h + [x], id) == FreedCount(h, id) + if x == Freed(id) then 1 else 0
  {
  }

  lemma RefChangeConserves(d: Daemon, h: seq<Event>, k: nat, up: bool)
    requires DaemonOk(d) && Conserved(d, h) && k < |d.ports|
    ensures
      var e := d.ports[k];
      var e' := e.(refCnt := e.refCnt + if up then 1 else -1);
      Conserved(d.(ports := d.ports[k := e']), h + [if up then Kept(e.id) else Dropped(e.id)])
  {
    var e := d.ports[k];
    var e' := e.(refCnt := e.refCnt + if up then 1 else -1);
    var d' := d.(ports := d.ports[k := e']);
    var h' := h + [if up then Kept(e.id) else Dropped(e.id)];
    forall id: nat ensures Account(d', h', id) {
      assert Account(d, h, id);
      assert forall j :: 0 <= j < |d.ports| ==> d'.ports[j].id == d.ports[j].id;
      assert d.ports[k].id == d'.ports[k].id == e.id;
      assert Listed(d'.ports, id) <==> Listed(d.ports, id);
    }
  }

  lemma LinkConserves(d: Daemon, h: seq<Event>, e: MappedPort)
    requires DaemonOk(d) && Conserved(d, h) && e.id == d.nextPort && e.refCnt == 1
    ensures Conserved(d.(ports := [e] + d.ports, nextPort := d.nextPort + 1), h + [Kept(e.id)])
  {
    var d' := d.(ports := [e] + d.ports, nextPort := d.nextPort + 1);
    var h' := h + [Kept(e.id)];
    assert d'.ports[0] == e;
    assert forall j :: 0 < j < |d'.ports| ==> d'.ports[j] == d.ports[j - 1];
    forall id: nat ensures Account(d', h', id) {
      assert Account(d, h, id);
      CountsAfter(h, Kept(e.id), id);
      if id != e.id && Listed(d.ports, id) {
        var j :| 0 <= j < |d.ports| && d.ports[j].id == id;
        assert d'.ports[j + 1].id == id;
      }
    }
  }

  lemma DiscardConserves(d: Daemon, h: seq<Event>)
    requires DaemonOk(d) && Conserved(d, h)
    ensures Conserved(d.(nextPort := d.nextPort + 1), h + [Freed(d.nextPort)])
  {
    var d', h' := d.(nextPort := d.nextPort + 1), h + [Freed(d.nextPort)];
    forall id: nat ensures Account(d', h', id) {
      assert Account(d, h, id);
    }
  }

  lemma WithoutLists(t: seq<MappedPort>, k: nat, id: nat)
    requires k < |t| && forall i, j :: 0 <= i < j < |t| ==> t[i].id != t[j].id
    ensures Listed(Without(t, k), id) <==> Listed(t, id) && id != t[k].id
    ensures forall j :: 0 <= j < |Without(t, k)| ==> Without(t, k)[j] == t[if j < k then j else j + 1]
  {
    var u := Without(t, k);
    assert forall j :: 0 <= j < |u| ==> u[j] == t[if j < k then j else j + 1];
    if Listed(t, id) && id != t[k].id {
      var j :| 0 <= j < |t| && t[j].id == id;
      assert u[if j < k then j else j - 1].id == id;
    }
  }

  lemma UnlinkConserves(d: Daemon, h: seq<Event>, k: nat)
    requires DaemonOk(d) && Conserved(d, h) && k < |d.ports| && d.ports[k].refCnt == 1
    ensures Conserved(d.(ports := Without(d.ports, k)), h + [Dropped(d.ports[k].id), Freed(d.ports[k].id)])
  {
    var e, t := d.ports[k], Without(d.ports, k);
    var h1 := h + [Dropped(e.id)];
    assert h + [Dropped(e.id), Freed(e.id)] == h1 + [Freed(e.id)];
    assert e.id < d.nextPort;
    forall id: nat ensures Account(d.(ports := t), h1 + [Freed(e.id)], id) {
      assert Account(d, h, id);
      CountsAfter(h, Dropped(e.id), id);
      CountsAfter(h1, Freed(e.id), id);
      WithoutLists(d.ports, k, id);
      hide Listed, KeptCount, DroppedCount, FreedCount, Without, DaemonOk;
      assert Listed(d.ports, e.id) by {
        IsListed(d.ports, k);
      }
    }
  }

  lemma IsListed(t: seq<MappedPort>, k: nat)
    requires k < |t|
    ensures Listed(t, t[k].id)
  {
  }

  lemma CommitConserves(d: Daemon, h: seq<Event>, c: Claim)
    requires DaemonOk(d) && Conserved(d, h) && ClaimOk(d, c)
    ensures Conserved(Commit(d, c), h + [Kept(c.port.id)])
  {
    if c.at < |d.ports| {
      RefChangeConserves(d, h, c.at, true);
    } else {
      LinkConserves(d, h, c.port);
    }
  }

  lemma AbortConserves(d: Daemon, h: seq<Event>, c: Claim)
    requires DaemonOk(d) && Conserved(d, h) && ClaimOk(d, c)
    ensures Conserved(Abort(d, c).d, h + Abort(d, c).out.events)
  {
    AbortRestores(d, c);
    if c.at < |d.ports| {
      assert h + [] == h;
    } else {
      DiscardConserves(d, h);
    }
  }

  /** Books depend on the table and the history only. */
  lemma SameTableConserves(d: Daemon, d': Daemon, h: seq<Event>)
    requires Conserved(d, h) && d'.ports == d.ports && d'.nextPort == d.nextPort
    ensures Conserved(d', h) && h + [] == h
  {
    forall id: nat ensures Account(d', h, id) {
      assert Account(d, h, id);
    }
  }

  lemma FinishQueryConserves(d: Daemon, h: seq<Event>, c: Claim, i: Input)
    requires DaemonOk(d) && Conserved(d, h) && ClaimOk(d, c) && i.NlQuery?
    ensures Conserved(FinishQuery(d, c, i).d, h + FinishQuery(d, c, i).out.events)
  {
    CommitConserves(d, h, c);
    AbortConserves(d, h, c);
    var r := FinishQuery(d, c, i);
    if r.d.ports == Commit(d, c).ports && r.d.nextPort == c.nextPort && r.out.events == [Kept(c.port.id)] {
      SameTableConserves(Commit(d, c), r.d, h + [Kept(c.port.id)]);
    }
  }

  lemma QueryConserves(d: Daemon, h: seq<Event>, i: Input)
    requires DaemonOk(d) && Conserved(d, h) && i.NlQuery?
    ensures Conserved(QueryMapping(d, i).d, h + QueryMapping(d, i).out.events)
  {
    var k := FindMapping(d.ports, i.local, Local);
    if k < |d.ports| {
      FinishQueryConserves(d, h, ClaimListed(d, k), i);
    } else {
      var e := Create(d.nextPort, i.client, i.local, i.noMap, i.portEnv);
      if e.Some? {
        FinishQueryConserves(d, h, ClaimNew(d, e.value), i);
      } else {
        SameTableConserves(d, d, h);
      }
    }
  }

  lemma AddConserves(d: Daemon, h: seq<Event>, i: Input)
    requires DaemonOk(d) && Conserved(d, h) && i.NlAdd?
    ensures Conserved(AddMapping(d, i).d, h + AddMapping(d, i).out.events)
  {
    SameTableConserves(d, d, h);
    var k := FindMapping(d.ports, i.local, Local);
    if k < |d.ports| {
      CommitConserves(d, h, ClaimListed(d, k));
      AbortConserves(d, h, ClaimListed(d, k));
    } else {
      var e := Create(d.nextPort, i.client, i.local, i.noMap, i.portEnv);
      if e.Some? {
        CommitConserves(d, h, ClaimNew(d, e.value));
        AbortConserves(d, h, ClaimNew(d, e.value));
      }
    }
  }

  lemma RemoveConserves(d: Daemon, h: seq<Event>, i: Input)
    requires DaemonOk(d) && Conserved(d, h) && i.NlRemove?
    ensures Conserved(RemoveMapping(d, i).d, h + RemoveMapping(d, i).out.events)
  {
    SameTableConserves(d, d, h);
    var k := FindSame(d.ports, i.local, Local);
    if k < |d.ports| && d.ports[k].owner == i.client {
      if d.ports[k].refCnt == 1 {
        UnlinkConserves(d, h, k);
      } else {
        RefChangeConserves(d, h, k, false);
      }
    }
  }

  lemma MapinfoConserves(d: Daemon, h: seq<Event>, i: Input)
    requires DaemonOk(d) && Conserved(d, h) && i.NlMapinfo?
    ensures Conserved(Mapinfo(d, i).d, h + Mapinfo(d, i).out.events)
  {
    SameTableConserves(d, d, h);
    SameTableConserves(d, Counted(d, i.client), h);
    if FindMapping(d.ports, i.local, Local) == |d.ports| {
      var e := Reopen(d.nextPort, i.client, i.local, i.mapped, i.noMap, i.portEnv);
      if e.Some? {
        var c := ClaimNew(d, e.value);
        CommitConserves(d, h, c);
        SameTableConserves(Commit(d, c), Counted(Commit(d, c), i.client), h + [Kept(e.value.id)]);
      }
    }
  }

  /** Wire messages never touch the mapped ports. */
  lemma WireKeepsPorts(d: Daemon, from: Addr, m: Msg, env: WireEnv)
    ensures OnWire(d, from, m, env).d.ports == d.ports
    ensures OnWire(d, from, m, env).d.nextPort == d.nextPort
    ensures OnWire(d, from, m, env).out.events == []
  {
    match m
    case Req(_, _, _, _) => assert WireRequest(d, from, m, env).d.ports == d.ports;
    case Acc(_, _, _) => assert WireAccept(d, from, m, env).d.ports == d.ports;
    case Rej(_, _, _) => assert WireReject(d, m, env).d.ports == d.ports;
    case Ack(_, _, _) => assert WireAck(d, m).d.ports == d.ports;
  }

  lemma HandlerConserves(d: Daemon, h: seq<Event>, i: Input)
    requires DaemonOk(d) && Conserved(d, h)
    ensures Conserved(Handler(d, i).d, h + Handler(d, i).out.events)
  {
    match i
    case NlAdd(_, _, _, _, _, _) => AddConserves(d, h, i);
    case NlQuery(_, _, _, _, _, _, _) => QueryConserves(d, h, i);
    case NlRemove(_, _) => RemoveConserves(d, h, i);
    case NlMapinfo(_, _, _, _, _, _) => MapinfoConserves(d, h, i);
    case Wire(from, m, env) =>
      hide OnWire;
      WireKeepsPorts(d, from, m, env);
      SameTableConserves(d, OnWire(d, from, m, env).d, h);
    case Tick => SameTableConserves(d, d, h);
  }

  lemma StepConserves(d: Daemon, h: seq<Event>, i: Input)
    requires DaemonOk(d) && Conserved(d, h)
    ensures Conserved(Step(d, i).d, h + Step(d, i).out.events)
  {
    hide Step, Handler, Conserved;
    StepIs(d, i);
    HandlerConserves(d, h, i);
    SameTableConserves(Handler(d, i).d, Step(d, i).d, h + Handler(d, i).out.events);
  }

  /** Reference conservation: in every run the books of every object balance. */
  lemma {:induction false} ReferencesConserved(ins: seq<Input>, n: nat)
    requires n <= |ins|
    ensures Conserved(StateAt(ins, n), EventsUpTo(ins, n))
  {
    hide Step;
    if n > 0 {
      ReferencesConserved(ins, n - 1);
      ReachableOk(ins, n - 1);
      StepConserves(StateAt(ins, n - 1), EventsUpTo(ins, n - 1), ins[n - 1]);
    }
  }

  /** Consequences for one object: a linked object is linked once, holds at least one
      reference and is not freed; and no object is ever freed twice. */
  lemma NoDoubleFree(ins: seq<Input>, n: nat, id: nat)
    requires n <= |ins|
    ensures FreedCount(EventsUpTo(ins, n), id) <= 1
    ensures var t := StateAt(ins, n).ports;
            forall j, k :: 0 <= j < k < |t| ==> !(t[j].id == id && t[k].id == id)
    ensures Listed(StateAt(ins, n).ports, id) <==>
            KeptCount(EventsUpTo(ins, n), id) > DroppedCount(EventsUpTo(ins, n), id)
    ensures id < StateAt(ins, n).nextPort ==>
              (FreedCount(EventsUpTo(ins, n), id) == 1 <==>
               KeptCount(EventsUpTo(ins, n), id) == DroppedCount(EventsUpTo(ins, n), id))
  {
    hide Step;
    ReferencesConserved(ins, n);
    ReachableOk(ins, n);
    assert Account(StateAt(ins, n), EventsUpTo(ins, n), id);
  }

  // ----- which requests take and give up references

  /** Number of the entry that answers `a`, or of the one that would be created for it. */
  function EntryFor(d: Daemon, a: Addr): nat {
    var k := FindMapping(d.ports, a, Local);
    if k < |d.ports| then d.ports[k].id else d.nextPort
  }

  /** The input takes a reference on object `id`: an add that was answered, a query that was
      filed, or a mapinfo message that added an entry. */
  predicate Takes(d: Daemon, i: Input, id: nat) {
    match i
    case NlAdd(_, _, local, _, _, _) =>
      var notices := Step(d, i).out.notices;
      id == EntryFor(d, local) && |notices| == 1 && notices[0].AddReply?
    case NlQuery(_, _, local, _, _, _, _) => id == EntryFor(d, local) && Step(d, i).d.nextReq == d.nextReq + 1
    case NlMapinfo(_, _, local, _, _, _) => id == EntryFor(d, local) && |Step(d, i).d.ports| == |d.ports| + 1
    case NlRemove(_, _) => false
    case Wire(_, _, _) => false
    case Tick => false
  }

  /** The input gives a reference on object `id` up: its owner removes the mapping. */
  predicate GivesUp(d: Daemon, i: Input, id: nat) {
    && i.NlRemove?
    && var k := FindSame(d.ports, i.local, Local);
       k < |d.ports| && d.ports[k].owner == i.client && d.ports[k].id == id
  }

  /** The events an input has for object `id`. */
  ghost predicate Events(d: Daemon, i: Input, id: nat) {
    && KeptCount(Step(d, i).out.events, id) == (if Takes(d, i, id) then 1 else 0)
    && DroppedCount(Step(d, i).out.events, id) == (if GivesUp(d, i, id) then 1 else 0)
  }

  lemma AddingEvents(d: Daemon, c: Claim, i: Input, id: nat)
    requires i.NlAdd?
    ensures var r := FinishAdd(d, c, i);
            && KeptCount(r.out.events, id)
               == (if id == c.port.id && |r.out.notices| == 1 && r.out.notices[0].AddReply? then 1 else 0)
            && DroppedCount(r.out.events, id) == 0
  {
    hide Commit;
  }

  lemma AddEvents(d: Daemon, i: Input, id: nat)
    requires i.NlAdd?
    ensures Events(d, i, id)
  {
    hide Step, Handler, FindMapping, FinishAdd, Sweeps, ResentIn;
    StepIs(d, i);
    HandlerIs(d, i);
    var k := FindMapping(d.ports, i.local, Local);
    var e := Create(d.nextPort, i.client, i.local, i.noMap, i.portEnv);
    if k < |d.ports| {
      AddingEvents(d, ClaimListed(d, k), i, id);
    } else if e.Some? {
      AddingEvents(d, ClaimNew(d, e.value), i, id);
    }
  }

  lemma FilingEvents(d: Daemon, c: Claim, i: Input, id: nat)
    requires i.NlQuery?
    ensures var r := FinishQuery(d, c, i);
            && KeptCount(r.out.events, id) == (if id == c.port.id && r.d.nextReq == d.nextReq + 1 then 1 else 0)
            && DroppedCount(r.out.events, id) == 0
  {
    hide Commit, QueryRequest;
  }

  lemma QueryEvents(d: Daemon, i: Input, id: nat)
    requires i.NlQuery?
    ensures Events(d, i, id)
  {
    hide Step, Handler, FindMapping, FinishQuery, Sweeps, ResentIn;
    StepIs(d, i);
    HandlerIs(d, i);
    var k := FindMapping(d.ports, i.local, Local);
    var e := Create(d.nextPort, i.client, i.local, i.noMap, i.portEnv);
    if k < |d.ports| {
      FilingEvents(d, ClaimListed(d, k), i, id);
    } else if e.Some? {
      FilingEvents(d, ClaimNew(d, e.value), i, id);
    }
  }

  lemma RemoveEvents(d: Daemon, i: Input, id: nat)
    requires i.NlRemove?
    ensures Events(d, i, id)
  {
    hide Step, Handler, FindSame, Sweeps, ResentIn;
    StepIs(d, i);
    HandlerIs(d, i);
  }

  lemma MapinfoEvents(d: Daemon, i: Input, id: nat)
    requires i.NlMapinfo?
    ensures Events(d, i, id)
  {
    hide Step, Handler, FindMapping, Sweeps, ResentIn;
    StepIs(d, i);
    HandlerIs(d, i);
  }

  lemma InputEvents(d: Daemon, i: Input, id: nat)
    ensures Events(d, i, id)
  {
    hide Step, Handler, OnWire, Sweeps, ResentIn;
    match i
    case NlAdd(_, _, _, _, _, _) => AddEvents(d, i, id);
    case NlQuery(_, _, _, _, _, _, _) => QueryEvents(d, i, id);
    case NlRemove(_, _) => RemoveEvents(d, i, id);
    case NlMapinfo(_, _, _, _, _, _) => MapinfoEvents(d, i, id);
    case Wire(from, m, env) => WireEvents(d, i, id);
    case Tick =>
      StepIs(d, i);
      HandlerIs(d, i);
  }

  lemma WireEvents(d: Daemon, i: Input, id: nat)
    requires i.Wire?
    ensures Events(d, i, id)
  {
    hide Step, OnWire, Sweeps, ResentIn;
    StepIs(d, i);
    WireKeepsPorts(d, i.from, i.msg, i.env);
  }

  /** References taken on object `id` by the first `n` inputs of a run. */
  function Taken(ins: seq<Input>, n: nat, id: nat): nat
    requires n <= |ins|
  {
    if n == 0 then 0
    else Taken(ins, n - 1, id) + if Takes(StateAt(ins, n - 1), ins[n - 1], id) then 1 else 0
  }

  /** References on object `id` given up by the first `n` inputs of a run. */
  function GivenUp(ins: seq<Input>, n: nat, id: nat): nat
    requires n <= |ins|
  {
    if n == 0 then 0
    else GivenUp(ins, n - 1, id) + if GivesUp(StateAt(ins, n - 1), ins[n - 1], id) then 1 else 0
  }

  lemma {:induction false} EventsCountInputs(ins: seq<Input>, n: nat, id: nat)
    requires n <= |ins|
    ensures KeptCount(EventsUpTo(ins, n), id) == Taken(ins, n, id)
    ensures DroppedCount(EventsUpTo(ins, n), id) == GivenUp(ins, n, id)
  {
    hide Step, Takes, GivesUp;
    if n > 0 {
      EventsCountInputs(ins, n - 1, id);
      InputEvents(StateAt(ins, n - 1), ins[n - 1], id);
    }
  }

  /** In every run, the count of a listed object is the number of adds answered, queries filed
      and mapinfo entries made for it, minus the removals by its owner. */
  lemma CountIsRequests(ins: seq<Input>, n: nat, k: nat)
    requires n <= |ins| && k < |StateAt(ins, n).ports|
    ensures var e := StateAt(ins, n).ports[k];
            e.refCnt == Taken(ins, n, e.id) - GivenUp(ins, n, e.id) >= 1
  {
    hide Step, Takes, GivesUp, KeptCount, DroppedCount, FreedCount, EventsUpTo;
    var e := StateAt(ins, n).ports[k];
    ReferencesConserved(ins, n);
    ReachableOk(ins, n);
    EventsCountInputs(ins, n, e.id);
    assert Account(StateAt(ins, n), EventsUpTo(ins, n), e.id) && EntryOk(e);
  }
}
