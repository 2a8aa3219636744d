/** Rebuilding the table after a restart from the clients' own records. */
module Recovery {
  import opened Sockaddr
  import opened PortTable
  import opened PortMapper
  import opened DaemonRuns

  /** One mapinfo message about an entry of the lost table: the client that owns it, the two
      addresses and the flag it was mapped with; the port can be bound again. */
  predicate Recalls(i: Input, e: MappedPort) {
    && i.NlMapinfo? && i.client == e.owner && i.local == e.local && i.mapped == e.mapped
    && i.noMap == !e.bound && i.portEnv.bind.Some? && i.portEnv.alloc
  }

  /** Message `n` recalls `es[n]`, an IPv4 or IPv6 entry of `t`. */
  predicate Replay(t: seq<MappedPort>, ins: seq<Input>, es: seq<MappedPort>) {
    && |es| == |ins|
    && forall n :: 0 <= n < |ins| ==> Recalls(ins[n], es[n]) && es[n] in t && Internet(es[n].local.family)
  }

  /** An entry rebuilt from `e`: same owner, addresses and kind, one reference. */
  predicate Rebuilt(f: MappedPort, e: MappedPort) {
    && f.owner == e.owner && f.local == e.local && f.mapped == e.mapped
    && f.wcard == e.wcard && f.bound == e.bound && f.refCnt == 1
  }

  predicate CopiedFrom(f: MappedPort, es: seq<MappedPort>) {
    exists m :: 0 <= m < |es| && Rebuilt(f, es[m])
  }

  predicate CopiedTo(e: MappedPort, u: seq<MappedPort>) {
    exists k :: 0 <= k < |u| && Rebuilt(u[k], e)
  }

  predicate OnlyCopies(u: seq<MappedPort>, es: seq<MappedPort>) {
    forall k :: 0 <= k < |u| ==> CopiedFrom(u[k], es)
  }

  predicate AllCopied(u: seq<MappedPort>, es: seq<MappedPort>) {
    forall m :: 0 <= m < |es| ==> CopiedTo(es[m], u)
  }

  /** Table `u` holds copies of the entries `es` and of nothing else. */
  predicate Mirrors(u: seq<MappedPort>, es: seq<MappedPort>) {
    OnlyCopies(u, es) && AllCopied(u, es)
  }

  /** The address of an entry of `t` hits a rebuilt entry only if it was rebuilt from it. */
  lemma HitsOwnCopy(t: seq<MappedPort>, e: MappedPort, g: MappedPort, f: MappedPort)
    requires TableOk(t) && e in t && g in t && Rebuilt(f, g) && Hit(f, e.local, Local)
    ensures e == g
  {
    var i :| 0 <= i < |t| && t[i] == e;
    var j :| 0 <= j < |t| && t[j] == g;
    assert EntryOk(t[i]) && EntryOk(t[j]);
    assert (i < j ==> Compatible(t[i], t[j])) && (j < i ==> Compatible(t[j], t[i]));
  }

  lemma CopiedFromMore(f: MappedPort, es: seq<MappedPort>, e: MappedPort)
    requires CopiedFrom(f, es) || Rebuilt(f, e)
    ensures CopiedFrom(f, es + [e])
  {
    if CopiedFrom(f, es) {
      var m :| 0 <= m < |es| && Rebuilt(f, es[m]);
      assert (es + [e])[m] == es[m];
    } else {
      assert (es + [e])[|es|] == e;
    }
  }

  lemma CopiedToMore(e: MappedPort, u: seq<MappedPort>, f: MappedPort)
    requires CopiedTo(e, u) || Rebuilt(f, e)
    ensures CopiedTo(e, [f] + u)
  {
    if CopiedTo(e, u) {
      var k :| 0 <= k < |u| && Rebuilt(u[k], e);
      assert ([f] + u)[k + 1] == u[k];
    } else {
      assert ([f] + u)[0] == f;
    }
  }

  lemma MirrorsRepeat(u: seq<MappedPort>, es: seq<MappedPort>, e: MappedPort)
    requires Mirrors(u, es) && CopiedTo(e, u)
    ensures Mirrors(u, es + [e])
  {
    hide CopiedFrom, CopiedTo;
    forall k | 0 <= k < |u| ensures CopiedFrom(u[k], es + [e]) {
      CopiedFromMore(u[k], es, e);
    }
  }

  lemma MirrorsNew(u: seq<MappedPort>, es: seq<MappedPort>, f: MappedPort, e: MappedPort)
    requires Mirrors(u, es) && Rebuilt(f, e)
    ensures Mirrors([f] + u, es + [e])
  {
    hide CopiedFrom, CopiedTo;
    var v, gs := [f] + u, es + [e];
    forall k | 0 <= k < |v| ensures CopiedFrom(v[k], gs) {
      CopiedFromMore(v[k], es, e);
    }
    forall m | 0 <= m < |gs| ensures CopiedTo(gs[m], v) {
      CopiedToMore(gs[m], u, f);
    }
  }

  /** A repeated record finds the entry it made before. */
  lemma RecallFound(t: seq<MappedPort>, d: Daemon, i: Input, es: seq<MappedPort>, e: MappedPort)
    requires TableOk(t) && Recalls(i, e) && e in t && Internet(e.local.family)
    requires OnlyCopies(d.ports, es) && forall m :: 0 <= m < |es| ==> es[m] in t
    requires FindMapping(d.ports, i.local, Local) < |d.ports|
    ensures CopiedTo(e, d.ports) && Mapinfo(d, i) == Result(Counted(d, i.client), QUIET)
  {
    hide TableOk, OnlyCopies;
    var k := FindMapping(d.ports, i.local, Local);
    var m := SourceOf(d.ports, es, k);
    HitsOwnCopy(t, e, es[m], d.ports[k]);
    KnownFamily(t, e);
  }

  lemma KnownFamily(t: seq<MappedPort>, e: MappedPort)
    requires TableOk(t) && e in t
    ensures EntryOk(e)
  {
  }

  /** A first record makes an entry like the lost one. */
  lemma RecallNew(d: Daemon, i: Input, e: MappedPort)
    requires Recalls(i, e) && EntryOk(e) && Internet(e.local.family)
    requires FindMapping(d.ports, i.local, Local) == |d.ports|
    ensures var f := NewPort(d.nextPort, i.client, e.local, e.mapped, e.bound);
            && Rebuilt(f, e) && Mapinfo(d, i).d.ports == [f] + d.ports
            && Mapinfo(d, i).out.notices == [] && Mapinfo(d, i).d.mapinfo == Counted(d, i.client).mapinfo
  {
  }

  /** A message that recalls an entry of the lost table is never an error. */
  lemma RecallStep(t: seq<MappedPort>, d: Daemon, i: Input, es: seq<MappedPort>, e: MappedPort)
    requires TableOk(t) && Recalls(i, e) && e in t && Internet(e.local.family)
    requires Mirrors(d.ports, es) && forall m :: 0 <= m < |es| ==> es[m] in t
    ensures Mapinfo(d, i).out.notices == []
    ensures Mapinfo(d, i).d.mapinfo == Counted(d, i.client).mapinfo
    ensures Mirrors(Mapinfo(d, i).d.ports, es + [e])
  {
    hide AllCopied, OnlyCopies, CopiedTo, Rebuilt, TableOk, Mapinfo, FindMapping, EntryOk;
    if FindMapping(d.ports, i.local, Local) < |d.ports| {
      RecallFound(t, d, i, es, e);
      MirrorsRepeat(d.ports, es, e);
    } else {
      KnownFamily(t, e);
      RecallNew(d, i, e);
      MirrorsNew(d.ports, es, NewPort(d.nextPort, i.client, e.local, e.mapped, e.bound), e);
    }
  }

  lemma SourceOf(u: seq<MappedPort>, es: seq<MappedPort>, k: nat) returns (m: nat)
    requires OnlyCopies(u, es) && k < |u|
    ensures m < |es| && Rebuilt(u[k], es[m])
  {
    assert CopiedFrom(u[k], es);
    m :| 0 <= m < |es| && Rebuilt(u[k], es[m]);
  }

  /** Number of mapinfo messages of `client` among the first `n` inputs. */
  function SentBy(ins: seq<Input>, n: nat, client: Client): nat
    requires n <= |ins|
  {
    if n == 0 then 0
    else SentBy(ins, n - 1, client) + if ins[n - 1].NlMapinfo? && ins[n - 1].client == client then 1 else 0
  }

  ghost predicate Recovered(ins: seq<Input>, es: seq<MappedPort>, n: nat)
    requires n <= |ins| == |es|
  {
    && Mirrors(StateAt(ins, n).ports, es[..n])
    && (forall c: Client :: StateAt(ins, n).mapinfo[c] == SentBy(ins, n, c))
  }

  lemma ReplayStep(t: seq<MappedPort>, ins: seq<Input>, es: seq<MappedPort>, n: nat)
    requires TableOk(t) && Replay(t, ins, es) && n < |ins| && Recovered(ins, es, n)
    ensures Recovered(ins, es, n + 1) && OutAt(ins, n).notices == []
  {
    hide Step, Mapinfo, Mirrors, TableOk;
    var d, i := StateAt(ins, n), ins[n];
    assert Recalls(i, es[n]) && es[n] in t;
    StepIs(d, i);
    HandlerIs(d, i);
    RecallStep(t, d, i, es[..n], es[n]);
    assert es[..n + 1] == es[..n] + [es[n]];
    assert StateAt(ins, n + 1) == Mapinfo(d, i).d;
  }

  lemma {:induction false} ReplaySoFar(t: seq<MappedPort>, ins: seq<Input>, es: seq<MappedPort>, n: nat)
    requires TableOk(t) && Replay(t, ins, es) && n <= |ins|
    ensures Recovered(ins, es, n)
  {
    hide Step;
    if n > 0 {
      ReplaySoFar(t, ins, es, n - 1);
      ReplayStep(t, ins, es, n - 1);
    }
  }

  lemma PairsAgree(t: seq<MappedPort>, u: seq<MappedPort>, es: seq<MappedPort>,
                   owner: Client, local: Addr, mapped: Addr)
    requires Mirrors(u, es) && (forall m :: 0 <= m < |es| ==> es[m] in t) && (forall e :: e in t ==> e in es)
    ensures Pair(t, owner, local, mapped) <==> Pair(u, owner, local, mapped)
  {
    hide OnlyCopies;
    if Pair(t, owner, local, mapped) {
      var k :| 0 <= k < |t| && t[k].owner == owner && t[k].local == local && t[k].mapped == mapped;
      assert t[k] in es;
      var m :| 0 <= m < |es| && es[m] == t[k];
      assert CopiedTo(es[m], u);
    }
    if Pair(u, owner, local, mapped) {
      var k :| 0 <= k < |u| && u[k].owner == owner && u[k].local == local && u[k].mapped == mapped;
      var m := SourceOf(u, es, k);
      assert es[m] in t;
    }
  }

  lemma NoError(t: seq<MappedPort>, ins: seq<Input>, es: seq<MappedPort>, n: nat)
    requires TableOk(t) && Replay(t, ins, es) && n < |ins|
    ensures OutAt(ins, n).notices == []
  {
    hide Step, TableOk, Recovered;
    ReplaySoFar(t, ins, es, n);
    ReplayStep(t, ins, es, n);
  }

  ghost predicate SamePairs(t: seq<MappedPort>, u: seq<MappedPort>) {
    forall owner, local, mapped :: Pair(t, owner, local, mapped) <==> Pair(u, owner, local, mapped)
  }

  lemma ReplayRebuilds(t: seq<MappedPort>, ins: seq<Input>, es: seq<MappedPort>)
    requires TableOk(t) && Replay(t, ins, es) && forall e :: e in t ==> e in es
    ensures SamePairs(t, StateAt(ins, |ins|).ports)
    ensures forall c: Client :: StateAt(ins, |ins|).mapinfo[c] == SentBy(ins, |ins|, c)
  {
    hide Step, TableOk, Mirrors, Pair;
    ReplaySoFar(t, ins, es, |ins|);
    assert es[..|ins|] == es;
    var u := StateAt(ins, |ins|).ports;
    forall owner, local, mapped ensures Pair(t, owner, local, mapped) <==> Pair(u, owner, local, mapped) {
      PairsAgree(t, u, es, owner, local, mapped);
    }
  }

  lemma ReachableTable(ins: seq<Input>, n: nat)
    requires n <= |ins|
    ensures TableOk(StateAt(ins, n).ports)
  {
    hide Step, StateAt;
    ReachableOk(ins, n);
  }

  /** Recovery after restart. Let the lost table be any one reachable before the restart.
      Replaying its (IPv4 or IPv6) entries into a fresh daemon, in any order and with
      repeats but leaving none out, reports no error, rebuilds exactly the same
      local-to-mapped pairs of each client, and counts every message of every client. */
  lemma RecoveryRebuildsTable(before: seq<Input>, ins: seq<Input>, es: seq<MappedPort>)
    requires Replay(StateAt(before, |before|).ports, ins, es)
    requires forall e :: e in StateAt(before, |before|).ports ==> e in es
    ensures forall n :: 0 <= n < |ins| ==> OutAt(ins, n).notices == []
    ensures SamePairs(StateAt(before, |before|).ports, StateAt(ins, |ins|).ports)
    ensures forall c: Client :: StateAt(ins, |ins|).mapinfo[c] == SentBy(ins, |ins|, c)
  {
    hide *;
    var t := StateAt(before, |before|).ports;
    ReachableTable(before, |before|);
    ReplayRebuilds(t, ins, es);
    forall n | 0 <= n < |ins| ensures OutAt(ins, n).notices == [] {
      NoError(t, ins, es, n);
    }
  }

  /** The owner's removal of an entry held by one reference unlinks it. */
  lemma RemovalUnlinks(d: Daemon, k: nat)
    requires TableOk(d.ports) && k < |d.ports| && d.ports[k].refCnt == 1 && Internet(d.ports[k].local.family)
    ensures Step(d, NlRemove(d.ports[k].owner, d.ports[k].local)).d.ports == Without(d.ports, k)
  {
    hide Step;
    var e := d.ports[k];
    StepIs(d, NlRemove(e.owner, e.local));
    var n := FindSame(d.ports, e.local, Local);
    assert Same(e.local, d.ports[k].local);
    assert n < k ==> Compatible(d.ports[n], d.ports[k]);
  }

  /** What recovery does not restore: every rebuilt entry is back at one reference, so the
      owner's first removal unlinks it, however many references it had before. */
  lemma RecoveryForgetsReferences(t: seq<MappedPort>, ins: seq<Input>, es: seq<MappedPort>, k: nat)
    requires TableOk(t) && Replay(t, ins, es) && k < |StateAt(ins, |ins|).ports|
    ensures var d := StateAt(ins, |ins|);
            && d.ports[k].refCnt == 1
            && Step(d, NlRemove(d.ports[k].owner, d.ports[k].local)).d.ports == Without(d.ports, k)
  {
    hide Step, TableOk, Without;
    var d := StateAt(ins, |ins|);
    ReplaySoFar(t, ins, es, |ins|);
    assert CopiedFrom(d.ports[k], es[..|ins|]);
    var m :| 0 <= m < |ins| && Rebuilt(d.ports[k], es[..|ins|][m]);
    ReachableTable(ins, |ins|);
    RemovalUnlinks(d, k);
  }
}
