/** Retransmitted requests at the accepting daemon. */
module Suppression {
  import opened Basics
  import opened Sockaddr
  import opened PortTable
  import opened MapRequests
  import opened PortMapper
  import opened DaemonRuns
  import opened Outcomes

  predicate SameAccept(r: MapRequest, s: MapRequest) {
    r.kind == AcceptReq && s.kind == AcceptReq && r.handle == s.handle && Same(r.src, s.src)
  }

  /** No two ACCEPT entries were filed for the same handle and mapped address. */
  predicate AcceptsUnique(q: seq<MapRequest>) {
    forall i, j :: 0 <= i < j < |q| ==> !SameAccept(q[i], q[j])
  }

  /** The input is not a request with handle zero. */
  predicate NonZero(i: Input) {
    i.Wire? && i.msg.Req? ==> i.msg.handle != 0
  }

  lemma SweepKeepsUnique(q: seq<MapRequest>)
    requires AcceptsUnique(q)
    ensures AcceptsUnique(Sweep(q))
  {
    var u := Sweep(q);
    forall i, j | 0 <= i < j < |u| ensures !SameAccept(u[i], u[j]) {
      var k := SweepOrigin(q, i);
      var l := SweepOrigin(q, j);
      if l < k {
        RankMonotone(q, l, k);
      }
      assert !SameAccept(q[k], q[l]);
    }
  }

  lemma ServicedKeepsUnique(q: seq<MapRequest>, n: nat)
    requires AcceptsUnique(q)
    ensures AcceptsUnique(WithServiced(q, n))
  {
    var u := WithServiced(q, n);
    forall j, k | 0 <= j < k < |u| ensures !SameAccept(u[j], u[k]) {
      assert !SameAccept(q[j], q[k]);
    }
  }

  lemma PushKeepsUnique(r: MapRequest, q: seq<MapRequest>)
    requires AcceptsUnique(q) && forall k :: 0 <= k < |q| ==> !SameAccept(r, q[k])
    ensures AcceptsUnique([r] + q)
  {
    var u := [r] + q;
    forall j, k | 0 <= j < k < |u| ensures !SameAccept(u[j], u[k]) {
      assert u[k] == q[k - 1] && (j > 0 ==> u[j] == q[j - 1]);
    }
  }

  lemma {:induction false} SweepsKeepUnique(q: seq<MapRequest>, n: nat)
    requires AcceptsUnique(q)
    ensures AcceptsUnique(Sweeps(q, n))
    decreases n
  {
    if n > 0 {
      SweepKeepsUnique(q);
      SweepsKeepUnique(Sweep(q), n - 1);
    }
  }

  /** A new ACCEPT entry is filed only when the search found no other one. */
  lemma NewAcceptIsUnique(d: Daemon, i: Input, r: MapRequest, k: nat)
    requires Pushable(d, i, r) && NonZero(i) && k < |d.reqs|
    ensures !SameAccept(r, Updated(d, i)[k])
  {
    hide Target;
    assert r.kind == AcceptReq ==> !Answers(d.reqs[k], i.msg.handle, r.src, {AcceptReq});
  }

  lemma AdvanceKeepsUnique(d: Daemon, i: Input, r: Result)
    requires Advance(d, i, r) && AcceptsUnique(d.reqs) && NonZero(i)
    ensures AcceptsUnique(r.d.reqs)
  {
    hide AcceptsUnique, Pushable, Target, ResentIn;
    var push: seq<MapRequest> :| Shape(d, i, r, push);
    var q := Sweeps(Updated(d, i), SweepsIn(i));
    ServicedKeepsUnique(d.reqs, Target(d, i));
    SweepsKeepUnique(Updated(d, i), SweepsIn(i));
    hide Sweeps, Updated, NonZero;
    if push == [] {
      assert push + q == q;
    } else {
      forall k | 0 <= k < |q| ensures !SameAccept(push[0], q[k]) {
        var l := SweepsOrigin(Updated(d, i), SweepsIn(i), k);
        NewAcceptIsUnique(d, i, push[0], l);
      }
      PushKeepsUnique(push[0], q);
      assert push + q == [push[0]] + q;
    }
  }

  lemma StepKeepsUnique(d: Daemon, i: Input)
    requires DaemonOk(d) && AcceptsUnique(d.reqs) && NonZero(i)
    ensures AcceptsUnique(Step(d, i).d.reqs)
  {
    hide Step;
    StepAdvances(d, i);
    AdvanceKeepsUnique(d, i, Step(d, i));
  }

  /** Duplicate suppression: in every run that receives no zero handle, the list never
      holds two ACCEPT entries for the same handle and mapped address. */
  lemma {:induction false} AcceptsStayUnique(ins: seq<Input>, n: nat)
    requires n <= |ins| && forall k :: 0 <= k < n ==> NonZero(ins[k])
    ensures AcceptsUnique(StateAt(ins, n).reqs)
  {
    hide Step;
    if n > 0 {
      AcceptsStayUnique(ins, n - 1);
      ReachableOk(ins, n - 1);
      StepKeepsUnique(StateAt(ins, n - 1), ins[n - 1]);
    }
  }

  /** The outcomes under which a request can be accepted at all. */
  predicate Succeeds(env: WireEnv) {
    env.buffer && env.address.Some? && env.queued && env.delivered
  }

  /** Delivering an accepted request once more changes nothing and tells nobody exactly
      when its handle is not zero: a zero handle is replaced by the address of the new
      entry, so no later copy can find that entry. */
  lemma RedeliverySuppressedIffNonZero(d: Daemon, from: Addr, m: Msg, env: WireEnv, env2: WireEnv)
    requires DaemonOk(d) && m.Req? && Internet(m.ap.family) && Succeeds(env) && Succeeds(env2)
    requires env2.alienMapped == env.alienMapped
    requires WireRequest(d, from, m, env).d != d
    ensures var d1 := WireRequest(d, from, m, env).d;
            m.handle != 0 <==> WireRequest(d1, from, m, env2) == Result(d1, QUIET)
    ensures m.handle == 0 ==>
              |WireRequest(WireRequest(d, from, m, env).d, from, m, env2).d.reqs| == |d.reqs| + 2
  {
    var e := d.ports[FindMapping(d.ports, m.ap, Local)];
    var mapped := MappedFor(e, m.ap, env.alienMapped);
    var d1 := WireRequest(d, from, m, env).d;
    assert d1.reqs[0] == AcceptRequest(d, from, m, mapped, env.address.value);
    assert d1.reqs[1..] == d.reqs;
    var n := FindRequest(d1.reqs, m.handle, mapped, {AcceptReq});
    if m.handle != 0 {
      assert Answers(d1.reqs[0], m.handle, mapped, {AcceptReq});
    } else {
      assert forall k :: 0 <= k < |d1.reqs| ==> d1.reqs[k].handle != 0;
    }
  }

  /** A daemon with one listener and nothing in flight. */
  function Listening(e: MappedPort, counts: Counts): Daemon {
    Daemon([e], e.id + 1, [], 0, counts)
  }

  /** The zero handle is a real case: any listener accepts a request for its address that carries
      it, and a second delivery files a second ACCEPT entry. */
  lemma ZeroHandleIsAcceptedTwice(e: MappedPort, counts: Counts, from: Addr, m: Msg, env: WireEnv)
    requires EntryOk(e) && Internet(e.local.family) && m.Req? && m.handle == 0 && m.ap == e.local && Succeeds(env)
    ensures var d := Listening(e, counts);
            var d1 := WireRequest(d, from, m, env).d;
            && |d1.reqs| == 1 && |WireRequest(d1, from, m, env).d.reqs| == 2
            && WireRequest(d1, from, m, env).out.sent != []
  {
    var d := Listening(e, counts);
    assert Hit(d.ports[0], m.ap, Local);
    assert WireRequest(d, from, m, env).d != d;
    RedeliverySuppressedIffNonZero(d, from, m, env, env);
  }

  // ----- copies delivered later in a run

  /** Whatever is listed under number `id` is an entry of this kind for this handle and address. */
  predicate FiledAs(d: Daemon, id: nat, kind: Kind, handle: bv64, src: Addr) {
    && id < d.nextReq
    && forall k :: 0 <= k < |d.reqs| && d.reqs[k].id == id ==>
         d.reqs[k].kind == kind && d.reqs[k].handle == handle && d.reqs[k].src == src
  }

  lemma FiledStays(d: Daemon, i: Input, r: Result, id: nat, kind: Kind, handle: bv64, src: Addr)
    requires DaemonOk(d) && Advance(d, i, r) && FiledAs(d, id, kind, handle, src)
    ensures FiledAs(r.d, id, kind, handle, src)
  {
    forall j | 0 <= j < |r.d.reqs| && r.d.reqs[j].id == id
      ensures r.d.reqs[j].kind == kind && r.d.reqs[j].handle == handle && r.d.reqs[j].src == src
    {
      var added, k := RequestOrigin(d, i, r, j);
    }
  }

  lemma {:induction false} FiledForGood(ins: seq<Input>, m: nat, n: nat, id: nat, kind: Kind,
                                        handle: bv64, src: Addr)
    requires m <= n <= |ins| && FiledAs(StateAt(ins, m), id, kind, handle, src)
    ensures FiledAs(StateAt(ins, n), id, kind, handle, src)
  {
    hide Step, FiledAs, Advance, DaemonOk;
    if m < n {
      FiledForGood(ins, m, n - 1, id, kind, handle, src);
      ReachableOk(ins, n - 1);
      StepAdvances(StateAt(ins, n - 1), ins[n - 1]);
      FiledStays(StateAt(ins, n - 1), ins[n - 1], Step(StateAt(ins, n - 1), ins[n - 1]), id, kind, handle, src);
    }
  }

  /** The address that answers a request, and nothing when no entry does. */
  function AnswerTo(d: Daemon, m: Msg, alien: Addr): Option<Addr>
    requires m.Req?
  {
    var k := FindMapping(d.ports, m.ap, Local);
    if k == |d.ports| then None else Some(MappedFor(d.ports[k], m.ap, alien))
  }

  /** Input `a` is a request that was answered by a new ACCEPT entry. */
  predicate Accepts(ins: seq<Input>, a: nat)
    requires a < |ins|
  {
    && ins[a].Wire? && ins[a].msg.Req?
    && StateAt(ins, a + 1).nextReq == StateAt(ins, a).nextReq + 1
  }

  lemma AcceptIsFiled(d: Daemon, i: Input)
    requires DaemonOk(d) && i.Wire? && i.msg.Req? && i.msg.handle != 0 && Step(d, i).d.nextReq == d.nextReq + 1
    ensures AnswerTo(d, i.msg, i.env.alienMapped).Some?
    ensures FiledAs(Step(d, i).d, d.nextReq, AcceptReq, i.msg.handle, AnswerTo(d, i.msg, i.env.alienMapped).value)
  {
    hide Step, Sweeps, ResentIn, Target;
    StepAdvances(d, i);
    var push :| Shape(d, i, Step(d, i), push);
    forall k | 0 <= k < |Step(d, i).d.reqs| && Step(d, i).d.reqs[k].id == d.nextReq
      ensures Step(d, i).d.reqs[k] == push[0]
    {
      var added, l := RequestOrigin(d, i, Step(d, i), k);
    }
  }

  lemma CopyIsSilent(d: Daemon, i: Input, id: nat, src: Addr)
    requires i.Wire? && i.msg.Req? && AnswerTo(d, i.msg, i.env.alienMapped) == Some(src) && Same(src, src)
    requires FiledAs(d, id, AcceptReq, i.msg.handle, src) && ListedReq(d, id)
    ensures Handler(d, i) == Result(d, QUIET)
  {
    hide Handler;
    HandlerIs(d, i);
    var k :| 0 <= k < |d.reqs| && d.reqs[k].id == id;
    assert Answers(d.reqs[k], i.msg.handle, src, {AcceptReq});
  }

  /** The step does nothing but the sweeps that fall inside it. */
  predicate OnlySweeps(d: Daemon, i: Input) {
    Step(d, i) == Result(d.(reqs := Sweeps(d.reqs, SweepsIn(i))), QUIET.(resent := ResentIn(d.reqs, SweepsIn(i))))
  }

  lemma QuietOnlySweeps(d: Daemon, i: Input)
    requires Handler(d, i) == Result(d, QUIET)
    ensures OnlySweeps(d, i)
  {
    hide Handler;
    assert d.reqs[..0] + Sweeps(d.reqs[0..], SweepsIn(i)) == Sweeps(d.reqs, SweepsIn(i)) && d.reqs[0..] == d.reqs;
  }

  /** A request accepted at `a` and delivered once more at any later `b`, from wherever and however
      often, adds no second ACCEPT entry, sends nothing and notifies nobody, as long as the
      first entry is listed and the table still answers with the same address. */
  lemma DuplicateIsSilent(ins: seq<Input>, a: nat, b: nat)
    requires a < b < |ins| && Accepts(ins, a) && ins[b].Wire? && ins[b].msg == ins[a].msg
    requires ins[a].msg.handle != 0 && Internet(ins[a].msg.ap.family)
    requires AnswerTo(StateAt(ins, b), ins[b].msg, ins[b].env.alienMapped)
             == AnswerTo(StateAt(ins, a), ins[a].msg, ins[a].env.alienMapped)
    requires ListedReq(StateAt(ins, b), StateAt(ins, a).nextReq)
    ensures OnlySweeps(StateAt(ins, b), ins[b])
  {
    hide Step, Handler, DaemonOk, FiledAs, AnswerTo, ListedReq, OnlySweeps;
    var d, e, m := StateAt(ins, a), StateAt(ins, b), ins[a].msg;
    ReachableOk(ins, a);
    AcceptIsFiled(d, ins[a]);
    var src := AnswerTo(d, m, ins[a].env.alienMapped).value;
    FiledForGood(ins, a + 1, b, d.nextReq, AcceptReq, m.handle, src);
    SameAnswer(d, m, ins[a].env.alienMapped);
    CopyIsSilent(e, ins[b], d.nextReq, src);
    QuietOnlySweeps(e, ins[b]);
  }

  lemma SameAnswer(d: Daemon, m: Msg, alien: Addr)
    requires DaemonOk(d) && m.Req? && Internet(m.ap.family) && AnswerTo(d, m, alien).Some?
    ensures Same(AnswerTo(d, m, alien).value, AnswerTo(d, m, alien).value)
  {
  }
}
