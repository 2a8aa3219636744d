/** How long a request lives and how often it is sent again, over runs with any other input. */
module Lifetime {
  import opened MapRequests
  import opened PortMapper
  import opened DaemonRuns
  import opened Outcomes

  /** Number of timer sweeps during the inputs `t .. n`. */
  function Ticks(ins: seq<Input>, t: nat, n: nat): nat
    requires t <= n <= |ins|
  {
    if t == n then 0 else Ticks(ins, t, n - 1) + SweepsIn(ins[n - 1])
  }

  /** Number of retransmissions of request `id` among the steps `t .. n`. */
  function Resends(ins: seq<Input>, t: nat, n: nat, id: nat): nat
    requires t <= n <= |ins|
  {
    if t == n then 0 else Resends(ins, t, n - 1, id) + ResentCount(OutAt(ins, n - 1).resent, id)
  }

  /** Request `r` is listed. */
  predicate Holds(d: Daemon, r: MapRequest) {
    r in d.reqs
  }

  /** No message that answers request `id` arrives at the steps `t .. n`. */
  ghost predicate Unanswered(ins: seq<Input>, t: nat, n: nat, id: nat)
    requires t <= n <= |ins|
  {
    forall m :: t <= m < n ==> !Meets(StateAt(ins, m), ins[m], id)
  }

  /** One step in the life of an unanswered request `r` with `r.timeout` ticks left. */
  lemma UnansweredStep(d: Daemon, i: Input, r: MapRequest)
    requires DaemonOk(d) && Holds(d, r) && !Meets(d, i, r.id)
    ensures var n := SweepsIn(i);
            && (r.timeout >= n ==> Holds(Step(d, i).d, r.(timeout := r.timeout - n)))
            && (r.timeout < n ==> !ListedReq(Step(d, i).d, r.id))
            && r.id < Step(d, i).d.nextReq
            && ResentCount(Step(d, i).out.resent, r.id) == if r.kind == AckReq then 0 else DueCount(r.timeout, n)
  {
    hide Step, Target, Sweeps, ResentIn, ResentCount, DueCount;
    var k :| 0 <= k < |d.reqs| && d.reqs[k] == r;
    assert Updated(d, i)[k] == r;
    StepAdvances(d, i);
    UpdatedOk(d, i);
    var j := RequestFuture(d, i, Step(d, i), k);
    var push :| Shape(d, i, Step(d, i), push);
    ResentInCount(Updated(d, i), SweepsIn(i), k);
  }

  /** Retransmissions of a request after `s` sweeps: none at the first, none after the tenth. */
  function ResendsAfter(s: nat): nat {
    if s == 0 then 0 else if s <= 10 then s - 1 else 9
  }

  lemma {:induction false} ResendsAdd(s: nat, n: nat)
    ensures ResendsAfter(s + n) == ResendsAfter(s) + DueCount(REQ_TIMEOUT - s, n)
    decreases n
  {
    if n > 0 {
      ResendsAdd(s + 1, n - 1);
    }
  }

  /** The life of an unanswered QUERY or ACCEPT, among arbitrary other inputs: after `s`
      sweeps it has been sent again `s - 1` times and has `10 - s` ticks left; the eleventh
      sweep removes it, after nine retransmissions in all, for good. */
  lemma {:induction false} UnansweredLife(ins: seq<Input>, t: nat, n: nat, r: MapRequest)
    requires t <= n <= |ins| && Holds(StateAt(ins, t), r)
    requires r.kind != AckReq && r.timeout == REQ_TIMEOUT && Unanswered(ins, t, n, r.id)
    ensures Resends(ins, t, n, r.id) == ResendsAfter(Ticks(ins, t, n))
    ensures var s := Ticks(ins, t, n);
            if s <= 10 then Holds(StateAt(ins, n), r.(timeout := 10 - s))
            else !ListedReq(StateAt(ins, n), r.id) && r.id < StateAt(ins, n).nextReq
    decreases n
  {
    hide Step, Meets, ResentCount, DueCount;
    if n > t {
      UnansweredLife(ins, t, n - 1, r);
      var s, d := Ticks(ins, t, n - 1), StateAt(ins, n - 1);
      ReachableOk(ins, n - 1);
      ResendsAdd(s, SweepsIn(ins[n - 1]));
      if s <= REQ_TIMEOUT {
        UnansweredStep(d, ins[n - 1], r.(timeout := REQ_TIMEOUT - s));
      } else {
        GoneStep(d, ins[n - 1], r.id);
        NoneDue(REQ_TIMEOUT - s, SweepsIn(ins[n - 1]));
      }
    }
  }

  lemma NoneDue(t: int, n: nat)
    requires t <= 0
    ensures DueCount(t, n) == 0
  {
  }

  lemma GoneStep(d: Daemon, i: Input, id: nat)
    requires DaemonOk(d) && id < d.nextReq && !ListedReq(d, id)
    ensures id < Step(d, i).d.nextReq && !ListedReq(Step(d, i).d, id)
    ensures ResentCount(Step(d, i).out.resent, id) == 0
  {
    hide Step, Target, Sweeps, ResentIn, ResentCount;
    StepAdvances(d, i);
    GoneStaysGone(d, i, Step(d, i), id);
    UpdatedOk(d, i);
    var push :| Shape(d, i, Step(d, i), push);
    forall k | 0 <= k < |d.reqs| ensures Updated(d, i)[k].id != id {
      assert d.reqs[k].id != id;
    }
    UnlistedIsNotResent(Updated(d, i), SweepsIn(i), id);
  }

  /** A completed request is never sent again, and the next sweep removes it. */
  lemma {:induction false} CompletedIsNotResent(ins: seq<Input>, t: nat, n: nat, id: nat)
    requires t <= n <= |ins| && Closed(StateAt(ins, t), id)
    ensures Resends(ins, t, n, id) == 0 && Closed(StateAt(ins, n), id)
    ensures Ticks(ins, t, n) > 0 ==> !ListedReq(StateAt(ins, n), id)
    decreases n
  {
    hide Step, ResentCount, Closed, ListedReq;
    if n > t {
      CompletedIsNotResent(ins, t, n - 1, id);
      var d := StateAt(ins, n - 1);
      ReachableOk(ins, n - 1);
      ClosedStep(d, ins[n - 1], id);
    }
  }

  lemma ClosedStep(d: Daemon, i: Input, id: nat)
    requires DaemonOk(d) && Closed(d, id)
    ensures Closed(Step(d, i).d, id) && ResentCount(Step(d, i).out.resent, id) == 0
    ensures SweepsIn(i) > 0 || !ListedReq(d, id) ==> !ListedReq(Step(d, i).d, id)
  {
    hide Step, Target, Sweeps, ResentIn, ResentCount, DueCount;
    StepAdvances(d, i);
    ClosedStays(d, i, Step(d, i), id);
    if ListedReq(d, id) {
      var k :| 0 <= k < |d.reqs| && d.reqs[k].id == id;
      UpdatedOk(d, i);
      assert RequestOk(d.reqs[k]) && Updated(d, i)[k] == d.reqs[k];
      var j := RequestFuture(d, i, Step(d, i), k);
      var push :| Shape(d, i, Step(d, i), push);
      ResentInCount(Updated(d, i), SweepsIn(i), k);
      NoneDue(0, SweepsIn(i));
    } else {
      GoneStep(d, i, id);
    }
  }
}
