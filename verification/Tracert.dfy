/** Tracing the route of a LID hop by hop through the linear forwarding tables of a fabric. */
module Tracert {
  import opened Basics

  const MAXHOPS := 63
  const PATH_SIZE := 64
  const CA := 1
  const SWITCH := 2
  const ROUTER := 3
  const ACTIVE := 4

  /** What a node answers about itself and about the port the query came in by. */
  datatype NodePort = NodePort(kind: nat, numports: nat, guid: nat, portnum: nat, lid: nat, state: nat)

  datatype SwitchInfo = SwitchInfo(linearcap: nat, top: nat, enhsp0: bool)

  /** The answers of the fabric, by the directed route a query is sent along. `None` is a query
      that is not answered. A table block is given by its entries. */
  datatype Fabric = Fabric(node: seq<Byte> -> Option<NodePort>,
                           switch: seq<Byte> -> Option<SwitchInfo>,
                           block: (seq<Byte>, nat) -> Option<nat -> Byte>)

  /** One trace: the fabric, the `force` option, the LID, and the two end ports. */
  datatype Trace = Trace(fabric: Fabric, force: bool, lid: nat, source: NodePort, target: NodePort)

  /** A node on the way, with the port it was entered by. */
  datatype Pos = Pos(route: seq<Byte>, np: NodePort)

  const NO_NODE := NodePort(0, 0, 0, 0, 0, 0)

  predicate Same(force: bool, a: NodePort, b: NodePort) {
    a.guid == b.guid || (force && a.lid == b.lid)
  }

  predicate Inactive(np: NodePort, enhsp0: bool) {
    np.state != ACTIVE && (np.kind != SWITCH || enhsp0)
  }

  /** `switch_lookup` */
  function Lookup(f: Fabric, route: seq<Byte>, lid: nat): (r: Option<Byte>)
    ensures r.Some? ==> f.switch(route).Some?
  {
    match f.switch(route)
    case None => None
    case Some(s) =>
      if lid >= s.linearcap && lid > s.top then None
      else match f.block(route, lid / 64)
           case None => None
           case Some(entries) => Some(entries(lid % 64))
  }

  /** The blocks that the node at a route answers are those of one linear table, 64 entries each. */
  ghost predicate Linear(f: Fabric, route: seq<Byte>, table: nat -> Byte) {
    forall b: nat, i: nat :: i < 64 && f.block(route, b).Some? ==> f.block(route, b).value(i) == table(64 * b + i)
  }

  /** A look-up reads the entry of the LID in the linear table, for the LIDs within the capacity or up
      to the top of the table. */
  lemma LookupReadsTable(f: Fabric, route: seq<Byte>, lid: nat, table: nat -> Byte)
    requires Linear(f, route, table)
    ensures var s, e := f.switch(route), Lookup(f, route, lid);
            && (e.Some? ==> e.value == table(lid) && s.Some? && (lid < s.value.linearcap || lid <= s.value.top))
            && (s.Some? && (lid < s.value.linearcap || lid <= s.value.top) ==>
                  forall b: nat :: 64 * b <= lid < 64 * (b + 1) ==> (e.Some? <==> f.block(route, b).Some?))
  {
    var b, i := lid / 64, lid % 64;
    assert lid == 64 * b + i;
    assert f.block(route, b).Some? ==> f.block(route, b).value(i) == table(64 * b + i);
  }

  /** A node the trace may stand on: its port is up, and a switch has a table entry for the LID
      that names one of its ports. */
  predicate Usable(t: Trace, route: seq<Byte>, np: NodePort) {
    if np.kind == SWITCH then
      var e := Lookup(t.fabric, route, t.lid);
      e.Some? && e.value <= np.numports && !Inactive(np, t.fabric.switch(route).value.enhsp0)
    else
      !Inactive(np, false)
  }

  /** When a node is usable, in terms of the linear table it holds: a switch if the LID is in range,
      the block is answered, the entry names one of its ports, and the port it is seen by is active
      or there is no enhanced port 0; any other node if that port is active. */
  lemma UsableExactly(t: Trace, route: seq<Byte>, np: NodePort, table: nat -> Byte, b: nat)
    requires Linear(t.fabric, route, table) && 64 * b <= t.lid < 64 * (b + 1)
    ensures Usable(t, route, np) <==>
            if np.kind == 2 then
              var s := t.fabric.switch(route);
              && s.Some? && (t.lid < s.value.linearcap || t.lid <= s.value.top)
              && t.fabric.block(route, b).Some? && table(t.lid) <= np.numports
              && (np.state == 4 || !s.value.enhsp0)
            else np.state == 4
  {
    LookupReadsTable(t.fabric, route, t.lid, table);
  }

  function Enter(t: Trace, route: seq<Byte>, portnum: Option<nat>): (r: Option<Pos>)
  {
    match t.fabric.node(route)
    case None => None
    case Some(np) =>
      if Usable(t, route, np) then Some(Pos(route, if portnum.Some? then np.(portnum := portnum.value) else np))
      else None
  }

  predicate Room(route: seq<Byte>) {
    |route| + 2 < PATH_SIZE
  }

  /** Where the next hop leads: a switch forwards by its table; the source adapter goes out by its
      own port, back along the given route when there is one. */
  function Next(t: Trace, p: Pos): (r: Option<Pos>) {
    if p.np.kind == SWITCH then
      var e := Lookup(t.fabric, p.route, t.lid);
      if e.None? || e.value == 0 || !Room(p.route) then None
      else Enter(t, p.route + [e.value], None)
    else if (p.np.kind == CA || p.np.kind == ROUTER) && Same(t.force, p.np, t.source) then
      if |p.route| > 0 then
        Enter(t, p.route[..|p.route| - 1], Some(p.route[|p.route| - 1]))
      else if p.np.portnum == 0 then Enter(t, [], None)
      else Enter(t, [p.np.portnum % 256], None)
    else None
  }

  function WalkAt(t: Trace, p: Pos, k: nat): (r: Option<Pos>) {
    if k == 0 then Some(p)
    else
      match WalkAt(t, p, k - 1)
      case None => None
      case Some(q) => Next(t, q)
  }

  predicate AtTarget(t: Trace, p: Pos) {
    Same(t.force, p.np, t.target)
  }

  /** The table of a switch names its own management port, and that is the target. */
  predicate AtPortZero(t: Trace, p: Pos) {
    && p.np.kind == SWITCH
    && Lookup(t.fabric, p.route, t.lid) == Some(0)
    && Room(p.route)
    && var n := t.fabric.node(p.route + [0]);
       n.Some? && Same(t.force, n.value, t.target)
  }

  predicate ArrivesAt(t: Trace, p: Pos, k: nat) {
    var q := WalkAt(t, p, k);
    q.Some? && (AtTarget(t, q.value) || AtPortZero(t, q.value))
  }

  /** The forwarding tables lead to the target in fewer than 62 hops. */
  ghost predicate Delivers(t: Trace, p: Pos) {
    exists k: nat :: k < 62 && ArrivesAt(t, p, k)
  }

  /** The hop leaves a switch by the port its table names for the LID. */
  predicate LeavesByTable(t: Trace, route: seq<Byte>, port: Byte) {
    var n := t.fabric.node(route);
    && n.Some? && n.value.kind == SWITCH
    && Lookup(t.fabric, route, t.lid) == Some(port)
    && port <= n.value.numports
    && (n.value.state == ACTIVE || !t.fabric.switch(route).value.enhsp0)
  }

  /** The hop is the own cable of the source. */
  predicate LeavesBySource(t: Trace, route: seq<Byte>, port: Byte) {
    var n := t.fabric.node(route);
    && route == [] && n.Some? && (n.value.kind == CA || n.value.kind == ROUTER)
    && Same(t.force, n.value, t.source) && port == n.value.portnum % 256
  }

  /** Every hop of the route belongs to the route given at the start, is the own cable of the
      source, or is what a forwarding table says. */
  predicate Accounted(t: Trace, given: seq<Byte>, route: seq<Byte>) {
    forall i :: 0 <= i < |route| ==> HopAccounted(t, given, route, i)
  }

  predicate HopAccounted(t: Trace, given: seq<Byte>, route: seq<Byte>, i: nat)
    requires i < |route|
  {
    || route[..i + 1] <= given
    || LeavesBySource(t, route[..i], route[i])
    || LeavesByTable(t, route[..i], route[i])
  }

  /** Every switch on the way holds its linear table, and the hop is what it says for the LID. */
  ghost predicate Forwarded(t: Trace, tables: seq<Byte> -> nat -> Byte, given: seq<Byte>, route: seq<Byte>) {
    forall i :: 0 <= i < |route| ==> HopForwarded(t, tables, given, route, i)
  }

  predicate HopForwarded(t: Trace, tables: seq<Byte> -> nat -> Byte, given: seq<Byte>, route: seq<Byte>, i: nat)
    requires i < |route|
  {
    || route[..i + 1] <= given
    || LeavesBySource(t, route[..i], route[i])
    || (var n := t.fabric.node(route[..i]);
        n.Some? && n.value.kind == SWITCH && route[i] == tables(route[..i])(t.lid) && route[i] <= n.value.numports)
  }

  ghost predicate LinearFabric(f: Fabric, tables: seq<Byte> -> nat -> Byte) {
    forall route: seq<Byte> :: Linear(f, route, tables(route))
  }

  lemma AccountedIsForwarded(t: Trace, tables: seq<Byte> -> nat -> Byte, given: seq<Byte>, route: seq<Byte>)
    requires LinearFabric(t.fabric, tables) && Accounted(t, given, route)
    ensures Forwarded(t, tables, given, route)
  {
    hide Lookup, LeavesBySource, Linear;
    forall i | 0 <= i < |route| ensures HopForwarded(t, tables, given, route, i) {
      assert HopAccounted(t, given, route, i);
      assert Linear(t.fabric, route[..i], tables(route[..i]));
      LookupReadsTable(t.fabric, route[..i], t.lid, tables(route[..i]));
    }
  }

  // ----- what a walk is

  lemma {:induction false} WalkEnds(t: Trace, p: Pos, k: nat, n: nat)
    requires k <= n && WalkAt(t, p, k).None?
    ensures WalkAt(t, p, n).None?
  {
    if k < n {
      WalkEnds(t, p, k, n - 1);
    }
  }

  /** A position stands for the node at the end of its route; only the port number it is seen by
      may differ. */
  predicate Stands(t: Trace, p: Pos) {
    var n := t.fabric.node(p.route);
    n.Some? && p.np == n.value.(portnum := p.np.portnum) && Usable(t, p.route, p.np)
  }

  /** A source at the empty route goes out by its own port, or retraces the given route. */
  predicate Outlet(t: Trace, given: seq<Byte>, p: Pos) {
    p.route == [] && p.np.kind != SWITCH && t.fabric.node([]).Some? && p.np.portnum != 0 ==>
      [p.np.portnum % 256] <= given || p.np.portnum % 256 == t.fabric.node([]).value.portnum % 256
  }

  predicate Traced(t: Trace, given: seq<Byte>, p: Pos) {
    Stands(t, p) && Accounted(t, given, p.route) && Outlet(t, given, p)
  }

  lemma LongerIsAccounted(t: Trace, given: seq<Byte>, route: seq<Byte>, port: Byte)
    requires Accounted(t, given, route)
    requires ([port] <= given && route == []) || LeavesBySource(t, route, port) || LeavesByTable(t, route, port)
    ensures Accounted(t, given, route + [port])
  {
    hide LeavesBySource, LeavesByTable;
    var longer := route + [port];
    forall i | 0 <= i < |longer|
      ensures HopAccounted(t, given, longer, i)
    {
      if i < |route| {
        assert HopAccounted(t, given, route, i);
        assert longer[..i] == route[..i] && longer[..i + 1] == route[..i + 1];
      } else {
        assert longer[..i] == route && longer[..i + 1] == longer;
      }
    }
  }

  lemma ShorterIsAccounted(t: Trace, given: seq<Byte>, route: seq<Byte>, n: nat)
    requires n <= |route| && Accounted(t, given, route)
    ensures Accounted(t, given, route[..n])
  {
    hide LeavesBySource, LeavesByTable;
    forall i | 0 <= i < n
      ensures HopAccounted(t, given, route[..n], i)
    {
      assert HopAccounted(t, given, route, i);
      assert route[..n][..i] == route[..i] && route[..n][..i + 1] == route[..i + 1];
    }
  }

  lemma HopIsTraced(t: Trace, given: seq<Byte>, o: Pos)
    requires Traced(t, given, o) && Next(t, o).Some?
    ensures Traced(t, given, Next(t, o).value)
  {
    hide Lookup, Accounted;
    var q := Next(t, o).value;
    if o.np.kind == SWITCH {
      LongerIsAccounted(t, given, o.route, q.route[|o.route|]);
    } else if |o.route| > 0 {
      ShorterIsAccounted(t, given, o.route, |o.route| - 1);
      if |o.route| == 1 {
        RetracedOutlet(t, given, o.route);
      }
    } else if o.np.portnum != 0 {
      LongerIsAccounted(t, given, [], o.np.portnum % 256);
      assert q.route == [] + [o.np.portnum % 256];
    }
  }

  lemma RetracedOutlet(t: Trace, given: seq<Byte>, route: seq<Byte>)
    requires Accounted(t, given, route) && |route| == 1
    ensures [route[0]] <= given || LeavesBySource(t, [], route[0]) || LeavesByTable(t, [], route[0])
  {
    assert HopAccounted(t, given, route, 0);
    assert route[..1] == [route[0]] && route[..0] == [];
  }

  /** Beyond the given route, every hop of a route that is walked is taken from a forwarding
      table, or is the own cable of the source. */
  lemma {:induction false} WalkIsAccounted(t: Trace, p: Pos, k: nat)
    requires Stands(t, p) && p.np == t.fabric.node(p.route).value && WalkAt(t, p, k).Some?
    ensures Traced(t, p.route, WalkAt(t, p, k).value)
  {
    hide Next, Stands;
    if k == 0 {
      assert forall i :: 0 <= i < |p.route| ==> HopAccounted(t, p.route, p.route, i);
    } else {
      WalkIsAccounted(t, p, k - 1);
      HopIsTraced(t, p.route, WalkAt(t, p, k - 1).value);
    }
  }

  /** No arrival before the `k`-th position, none there, and no way on from there. */
  lemma Misses(t: Trace, start: Pos, k: nat, here: Pos)
    requires forall i: nat :: i < k ==> !ArrivesAt(t, start, i)
    requires WalkAt(t, start, k) == None || WalkAt(t, start, k) == Some(here)
    requires !AtTarget(t, here) && !AtPortZero(t, here) && Next(t, here).None?
    ensures !Delivers(t, start)
  {
    hide Next, AtPortZero, AtTarget;
    WalkEnds(t, start, k + 1, k + 1);
    forall n: nat | k < n
      ensures !ArrivesAt(t, start, n)
    {
      WalkEnds(t, start, k + 1, n);
    }
  }

  lemma MovesOn(t: Trace, start: Pos, k: nat, here: Pos)
    requires WalkAt(t, start, k) == None || WalkAt(t, start, k) == Some(here)
    requires !AtTarget(t, here) && !AtPortZero(t, here)
    ensures !ArrivesAt(t, start, k)
    ensures WalkAt(t, start, k + 1) == if WalkAt(t, start, k) == None then None else Next(t, here)
  {
  }

  lemma TooLate(t: Trace, start: Pos, k: nat)
    requires forall i: nat :: i < k ==> !ArrivesAt(t, start, i)
    ensures k + 1 >= MAXHOPS ==> !Delivers(t, start)
  {
  }

  /** The node has the GUID of the target, or with `force` its LID. */
  predicate EndsAt(t: Trace, np: NodePort) {
    np.guid == t.target.guid || (t.force && np.lid == t.target.lid)
  }

  /** The route ends at the target, and the tables account for it. */
  predicate Delivered(t: Trace, start: Pos, route: seq<Byte>) {
    var end := t.fabric.node(route);
    && end.Some? && EndsAt(t, end.value)
    && Accounted(t, start.route, route)
  }

  lemma Delivery(t: Trace, start: Pos, k: nat, here: Pos)
    requires Stands(t, start) && Some(start.np) == t.fabric.node(start.route)
    requires k + 1 < MAXHOPS && WalkAt(t, start, k) == Some(here)
    ensures AtTarget(t, here) ==> Delivers(t, start) && Delivered(t, start, here.route)
    ensures AtPortZero(t, here) ==> Delivers(t, start) && Delivered(t, start, here.route + [0])
  {
    WalkIsAccounted(t, start, k);
    hide WalkAt, Next, Lookup, Accounted;
    if AtTarget(t, here) || AtPortZero(t, here) {
      assert ArrivesAt(t, start, k);
    }
    if AtPortZero(t, here) {
      LongerIsAccounted(t, start.route, here.route, 0);
    }
  }

  /** The tables carry the LID along the route from its `base`-th hop on, and all its nodes are usable. */
  predicate Carries(t: Trace, route: seq<Byte>, base: nat) {
    && (forall i :: base <= i < |route| ==> route[i] != 0 && LeavesByTable(t, route[..i], route[i]))
    && forall i :: base <= i <= |route| ==>
         t.fabric.node(route[..i]).Some? && Usable(t, route[..i], t.fabric.node(route[..i]).value)
  }

  /** A walk that comes to the beginning of a route that the tables carry follows it to its end. */
  lemma {:induction false} WalkIsCarried(t: Trace, start: Pos, j: nat, route: seq<Byte>, base: nat, n: nat)
    requires base <= n <= |route| < PATH_SIZE - 1 && Carries(t, route, base)
    requires WalkAt(t, start, j).Some? && Stands(t, WalkAt(t, start, j).value)
    requires WalkAt(t, start, j).value.route == route[..base]
    ensures var q := WalkAt(t, start, j + n - base);
            q.Some? && Stands(t, q.value) && q.value.route == route[..n]
  {
    if base < n {
      WalkIsCarried(t, start, j, route, base, n - 1);
      hide Lookup;
      assert LeavesByTable(t, route[..n - 1], route[n - 1]);
      assert route[..n] == route[..n - 1] + [route[n - 1]];
    }
  }

  /** The converse of `WalkIsAccounted`: a trace that starts at a switch is delivered along any
      route from there that the tables carry to the target and that is short enough. */
  lemma CarriedFromSwitch(t: Trace, start: Pos, route: seq<Byte>)
    requires Stands(t, start) && start.route <= route && Carries(t, route, |start.route|)
    requires |route| < 63 && |route| - |start.route| < 62
    requires t.fabric.node(route).Some? && EndsAt(t, t.fabric.node(route).value)
    ensures Delivers(t, start)
  {
    assert route[..|start.route|] == start.route && route[..|route|] == route;
    assert WalkAt(t, start, 0) == Some(start);
    WalkIsCarried(t, start, 0, route, |start.route|, |route|);
    assert ArrivesAt(t, start, |route| - |start.route|);
  }

  /** The node at the other end of the cable of an adapter or router port. */
  function Neighbour(p: Pos): seq<Byte> {
    if |p.route| > 0 then p.route[..|p.route| - 1] else if p.np.portnum == 0 then [] else [p.np.portnum % 256]
  }

  /** The same for a trace that starts at a port of an adapter or router: the first hop is its own
      cable, and the tables carry the LID from there. */
  lemma CarriedFromAdapter(t: Trace, start: Pos, route: seq<Byte>)
    requires Stands(t, start) && start.np == t.source && (start.np.kind == CA || start.np.kind == ROUTER)
    requires Neighbour(start) <= route && Carries(t, route, |Neighbour(start)|)
    requires |route| < 63 && |route| - |Neighbour(start)| < 61
    requires t.fabric.node(route).Some? && EndsAt(t, t.fabric.node(route).value)
    ensures Delivers(t, start)
  {
    var first := Neighbour(start);
    assert route[..|first|] == first && route[..|route|] == route;
    assert WalkAt(t, start, 0) == Some(start) && WalkAt(t, start, 1) == Next(t, start);
    assert Next(t, start).Some? && Next(t, start).value.route == first;
    WalkIsCarried(t, start, 1, route, |first|, |route|);
    assert ArrivesAt(t, start, 1 + |route| - |first|);
  }

  // ----- the limit on rounds

  /** A line of two-port switches, each entered by its port 1 and forwarding every LID by its port 2. */
  function Line(): Fabric {
    Fabric(r => Some(LineNode(|r|)), _ => Some(SwitchInfo(64, 63, false)), (_, _) => Some(_ => 2))
  }

  function LineNode(i: nat): NodePort {
    NodePort(SWITCH, 2, i, 1, 0, ACTIVE)
  }

  lemma {:induction false} LineWalk(target: nat, k: nat)
    requires k < PATH_SIZE - 1
    ensures var q := WalkAt(Trace(Line(), false, 1, LineNode(0), LineNode(target)), Pos([], LineNode(0)), k);
            q.Some? && |q.value.route| == k && q.value.np == LineNode(k)
  {
    if k > 0 {
      LineWalk(target, k - 1);
    }
  }

  /** The tables carry the LID to a target 62 hops away, the path has room for it, the
      walk reaches it, and still it does not count as delivered: the last of the 63 rounds
      only ever reports that no route was found. */
  lemma LastRoundIsLost()
    ensures var t := Trace(Line(), false, 1, LineNode(0), LineNode(62));
            var start := Pos([], LineNode(0));
            ArrivesAt(t, start, 62) && !Delivers(t, start)
  {
    var t, start := Trace(Line(), false, 1, LineNode(0), LineNode(62)), Pos([], LineNode(0));
    LineWalk(62, 62);
    forall k: nat | k + 1 < MAXHOPS
      ensures !ArrivesAt(t, start, k)
    {
      LineWalk(62, k);
    }
  }

  // ----- the trace

  /** A directed route in a message: hops 1 to `cnt` of `p`. */
  class DirectPath {
    const p: array<Byte>
    var cnt: nat

    predicate Valid()
      reads this
    {
      p.Length == PATH_SIZE && cnt < PATH_SIZE
    }

    function Route(): (r: seq<Byte>)
      requires Valid()
      reads this, p
      ensures |r| == cnt
    {
      p[1..cnt + 1]
    }

    constructor (hops: seq<Byte>)
      requires |hops| < PATH_SIZE
      ensures Valid() && Route() == hops && fresh(p)
    {
      p := new Byte[PATH_SIZE](i => if 1 <= i <= |hops| then hops[i - 1] else 0);
      cnt := |hops|;
    }

    /** `extend_dpath` */
    method Extend(nextport: nat) returns (ok: bool)
      requires Valid()
      modifies this`cnt, p
      ensures Valid() && ok == Room(old(Route()))
      ensures Route() == if ok then old(Route()) + [nextport % 256] else old(Route())
    {
      if cnt + 2 >= p.Length {
        return false;
      }
      cnt := cnt + 1;
      p[cnt] := nextport % 256;
      return true;
    }
  }

  /** The trace that is set up: with `force`, an end port that does not answer is left blank and
      the LID alone is looked for. */
  function TraceOf(f: Fabric, force: bool, route: seq<Byte>, to: Option<NodePort>, lid: nat): Trace {
    var from := f.node(route);
    Trace(f, force, lid, if from.Some? then from.value else NO_NODE,
          if from.Some? && to.Some? then to.value else NO_NODE.(lid := lid))
  }

  function StartOf(t: Trace, route: seq<Byte>): Pos {
    Pos(route, t.source)
  }

  predicate Unknown(np: NodePort) {
    np.kind != CA && np.kind != SWITCH && np.kind != ROUTER
  }

  lemma NoWayOn(t: Trace, p: Pos)
    ensures Unknown(p.np) ==> Next(t, p).None?
    ensures p.np.kind == SWITCH && Lookup(t.fabric, p.route, t.lid) == Some(0) ==> Next(t, p).None?
  {
  }

  /** One hop: lengthen or shorten the route and ask the node there. */
  method Leave(ghost t: Trace, from: DirectPath, fromport: NodePort, port: NodePort, outport: Byte, f: Fabric, force: bool)
    returns (reached: bool, next: NodePort)
    requires from.Valid() && !Unknown(port)
    requires t.fabric == f && t.force == force && t.source == fromport
    requires port.kind == SWITCH ==> Lookup(f, from.Route(), t.lid) == Some(outport)
    modifies from`cnt, from.p
    ensures from.Valid()
    ensures port.kind == SWITCH && outport == 0 ==>
              && (reached <==> Room(old(from.Route())) && f.node(old(from.Route()) + [0]).Some?)
              && (reached ==> from.Route() == old(from.Route()) + [0] && Some(next) == f.node(from.Route()))
    ensures !(port.kind == SWITCH && outport == 0) ==>
              Next(t, Pos(old(from.Route()), port)) ==
              if reached && Usable(t, from.Route(), next) then Some(Pos(from.Route(), next)) else None
  {
    hide Lookup;
    var ok, seen := true, None;
    if port.kind == SWITCH {
      ok := from.Extend(outport);
    } else if !Same(force, port, fromport) {
      return false, NO_NODE;
    } else if from.cnt > 0 {
      seen := Some(from.p[from.cnt]);
      from.cnt := from.cnt - 1;
      assert from.Route() == old(from.Route())[..from.cnt];
    } else if port.portnum != 0 {
      ok := from.Extend(port.portnum);
      assert from.Route() == [port.portnum % 256];
    }
    if !ok {
      return false, NO_NODE;
    }
    var n := f.node(from.Route());
    if n.None? {
      return false, NO_NODE;
    }
    reached, next := true, n.value;
    if seen.Some? {
      next := next.(portnum := seen.value);
    }
  }

  /** What is checked of a node before the trace moves on to it. */
  method Settle(ghost t: Trace, from: DirectPath, next: NodePort, f: Fabric, lid: nat, outport0: Byte, enhsp00: bool)
    returns (ok: bool, outport: Byte, enhsp0: bool)
    requires from.Valid() && t.fabric == f && t.lid == lid
    ensures ok <==> Usable(t, from.Route(), next)
    ensures ok ==> !Inactive(next, enhsp0)
    ensures ok && next.kind == SWITCH ==>
              && Lookup(f, from.Route(), lid) == Some(outport) && outport <= next.numports
              && enhsp0 == f.switch(from.Route()).value.enhsp0
  {
    hide Lookup;
    outport, enhsp0 := outport0, enhsp00;
    if next.kind == SWITCH {
      var e := Lookup(f, from.Route(), lid);
      if e.None? || e.value > next.numports {
        return false, outport, enhsp0;
      }
      outport, enhsp0 := e.value, f.switch(from.Route()).value.enhsp0;
    }
    ok := !Inactive(next, enhsp0);
  }

  /** Where the trace stands after `k` rounds. A node of an unknown kind is never left. */
  predicate StandsAt(t: Trace, start: Pos, k: nat, p: Pos, outport: Byte, enhsp0: bool) {
    if WalkAt(t, start, k) == None then Unknown(p.np) && !AtTarget(t, p)
    else
      && WalkAt(t, start, k) == Some(p)
      && (p.np.kind == SWITCH ==>
            && Lookup(t.fabric, p.route, t.lid) == Some(outport) && outport <= p.np.numports
            && enhsp0 == t.fabric.switch(p.route).value.enhsp0)
  }

  /** The rounds of `find_route`, from the node the trace starts at. */
  method Rounds(ghost t: Trace, ghost start: Pos, f: Fabric, force: bool, from: DirectPath, fromport: NodePort,
                toport: NodePort, lid: nat, entry: Byte, enhanced: bool)
    returns (found: bool)
    requires from.Valid() && start == Pos(from.Route(), fromport)
    requires t == Trace(f, force, lid, fromport, toport)
    requires f.node(from.Route()) == Some(fromport) || Inactive(fromport, false)
    requires StandsAt(t, start, 0, start, entry, enhanced)
    modifies from`cnt, from.p
    ensures from.Valid()
    ensures found <==> Usable(t, start.route, fromport) && Delivers(t, start)
    ensures found ==> Delivered(t, start, from.Route())
  {
    hide Lookup, Next, WalkAt, Delivered, Delivers, ArrivesAt;
    var port, enhsp0 := fromport, enhanced;
    var outport: Byte := entry;
    var next, maxhops := NO_NODE, MAXHOPS;
    ghost var k: nat := 0;
    while maxhops != 0
      invariant from.Valid() && 0 <= maxhops && maxhops + k == MAXHOPS
      invariant next == if k == 0 then NO_NODE else port
      invariant k == 0 ==> port == fromport && from.Route() == start.route
      invariant k > 0 ==> Stands(t, start) && f.node(start.route) == Some(fromport) && !Inactive(port, enhsp0)
      invariant StandsAt(t, start, k, Pos(from.Route(), port), outport, enhsp0)
      invariant forall i: nat :: i < k ==> !ArrivesAt(t, start, i)
      decreases maxhops
    {
      maxhops := maxhops - 1;
      if Inactive(port, enhsp0) {
        return false;
      }
      ghost var here := Pos(from.Route(), port);
      if Same(force, port, toport) {
        if k + 1 < MAXHOPS {
          Delivery(t, start, k, here);
        }
        break;
      }
      NoWayOn(t, here);
      if !Unknown(port) {
        var reached;
        reached, next := Leave(t, from, fromport, port, outport, f, force);
        if reached && port.kind == SWITCH && outport == 0 {
          if !Same(force, next, toport) {
            Misses(t, start, k, here);
            return false;
          }
          if k + 1 < MAXHOPS {
            Delivery(t, start, k, here);
          }
          break;
        }
        if !reached {
          Misses(t, start, k, here);
          return false;
        }
      }
      var ok;
      ok, outport, enhsp0 := Settle(t, from, next, f, lid, outport, enhsp0);
      if !ok {
        Misses(t, start, k, here);
        return false;
      }
      MovesOn(t, start, k, here);
      port, k := next, k + 1;
    }
    TooLate(t, start, k);
    found := maxhops > 0;
  }

  /** `find_route`: `to` is what the destination answers about itself, `lid` its LID.
      A route is found exactly when the tables deliver, and the path then is that route. */
  method FindRoute(f: Fabric, force: bool, from: DirectPath, to: Option<NodePort>, lid: nat) returns (found: bool)
    requires from.Valid()
    modifies from`cnt, from.p
    ensures from.Valid()
    ensures var t := TraceOf(f, force, old(from.Route()), to, lid);
            var start := StartOf(t, old(from.Route()));
            && (found <==>
                && (force || (f.node(start.route).Some? && to.Some?))
                && Usable(t, start.route, t.source)
                && Delivers(t, start))
            && (found ==> Delivered(t, start, from.Route()))
            && (found ==> forall tables: seq<Byte> -> nat -> Byte :: LinearFabric(f, tables) ==>
                  Forwarded(t, tables, start.route, from.Route()))
  {
    ghost var t := TraceOf(f, force, from.Route(), to, lid);
    ghost var start := StartOf(t, from.Route());
    var fromport, toport := NO_NODE, NO_NODE;
    var n := f.node(from.Route());
    if n.Some? {
      fromport := n.value;
    }
    if n.Some? && to.Some? {
      toport := to.value;
    } else {
      if !force {
        return false;
      }
      toport := toport.(lid := lid);
    }
    var port, enhsp0 := fromport, false;
    var outport: Byte := 255;
    if port.kind == SWITCH {
      var e := Lookup(f, from.Route(), lid);
      if e.None? || e.value > port.numports {
        return false;
      }
      outport, enhsp0 := e.value, f.switch(from.Route()).value.enhsp0;
    }
    found := Rounds(t, start, f, force, from, fromport, toport, lid, outport, enhsp0);
    if found {
      forall tables: seq<Byte> -> nat -> Byte | LinearFabric(f, tables)
        ensures Forwarded(t, tables, start.route, from.Route())
      {
        AccountedIsForwarded(t, tables, start.route, from.Route());
      }
    }
  }

  /** The trace of that line finds nothing, although its target is 62 hops away, the tables
      carry the LID there, and the path has room for the route. */
  method TraceLine() returns (found: bool)
    ensures !found
    ensures var t := Trace(Line(), false, 1, LineNode(0), LineNode(62));
            var q := WalkAt(t, Pos([], LineNode(0)), 62);
            q.Some? && AtTarget(t, q.value) && |q.value.route| < 63
  {
    LineWalk(62, 62);
    LastRoundIsLost();
    var from := new DirectPath([]);
    found := FindRoute(Line(), false, from, Some(LineNode(62)), 1);
  }
}
