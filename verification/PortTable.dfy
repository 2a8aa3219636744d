/** The list of mapped ports (`mapped_ports`), its two lookups and its invariant. */
module PortTable {
  import opened Sockaddr

  const MAX_CLIENTS := 64

  type Client = c: nat | c < MAX_CLIENTS

  /** `iwpm_mapped_port`. `id` is the identity of the object (its allocation number);
      `bound` says that the object holds a socket (`sd != -1`). */
  datatype MappedPort = MappedPort(
    id: nat, owner: Client, bound: bool, local: Addr, mapped: Addr, wcard: bool, refCnt: int)

  /** Which of the two addresses of an entry a lookup compares (`not_mapped`). */
  datatype Key = Local | Mapped

  function KeyOf(e: MappedPort, key: Key): Addr {
    if key == Local then e.local else e.mapped
  }

  /** The wildcard-aware test of `find_iwpm_mapping`. */
  predicate Hit(e: MappedPort, a: Addr, key: Key) {
    && PortOf(a) == PortOf(KeyOf(e, key))
    && (Same(a, KeyOf(e, key)) || e.wcard || IsWild(a))
  }

  /** `find_iwpm_mapping`: position of the first hit, or the length of the list. */
  function FindMapping(t: seq<MappedPort>, a: Addr, key: Key): (r: nat)
    ensures r <= |t|
    ensures r < |t| ==> Hit(t[r], a, key)
    ensures forall i :: 0 <= i < r ==> !Hit(t[i], a, key)
  {
    if t == [] || Hit(t[0], a, key) then 0 else 1 + FindMapping(t[1..], a, key)
  }

  /** `find_iwpm_same_mapping`: position of the first entry with exactly this address. */
  function FindSame(t: seq<MappedPort>, a: Addr, key: Key): (r: nat)
    ensures r <= |t|
    ensures r < |t| ==> Same(a, KeyOf(t[r], key))
    ensures forall i :: 0 <= i < r ==> !Same(a, KeyOf(t[i], key))
  {
    if t == [] || Same(a, KeyOf(t[0], key)) then 0 else 1 + FindSame(t[1..], a, key)
  }

  /** Two entries may share a local port only as different, fully specified addresses. */
  predicate Compatible(e: MappedPort, f: MappedPort) {
    PortOf(e.local) == PortOf(f.local) ==> !Same(e.local, f.local) && !e.wcard && !f.wcard
  }

  predicate EntryOk(e: MappedPort) {
    && e.wcard == IsWild(e.local)
    && e.mapped.family == e.local.family
    && (e.bound ==> PortOf(e.mapped) != 0)
    && e.refCnt >= 1
  }

  ghost predicate TableOk(t: seq<MappedPort>) {
    && (forall i :: 0 <= i < |t| ==> EntryOk(t[i]))
    && (forall i, j :: 0 <= i < j < |t| ==> Compatible(t[i], t[j]) && t[i].id != t[j].id)
  }

  /** `add_iwpm_mapped_port`: link the object unless it is already shared. */
  function Enlist(t: seq<MappedPort>, e: MappedPort): seq<MappedPort> {
    if e.refCnt > 1 then t else [e] + t
  }

  function Without(t: seq<MappedPort>, k: nat): seq<MappedPort>
    requires k < |t|
  {
    t[..k] + t[k + 1..]
  }

  /** The table maps `local` to `mapped` for its owner. */
  predicate Pair(t: seq<MappedPort>, owner: Client, local: Addr, mapped: Addr) {
    exists k :: 0 <= k < |t| && t[k].owner == owner && t[k].local == local && t[k].mapped == mapped
  }

  // ----- what the invariant buys

  /** A fully specified address has at most one hit, so list order cannot matter. */
  lemma HitIsUnique(t: seq<MappedPort>, a: Addr, i: nat, j: nat)
    requires TableOk(t) && !IsWild(a) && i < |t| && j < |t|
    ensures Hit(t[i], a, Local) && Hit(t[j], a, Local) ==> i == j
  {
    assert i < j ==> Compatible(t[i], t[j]);
    assert j < i ==> Compatible(t[j], t[i]);
  }

  /** Reordering the list does not change which object a fully specified address finds. */
  lemma LookupIgnoresOrder(t: seq<MappedPort>, u: seq<MappedPort>, a: Addr)
    requires TableOk(t) && !IsWild(a)
    requires multiset(t) == multiset(u)
    ensures FindMapping(t, a, Local) < |t| <==> FindMapping(u, a, Local) < |u|
    ensures FindMapping(t, a, Local) < |t| ==>
              t[FindMapping(t, a, Local)] == u[FindMapping(u, a, Local)]
  {
    var i, j := FindMapping(t, a, Local), FindMapping(u, a, Local);
    if i < |t| {
      assert t[i] in multiset(u);
      var k :| 0 <= k < |u| && u[k] == t[i];
    }
    if j < |u| {
      assert u[j] in multiset(t);
      var k :| 0 <= k < |t| && t[k] == u[j];
      HitIsUnique(t, a, i, k);
    }
  }

  /** Whatever the exact lookup finds, the wildcard-aware lookup finds too. */
  lemma ExactImpliesLookup(t: seq<MappedPort>, a: Addr)
    requires TableOk(t) && FindSame(t, a, Local) < |t|
    ensures FindMapping(t, a, Local) == FindSame(t, a, Local)
  {
    var i, j := FindMapping(t, a, Local), FindSame(t, a, Local);
    assert Hit(t[j], a, Local);
    assert i < j ==> Compatible(t[i], t[j]);
  }

  /** Linking an address the lookup did not find keeps the table consistent. */
  lemma EnlistKeepsTable(t: seq<MappedPort>, e: MappedPort)
    requires TableOk(t) && EntryOk(e) && e.refCnt == 1
    requires FindMapping(t, e.local, Local) == |t|
    requires forall i :: 0 <= i < |t| ==> t[i].id != e.id
    ensures TableOk(Enlist(t, e))
  {
    var u := Enlist(t, e);
    forall i, j | 0 <= i < j < |u| ensures Compatible(u[i], u[j]) && u[i].id != u[j].id {
      assert u[j] == t[j - 1];
      if i == 0 {
        assert !Hit(t[j - 1], e.local, Local);
      } else {
        assert u[i] == t[i - 1];
      }
    }
  }

  lemma WithoutKeepsTable(t: seq<MappedPort>, k: nat)
    requires TableOk(t) && k < |t|
    ensures TableOk(Without(t, k))
  {
    var u := Without(t, k);
    assert forall i :: 0 <= i < |u| ==> u[i] == t[if i < k then i else i + 1];
  }

  lemma RefChangeKeepsTable(t: seq<MappedPort>, k: nat, n: int)
    requires TableOk(t) && k < |t| && n >= 1
    ensures TableOk(t[k := t[k].(refCnt := n)])
  {
    var u := t[k := t[k].(refCnt := n)];
    forall i, j | 0 <= i < j < |u| ensures Compatible(u[i], u[j]) && u[i].id != u[j].id {
      assert Compatible(t[i], t[j]) && t[i].id != t[j].id;
    }
  }
}
