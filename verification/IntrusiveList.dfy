/**
  The intrusive circular list of ccan/list: nodes linked both ways in a ring through a head
  node. The ring is described by the sequence of its nodes, head first.
 */
module IntrusiveList {

  /** `list_node`, together with the entry it is embedded in. */
  class Node<T> {
    var next: Node<T>
    var prev: Node<T>
    var entry: T

    constructor (entry: T)
      ensures this.entry == entry
    {
      this.entry := entry;
      next, prev := this, this;
    }
  }

  ghost predicate Distinct<A>(s: seq<A>) {
    forall i, j :: 0 <= i < j < |s| ==> s[i] != s[j]
  }

  ghost predicate Joined<T>(a: Node<T>, b: Node<T>)
    reads a`next, b`prev
  {
    a.next == b && b.prev == a
  }

  function After(i: nat, n: nat): nat {
    if i + 1 == n then 0 else i + 1
  }

  /** Following `next` from `s[0]` visits the distinct nodes `s` in order and returns; `prev`
      goes the other way. */
  ghost predicate Ring<T>(s: seq<Node<T>>)
    reads s`next, s`prev
  {
    s != [] && Distinct(s) && forall i :: 0 <= i < |s| ==> Joined(s[i], s[After(i, |s|)])
  }

  ghost function Spliced<A>(s: seq<A>, k: nat, f: seq<A>): seq<A>
    requires k < |s|
  {
    s[..k + 1] + f + s[k + 1..]
  }

  lemma SplicedDistinct<A>(s: seq<A>, k: nat, f: seq<A>)
    requires k < |s| && Distinct(s) && Distinct(f) && forall i :: 0 <= i < |f| ==> f[i] !in s
    ensures Distinct(Spliced(s, k, f))
  {
    var t := Spliced(s, k, f);
    forall i, j | 0 <= i < j < |t| ensures t[i] != t[j] {
      assert t[i] == if i <= k then s[i] else if i <= k + |f| then f[i - k - 1] else s[i - |f|];
      assert t[j] == if j <= k then s[j] else if j <= k + |f| then f[j - k - 1] else s[j - |f|];
    }
  }

  /** A chain `f` joined at both ends into the ring `s` behind `s[k]` makes one ring. */
  lemma RingSpliced<T>(s: seq<Node<T>>, k: nat, f: seq<Node<T>>)
    requires k < |s| && f != [] && Distinct(s) && Distinct(f) && forall i :: 0 <= i < |f| ==> f[i] !in s
    requires forall i :: 0 <= i < |s| && i != k ==> Joined(s[i], s[After(i, |s|)])
    requires forall i :: 0 <= i < |f| && i != |f| - 1 ==> Joined(f[i], f[After(i, |f|)])
    requires Joined(s[k], f[0]) && Joined(f[|f| - 1], s[After(k, |s|)])
    ensures Ring(Spliced(s, k, f))
  {
    var t := Spliced(s, k, f);
    SplicedDistinct(s, k, f);
    forall i | 0 <= i < |t| ensures Joined(t[i], t[After(i, |t|)]) {
      if i < k {
        assert Joined(s[i], s[After(i, |s|)]);
      } else if k < i < k + |f| {
        assert Joined(f[i - k - 1], f[After(i - k - 1, |f|)]);
      } else if i > k + |f| {
        assert Joined(s[i - |f|], s[After(i - |f|, |s|)]);
      }
    }
  }

  /** Once the neighbours of `s[k]` are joined, the other nodes form a ring. */
  lemma RingCut<T>(s: seq<Node<T>>, k: nat)
    requires 0 < k < |s| && Distinct(s) && Joined(s[k - 1], s[After(k, |s|)])
    requires forall i :: 0 <= i < |s| && i != k && i != k - 1 ==> Joined(s[i], s[After(i, |s|)])
    ensures Ring(s[..k] + s[k + 1..])
  {
    var t := s[..k] + s[k + 1..];
    assert forall i :: 0 <= i < |t| ==> t[i] == s[if i < k then i else i + 1];
    forall i | 0 <= i < |t| ensures Joined(t[i], t[After(i, |t|)]) {
      if i < k - 1 {
        assert Joined(s[i], s[After(i, |s|)]);
      } else if i >= k {
        assert Joined(s[i + 1], s[After(i + 1, |s|)]);
      }
    }
  }

  lemma LeftBehind<A>(h: A, s: seq<A>, k: nat)
    requires k < |s| && Distinct([h] + s)
    ensures s[k] !in [h] + (s[..k] + s[k + 1..])
  {
    var t := [h] + s;
    assert t[0] == h && forall i :: 0 <= i < |s| ==> t[i + 1] == s[i];
  }

  /** Once `n` is joined to the neighbours of `s[k]` it stands in the place of `s[k]`. */
  lemma RingReplaced<T>(s: seq<Node<T>>, k: nat, n: Node<T>)
    requires 0 < k < |s| && Distinct(s) && n !in s
    requires Joined(s[k - 1], n) && Joined(n, s[After(k, |s|)])
    requires forall i :: 0 <= i < |s| && i != k && i != k - 1 ==> Joined(s[i], s[After(i, |s|)])
    ensures Ring(s[k := n])
  {
    var t := s[k := n];
    forall i | 0 <= i < |t| ensures Joined(t[i], t[After(i, |t|)]) {
      if i != k && i != k - 1 {
        assert Joined(s[i], s[After(i, |s|)]);
      }
    }
  }

  /** `list_head` */
  class List<T> {
    const head: Node<T>
    ghost var nodes: seq<Node<T>>

    ghost predicate Valid()
      reads this`nodes, head`next, head`prev, nodes`next, nodes`prev
    {
      Ring([head] + nodes)
    }

    /** The embedded entries in list order. */
    ghost function Contents(): seq<T>
      reads this`nodes, nodes`entry
    {
      Entries(nodes)
    }

    /** A new, empty list (`list_head_init`); the head is embedded in no entry. */
    constructor (unused: T)
      ensures Valid() && nodes == [] && fresh(head)
    {
      head := new Node(unused);
      nodes := [];
      new;
      head.next, head.prev := head, head;
    }

    /** `list_add_after_` for the head (`k` is 0) or the member `nodes[k - 1]` */
    method AddAfter(p: Node<T>, n: Node<T>, ghost k: nat)
      requires Valid() && k <= |nodes| && p == ([head] + nodes)[k] && n != head && n !in nodes
      modifies this`nodes, n`next, n`prev, p`next, p.next`prev
      ensures Valid() && nodes == old(nodes[..k] + [n] + nodes[k..])
    {
      ghost var s := [head] + nodes;
      assert Joined(s[k], s[After(k, |s|)]);
      n.next := p.next;
      n.prev := p;
      p.next.prev := n;
      p.next := n;
      nodes := nodes[..k] + [n] + nodes[k..];
      RingSpliced(s, k, [n]);
      assert [head] + nodes == Spliced(s, k, [n]);
    }

    /** `list_add_` */
    method Add(n: Node<T>)
      requires Valid() && n != head && n !in nodes
      modifies this`nodes, n`next, n`prev, head`next, head.next`prev
      ensures Valid() && nodes == [n] + old(nodes)
      ensures Contents() == [n.entry] + old(Contents())
    {
      AddAfter(head, n, 0);
    }

    /** `list_add_before_` for the member `nodes[k]` or the head (`k` is the length) */
    method AddBefore(p: Node<T>, n: Node<T>, ghost k: nat)
      requires Valid() && k <= |nodes| && p == (nodes + [head])[k] && n != head && n !in nodes
      modifies this`nodes, n`next, n`prev, p`prev, p.prev`next
      ensures Valid() && nodes == old(nodes[..k] + [n] + nodes[k..])
    {
      ghost var s := [head] + nodes;
      assert s[After(k, |s|)] == p && Joined(s[k], s[After(k, |s|)]);
      n.next := p;
      n.prev := p.prev;
      p.prev.next := n;
      p.prev := n;
      nodes := nodes[..k] + [n] + nodes[k..];
      RingSpliced(s, k, [n]);
      assert [head] + nodes == Spliced(s, k, [n]);
    }

    /** `list_add_tail_` */
    method AddTail(n: Node<T>)
      requires Valid() && n != head && n !in nodes
      modifies this`nodes, n`next, n`prev, head`prev, head.prev`next
      ensures Valid() && nodes == old(nodes) + [n]
    {
      AddBefore(head, n, |nodes|);
    }

    /** `list_empty_` */
    method IsEmpty() returns (empty: bool)
      requires Valid()
      ensures empty <==> nodes == []
    {
      ghost var s := [head] + nodes;
      assert Joined(s[0], s[After(0, |s|)]);
      empty := head.next == head;
    }

    /** `list_del_` of the member `nodes[k]`; the deleted node keeps its own links. */
    method Del(n: Node<T>, ghost k: nat)
      requires Valid() && k < |nodes| && n == nodes[k]
      modifies this`nodes, n.next`prev, n.prev`next
      ensures Valid() && nodes == old(nodes[..k] + nodes[k + 1..])
      ensures n.next == old(n.next) && n.prev == old(n.prev)
    {
      ghost var s := [head] + nodes;
      assert Joined(s[k], s[After(k, |s|)]) && Joined(s[k + 1], s[After(k + 1, |s|)]);
      n.next.prev := n.prev;
      n.prev.next := n.next;
      nodes := nodes[..k] + nodes[k + 1..];
      RingCut(s, k + 1);
      assert [head] + nodes == s[..k + 1] + s[k + 2..];
    }

    /** `list_pop_` */
    method Pop() returns (n: Node?<T>)
      requires Valid()
      modifies this`nodes, head`next, head.next.next`prev
      ensures Valid()
      ensures old(nodes) == [] ==> n == null && nodes == []
      ensures old(nodes) != [] ==> n == old(nodes[0]) && nodes == old(nodes[1..])
    {
      ghost var s := [head] + nodes;
      assert Joined(s[0], s[After(0, |s|)]);
      if head.next == head {
        n := null;
      } else {
        n := head.next;
        Del(n, 0);
      }
    }

    /** `list_swap_`: `n` takes the place of the member `nodes[k]`. */
    method Swap(o: Node<T>, n: Node<T>, ghost k: nat)
      requires Valid() && k < |nodes| && o == nodes[k] && n != head && n !in nodes
      modifies this`nodes, n`next, n`prev, o.next`prev, o.prev`next
      ensures Valid() && nodes == old(nodes[k := n])
    {
      ghost var s := [head] + nodes;
      assert Joined(s[k], s[After(k, |s|)]) && Joined(s[k + 1], s[After(k + 1, |s|)]);
      n.next, n.prev := o.next, o.prev;
      n.next.prev := n;
      n.prev.next := n;
      nodes := nodes[k := n];
      RingReplaced(s, k + 1, n);
      assert [head] + nodes == s[k + 1 := n];
    }

    /** What deleting the member `nodes[k]` does to the entries. */
    method Remove(n: Node<T>, ghost k: nat)
      requires Valid() && k < |nodes| && n == nodes[k]
      modifies this`nodes, n.next`prev, n.prev`next
      ensures Valid() && nodes == old(nodes[..k] + nodes[k + 1..])
      ensures Contents() == old(Contents()[..k] + Contents()[k + 1..])
    {
      ghost var s, c := nodes, Contents();
      Del(n, k);
      assert Entries(s) == c;
      EntriesCut(s, k);
    }

    /** Overwrites the entry of the member `nodes[k]`. */
    method SetEntry(n: Node<T>, e: T, ghost k: nat)
      requires Valid() && k < |nodes| && n == nodes[k]
      modifies n`entry
      ensures Valid() && Contents() == old(Contents())[k := e]
    {
      ghost var s, c := [head] + nodes, Contents();
      n.entry := e;
      forall j | 0 <= j < |nodes| ensures Contents()[j] == c[k := e][j] {
        assert s[j + 1] == nodes[j] && s[k + 1] == nodes[k];
        assert j < k ==> s[j + 1] != s[k + 1];
        assert k < j ==> s[k + 1] != s[j + 1];
      }
    }

    /** The two lists have no node in common. */
    ghost predicate Apart(from: List<T>)
      reads this, from
    {
      && this != from && head != from.head && head !in from.nodes && from.head !in nodes
      && (forall i :: 0 <= i < |from.nodes| ==> from.nodes[i] !in nodes)
    }

    /** The four link updates with which another ring `f`, head and all, is sewn in behind
        `p`, the head (`k` is 0) or the member `nodes[k - 1]`. */
    method SewIn(p: Node<T>, q: Node<T>, first: Node<T>, last: Node<T>, ghost k: nat, ghost f: seq<Node<T>>)
      requires Valid() && k <= |nodes| && p == ([head] + nodes)[k] && q == p.next
      requires Ring(f) && first == f[0] && last == f[|f| - 1] && forall i :: 0 <= i < |f| ==> f[i] !in [head] + nodes
      modifies this`nodes, p`next, q`prev, first`prev, last`next
      ensures Valid() && nodes == old(nodes[..k] + f + nodes[k..])
      ensures Joined(p, first) && Joined(last, q)
    {
      ghost var s := [head] + nodes;
      assert Joined(s[k], s[After(k, |s|)]) && Joined(f[|f| - 1], f[After(|f| - 1, |f|)]);
      p.next := first;
      first.prev := p;
      q.prev := last;
      last.next := q;
      RingSpliced(s, k, f);
      nodes := nodes[..k] + f + nodes[k..];
      assert [head] + nodes == Spliced(s, k, f);
    }

    /** Takes over all members of `from` between `p` and its successor `q`. */
    method TakeOver(from: List<T>, p: Node<T>, q: Node<T>, ghost k: nat)
      requires Valid() && from.Valid() && Apart(from)
      requires k <= |nodes| && p == ([head] + nodes)[k] && q == p.next
      modifies this`nodes, from`nodes, p`next, q`prev, from.head`next, from.head`prev,
               from.head.prev`next, from.head.next`prev
      ensures Valid() && nodes == old(nodes[..k] + from.nodes + nodes[k..])
      ensures from.Valid() && from.nodes == []
    {
      ghost var f := [from.head] + from.nodes;
      assert Joined(f[|f| - 1], f[After(|f| - 1, |f|)]);
      var fromTail := from.head.prev;
      SewIn(p, q, from.head, fromTail, k, f);
      // the foreign head is now a member like any other; cut it out again
      LeftBehind(head, nodes, k);
      hide Ring, Joined, Distinct;
      Del(from.head, k);
      from.InitHead();
    }

    /** `list_append_list_` */
    method AppendList(from: List<T>)
      requires Valid() && from.Valid() && Apart(from)
      modifies this`nodes, from`nodes, head`prev, head.prev`next, from.head`next, from.head`prev,
               from.head.prev`next, from.head.next`prev
      ensures Valid() && nodes == old(nodes + from.nodes)
      ensures from.Valid() && from.nodes == []
    {
      ghost var s, l := [head] + nodes, |nodes|;
      assert Joined(s[l], s[After(l, |s|)]);
      hide Ring, Apart;
      TakeOver(from, head.prev, head, l);
    }

    /** `list_prepend_list_` */
    method PrependList(from: List<T>)
      requires Valid() && from.Valid() && Apart(from)
      modifies this`nodes, from`nodes, head`next, head.next`prev, from.head`next, from.head`prev,
               from.head.prev`next, from.head.next`prev
      ensures Valid() && nodes == old(from.nodes + nodes)
      ensures from.Valid() && from.nodes == []
    {
      hide Ring, Apart;
      TakeOver(from, head, head.next, 0);
    }

    /** `list_head_init` */
    method InitHead()
      modifies this`nodes, head`next, head`prev
      ensures Valid() && nodes == []
    {
      head.next, head.prev := head, head;
      nodes := [];
    }
  }

  lemma EntriesCut<T>(s: seq<Node<T>>, k: nat)
    requires k < |s|
    ensures Entries(s[..k] + s[k + 1..]) == Entries(s)[..k] + Entries(s)[k + 1..]
  {
    hide Entries;
    var t := s[..k] + s[k + 1..];
    CutPoints(s, k, t);
    CutPoints(Entries(s), k, Entries(t));
  }

  /** A sequence without one element, position by position. */
  lemma CutPoints<A>(s: seq<A>, k: nat, t: seq<A>)
    requires k < |s|
    ensures t == s[..k] + s[k + 1..] <==>
            && |t| == |s| - 1
            && (forall i :: 0 <= i < k ==> t[i] == s[i])
            && (forall i :: k <= i < |t| ==> t[i] == s[i + 1])
  {
  }

  ghost function Entries<T>(s: seq<Node<T>>): (r: seq<T>)
    reads s`entry
    ensures |r| == |s| && forall i :: 0 <= i < |s| ==> r[i] == s[i].entry
  {
    if s == [] then [] else [s[0].entry] + Entries(s[1..])
  }
}
