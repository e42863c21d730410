/** Doubly linked rings (src/dlist.h): a list is a ring through its head node, and
    every operation on links is an operation on the sequence of its members. */
module DList {
  import opened Seqs

  class Node {
    var succ: Node?
    var pred: Node?

    constructor ()
      ensures succ == null && pred == null
    {
      succ, pred := null, null;
    }
  }

  /** Place i of the ring through list head l and its members s. */
  function At(l: Node, s: seq<Node>, i: nat): Node
    requires i <= |s| + 1
  {
    if i == 0 || i == |s| + 1 then l else s[i - 1]
  }

  ghost predicate Linked(a: Node, b: Node)
    reads a, b
  {
    a.succ == b && b.pred == a
  }

  ghost predicate LinkAt(l: Node, s: seq<Node>, i: nat)
    requires i <= |s|
    reads l, s
  {
    Linked(At(l, s, i), At(l, s, i + 1))
  }

  /** List l has the members s. */
  ghost predicate IsList(l: Node, s: seq<Node>)
    reads l, s
  {
    Distinct(s) && l !in s && forall i :: 0 <= i <= |s| ==> LinkAt(l, s, i)
  }

  /** Nodes which are linked one after the other. */
  ghost predicate IsChain(q: seq<Node>)
    reads q
  {
    Distinct(q) && forall i :: 0 < i < |q| ==> Linked(q[i - 1], q[i])
  }

  /** list_init. */
  method ListInit(l: Node)
    modifies l
    ensures IsList(l, [])
  {
    l.succ := l;
    l.pred := l;
  }

  /** _insert_nodes: a chain of nodes goes between two neighbours of a list. */
  method InsertNodes(before: Node, after: Node, first: Node, last: Node, ghost l: Node, ghost s: seq<Node>,
      ghost k: nat, ghost q: seq<Node>)
    requires IsList(l, s) && k <= |s| && before == At(l, s, k) && after == At(l, s, k + 1)
    requires q != [] && first == q[0] && last == q[|q| - 1] && IsChain(q)
    requires l !in q && forall n :: n in q ==> n !in s
    modifies before, after, first, last
    ensures IsList(l, s[..k] + q + s[k..])
  {
    ghost var t, n := s[..k] + q + s[k..], |q|;
    DifferentInsert(s, k, q);
    assert first in q && last in q && forall i :: 0 <= i < |s| ==> s[i] in s;
    assert forall i :: 0 <= i <= |s| + 1 ==> At(l, s, i) != first && At(l, s, i) != last;
    first.pred := before;
    last.succ := after;
    after.pred := last;
    before.succ := first;
    forall i | 0 <= i <= |t| ensures LinkAt(l, t, i) {
      if i < k {
        assert old(LinkAt(l, s, i));
        assert At(l, t, i) == At(l, s, i) && At(l, t, i + 1) == At(l, s, i + 1);
      } else if i == k {
        assert At(l, t, k) == before && At(l, t, k + 1) == first;
      } else if i < k + n {
        assert At(l, t, i) == q[i - k - 1] && At(l, t, i + 1) == q[i - k];
        assert old(Linked(q[i - k - 1], q[i - k]));
      } else if i == k + n {
        assert At(l, t, i) == last && At(l, t, i + 1) == after;
      } else {
        assert old(LinkAt(l, s, i - n));
        assert At(l, t, i) == At(l, s, i - n) && At(l, t, i + 1) == At(l, s, i - n + 1);
      }
    }
  }

  lemma DifferentInsert(s: seq<Node>, k: nat, q: seq<Node>)
    requires Distinct(s) && Distinct(q) && k <= |s| && forall n :: n in q ==> n !in s
    ensures Distinct(s[..k] + q + s[k..])
  {
    assert forall i :: 0 <= i < |q| ==> q[i] in q;
    assert forall i :: 0 <= i < |s| ==> s[i] in s;
  }

  /** unlink_node, which is _remove_nodes for one node and a closed ring. */
  method UnlinkNode(n: Node, ghost l: Node, ghost s: seq<Node>, ghost k: nat)
    requires IsList(l, s) && k < |s| && n == s[k]
    modifies n, At(l, s, k), At(l, s, k + 2)
    ensures IsList(l, s[..k] + s[k + 1..]) && n.succ == null && n.pred == null
  {
    ghost var t := s[..k] + s[k + 1..];
    assert LinkAt(l, s, k) && LinkAt(l, s, k + 1);
    var before, after := n.pred, n.succ;
    before.succ := after;
    after.pred := before;
    n.pred := null;
    n.succ := null;
    forall i | 0 <= i <= |t| ensures LinkAt(l, t, i) {
      if i < k {
        assert old(LinkAt(l, s, i));
        assert At(l, t, i) == At(l, s, i) && At(l, t, i + 1) == At(l, s, i + 1);
      } else if i > k {
        assert old(LinkAt(l, s, i + 1));
        assert At(l, t, i) == At(l, s, i + 1) && At(l, t, i + 1) == At(l, s, i + 2);
      } else {
        assert At(l, t, i) == before && At(l, t, i + 1) == after;
      }
    }
  }

  /** add_head. */
  method AddHead(l: Node, n: Node, ghost s: seq<Node>)
    requires IsList(l, s) && n != l && n !in s
    modifies l, n, s
    ensures IsList(l, [n] + s)
  {
    assert LinkAt(l, s, 0);
    InsertNodes(l, l.succ, n, n, l, s, 0, [n]);
    assert s[..0] + [n] + s[0..] == [n] + s;
  }

  /** add_tail. */
  method AddTail(l: Node, n: Node, ghost s: seq<Node>)
    requires IsList(l, s) && n != l && n !in s
    modifies l, n, s
    ensures IsList(l, s + [n])
  {
    assert LinkAt(l, s, |s|);
    InsertNodes(l.pred, l, n, n, l, s, |s|, [n]);
    assert s[..|s|] + [n] + s[|s|..] == s + [n];
  }

  /** add_tail_list: all nodes of list m move to the end of list l. */
  method AddTailList(l: Node, m: Node, ghost s: seq<Node>, ghost q: seq<Node>) returns (h: Node?)
    requires IsList(l, s) && IsList(m, q) && l != m && l !in q && m !in s && forall n :: n in q ==> n !in s
    modifies l, m, s, q
    ensures IsList(l, s + q) && IsList(m, []) && h == if q == [] then null else q[0]
  {
    assert LinkAt(m, q, 0) && LinkAt(m, q, |q|) && LinkAt(l, s, |s|);
    h := m.succ;
    if h == m {
      assert s + q == s;
      return null;
    }
    forall i | 0 < i < |q| ensures Linked(q[i - 1], q[i]) { assert LinkAt(m, q, i); }
    InsertNodes(l.pred, l, h, m.pred, l, s, |s|, q);
    assert s[..|s|] + q + s[|s|..] == s + q;
    m.succ := m;
    m.pred := m;
    assert forall i :: 0 <= i <= |s + q| ==> At(l, s + q, i) != m;
  }

  /** is_member. */
  method IsMember(l: Node, n: Node, ghost s: seq<Node>) returns (b: bool)
    requires IsList(l, s)
    ensures b <==> n in s
  {
    assert LinkAt(l, s, 0);
    var q := l.succ;
    ghost var i := 1;
    while q != l
      invariant 1 <= i <= |s| + 1 && q == At(l, s, i) && n !in s[..i - 1]
      decreases |s| - i
    {
      if q == n {
        return true;
      }
      assert LinkAt(l, s, i);
      q := q.succ;
      i := i + 1;
    }
    b := false;
  }

  /** list_length. */
  method ListLength(l: Node, ghost s: seq<Node>) returns (count: nat)
    requires IsList(l, s)
    ensures count == |s|
  {
    count := 0;
    assert LinkAt(l, s, 0);
    var n := l.succ;
    while n != l
      invariant count <= |s| && n == At(l, s, count + 1)
      decreases |s| - count
    {
      assert LinkAt(l, s, count + 1);
      count := count + 1;
      n := n.succ;
    }
  }

  /** rem_node. */
  method RemNode(l: Node, n: Node, ghost s: seq<Node>) returns (r: Node?)
    requires IsList(l, s)
    modifies l, s
    ensures n !in s ==> r == null && IsList(l, s)
    ensures n in s ==> r == n && exists k :: 0 <= k < |s| && s[k] == n && IsList(l, s[..k] + s[k + 1..])
  {
    var b := IsMember(l, n, s);
    r := null;
    if b {
      ghost var k :| 0 <= k < |s| && s[k] == n;
      UnlinkNode(n, l, s, k);
      r := n;
    }
  }

  /** The neighbours of the list head are the first and the last member. */
  lemma Ends(l: Node, s: seq<Node>)
    requires IsList(l, s)
    ensures l.succ == if s == [] then l else s[0]
    ensures l.pred == if s == [] then l else s[|s| - 1]
    ensures l !in s
  {
    assert LinkAt(l, s, 0) && LinkAt(l, s, |s|);
  }

  /** rem_head. */
  method RemHead(l: Node, ghost s: seq<Node>) returns (n: Node?)
    requires IsList(l, s)
    modifies l, s
    ensures if s == [] then n == null && IsList(l, s) else n == s[0] && IsList(l, s[1..])
  {
    hide IsList;
    Ends(l, s);
    n := l.succ;
    if n == l {
      n := null;
    } else {
      UnlinkNode(n, l, s, 0);
      assert s[..0] == [] && [] + s[1..] == s[1..];
    }
  }

  /** rem_tail. */
  method RemTail(l: Node, ghost s: seq<Node>) returns (n: Node?)
    requires IsList(l, s)
    modifies l, s
    ensures if s == [] then n == null && IsList(l, s) else n == s[|s| - 1] && IsList(l, s[..|s| - 1])
  {
    hide IsList;
    Ends(l, s);
    n := l.pred;
    if n == l {
      n := null;
    } else {
      UnlinkNode(n, l, s, |s| - 1);
      assert s[..|s| - 1] + s[|s|..] == s[..|s| - 1];
    }
  }
}
