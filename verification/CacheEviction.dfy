/** delete_surplus_pages removes the shortest prefix of the eviction order which
    brings the cache within its memory limit. */
module CacheEviction {
  import opened CacheObjects
  import opened CacheProofs
  import opened CacheState
  import opened Seqs

  /** The shortest prefix of q with a weight of at least excess, all of q if there is none. */
  ghost function Shortest<T>(q: seq<T>, w: T -> int, excess: int): seq<T> {
    if q == [] || excess <= 0 then [] else [q[0]] + Shortest(q[1..], w, excess - w(q[0]))
  }

  lemma {:induction false} ShortestIs<T>(q: seq<T>, w: T -> int, excess: int)
    ensures var r := Shortest(q, w, excess);
      && r <= q && (r == q || Sum(r, w) >= excess)
      && forall j :: 0 <= j < |r| ==> Sum(q[..j], w) < excess
  {
    if q != [] && excess > 0 {
      var r := Shortest(q[1..], w, excess - w(q[0]));
      ShortestIs(q[1..], w, excess - w(q[0]));
      assert ([q[0]] + r)[1..] == r && q == [q[0]] + q[1..];
      forall j | 0 <= j < |r| + 1 ensures Sum(q[..j], w) < excess {
        if j > 0 { assert q[..j][1..] == q[1..][..j - 1]; }
      }
    }
  }

  lemma ShortestStep<T>(q: seq<T>, w: T -> int, excess: int)
    requires q != [] && excess > 0
    ensures Shortest(q, w, excess) == [q[0]] + Shortest(q[1..], w, excess - w(q[0]))
  {}

  lemma ShortestNone<T>(q: seq<T>, w: T -> int, excess: int)
    ensures q == [] || excess <= 0 ==> Shortest(q, w, excess) == []
    ensures Sum([], w) == 0
  {}

  lemma SumStep<T>(x: T, q: seq<T>, w: T -> int)
    ensures Sum([x] + q, w) == w(x) + Sum(q, w)
  {
    assert ([x] + q)[1..] == q;
  }

  lemma {:induction false} ShortestAppend<T>(q: seq<T>, r: seq<T>, w: T -> int, excess: int)
    ensures Shortest(q + r, w, excess)
         == Shortest(q, w, excess) + Shortest(r, w, excess - Sum(Shortest(q, w, excess), w))
  {
    ShortestNone(q, w, excess);
    ShortestNone(r, w, excess);
    ShortestNone(q + r, w, excess);
    hide Sum, Shortest;
    if q == [] {
      assert q + r == r;
    } else if excess > 0 {
      var e := excess - w(q[0]);
      var a := Shortest(q[1..], w, e);
      var z := Shortest(r, w, e - Sum(a, w));
      assert (q + r)[1..] == q[1..] + r && (q + r)[0] == q[0];
      ShortestStep(q, w, excess);
      ShortestStep(q + r, w, excess);
      SumStep(q[0], a, w);
      ShortestAppend(q[1..], r, w, e);
      assert [q[0]] + (a + z) == ([q[0]] + a) + z;
    }
  }

  lemma {:induction false} ShortestExt<T>(q: seq<T>, v: T -> int, w: T -> int, excess: int)
    requires forall x :: x in q ==> v(x) == w(x)
    ensures Shortest(q, v, excess) == Shortest(q, w, excess)
  {
    if q != [] && excess > 0 { ShortestExt(q[1..], v, w, excess - v(q[0])); }
  }

  // ---- Deleting lists of pages --------------------------------------------------

  lemma {:induction false} DeletePagesAppend(s: State, q: seq<CachePage>, r: seq<CachePage>)
    ensures DeletePages(s, q + r) == DeletePages(DeletePages(s, q), r)
  {
    hide DeletePage;
    if r == [] {
      assert q + r == q;
    } else {
      DeletePagesAppend(s, q, r[..|r| - 1]);
      assert (q + r)[..|q + r| - 1] == q + r[..|r| - 1];
    }
  }

  ghost function NotIn(q: seq<CachePage>): CachePage -> bool {
    (p: CachePage) => p !in q
  }

  ghost function Both(f: CachePage -> bool, g: CachePage -> bool): CachePage -> bool {
    (p: CachePage) => f(p) && g(p)
  }

  lemma {:induction false} FilterFilter(q: seq<CachePage>, f: CachePage -> bool, g: CachePage -> bool)
    ensures Filter(Filter(q, f), g) == Filter(q, Both(f, g))
  {
    if q != [] {
      FilterFilter(q[1..], f, g);
      if f(q[0]) { assert ([q[0]] + Filter(q[1..], f))[1..] == Filter(q[1..], f); }
    }
  }

  lemma {:induction false} FilterAll(q: seq<CachePage>, f: CachePage -> bool)
    requires forall x :: x in q ==> f(x)
    ensures Filter(q, f) == q
  {
    if q != [] { FilterAll(q[1..], f); }
  }

  lemma {:induction false} RemoveIsFilter(q: seq<CachePage>, p: CachePage)
    requires Distinct(q)
    ensures Remove(q, p) == Filter(q, NotIn([p]))
  {
    if q != [] {
      RemoveIsFilter(q[1..], p);
      if q[0] == p { FilterAll(q[1..], NotIn([p])); }
    }
  }

  /** The eviction list after the deletion of some of its pages. */
  lemma {:induction false} DeletedPrio(s: State, q: seq<CachePage>)
    requires Consistent(s) && Deletable(s, q)
    ensures DeletePages(s, q).prio == Filter(s.prio, NotIn(q))
  {
    hide Consistent, Deleted, DeletePage, Distinct, Remove, Sum, Filter;
    if q == [] {
      FilterAll(s.prio, NotIn(q));
    } else {
      var front, p := q[..|q| - 1], q[|q| - 1];
      DistinctFront(q);
      assert q == front + [p];
      DeletedPrio(s, front);
      DeletePagesKeeps(s, front);
      var t := DeletePages(s, front);
      StillUnreferenced(s, front, t, p);
      Unreferenced(t, p);
      DeletePageKeeps(t, p);
      assert DeletePages(s, q).prio == Remove(t.prio, p);
      RemoveIsFilter(t.prio, p);
      FilterFilter(s.prio, NotIn(front), NotIn([p]));
      FilterExt(s.prio, Both(NotIn(front), NotIn([p])), NotIn(q));
    }
  }

  // ---- One pass -------------------------------------------------------------------

  ghost function EvictableIn(s: State, pri: Priority, all: bool): CachePage -> bool {
    (p: CachePage) => Evictable(s, p, pri, all)
  }

  /** What the deletion of a page means for another one. */
  lemma EvictableStill(s: State, q: seq<CachePage>, t: State, p: CachePage, pri: Priority, all: bool)
    requires Consistent(s) && Consistent(t) && Deleted(s, q, t) && p in s.prio && p !in q
    ensures Evictable(s, p, pri, all) == Evictable(t, p, pri, all) && Size(s, p) == Size(t, p) && p in t.prio
  {
    hide Counters, Distinct, Sum;
    Unreferenced(s, p);
    StillUnreferenced(s, q, t, p);
    Unreferenced(t, p);
  }

  lemma OneDeleted(s: State, p: CachePage)
    requires Consistent(s) && p in s.prio
    ensures Deleted(s, [p], DeletePage(s, p)) && Consistent(DeletePage(s, p))
  {
    hide Consistent, Frame, Distinct;
    Unreferenced(s, p);
    DeletePageKeeps(s, p);
    NothingDeleted(s);
    assert [] + [p] == [p];
    DeletedOneMore(s, [], s, p);
  }

  /** A pass which starts with page p. */
  lemma EvictFirst(s: State, p: CachePage, rest: seq<CachePage>, pri: Priority, all: bool, t: State)
    requires Consistent(s) && Consistent(t) && Deletable(s, [p] + rest) && Deleted(s, [p], t)
    ensures Deletable(t, rest) && t.used == s.used - Size(s, p) && t.limit == s.limit
    ensures Filter(rest, EvictableIn(t, pri, all)) == Filter(rest, EvictableIn(s, pri, all))
    ensures var f := Filter(rest, EvictableIn(s, pri, all));
      Shortest(f, Weight(t), t.used - t.limit) == Shortest(f, Weight(s), t.used - t.limit)
  {
    hide Consistent, Deleted, Sum, Evictable, Filter, Shortest, Size;
    var q := [p] + rest;
    DeletedUsed(s, p, t);
    forall x | x in rest
      ensures Evictable(s, x, pri, all) == Evictable(t, x, pri, all) && Size(s, x) == Size(t, x) && x in t.prio
    {
      var i :| 0 <= i < |rest| && rest[i] == x;
      assert q[0] == p && q[i + 1] == x && x in q;
      EvictableStill(s, [p], t, x, pri, all);
    }
    assert forall i :: 0 <= i < |rest| ==> rest[i] == q[i + 1];
    FilterExt(rest, EvictableIn(t, pri, all), EvictableIn(s, pri, all));
    var f := Filter(rest, EvictableIn(s, pri, all));
    FilterMembers(rest, EvictableIn(s, pri, all));
    ShortestExt(f, Weight(t), Weight(s), t.used - t.limit);
  }

  /** A pass deletes the shortest sufficient prefix of the pages it may take. */
  lemma {:induction false} EvictPassIs(s: State, q: seq<CachePage>, pri: Priority, all: bool)
    requires Consistent(s) && Deletable(s, q)
    ensures EvictPass(s, q, pri, all)
         == DeletePages(s, Shortest(Filter(q, EvictableIn(s, pri, all)), Weight(s), s.used - s.limit))
    decreases |q|
  {
    hide Consistent, Deleted, DeletePage, Sum, Evictable, Size, Distinct;
    if q != [] && s.used > s.limit {
      var p, rest := q[0], q[1..];
      assert q == [p] + rest;
      if Evictable(s, p, pri, all) {
        var t := DeletePage(s, p);
        OneDeleted(s, p);
        EvictFirst(s, p, rest, pri, all, t);
        EvictPassIs(t, rest, pri, all);
        EvictOnce(s, p, Filter(rest, EvictableIn(s, pri, all)));
      } else {
        DeletableRest(s, p, rest);
        EvictPassIs(s, rest, pri, all);
      }
    }
  }

  lemma DeletableRest(s: State, p: CachePage, rest: seq<CachePage>)
    requires Deletable(s, [p] + rest)
    ensures Deletable(s, rest)
  {
    var q := [p] + rest;
    assert forall i :: 0 <= i < |rest| ==> rest[i] == q[i + 1];
  }

  lemma ShortestFirst<T>(x: T, q: seq<T>, w: T -> int, excess: int)
    requires excess > 0
    ensures Shortest([x] + q, w, excess) == [x] + Shortest(q, w, excess - w(x))
  {
    assert ([x] + q)[1..] == q;
  }

  lemma DeletesFirst(s: State, p: CachePage, q: seq<CachePage>)
    ensures DeletePages(s, [p] + q) == DeletePages(DeletePage(s, p), q)
  {
    hide DeletePage;
    assert [p][..0] == [] && DeletePages(s, [p]) == DeletePage(DeletePages(s, []), p);
    DeletePagesAppend(s, [p], q);
  }

  lemma EvictOnce(s: State, p: CachePage, f: seq<CachePage>)
    requires s.used > s.limit
    ensures DeletePages(s, Shortest([p] + f, Weight(s), s.used - s.limit))
         == DeletePages(DeletePage(s, p), Shortest(f, Weight(s), s.used - Size(s, p) - s.limit))
  {
    hide DeletePage, DeletePages, Size, Shortest;
    ShortestFirst(p, f, Weight(s), s.used - s.limit);
    DeletesFirst(s, p, Shortest(f, Weight(s), s.used - Size(s, p) - s.limit));
  }

  lemma DeletedUsed(s: State, p: CachePage, t: State)
    requires Deleted(s, [p], t)
    ensures t.used == s.used - Size(s, p) && t.limit == s.limit
  {
    SumOne(p, Weight(s));
  }

  // ---- Four passes -------------------------------------------------------------------

  /** Pages of networks without references go first, normal pages before special ones. */
  function Rank(s: State, p: CachePage): nat {
    if p !in s.pages || s.pages[p].net !in s.nets then 4
    else (if s.nets[s.pages[p].net].refs == 0 then 0 else 2) + if s.pages[p].pri == Special then 1 else 0
  }

  ghost function Ranked(s: State, k: nat): CachePage -> bool {
    (p: CachePage) => Rank(s, p) == k
  }

  ghost function OfRank(s: State, k: nat): seq<CachePage> {
    Filter(s.prio, Ranked(s, k))
  }

  /** The unreferenced pages in the order in which they are given up. */
  ghost function EvictionOrder(s: State): seq<CachePage> {
    OfRank(s, 0) + OfRank(s, 1) + OfRank(s, 2) + OfRank(s, 3)
  }

  lemma OfRankMembers(s: State, k: nat)
    requires Consistent(s)
    ensures Distinct(OfRank(s, k))
    ensures forall p :: p in OfRank(s, k) ==> p in s.prio && Rank(s, p) == k
    ensures forall p :: p in s.prio && Rank(s, p) == k ==> p in OfRank(s, k)
  {
    hide Counters, Filter;
    FilterMembers(s.prio, Ranked(s, k));
  }

  lemma UnreferencedRank(s: State, p: CachePage)
    requires Consistent(s) && p in s.prio
    ensures Rank(s, p) < 4 && (s.pages[p].pri == Normal || s.pages[p].pri == Special)
  {
    Unreferenced(s, p);
  }

  lemma AppendRanked(s: State, q: seq<CachePage>, r: seq<CachePage>, k: nat)
    requires Distinct(q) && Distinct(r)
    requires forall i, j :: 0 <= i < j < |q| ==> Rank(s, q[i]) <= Rank(s, q[j])
    requires (forall p :: p in q ==> Rank(s, p) < k) && (forall p :: p in r ==> Rank(s, p) == k)
    ensures Distinct(q + r)
    ensures forall i, j :: 0 <= i < j < |q + r| ==> Rank(s, (q + r)[i]) <= Rank(s, (q + r)[j])
  {
    hide Rank;
    assert forall i :: 0 <= i < |q| ==> q[i] in q;
    assert forall i :: 0 <= i < |r| ==> r[i] in r;
  }

  /** The pages of the first k ranks. */
  ghost function First(s: State, k: nat): seq<CachePage> {
    if k == 0 then [] else First(s, k - 1) + OfRank(s, k - 1)
  }

  lemma {:induction false} FirstMembers(s: State, k: nat)
    requires Consistent(s)
    ensures Deletable(s, First(s, k))
    ensures forall p :: p in First(s, k) ==> p in s.prio && Rank(s, p) < k
    ensures forall p :: p in s.prio && Rank(s, p) < k ==> p in First(s, k)
    ensures forall i, j :: 0 <= i < j < |First(s, k)| ==> Rank(s, First(s, k)[i]) <= Rank(s, First(s, k)[j])
  {
    hide Consistent, OfRank, Rank;
    if k > 0 {
      FirstMembers(s, k - 1);
      OfRankMembers(s, k - 1);
      AppendRanked(s, First(s, k - 1), OfRank(s, k - 1), k - 1);
    }
  }

  lemma FirstIsOrder(s: State)
    ensures First(s, 4) == EvictionOrder(s)
  {
    hide OfRank;
    assert First(s, 1) == OfRank(s, 0);
    assert First(s, 2) == First(s, 1) + OfRank(s, 1);
    assert First(s, 3) == First(s, 2) + OfRank(s, 2);
  }

  /** The eviction order lists every unreferenced page once, by rank. */
  lemma EvictionOrderMembers(s: State)
    requires Consistent(s)
    ensures Distinct(EvictionOrder(s))
    ensures forall p :: p in EvictionOrder(s) ==> p in s.prio
    ensures forall p :: p in s.prio ==> p in EvictionOrder(s)
    ensures var q := EvictionOrder(s);
      forall i, j :: 0 <= i < j < |q| ==> Rank(s, q[i]) <= Rank(s, q[j])
  {
    hide Consistent, EvictionOrder, Rank;
    FirstIsOrder(s);
    FirstMembers(s, 4);
    forall p | p in s.prio ensures p in EvictionOrder(s) { UnreferencedRank(s, p); }
  }

  /** The pages which have to go among those of the first k ranks. */
  ghost function Victims(s: State, k: nat): seq<CachePage> {
    Shortest(First(s, k), Weight(s), s.used - s.limit)
  }

  /** With the first k ranks gone, pass k finds exactly the pages of rank k. */
  lemma PassFinds(s: State, k: nat, t: State)
    requires Consistent(s) && k < 4 && t == DeletePages(s, First(s, k))
    ensures Filter(t.prio, EvictableIn(t, PassPriority(k), k >= 2)) == OfRank(s, k)
  {
    hide Consistent, Distinct, Filter, Deleted, DeletePages, Evictable, Rank, First;
    FirstMembers(s, k);
    DeletePagesKeeps(s, First(s, k));
    DeletedPrio(s, First(s, k));
    var f, g := NotIn(First(s, k)), EvictableIn(t, PassPriority(k), k >= 2);
    FilterFilter(s.prio, f, g);
    forall p | p in s.prio ensures Both(f, g)(p) == Ranked(s, k)(p) {
      if p !in First(s, k) {
        EvictableStill(s, First(s, k), t, p, PassPriority(k), k >= 2);
        RankOfEvictable(s, p, k);
      }
    }
    FilterExt(s.prio, Both(f, g), Ranked(s, k));
  }

  lemma RankOfEvictable(s: State, p: CachePage, k: nat)
    requires Consistent(s) && p in s.prio && k < 4 && Rank(s, p) >= k
    ensures Evictable(s, p, PassPriority(k), k >= 2) <==> Rank(s, p) == k
  {
    hide Consistent;
    Unreferenced(s, p);
    UnreferencedRank(s, p);
  }

  /** One more pass extends the victims to those of one more rank. */
  lemma PassEvicts(s: State, k: nat)
    requires Consistent(s) && k < 4
    ensures var t := DeletePages(s, Victims(s, k));
      EvictPass(t, t.prio, PassPriority(k), k >= 2) == DeletePages(s, Victims(s, k + 1))
  {
    hide Consistent, Distinct, Filter, DeletePages, Evictable, OfRank, EvictPass, Deleted, Sum, Shortest, PassPriority;
    var v, excess := Victims(s, k), s.used - s.limit;
    var t := DeletePages(s, v);
    VictimsDeletable(s, k);
    DeletePagesKeeps(s, v);
    PrioDeletable(t);
    EvictPassIs(t, t.prio, PassPriority(k), k >= 2);
    PassTakes(s, k, t);
    ShortestAppend(First(s, k), OfRank(s, k), Weight(s), excess);
    DeletePagesAppend(s, v, Shortest(OfRank(s, k), Weight(s), excess - Sum(v, Weight(s))));
  }

  lemma PassTakes(s: State, k: nat, t: State)
    requires Consistent(s) && k < 4 && Deletable(s, Victims(s, k)) && t == DeletePages(s, Victims(s, k))
    ensures Shortest(Filter(t.prio, EvictableIn(t, PassPriority(k), k >= 2)), Weight(t), t.used - t.limit)
         == Shortest(OfRank(s, k), Weight(s), s.used - s.limit - Sum(Victims(s, k), Weight(s)))
  {
    hide Consistent, Distinct, Filter, DeletePages, Evictable, OfRank, Deleted, Sum, First, Size;
    var v, excess := Victims(s, k), s.used - s.limit;
    DeletePagesKeeps(s, v);
    DeletedRest(s, v, t);
    if t.used > t.limit {
      ShortestIs(First(s, k), Weight(s), excess);
      PassFinds(s, k, t);
      OfRankLeft(s, k, v, t);
      ShortestExt(OfRank(s, k), Weight(t), Weight(s), t.used - t.limit);
    }
  }

  lemma VictimsDeletable(s: State, k: nat)
    requires Consistent(s) && k <= 4
    ensures Deletable(s, Victims(s, k))
  {
    hide Consistent, Sum, First, Shortest, OfRank;
    FirstMembers(s, k);
    ShortestIs(First(s, k), Weight(s), s.used - s.limit);
  }

  lemma PrioDeletable(s: State)
    requires Consistent(s)
    ensures Deletable(s, s.prio)
  {}

  lemma DeletedRest(s: State, q: seq<CachePage>, t: State)
    requires Deleted(s, q, t)
    ensures t.used == s.used - Sum(q, Weight(s)) && t.limit == s.limit
  {}

  lemma OfRankLeft(s: State, k: nat, q: seq<CachePage>, t: State)
    requires Consistent(s) && Consistent(t) && Deleted(s, q, t) && k < 4 && q == First(s, k)
    ensures forall p :: p in OfRank(s, k) ==> Size(s, p) == Size(t, p)
  {
    hide Consistent, OfRank, Rank, Size;
    FirstMembers(s, k);
    OfRankMembers(s, k);
    forall p | p in OfRank(s, k) ensures Size(s, p) == Size(t, p) {
      EvictableStill(s, q, t, p, Normal, false);
    }
  }

  /** delete_surplus_pages removes exactly the shortest prefix of the eviction
      order that brings the memory in use within the limit. */
  lemma SurplusIsShortestPrefix(s: State)
    requires Consistent(s)
    ensures Surplus(s) == DeletePages(s, Shortest(EvictionOrder(s), Weight(s), s.used - s.limit))
  {
    hide Consistent, EvictPass, DeletePages, EvictionOrder;
    assert First(s, 0) == [] && Victims(s, 0) == [];
    assert DeletePages(s, Victims(s, 0)) == s by { NoVictims(s); }
    PassEvicts(s, 0);
    PassEvicts(s, 1);
    PassEvicts(s, 2);
    PassEvicts(s, 3);
    FirstIsOrder(s);
  }

  lemma NoVictims(s: State)
    ensures DeletePages(s, []) == s
  {}

  /** All unreferenced pages together use the memory in use. */
  lemma OrderWeight(s: State)
    requires Consistent(s)
    ensures Sum(EvictionOrder(s), Weight(s)) == s.used
  {
    hide Lists, Distinct, Filter, AllNetCounters;
    EvictionOrderMembers(s);
    assert Distinct(s.prio) by { PrioDeletable(s); }
    SumSameMembers(EvictionOrder(s), s.prio, Weight(s));
  }

  lemma HasMember<T>(q: seq<T>)
    requires q != []
    ensures exists x :: x in q
  {
    assert q[0] in q;
  }

  lemma {:induction false} SumSameMembers<T>(q: seq<T>, r: seq<T>, w: T -> int)
    requires Distinct(q) && Distinct(r) && (forall x :: x in q ==> x in r) && (forall x :: x in r ==> x in q)
    ensures Sum(q, w) == Sum(r, w)
  {
    hide Remove;
    if q == [] {
      if r != [] { HasMember(r); }
    } else {
      var x, rest := q[0], q[1..];
      RemoveMembers(r, x);
      SumRemove(r, x, w);
      assert forall y :: y in q ==> y == x || y in rest;
      SumSameMembers(rest, Remove(r, x), w);
    }
  }

  /** After delete_surplus_pages the limit is met. */
  lemma SurplusKeeps(s: State)
    requires Consistent(s) && s.limit >= 0
    ensures Consistent(Surplus(s)) && Frame(s, Surplus(s)) && Surplus(s).used <= s.limit
  {
    hide Consistent, Deleted, Distinct, EvictionOrder, DeletePages, Surplus;
    var order, excess := EvictionOrder(s), s.used - s.limit;
    var v := Shortest(order, Weight(s), excess);
    SurplusIsShortestPrefix(s);
    FirstIsOrder(s);
    VictimsDeletable(s, 4);
    DeletePagesKeeps(s, v);
    OrderWeight(s);
    ShortestIs(order, Weight(s), excess);
    DeletedRest(s, v, Surplus(s));
    DeletedFrame(s, v, Surplus(s));
  }

  lemma DeletedFrame(s: State, q: seq<CachePage>, t: State)
    requires Deleted(s, q, t)
    ensures Frame(s, t)
  {}
}
