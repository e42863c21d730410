/** Every operation on pages and networks keeps the cache consistent. */
module CacheProofs {
  import opened CacheObjects
  import opened CacheState
  import opened Seqs

  // ---- Lists -----------------------------------------------------------------

  lemma PageListsWithout(pages: Pages, mru: seq<CachePage>, prio: seq<CachePage>, refd: seq<CachePage>, p: CachePage,
                         mru': seq<CachePage>, prio': seq<CachePage>, refd': seq<CachePage>)
    requires PageLists(pages, mru, prio, refd)
    requires IsWithout(mru, p, mru') && IsWithout(prio, p, prio') && IsWithout(refd, p, refd')
    ensures PageLists(pages - {p}, mru', prio', refd')
  {}

  lemma PageListsReferenced(pages: Pages, mru: seq<CachePage>, prio: seq<CachePage>, refd: seq<CachePage>, p: CachePage,
                            prio': seq<CachePage>, refd': seq<CachePage>)
    requires PageLists(pages, mru, prio, refd) && p in prio
    requires IsWithout(prio, p, prio') && IsWith(refd, p, refd')
    ensures PageLists(pages[p := pages[p].(refs := 1)], mru, prio', refd')
  {}

  lemma PageListsReleased(pages: Pages, mru: seq<CachePage>, prio: seq<CachePage>, refd: seq<CachePage>, p: CachePage,
                          prio': seq<CachePage>, refd': seq<CachePage>)
    requires PageLists(pages, mru, prio, refd) && p in refd && pages[p].pri != Zombie
    requires IsWith(prio, p, prio') && IsWithout(refd, p, refd')
    ensures PageLists(pages[p := pages[p].(refs := 0)], mru, prio', refd')
  {}

  lemma PageListsZombified(pages: Pages, mru: seq<CachePage>, prio: seq<CachePage>, refd: seq<CachePage>, p: CachePage,
                           mru': seq<CachePage>)
    requires PageLists(pages, mru, prio, refd) && p in refd && IsWithout(mru, p, mru')
    ensures PageLists(pages[p := pages[p].(pri := Zombie)], mru', prio, refd)
  {}

  lemma PageListsInserted(pages: Pages, mru: seq<CachePage>, prio: seq<CachePage>, refd: seq<CachePage>, p: CachePage,
      r: PageRec, mru': seq<CachePage>, refd': seq<CachePage>)
    requires PageLists(pages, mru, prio, refd) && p !in pages && r.refs > 0 && r.pri != Zombie
    requires IsWith(mru, p, mru') && IsWith(refd, p, refd')
    ensures PageLists(pages[p := r], mru', prio, refd')
  {}

  // ---- Counting pages ---------------------------------------------------------

  lemma CountWithout(pages: Pages, p: CachePage, f: PageRec -> bool)
    requires p in pages
    ensures Count(pages - {p}, f) == Count(pages, f) - if f(pages[p]) then 1 else 0
  {
    assert Matching(pages - {p}, f) == Matching(pages, f) - {p};
  }

  lemma CountWith(pages: Pages, p: CachePage, r: PageRec, f: PageRec -> bool)
    requires p !in pages
    ensures Count(pages[p := r], f) == Count(pages, f) + if f(r) then 1 else 0
  {
    var m := pages[p := r];
    CountWithout(m, p, f);
    assert m - {p} == pages;
  }

  lemma CountUpdated(pages: Pages, p: CachePage, r: PageRec, f: PageRec -> bool)
    requires p in pages
    ensures Count(pages[p := r], f) == Count(pages, f) + (if f(r) then 1 else 0) - if f(pages[p]) then 1 else 0
  {
    CountWithout(pages, p, f);
    CountWith(pages - {p}, p, r, f);
    assert (pages - {p})[p := r] == pages[p := r];
  }

  // ---- Counters of one network --------------------------------------------------

  lemma CountersWithout(pages: Pages, n: CacheNetwork, r: NetRec, p: CachePage)
    requires NetCounters(pages, n, r) && p in pages && pages[p].refs == 0 && 0x100 <= pages[p].pgno <= 0x8FF
    ensures NetCounters(pages - {p}, n, if n == pages[p].net then NetRemove(r, pages[p].pgno) else r)
  {
    hide Count;
    CountWithout(pages, p, OfNetwork(n));
    CountWithout(pages, p, ReferencedOf(n));
    forall g {:trigger SubpageOf(n, g)}
      ensures Count(pages - {p}, SubpageOf(n, g))
           == Count(pages, SubpageOf(n, g)) - if SubpageOf(n, g)(pages[p]) then 1 else 0
    {
      CountWithout(pages, p, SubpageOf(n, g));
    }
  }

  lemma NetAddStat(r: NetRec, pgno: int, subno: nat)
    requires |r.stat| == 0x800 && 0x100 <= pgno <= 0x8FF
    ensures var t := NetAdd(r, pgno, subno);
      && |t.stat| == 0x800 && t.nReferenced == r.nReferenced && t.nCached == r.nCached + 1
      && t.maxCached >= t.nCached && t.maxCached >= r.maxCached && t.maxCached in {t.nCached, r.maxCached}
      && (var was, now := r.stat[pgno - 0x100], t.stat[pgno - 0x100];
          now.maxSubpages >= now.nSubpages && now.maxSubpages >= was.maxSubpages
          && now.maxSubpages in {now.nSubpages, was.maxSubpages})
      && forall i :: 0 <= i < 0x800 ==>
        t.stat[i].nSubpages == if i == pgno - 0x100 then (r.stat[i].nSubpages + 1) % 256 else r.stat[i].nSubpages
  {}

  lemma CountersWith(pages: Pages, n: CacheNetwork, r: NetRec, p: CachePage, rec: PageRec)
    requires NetCounters(pages, n, r) && p !in pages && rec.refs > 0 && 0x100 <= rec.pgno <= 0x8FF
    ensures NetCounters(pages[p := rec], n,
                        if n == rec.net then NetAdd(r.(nReferenced := r.nReferenced + 1), rec.pgno, rec.subno) else r)
  {
    hide Count;
    CountWith(pages, p, rec, OfNetwork(n));
    CountWith(pages, p, rec, ReferencedOf(n));
    NetAddStat(r.(nReferenced := r.nReferenced + 1), rec.pgno, rec.subno);
    forall g {:trigger SubpageOf(n, g)}
      ensures Count(pages[p := rec], SubpageOf(n, g)) == Count(pages, SubpageOf(n, g)) + if SubpageOf(n, g)(rec)
        then 1 else 0
    {
      CountWith(pages, p, rec, SubpageOf(n, g));
    }
  }

  /** How the number of referenced pages changes when page p becomes rec. */
  function ReferenceChange(was: PageRec, rec: PageRec): int {
    (if rec.refs > 0 then 1 else 0) - (if was.refs > 0 then 1 else 0)
  }

  lemma CountersUpdated(pages: Pages, n: CacheNetwork, r: NetRec, p: CachePage, rec: PageRec)
    requires NetCounters(pages, n, r) && p in pages && rec.net == pages[p].net && rec.pgno == pages[p].pgno
    ensures NetCounters(pages[p := rec], n,
                        if n == rec.net then r.(nReferenced := r.nReferenced + ReferenceChange(pages[p], rec)) else r)
  {
    hide Count;
    CountUpdated(pages, p, rec, OfNetwork(n));
    CountUpdated(pages, p, rec, ReferencedOf(n));
    forall g {:trigger SubpageOf(n, g)}
      ensures Count(pages[p := rec], SubpageOf(n, g)) == Count(pages, SubpageOf(n, g))
    {
      CountUpdated(pages, p, rec, SubpageOf(n, g));
    }
  }

  // ---- Counters of all networks ----------------------------------------------------

  lemma AllCountersWithout(pages: Pages, nets: Nets, p: CachePage)
    requires AllNetCounters(pages, nets) && p in pages && pages[p].refs == 0 && Placed(pages[p], nets)
    ensures NetCounters(pages, pages[p].net, nets[pages[p].net])
    ensures AllNetCounters(pages - {p}, nets[pages[p].net := NetRemove(nets[pages[p].net], pages[p].pgno)])
  {
    hide Count;
    forall n | n in nets {
      CountersWithout(pages, n, nets[n], p);
    }
  }

  lemma AllCountersWith(pages: Pages, nets: Nets, p: CachePage, rec: PageRec)
    requires AllNetCounters(pages, nets) && p !in pages && rec.refs > 0 && Placed(rec, nets)
    ensures NetCounters(pages, rec.net, nets[rec.net])
    ensures var n := nets[rec.net];
      AllNetCounters(pages[p := rec],
        nets[rec.net := NetAdd(n.(nReferenced := n.nReferenced + 1), rec.pgno, rec.subno)])
  {
    hide Count;
    forall n | n in nets {
      CountersWith(pages, n, nets[n], p, rec);
    }
  }

  lemma AllCountersUpdated(pages: Pages, nets: Nets, p: CachePage, rec: PageRec)
    requires AllNetCounters(pages, nets) && p in pages && rec.net == pages[p].net && rec.pgno == pages[p].pgno
    requires rec.net in nets
    ensures var n := nets[rec.net];
      AllNetCounters(pages[p := rec],
                     nets[rec.net := n.(nReferenced := n.nReferenced + ReferenceChange(pages[p], rec))])
  {
    hide Count;
    forall n | n in nets {
      CountersUpdated(pages, n, nets[n], p, rec);
    }
  }

  // ---- Operations on pages -----------------------------------------------------------

  /** Networks with other statistics, but the same marks and references. */
  ghost predicate SameNetworks(a: Nets, b: Nets) {
    a.Keys == b.Keys && forall n :: n in a ==> a[n].zombie == b[n].zombie && a[n].refs == b[n].refs
  }

  lemma SameLive(a: Nets, b: Nets)
    requires SameNetworks(a, b)
    ensures LiveNetworks(a) == LiveNetworks(b)
  {}

  /** What is known of an unreferenced page. */
  lemma Unreferenced(s: State, p: CachePage)
    requires Consistent(s) && p in s.prio
    ensures PageOk(s, p) && s.pages[p].refs == 0 && s.pages[p].pri != Zombie && p !in s.refd && Distinct(s.prio)
  {
    assert Placed(s.pages[p], s.nets);
    assert NetCounters(s.pages, s.pages[p].net, s.nets[s.pages[p].net]);
  }

  lemma PageListsRemove(pages: Pages, mru: seq<CachePage>, prio: seq<CachePage>, refd: seq<CachePage>, p: CachePage)
    requires PageLists(pages, mru, prio, refd)
    ensures PageLists(pages - {p}, Remove(mru, p), Remove(prio, p), Remove(refd, p))
  {
    hide Remove;
    RemoveMembers(mru, p);
    RemoveMembers(prio, p);
    RemoveMembers(refd, p);
    PageListsWithout(pages, mru, prio, refd, p, Remove(mru, p), Remove(prio, p), Remove(refd, p));
  }

  lemma DropLists(s: State, p: CachePage, freed: int)
    requires Lists(s) && PageOk(s, p)
    ensures Lists(Drop(s, p, freed))
  {
    hide Remove, PageLists;
    PageListsRemove(s.pages, s.mru, s.prio, s.refd, p);
  }

  lemma DropSum(s: State, p: CachePage, t: State)
    requires p in s.prio && Distinct(s.prio) && t.prio == Remove(s.prio, p) && t.pages == s.pages - {p}
      && t.sizes == s.sizes
    ensures Sum(t.prio, Weight(t)) == Sum(s.prio, Weight(s)) - Size(s, p)
  {
    hide Remove, Sum;
    RemoveMembers(s.prio, p);
    SumRemove(s.prio, p, Weight(s));
    SumExt(t.prio, Weight(s), Weight(t));
  }

  lemma DropCounters(s: State, p: CachePage)
    requires Counters(s) && Distinct(s.prio) && p in s.prio && PageOk(s, p) && s.pages[p].refs == 0
    ensures Counters(Drop(s, p, Size(s, p))) && SameNetworks(s.nets, Drop(s, p, Size(s, p)).nets)
  {
    hide Remove, Sum, NetCounters, LiveNetworks, AllNetCounters;
    var t := Drop(s, p, Size(s, p));
    DropSum(s, p, t);
    AllCountersWithout(s.pages, s.nets, p);
    SameLive(s.nets, t.nets);
    assert t.pages.Keys == s.pages.Keys - {p};
  }

  /** What the deletion of unreferenced pages leaves alone. */
  ghost predicate Frame(s: State, t: State) {
    && t.netList == s.netList && t.limit == s.limit && t.nNets == s.nNets && t.netLimit == s.netLimit
    && t.sizes == s.sizes && t.refd == s.refd
    && SameNetworks(s.nets, t.nets)
    && forall n :: n in s.nets ==> t.nets[n].nReferenced == s.nets[n].nReferenced
  }

  lemma DropFrame(s: State, p: CachePage, freed: int)
    requires PageOk(s, p) && p !in s.refd
    ensures Frame(s, Drop(s, p, freed))
  {
    RemoveAbsent(s.refd, p);
  }

  /** Deleting an unreferenced page frees its memory and touches no other page. */
  lemma DeletePageKeeps(s: State, p: CachePage)
    requires Consistent(s) && p in s.prio
    ensures PageOk(s, p) && DeletePage(s, p) == Drop(s, p, Size(s, p))
    ensures Consistent(DeletePage(s, p)) && Frame(s, DeletePage(s, p))
  {
    hide Remove, Lists, Counters, Frame, Distinct;
    Unreferenced(s, p);
    DropLists(s, p, Size(s, p));
    DropCounters(s, p);
    DropFrame(s, p, Size(s, p));
  }

  // ---- Several pages ------------------------------------------------------------

  ghost predicate Deletable(s: State, q: seq<CachePage>) {
    Distinct(q) && forall p :: p in q ==> p in s.prio
  }

  /** What is left after the deletion of the unreferenced pages q. */
  ghost predicate Deleted(s: State, q: seq<CachePage>, t: State) {
    && Frame(s, t)
    && t.used == s.used - Sum(q, Weight(s))
    && (forall p :: p in s.pages && p !in q ==> p in t.pages)
    && (forall p :: p in t.pages ==> p in s.pages && p !in q && t.pages[p] == s.pages[p])
  }

  lemma FrameTrans(s: State, t: State, u: State)
    requires Frame(s, t) && Frame(t, u)
    ensures Frame(s, u)
  {}

  lemma DeletedOneMore(s: State, q: seq<CachePage>, t: State, p: CachePage)
    requires Deleted(s, q, t) && PageOk(t, p) && Frame(t, Drop(t, p, Size(t, p)))
    ensures Deleted(s, q + [p], Drop(t, p, Size(t, p)))
  {
    hide Remove, Frame;
    assert t.sizes == s.sizes by { FrameSizes(s, t); }
    FrameTrans(s, t, Drop(t, p, Size(t, p)));
    SumAppend(q, [p], Weight(s));
    assert Sum([p], Weight(s)) == Size(s, p);
  }

  lemma FrameSizes(s: State, t: State)
    requires Frame(s, t)
    ensures t.sizes == s.sizes && t.refd == s.refd
  {}

  /** delete_page over a list of unreferenced pages removes exactly those. */
  lemma {:induction false} DeletePagesKeeps(s: State, q: seq<CachePage>)
    requires Consistent(s) && Deletable(s, q)
    ensures Consistent(DeletePages(s, q)) && Deleted(s, q, DeletePages(s, q))
  {
    hide Consistent, Deleted, DeletePage, Distinct, Remove, Sum;
    if q == [] {
      NothingDeleted(s);
    } else {
      var front, p := q[..|q| - 1], q[|q| - 1];
      DistinctFront(q);
      assert q == front + [p];
      DeletePagesKeeps(s, front);
      var t := DeletePages(s, front);
      StillUnreferenced(s, front, t, p);
      DeletePageKeeps(t, p);
      DeletedOneMore(s, front, t, p);
    }
  }

  lemma NothingDeleted(s: State)
    ensures Deleted(s, [], s)
  {}

  lemma StillUnreferenced(s: State, q: seq<CachePage>, t: State, p: CachePage)
    requires Consistent(s) && Consistent(t) && Deleted(s, q, t) && p in s.prio && p !in q
    ensures p in t.prio
  {
    hide Counters;
    assert p in t.pages && t.pages[p].refs == 0;
  }

  // ---- References ------------------------------------------------------------------

  lemma KnownPage(s: State, p: CachePage)
    requires Consistent(s) && p in s.pages
    ensures PageOk(s, p) && Placed(s.pages[p], s.nets)
    ensures s.pages[p].refs == 0 ==> p in s.prio && p !in s.refd && s.pages[p].pri != Zombie
    ensures s.pages[p].refs > 0 ==> p in s.refd && p !in s.prio
  {
    hide Count;
    assert Placed(s.pages[p], s.nets);
    assert NetCounters(s.pages, s.pages[p].net, s.nets[s.pages[p].net]);
  }

  lemma SumFrame(s: State, t: State)
    requires PageLists(s.pages, s.mru, s.prio, s.refd) && s.sizes == t.sizes
    requires forall p :: p in s.prio ==> p in t.pages && s.pages[p].content == t.pages[p].content
    ensures Sum(s.prio, Weight(t)) == Sum(s.prio, Weight(s))
  {
    hide Sum;
    SumExt(s.prio, Weight(s), Weight(t));
  }

  lemma LiveAfterMarks(nets: Nets, n: CacheNetwork, r: NetRec)
    requires n in nets
    ensures |LiveNetworks(nets[n := r])|
         == |LiveNetworks(nets)| + (if r.zombie then 0 else 1) - if nets[n].zombie then 0 else 1
  {
    var a, b := LiveNetworks(nets), LiveNetworks(nets[n := r]);
    assert n in a <==> !nets[n].zombie;
    assert b == if r.zombie then a - {n} else a + {n};
    if n in a && !r.zombie {
      assert b == a;
    } else if n !in a && r.zombie {
      assert b == a;
    }
  }

  lemma MarksKeep(s: State, n: CacheNetwork, zombie: bool, refs: nat)
    requires Consistent(s) && n in s.nets
    ensures Consistent(SetMarks(s, n, zombie, refs))
  {
    hide Sum, PageLists, Distinct, Count, LiveNetworks;
    var t := SetMarks(s, n, zombie, refs);
    LiveAfterMarks(s.nets, n, t.nets[n]);
    SumExt(s.prio, Weight(s), Weight(t));
    forall m | m in t.nets ensures NetCounters(t.pages, m, t.nets[m]) {
      assert NetCounters(s.pages, m, s.nets[m]);
    }
    forall p | p in t.pages ensures Placed(t.pages[p], t.nets) {
      assert Placed(s.pages[p], s.nets);
    }
  }

  lemma AllCountersSame(pages: Pages, nets: Nets, p: CachePage, rec: PageRec)
    requires AllNetCounters(pages, nets) && p in pages && rec.net == pages[p].net && rec.pgno == pages[p].pgno
    requires (rec.refs > 0) == (pages[p].refs > 0)
    ensures AllNetCounters(pages[p := rec], nets)
  {
    hide Count;
    forall n | n in nets ensures NetCounters(pages[p := rec], n, nets[n]) {
      CountersUpdated(pages, n, nets[n], p, rec);
    }
  }

  /** Marks on a page that change neither its place nor its content. */
  lemma MarkedCounters(s: State, p: CachePage, rec: PageRec, mru: seq<CachePage>)
    requires Counters(s) && p in s.pages && rec.net == s.pages[p].net && rec.pgno == s.pages[p].pgno
    requires (rec.refs > 0) == (s.pages[p].refs > 0) && rec.content == s.pages[p].content
    ensures Counters(s.(pages := s.pages[p := rec], mru := mru))
  {
    hide Sum, LiveNetworks, NetCounters, AllNetCounters;
    var t := s.(pages := s.pages[p := rec], mru := mru);
    SumExt(s.prio, Weight(s), Weight(t));
    AllCountersSame(s.pages, s.nets, p, rec);
    assert t.pages.Keys == s.pages.Keys;
  }

  lemma ZombifyKeeps(s: State, p: CachePage)
    requires Consistent(s) && p in s.refd
    ensures Consistent(Zombify(s, p))
  {
    hide Distinct, Remove, Counters;
    RemoveMembers(s.mru, p);
    PageListsZombified(s.pages, s.mru, s.prio, s.refd, p, Remove(s.mru, p));
    MarkedCounters(s, p, s.pages[p].(pri := Zombie), Remove(s.mru, p));
  }

  lemma MoveKeeps(s: State, p: CachePage)
    requires Consistent(s) && p in s.mru
    ensures Consistent(MoveToFront(s, p))
  {
    hide Sum, Distinct, Count, Remove, LiveNetworks, NetCounters;
    RemoveMembers(s.mru, p);
    AddMember(Remove(s.mru, p), p);
    SumFrame(s, MoveToFront(s, p));
  }

  lemma NewReference(s: State, p: CachePage)
    requires Consistent(s) && p in s.pages
    ensures PageOk(s, p) && Consistent(RefPage(s, p))
    ensures RefPage(s, p).pages == s.pages[p := s.pages[p].(refs := s.pages[p].refs + 1)]
  {
    hide Sum, Distinct, Count, Remove, LiveNetworks, PageLists, AllNetCounters;
    KnownPage(s, p);
    var r := s.pages[p];
    if r.refs > 0 {
      MoreReferences(s, p, r.refs + 1);
    } else {
      MarksKeep(s, r.net, false, s.nets[r.net].refs);
      FirstReference(Revive(s, r.net), p);
    }
  }

  lemma MoreReferences(s: State, p: CachePage, refs: nat)
    requires Consistent(s) && p in s.pages && refs > 0 && s.pages[p].refs > 0
    ensures Consistent(s.(pages := s.pages[p := s.pages[p].(refs := refs)]))
  {
    hide Distinct, Counters;
    MarkedCounters(s, p, s.pages[p].(refs := refs), s.mru);
  }

  /** The lists and counters after a page got its first reference. */
  ghost function Referenced(s: State, p: CachePage): State
    requires PageOk(s, p)
  {
    var r := s.pages[p];
    s.(pages := s.pages[p := r.(refs := 1)],
       nets := s.nets[r.net := s.nets[r.net].(nReferenced := s.nets[r.net].nReferenced + 1)],
       used := s.used - Size(s, p),
       prio := Remove(s.prio, p),
       refd := Remove(s.refd, p) + [p])
  }

  lemma FirstReference(s: State, p: CachePage)
    requires Consistent(s) && p in s.pages && s.pages[p].refs == 0
    ensures PageOk(s, p) && Consistent(Referenced(s, p))
  {
    KnownPage(s, p);
    ReferencedLists(s, p);
    ReferencedCounters(s, p);
  }

  lemma ReferencedLists(s: State, p: CachePage)
    requires Lists(s) && PageOk(s, p) && p in s.prio && p !in s.refd
    ensures Lists(Referenced(s, p))
  {
    hide Remove;
    var t := Referenced(s, p);
    RemoveMembers(s.prio, p);
    RemoveMembers(s.refd, p);
    AddMember(Remove(s.refd, p), p);
    PageListsReferenced(s.pages, s.mru, s.prio, s.refd, p, t.prio, t.refd);
  }

  lemma ReferencedCounters(s: State, p: CachePage)
    requires Counters(s) && PageOk(s, p) && p in s.prio && s.pages[p].refs == 0 && Distinct(s.prio)
    ensures Counters(Referenced(s, p))
  {
    hide Remove, Sum, LiveNetworks, NetCounters, AllNetCounters;
    var t := Referenced(s, p);
    RemoveMembers(s.prio, p);
    SumRemove(s.prio, p, Weight(s));
    SumExt(t.prio, Weight(s), Weight(t));
    AllCountersUpdated(s.pages, s.nets, p, t.pages[p]);
    SameLive(s.nets, t.nets);
    assert t.pages.Keys == s.pages.Keys;
  }

  /** The lists and counters after the last reference to a page went. */
  ghost function Released(s: State, p: CachePage): State
    requires PageOk(s, p)
  {
    var r := s.pages[p];
    s.(pages := s.pages[p := r.(refs := 0)],
       nets := s.nets[r.net := s.nets[r.net].(nReferenced := s.nets[r.net].nReferenced - 1)],
       used := s.used + Size(s, p),
       prio := Remove(s.prio, p) + [p],
       refd := Remove(s.refd, p))
  }

  lemma ReleasedLists(s: State, p: CachePage)
    requires Lists(s) && PageOk(s, p) && p in s.refd && p !in s.prio && s.pages[p].pri != Zombie
    ensures Lists(Released(s, p))
  {
    hide Remove;
    var t := Released(s, p);
    RemoveMembers(s.prio, p);
    RemoveMembers(s.refd, p);
    AddMember(Remove(s.prio, p), p);
    PageListsReleased(s.pages, s.mru, s.prio, s.refd, p, t.prio, t.refd);
  }

  lemma ReleasedCounters(s: State, p: CachePage)
    requires Counters(s) && PageOk(s, p) && p !in s.prio && s.pages[p].refs > 0
    ensures Counters(Released(s, p))
  {
    hide Remove, Sum, LiveNetworks, NetCounters, AllNetCounters;
    var t := Released(s, p);
    RemoveAbsent(s.prio, p);
    SumAppend(s.prio, [p], Weight(t));
    SumOne(p, Weight(t));
    SumExt(s.prio, Weight(s), Weight(t));
    AllCountersUpdated(s.pages, s.nets, p, t.pages[p]);
    SameLive(s.nets, t.nets);
    assert t.pages.Keys == s.pages.Keys;
  }

  lemma SumOne(p: CachePage, w: CachePage -> int)
    ensures Sum([p], w) == w(p)
  {}

  /** A zombie page goes with its last reference. */
  lemma ZombieGoes(s: State, p: CachePage)
    requires Consistent(s) && p in s.pages && s.pages[p].refs > 0 && s.pages[p].pri == Zombie
    ensures PageOk(s, p) && Consistent(ReleasePage(s, p))
  {
    hide Lists, Counters, Remove;
    KnownPage(s, p);
    ZombieGoesLists(s, p);
    ZombieGoesCounters(s, p);
  }

  lemma ZombieGoesLists(s: State, p: CachePage)
    requires Lists(s) && PageOk(s, p) && s.pages[p].pri == Zombie
    ensures Lists(ReleasePage(s, p))
  {
    hide Remove, PageLists;
    PageListsRemove(s.pages, s.mru, s.prio, s.refd, p);
    assert ReleasePage(s, p).pages == s.pages - {p};
  }

  /** The fields of the cache which the counters are about. */
  lemma ZombieReleased(s: State, p: CachePage)
    requires PageOk(s, p) && s.pages[p].pri == Zombie && p !in s.prio
    ensures var t, r := ReleasePage(s, p), s.pages[p].(refs := 0);
      var nets := s.nets[r.net := s.nets[r.net].(nReferenced := s.nets[r.net].nReferenced - 1)];
      && t.pages == s.pages[p := r] - {p} == s.pages - {p} && t.nets == nets[r.net := NetRemove(nets[r.net], r.pgno)]
      && t.used == s.used && t.prio == s.prio && t.nPages == s.nPages - 1 && t.nNets == s.nNets && t.sizes == s.sizes
  {
    RemoveAbsent(s.prio, p);
  }

  lemma ZombieGoesCounters(s: State, p: CachePage)
    requires Counters(s) && PageOk(s, p) && s.pages[p].refs > 0 && s.pages[p].pri == Zombie && p !in s.prio
    ensures Counters(ReleasePage(s, p))
  {
    hide Remove, Sum, LiveNetworks, NetCounters, AllNetCounters, ReleasePage, NetRemove;
    var t := ReleasePage(s, p);
    var r := s.pages[p].(refs := 0);
    ZombieReleased(s, p);
    SumExt(s.prio, Weight(s), Weight(t));
    AllCountersUpdated(s.pages, s.nets, p, r);
    var nets := s.nets[r.net := s.nets[r.net].(nReferenced := s.nets[r.net].nReferenced - 1)];
    AllCountersWithout(s.pages[p := r], nets, p);
    SameNets(s.nets, nets, r);
    SameLive(s.nets, t.nets);
    assert t.pages.Keys == s.pages.Keys - {p};
  }

  lemma SameNets(a: Nets, b: Nets, r: PageRec)
    requires r.net in a && SameNetworks(a, b) && |b[r.net].stat| == 0x800 && 0x100 <= r.pgno <= 0x8FF
    ensures SameNetworks(a, b[r.net := NetRemove(b[r.net], r.pgno)])
  {}

  /** The last reference goes; what is left has the same networks, with one referenced page less. */
  lemma ReleaseKeeps(s: State, p: CachePage)
    requires Consistent(s) && p in s.pages && s.pages[p].refs > 0
    ensures PageOk(s, p) && Consistent(ReleasePage(s, p))
  {
    hide Lists, Counters, Remove;
    KnownPage(s, p);
    if s.pages[p].pri == Zombie {
      ZombieGoes(s, p);
    } else {
      assert ReleasePage(s, p) == Released(s, p);
      ReleasedLists(s, p);
      ReleasedCounters(s, p);
    }
  }

  lemma ReleaseNets(s: State, p: CachePage)
    requires PageOk(s, p)
    ensures var t := ReleasePage(s, p);
      && SameNetworks(s.nets, t.nets) && t.netList == s.netList && t.nNets == s.nNets && t.limit == s.limit
      && t.netLimit == s.netLimit && t.sizes == s.sizes
      && forall n :: n in s.nets ==>
        t.nets[n].nReferenced == s.nets[n].nReferenced - if n == s.pages[p].net then 1 else 0
  {
    hide Remove;
  }

  // ---- A page arrives -------------------------------------------------------------

  ghost function Inserted(s: State, p: CachePage, r: PageRec): State
    requires r.net in s.nets && |s.nets[r.net].stat| == 0x800 && 0x100 <= r.pgno <= 0x8FF
  {
    var n := s.nets[r.net];
    s.(pages := s.pages[p := r.(refs := 1)],
       nets := s.nets[r.net := NetAdd(n.(nReferenced := n.nReferenced + 1), r.pgno, r.subno)],
       mru := [p] + s.mru,
       refd := s.refd + [p],
       nPages := s.nPages + 1)
  }

  lemma InsertedLists(s: State, p: CachePage, r: PageRec)
    requires Lists(s) && p !in s.pages && r.pri != Zombie && Placed(r, s.nets) && |s.nets[r.net].stat| == 0x800
    ensures Lists(Inserted(s, p, r))
  {
    AddMember(s.mru, p);
    AddMember(s.refd, p);
    PageListsInserted(s.pages, s.mru, s.prio, s.refd, p, r.(refs := 1), [p] + s.mru, s.refd + [p]);
  }

  lemma InsertedCounters(s: State, p: CachePage, r: PageRec)
    requires Counters(s) && p !in s.pages && p !in s.prio && Placed(r, s.nets) && |s.nets[r.net].stat| == 0x800
    ensures Counters(Inserted(s, p, r))
  {
    hide Sum, LiveNetworks, NetCounters, AllNetCounters;
    var t := Inserted(s, p, r);
    SumExt(s.prio, Weight(s), Weight(t));
    AllCountersWith(s.pages, s.nets, p, r.(refs := 1));
    SameLive(s.nets, t.nets);
    assert t.pages.Keys == s.pages.Keys + {p};
  }

  lemma NetworkStat(s: State, n: CacheNetwork)
    requires Consistent(s) && n in s.nets
    ensures |s.nets[n].stat| == 0x800 && s.nets[n].nCached >= 0 && s.nets[n].nReferenced >= 0
  {
    assert NetCounters(s.pages, n, s.nets[n]);
  }

  lemma NotListed(s: State, p: CachePage)
    requires Lists(s) && p !in s.pages
    ensures p !in s.prio && p !in s.refd && p !in s.mru
  {}

  lemma InsertKeeps(s: State, p: CachePage, r: PageRec)
    requires Consistent(s) && p !in s.pages && r.pri != Zombie && Placed(r, s.nets)
    ensures |s.nets[r.net].stat| == 0x800 && Consistent(InsertPage(s, p, r))
  {
    hide Lists, Counters, NetAdd;
    NetworkStat(s, r.net);
    MarksKeep(s, r.net, false, s.nets[r.net].refs);
    var t := Revive(s, r.net);
    NotListed(t, p);
    InsertedLists(t, p, r);
    InsertedCounters(t, p, r);
    assert InsertPage(s, p, r) == Inserted(t, p, r);
  }

  // ---- Networks ---------------------------------------------------------------------

  lemma UnreferencedDeletable(s: State, n: CacheNetwork)
    requires Consistent(s)
    ensures Deletable(s, UnreferencedOf(s, n))
    ensures forall p :: p in UnreferencedOf(s, n) ==> p in s.pages && s.pages[p].net == n
    ensures forall p :: p in s.prio && s.pages[p].net == n ==> p in UnreferencedOf(s, n)
  {
    hide Counters, Filter, Distinct;
    FilterMembers(s.prio, OnNetwork(s, n));
    var q := UnreferencedOf(s, n);
    assert Distinct(s.prio);
    assert Distinct(q);
    assert forall p :: p in q ==> p in s.prio;
  }

  /** No page refers to a network without cached pages. */
  lemma NoPages(s: State, n: CacheNetwork)
    requires Consistent(s) && n in s.nets && s.nets[n].nCached == 0
    ensures forall p :: p in s.pages ==> s.pages[p].net != n
  {
    hide Lists, Sum;
    assert NetCounters(s.pages, n, s.nets[n]);
    forall p | p in s.pages ensures s.pages[p].net != n {
      assert p in Matching(s.pages, OfNetwork(n)) <==> s.pages[p].net == n;
    }
  }

  lemma NoReferencedPages(s: State, n: CacheNetwork)
    requires Consistent(s) && n in s.nets && s.nets[n].nReferenced == 0
    ensures forall p :: p in s.pages && s.pages[p].net == n ==> s.pages[p].refs == 0
  {
    hide Lists, Sum;
    assert NetCounters(s.pages, n, s.nets[n]);
    forall p | p in s.pages && s.pages[p].net == n ensures s.pages[p].refs == 0 {
      assert p in Matching(s.pages, ReferencedOf(n)) <==> s.pages[p].refs > 0;
    }
  }

  lemma NetListWithout(nets: Nets, netList: seq<CacheNetwork>, n: CacheNetwork)
    requires NetLists(nets, netList)
    ensures NetLists(nets - {n}, Remove(netList, n))
  {
    hide Remove, Distinct;
    RemoveMembers(netList, n);
  }

  lemma RemoveNetworkLists(s: State, n: CacheNetwork)
    requires Lists(s) && (forall p :: p in s.pages ==> s.pages[p].net != n)
    ensures Lists(s.(nets := s.nets - {n}, netList := Remove(s.netList, n)))
  {
    hide Remove, Distinct, PageLists, NetLists;
    var t := s.(nets := s.nets - {n}, netList := Remove(s.netList, n));
    NetListWithout(s.nets, s.netList, n);
    forall p | p in t.pages ensures Placed(t.pages[p], t.nets) {
      assert Placed(s.pages[p], s.nets);
    }
  }

  lemma RemoveNetworkCounters(s: State, n: CacheNetwork)
    requires Counters(s) && n in s.nets && s.nets[n].zombie
    ensures Counters(s.(nets := s.nets - {n}, netList := Remove(s.netList, n)))
  {
    hide Sum, Remove, Distinct, NetCounters;
    var t := s.(nets := s.nets - {n}, netList := Remove(s.netList, n));
    assert LiveNetworks(t.nets) == LiveNetworks(s.nets);
    SumExt(s.prio, Weight(s), Weight(t));
  }

  lemma RemoveNetworkKeeps(s: State, n: CacheNetwork)
    requires Consistent(s) && n in s.nets && s.nets[n].zombie
    requires forall p :: p in s.pages ==> s.pages[p].net != n
    ensures Consistent(s.(nets := s.nets - {n}, netList := Remove(s.netList, n)))
  {
    hide Lists, Counters;
    RemoveNetworkLists(s, n);
    RemoveNetworkCounters(s, n);
  }

  /** The first half of delete_network: the unreferenced pages of n go. */
  ghost function Purged(s: State, n: CacheNetwork): State
    requires n in s.nets
  {
    if s.nets[n].nCached > 0 then DeletePages(s, UnreferencedOf(s, n)) else s
  }

  lemma PurgedKeeps(s: State, n: CacheNetwork)
    requires Consistent(s) && n in s.nets
    ensures Consistent(Purged(s, n)) && Frame(s, Purged(s, n)) && Purged(s, n).used <= s.used
    ensures forall p :: p in Purged(s, n).pages && Purged(s, n).pages[p].net == n ==> Purged(s, n).pages[p].refs > 0
    ensures forall p :: p in s.pages && s.pages[p].net != n ==>
      p in Purged(s, n).pages && Purged(s, n).pages[p] == s.pages[p]
  {
    hide Lists, Counters, Sum, Filter, DeletePages;
    if s.nets[n].nCached > 0 {
      UnreferencedDeletable(s, n);
      DeletePagesKeeps(s, UnreferencedOf(s, n));
      SumNonNegative(UnreferencedOf(s, n), Weight(s));
      UnreferencedGone(s, n, Purged(s, n));
    } else {
      NetworkStat(s, n);
      NoPages(s, n);
    }
  }

  lemma UnreferencedGone(s: State, n: CacheNetwork, t: State)
    requires Consistent(s) && Deleted(s, UnreferencedOf(s, n), t)
    requires forall p :: p in s.prio && s.pages[p].net == n ==> p in UnreferencedOf(s, n)
    ensures forall p :: p in t.pages && t.pages[p].net == n ==> t.pages[p].refs > 0
  {
    hide Counters, UnreferencedOf;
  }

  predicate SameMarks(a: NetRec, b: NetRec) {
    a.zombie == b.zombie && a.refs == b.refs && a.nReferenced == b.nReferenced
  }

  /** delete_network keeps the cache consistent. The network is gone unless it is in use. */
  lemma DeleteNetworkKeeps(s: State, n: CacheNetwork)
    requires Consistent(s) && n in s.nets
    ensures var t := DeleteNetwork(s, n);
      && Consistent(t) && t.used <= s.used && t.limit == s.limit && t.netLimit == s.netLimit
      && (n in t.nets <==> InUse(s.nets[n])) && (n in t.nets ==> t.nets[n].zombie && InUse(t.nets[n]))
      && t.nets.Keys == (if InUse(s.nets[n]) then s.nets.Keys else s.nets.Keys - {n})
      && t.nNets == s.nNets - (if s.nets[n].zombie then 0 else 1)
      && t.netList == (if InUse(s.nets[n]) then s.netList else Remove(s.netList, n))
      && forall m :: m in s.nets && m != n ==> m in t.nets && SameMarks(s.nets[m], t.nets[m])
  {
    hide Lists, Counters, Remove;
    var t := Purged(s, n);
    PurgedKeeps(s, n);
    MarksKeep(t, n, true, t.nets[n].refs);
    var u := SetMarks(t, n, true, t.nets[n].refs);
    if !InUse(u.nets[n]) {
      NetworkStat(u, n);
      NoReferencedPages(u, n);
      RemoveNetworkKeeps(u, n);
    }
  }
}
