/** What no operation of the cache but the storing of clock pages disturbs: the numbers of subpages
    of all networks stay in order. The sizes of pages do not change. */
module CacheOrder {
  import opened Bits
  import opened CacheForeach
  import opened CacheObjects
  import opened CachePut
  import opened CacheState
  import opened Common
  import opened Seqs

  /** The subpage numbers of every network are in order. */
  ghost predicate AllOrdered(s: State) {
    forall n :: n in s.nets ==> Ordered(s.nets[n])
  }

  ghost predicate OrderStays(s: State, t: State) {
    t.sizes == s.sizes && (AllOrdered(s) ==> AllOrdered(t))
  }

  lemma Stays(s: State, t: State, u: State)
    requires OrderStays(s, t) && OrderStays(t, u)
    ensures OrderStays(s, u)
  {}

  /** Nothing but marks of one network is different. */
  lemma MarkStays(s: State, t: State, n: CacheNetwork, r: NetRec)
    requires n in s.nets && r.stat == s.nets[n].stat && t.nets == s.nets[n := r] && t.sizes == s.sizes
    ensures OrderStays(s, t)
  {
    assert Ordered(s.nets[n]) == Ordered(r);
  }

  lemma DropStays(s: State, p: CachePage, freed: int)
    requires PageOk(s, p)
    ensures OrderStays(s, Drop(s, p, freed))
  {
    hide Remove, NetRemove;
    var n := s.pages[p].net;
    if Ordered(s.nets[n]) { OrderKept(s.nets[n], s.pages[p].pgno, 0); }
  }

  lemma DeleteStays(s: State, p: CachePage)
    ensures OrderStays(s, DeletePage(s, p))
  {
    hide Drop, Remove;
    if PageOk(s, p) { DropStays(s, p, if s.pages[p].pri != Zombie then Size(s, p) else 0); }
  }

  lemma {:induction false} DeletesStay(s: State, q: seq<CachePage>)
    ensures OrderStays(s, DeletePages(s, q))
  {
    hide DeletePage, AllOrdered;
    if q != [] {
      var t := DeletePages(s, q[..|q| - 1]);
      DeletesStay(s, q[..|q| - 1]);
      DeleteStays(t, q[|q| - 1]);
      Stays(s, t, DeletePages(s, q));
    }
  }

  lemma {:induction false} EvictStays(s: State, q: seq<CachePage>, pri: Priority, all: bool)
    ensures OrderStays(s, EvictPass(s, q, pri, all))
    decreases |q|
  {
    hide DeletePage, AllOrdered, Evictable;
    if q != [] && s.used > s.limit {
      var t := if Evictable(s, q[0], pri, all) then DeletePage(s, q[0]) else s;
      DeleteStays(s, q[0]);
      EvictStays(t, q[1..], pri, all);
      Stays(s, t, EvictPass(s, q, pri, all));
    }
  }

  lemma SurplusStays(s: State)
    ensures OrderStays(s, Surplus(s))
  {
    hide EvictPass, AllOrdered;
    var t := EvictPass(s, s.prio, Normal, false);
    var u := EvictPass(t, t.prio, Special, false);
    var v := EvictPass(u, u.prio, Normal, true);
    EvictStays(s, s.prio, Normal, false);
    EvictStays(t, t.prio, Special, false);
    EvictStays(u, u.prio, Normal, true);
    EvictStays(v, v.prio, Special, true);
  }

  lemma RefStays(s: State, p: CachePage)
    requires PageOk(s, p)
    ensures OrderStays(s, RefPage(s, p))
  {
    hide Remove, Ordered;
    var n := s.pages[p].net;
    MarkStays(s, RefPage(s, p), n, RefPage(s, p).nets[n]);
  }

  lemma ReleaseStays(s: State, p: CachePage)
    requires PageOk(s, p)
    ensures OrderStays(s, ReleasePage(s, p))
  {
    hide Remove, Ordered, Drop, AllOrdered;
    var r := s.pages[p];
    var t := s.(pages := s.pages[p := r.(refs := 0)]);
    MarkStays(s, t, r.net, s.nets[r.net]);
    DeleteStays(t, p);
    var u := if r.pri == Zombie then DeletePage(t, p)
             else t.(prio := Remove(t.prio, p) + [p], refd := Remove(t.refd, p), used := t.used + Size(s, p));
    MarkStays(t, t.(prio := u.prio, refd := u.refd, used := u.used), r.net, t.nets[r.net]);
    DropNets(t, p, 0);
    MarkStays(u, ReleasePage(s, p), r.net, ReleasePage(s, p).nets[r.net]);
  }

  lemma DropNets(s: State, p: CachePage, freed: int)
    ensures PageOk(s, p) ==> Drop(s, p, freed).nets.Keys == s.nets.Keys
  {
    hide Remove, NetRemove;
  }

  lemma InsertStays(s: State, p: CachePage, r: PageRec)
    requires r.net in s.nets && |s.nets[r.net].stat| == 0x800 && 0x100 <= r.pgno <= 0x8FF && r.subno < 0x100
    ensures OrderStays(s, InsertPage(s, p, r))
  {
    hide NetAdd;
    var t := Revive(s, r.net);
    var n := t.nets[r.net];
    if Ordered(s.nets[r.net]) {
      assert Ordered(n.(nReferenced := n.nReferenced + 1));
      OrderKept(n.(nReferenced := n.nReferenced + 1), r.pgno, r.subno);
    }
  }

  lemma LookupStays(s: State, n: CacheNetwork, pgno: int, subno: nat, mask: nat)
    ensures OrderStays(s, Lookup(s, n, pgno, subno, mask).0) && Lookup(s, n, pgno, subno, mask).0.nets == s.nets
  {
    hide Matches, FirstMatch, Remove;
  }

  lemma NetworkStays(s: State, n: CacheNetwork)
    ensures OrderStays(s, DeleteNetwork(s, n))
  {
    hide DeletePages, UnreferencedOf, Remove;
    DeletesStay(s, UnreferencedOf(s, n));
    if n in s.nets {
      var t := if s.nets[n].nCached > 0 then DeletePages(s, UnreferencedOf(s, n)) else s;
      if n in t.nets { MarkStays(t, SetMarks(t, n, true, t.nets[n].refs), n, t.nets[n].(zombie := true)); }
    }
  }

  lemma {:induction false} SurplusNetworksStay(s: State, q: seq<CacheNetwork>)
    ensures OrderStays(s, SurplusNetworks(s, q))
    decreases |q|
  {
    hide DeleteNetwork, AllOrdered;
    if q != [] {
      var n := q[|q| - 1];
      var t := if n in s.nets && !InUse(s.nets[n]) && (s.nets[n].zombie || s.nNets > s.netLimit)
               then DeleteNetwork(s, n) else s;
      NetworkStays(s, n);
      SurplusNetworksStay(t, q[..|q| - 1]);
      Stays(s, t, SurplusNetworks(s, q));
    }
  }

  lemma {:induction false} PurgeStays(s: State, q: seq<CacheNetwork>)
    ensures OrderStays(s, Purge(s, q))
    decreases |q|
  {
    hide DeleteNetwork, AllOrdered;
    if q != [] {
      NetworkStays(s, q[0]);
      PurgeStays(DeleteNetwork(s, q[0]), q[1..]);
      Stays(s, DeleteNetwork(s, q[0]), Purge(s, q));
    }
  }

  lemma RecycleStays(s: State, n: CacheNetwork)
    requires n in s.nets
    ensures OrderStays(s, Recycle(s, n))
  {
    hide DeletePages, UnreferencedOf, Remove, Ordered;
    DeletesStay(s, UnreferencedOf(s, n));
    var t := if s.nets[n].nCached > 0 then DeletePages(s, UnreferencedOf(s, n)) else s;
    if n in t.nets { MarkStays(t, Recycle(s, n), n, Recycle(s, n).nets[n]); }
  }

  lemma NewNetworkStays(s: State, n: CacheNetwork)
    ensures OrderStays(s, NewNetwork(s, n))
  {}

  lemma UnrefPageStays(s: State, p: CachePage)
    requires PageOk(s, p)
    ensures OrderStays(s, UnrefPage(s, p))
  {
    hide ReleasePage, DeleteNetwork, Surplus, AllOrdered;
    var r := s.pages[p];
    if r.refs == 1 {
      var t := ReleasePage(s, p);
      ReleaseStays(s, p);
      NetworkStays(t, r.net);
      var u := if r.net in t.nets && t.nets[r.net].zombie && !InUse(t.nets[r.net]) then DeleteNetwork(t, r.net) else t;
      SurplusStays(u);
    } else {
      MarkStays(s, UnrefPage(s, p), r.net, s.nets[r.net]);
    }
  }

  lemma UnrefNetworkStays(s: State, n: CacheNetwork)
    requires n in s.nets
    ensures OrderStays(s, UnrefNetwork(s, n))
  {
    hide SurplusNetworks, Ordered;
    var r := s.nets[n];
    var t := SetMarks(s, n, r.zombie, if r.refs == 0 then 0 else r.refs - 1);
    MarkStays(s, t, n, t.nets[n]);
    SurplusNetworksStay(t, s.netList);
    Stays(s, t, SurplusNetworks(t, s.netList));
  }

  /** Storing any page leaves the sizes as they are. */
  lemma PutSizes(s: State, n: CacheNetwork, pgno: nat, subno: nat, content: Content, clock: bool,
      memory: Option<CachePage>)
    requires n in s.nets && 0x100 <= pgno <= 0x8FF && subno < WORD
    ensures PutPage(s, n, pgno, subno, content, clock, memory).0.sizes == s.sizes
  {
    hide Lookup, FindMemory, PageSize, And, Remove, StoredSubno, DeletePages, AllOrdered, Reuses, NetAdd, NetRemove;
    var (sub, mask) := StoredSubno(pgno, subno, clock);
    LookupStays(s, n, pgno, And(sub, mask), mask);
    var (t, prev) := PutStart(s, n, pgno, subno, clock);
    var c := FindMemory(t, prev, PageSize(s.sizes, content));
    DeletesStay(t, c.row);
  }

  /** Storing a page with a number below 0x100. */
  lemma PutStays(s: State, n: CacheNetwork, pgno: nat, subno: nat, content: Content, clock: bool,
      memory: Option<CachePage>)
    requires n in s.nets && 0x100 <= pgno <= 0x8FF && subno < 0x100
    ensures OrderStays(s, PutPage(s, n, pgno, subno, content, clock, memory).0)
  {
    hide Lookup, FindMemory, Replace, Stored, PageSize, And, Remove, StoredSubno, AllOrdered;
    StoredPlace(n, pgno, subno, content, clock);
    StoredBelow(pgno, subno, clock);
    var (sub, mask) := StoredSubno(pgno, subno, clock);
    LookupStays(s, n, pgno, And(sub, mask), mask);
    var (t, o) := Lookup(s, n, pgno, And(sub, mask), mask);
    if o.Some? && o.value in t.pages { MarkOnly(t, Zombify(t, o.value)); }
    var (u, prev) := PutStart(s, n, pgno, subno, clock);
    assert OrderStays(s, u);
    var needed := PageSize(s.sizes, content);
    var c := FindMemory(u, prev, needed);
    var p := if c.progress != Enough then None else if Reuses(c, needed) then Some(c.row[0]) else memory;
    if p.Some? { ReplaceStays(u, c, needed, p.value, Stored(n, pgno, subno, content, clock)); }
  }

  lemma MarkOnly(s: State, t: State)
    requires t.nets == s.nets && t.sizes == s.sizes
    ensures OrderStays(s, t)
  {}

  lemma StoredBelow(pgno: nat, subno: nat, clock: bool)
    requires pgno < WORD && subno < 0x100
    ensures StoredSubno(pgno, subno, clock).0 < 0x100
  {}

  lemma ReplaceStays(s: State, c: Scan, needed: nat, p: CachePage, r: PageRec)
    requires r.net in s.nets && 0x100 <= r.pgno <= 0x8FF && r.subno < 0x100
    ensures OrderStays(s, Replace(s, c, needed, p, r))
  {
    hide DeletePages, Drop, InsertPage, AllOrdered;
    DeletesStay(s, c.row);
    if Reuses(c, needed) && PageOk(s, c.row[0]) { DropStays(s, c.row[0], needed); }
    var t := if Reuses(c, needed) then if PageOk(s, c.row[0]) then Drop(s, c.row[0], needed) else s
             else DeletePages(s, c.row);
    if r.net in t.nets && |t.nets[r.net].stat| == 0x800 { InsertStays(t, p, r); }
  }
}
