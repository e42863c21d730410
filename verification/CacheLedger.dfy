/** The references to pages and networks which the cache handed out and did not get back.
    The cache counts exactly these, so nothing anyone holds a reference to goes away. */
module CacheLedger {
  import opened Bits
  import opened CacheEviction
  import opened CacheObjects
  import opened CacheOperations
  import opened CacheProofs
  import opened CachePut
  import opened CacheRuns
  import opened CacheSearch
  import opened CacheState
  import opened Common
  import opened Seqs

  // ---- One call -------------------------------------------------------------------------

  /** Every call of cache_page_ref counts: the page has one reference more, and nothing else about
      any page is different. */
  lemma RefPageCounts(s: State, p: CachePage)
    requires PageOk(s, p)
    ensures var refs := s.pages[p].refs; RefPage(s, p).pages == s.pages[p := s.pages[p].(refs := refs + 1)]
  {
    hide Remove;
  }

  /** As long as there are others, cache_page_unref takes one reference away and does nothing else. */
  lemma UnrefPageCounts(s: State, p: CachePage)
    requires PageOk(s, p) && s.pages[p].refs > 1
    ensures var refs := s.pages[p].refs; UnrefPage(s, p) == s.(pages := s.pages[p := s.pages[p].(refs := refs - 1)])
  {
    hide ReleasePage, Surplus, DeleteNetwork;
  }

  /** Asking for a network, and cache_network_ref, give one reference more to it alone.
      cache_network_unref takes one away. */
  lemma NetworkCounts(s: State, n: CacheNetwork)
    requires n in s.nets
    ensures var r := s.nets[n];
      && RefNetwork(s, n).nets == s.nets[n := r.(refs := r.refs + 1)]
      && GetNetwork(s, n).nets == s.nets[n := r.(refs := r.refs + 1, zombie := false)]
      && RefNetwork(s, n).pages == GetNetwork(s, n).pages == s.pages
      && (r.refs > 1 ==> UnrefNetwork(s, n) == s.(nets := s.nets[n := r.(refs := r.refs - 1)]))
  {
    hide SurplusNetworks, Remove;
  }

  // ---- What stays while there are references ----------------------------------------------

  /** The same version of the same page, with as many references. */
  predicate SamePage(a: PageRec, b: PageRec) {
    b == a.(pri := b.pri)
  }

  /** Everything with references is still there with as many, and nothing else has any. */
  ghost predicate Held(s: State, t: State) {
    && (forall p :: p in s.pages && s.pages[p].refs > 0 ==> p in t.pages && SamePage(s.pages[p], t.pages[p]))
    && (forall p :: p in t.pages && t.pages[p].refs > 0 ==> p in s.pages && s.pages[p].refs > 0)
    && (forall n :: n in s.nets && s.nets[n].refs > 0 ==> n in t.nets && t.nets[n].refs == s.nets[n].refs)
    && (forall n :: n in t.nets && t.nets[n].refs > 0 ==> n in s.nets && s.nets[n].refs > 0)
  }

  lemma HeldTrans(s: State, t: State, u: State)
    requires Held(s, t) && Held(t, u)
    ensures Held(s, u)
  {}

  lemma SameHeld(s: State, t: State)
    requires t.pages == s.pages && t.nets.Keys == s.nets.Keys
    requires forall n :: n in s.nets ==> t.nets[n].refs == s.nets[n].refs
    ensures Held(s, t)
  {}

  /** delete_page does not touch a referenced page but for its mark. */
  lemma DeleteHeld(s: State, p: CachePage)
    ensures Held(s, DeletePage(s, p))
  {
    hide Remove, NetRemove;
    if PageOk(s, p) && s.pages[p].refs == 0 { DropHeld(s, p, if s.pages[p].pri != Zombie then Size(s, p) else 0); }
  }

  lemma DropHeld(s: State, p: CachePage, freed: int)
    requires PageOk(s, p) && s.pages[p].refs == 0
    ensures Held(s, Drop(s, p, freed))
  {
    hide Remove;
  }

  lemma {:induction false} DeletesHeld(s: State, q: seq<CachePage>)
    ensures Held(s, DeletePages(s, q))
  {
    hide DeletePage, Held;
    if q == [] {
      SameHeld(s, s);
    } else {
      var t := DeletePages(s, q[..|q| - 1]);
      DeletesHeld(s, q[..|q| - 1]);
      DeleteHeld(t, q[|q| - 1]);
      HeldTrans(s, t, DeletePages(s, q));
    }
  }

  lemma SurplusHeld(s: State)
    requires Consistent(s)
    ensures Held(s, Surplus(s))
  {
    hide *;
    SurplusIsShortestPrefix(s);
    DeletesHeld(s, Shortest(EvictionOrder(s), Weight(s), s.used - s.limit));
  }

  lemma DeleteNetworkHeld(s: State, n: CacheNetwork)
    ensures Held(s, DeleteNetwork(s, n))
  {
    hide DeletePages, UnreferencedOf, Held;
    SameHeld(s, s);
    if n in s.nets {
      var t := if s.nets[n].nCached > 0 then DeletePages(s, UnreferencedOf(s, n)) else s;
      DeletesHeld(s, UnreferencedOf(s, n));
      if n in t.nets {
        MarkedHeld(t, n);
        HeldTrans(s, t, DeleteNetwork(s, n));
      }
    }
  }

  lemma MarkedHeld(s: State, n: CacheNetwork)
    requires n in s.nets
    ensures var u := SetMarks(s, n, true, s.nets[n].refs);
      Held(s, if InUse(u.nets[n]) then u else u.(nets := u.nets - {n}, netList := Remove(u.netList, n)))
  {
    hide Remove;
  }

  lemma {:induction false} SurplusNetworksHeld(s: State, q: seq<CacheNetwork>)
    ensures Held(s, SurplusNetworks(s, q))
    decreases |q|
  {
    hide DeleteNetwork, Held;
    SameHeld(s, s);
    if q != [] {
      var n := q[|q| - 1];
      var t := if n in s.nets && !InUse(s.nets[n]) && (s.nets[n].zombie || s.nNets > s.netLimit)
               then DeleteNetwork(s, n) else s;
      DeleteNetworkHeld(s, n);
      SurplusNetworksHeld(t, q[..|q| - 1]);
      HeldTrans(s, t, SurplusNetworks(s, q));
    }
  }

  lemma {:induction false} PurgeHeld(s: State, q: seq<CacheNetwork>)
    ensures Held(s, Purge(s, q))
    decreases |q|
  {
    hide DeleteNetwork, Held;
    if q == [] {
      SameHeld(s, s);
    } else {
      DeleteNetworkHeld(s, q[0]);
      PurgeHeld(DeleteNetwork(s, q[0]), q[1..]);
      HeldTrans(s, DeleteNetwork(s, q[0]), Purge(s, q));
    }
  }

  // ---- The ledger ---------------------------------------------------------------------------

  /** What a page is of, and what it holds. */
  datatype Version = Version(net: CacheNetwork, pgno: int, subno: nat, content: Content)

  function VersionOf(r: PageRec): Version {
    Version(r.net, r.pgno, r.subno, r.content)
  }

  /** The references held, and which version of which page each page was when it was handed out. */
  datatype Ledger = Ledger(pages: multiset<CachePage>, nets: multiset<CacheNetwork>, given: map<CachePage, Version>)

  /** The reference counts of the pages are the entries of the ledger, and the pages are still what they were. */
  ghost predicate PagesAccounted(pages: Pages, l: Ledger) {
    && (forall p :: p in l.pages ==> p in pages && p in l.given && l.given[p] == VersionOf(pages[p]))
    && (forall p :: p in pages ==> pages[p].refs == l.pages[p])
  }

  ghost predicate NetsAccounted(nets: Nets, l: Ledger) {
    && (forall n :: n in l.nets ==> n in nets)
    && (forall n :: n in nets ==> nets[n].refs == l.nets[n])
  }

  ghost predicate Accounted(s: State, l: Ledger) {
    PagesAccounted(s.pages, l) && NetsAccounted(s.nets, l)
  }

  /** A reference to a page is handed out by a call which leaves cache s. */
  function PageGiven(l: Ledger, o: Option<CachePage>, s: State): Ledger {
    if o.None? then l
    else if o.value in l.pages || o.value !in s.pages then l.(pages := l.pages + multiset{o.value})
    else l.(pages := l.pages + multiset{o.value}, given := l.given[o.value := VersionOf(s.pages[o.value])])
  }

  function NetworkGiven(l: Ledger, o: Option<CacheNetwork>): Ledger {
    if o.Some? then l.(nets := l.nets + multiset{o.value}) else l
  }

  /** The ledger after a call. The caller owns a reference to each page or network which is returned
      to it, and to those it asked for, until it gives them back. */
  ghost function Entered(s: State, op: Operation, l: Ledger): Ledger
    requires Allowed(s, op)
  {
    match op
    case Get(n, pgno, subno, mask) => PageGiven(l, GetPage(s, n, pgno, subno, mask).1, Apply(s, op))
    case Ref(p) => PageGiven(l, Some(p), Apply(s, op))
    case Unref(p) => l.(pages := l.pages - multiset{p})
    case Put(n, pgno, subno, content, clock, memory) =>
      PageGiven(l, PutPage(s, n, pgno, subno, content, clock, memory).1, Apply(s, op))
    case AskNetwork(n) => NetworkGiven(l, Some(n))
    case AddNetwork(known, space) => NetworkGiven(l, Added(s, known, space).0)
    case RefNet(n) => NetworkGiven(l, Some(n))
    case UnrefNet(n) => l.(nets := l.nets - multiset{n})
    case PurgeCache => l
  }

  lemma HeldAccounted(s: State, t: State, l: Ledger)
    requires Held(s, t) && Accounted(s, l)
    ensures Accounted(t, l)
  {}

  lemma GetAccounted(s: State, n: CacheNetwork, pgno: int, subno: nat, mask: nat, l: Ledger)
    requires Inv(s) && Accounted(s, l)
    ensures var (t, o) := GetPage(s, n, pgno, subno, mask); Accounted(t, PageGiven(l, o, t))
  {
    hide Inv, Lookup, RefPage, PageOk, Accounted, Held, PageGiven, Matches;
    var m := if subno == ANY_SUBNO then 0 else mask;
    LookupKeeps(s, n, pgno, subno, m);
    var (t, o) := Lookup(s, n, pgno, subno, m);
    NothingGiven(l, t);
    NothingGiven(l, s);
    SameHeld(s, t);
    HeldAccounted(s, t, l);
    if o.Some? {
      RefPageKeeps(t, o.value);
      RefAccounted(t, o.value, l);
    }
  }

  lemma NothingGiven(l: Ledger, s: State)
    ensures PageGiven(l, None, s) == l && NetworkGiven(l, None) == l
  {}

  lemma RefAccounted(s: State, p: CachePage, l: Ledger)
    requires PageOk(s, p) && Accounted(s, l)
    ensures Accounted(RefPage(s, p), PageGiven(l, Some(p), RefPage(s, p)))
  {
    RefPageCounts(s, p);
    RefNets(s, p);
    hide RefPage;
    OneMore(s, p, RefPage(s, p), l);
  }

  lemma RefNets(s: State, p: CachePage)
    requires PageOk(s, p)
    ensures var t := RefPage(s, p);
      t.nets.Keys == s.nets.Keys && forall n :: n in s.nets ==> t.nets[n].refs == s.nets[n].refs
  {
    hide Remove;
  }

  lemma OneMore(s: State, p: CachePage, t: State, l: Ledger)
    requires p in s.pages && t.pages == s.pages[p := s.pages[p].(refs := s.pages[p].refs + 1)] && Accounted(s, l)
    requires t.nets.Keys == s.nets.Keys && forall n :: n in s.nets ==> t.nets[n].refs == s.nets[n].refs
    ensures Accounted(t, PageGiven(l, Some(p), t))
  {
    OnePageMore(s.pages, p, t, l);
    assert NetsAccounted(t.nets, l);
  }

  lemma OnePageMore(pages: Pages, p: CachePage, t: State, l: Ledger)
    requires p in pages && t.pages == pages[p := pages[p].(refs := pages[p].refs + 1)] && PagesAccounted(pages, l)
    ensures PagesAccounted(t.pages, PageGiven(l, Some(p), t)) && PageGiven(l, Some(p), t).nets == l.nets
  {
    var m := PageGiven(l, Some(p), t);
    assert m.pages == l.pages + multiset{p};
    assert VersionOf(t.pages[p]) == VersionOf(pages[p]);
    forall q | q in m.pages ensures q in t.pages && q in m.given && m.given[q] == VersionOf(t.pages[q]) {
      assert q == p || q in l.pages;
    }
  }

  lemma ReleaseHeld(s: State, p: CachePage)
    requires PageOk(s, p)
    ensures Held(s.(pages := s.pages[p := s.pages[p].(refs := 0)]), ReleasePage(s, p))
  {
    hide Remove, DeletePage, Held;
    var r := s.pages[p];
    var t := s.(pages := s.pages[p := r.(refs := 0)]);
    var u := if r.pri == Zombie then DeletePage(t, p)
             else t.(prio := Remove(t.prio, p) + [p], refd := Remove(t.refd, p), used := t.used + Size(s, p));
    if r.pri == Zombie { DeleteHeld(t, p); } else { SameHeld(t, u); }
    assert r.net in u.nets by { DeletedNets(t, p); }
    SameHeld(u, ReleasePage(s, p));
    HeldTrans(t, u, ReleasePage(s, p));
  }

  lemma DeletedNets(s: State, p: CachePage)
    ensures DeletePage(s, p).nets.Keys == s.nets.Keys
  {
    hide Remove, NetRemove;
  }

  lemma TakenAccounted(s: State, p: CachePage, l: Ledger)
    requires p in s.pages && s.pages[p].refs > 0 && Accounted(s, l)
    ensures Accounted(s.(pages := s.pages[p := s.pages[p].(refs := s.pages[p].refs - 1)]),
                      l.(pages := l.pages - multiset{p}))
  {
    OnePageLess(s.pages, p, l);
    hide PagesAccounted;
  }

  lemma OnePageLess(pages: Pages, p: CachePage, l: Ledger)
    requires p in pages && pages[p].refs > 0 && PagesAccounted(pages, l)
    ensures PagesAccounted(pages[p := pages[p].(refs := pages[p].refs - 1)], l.(pages := l.pages - multiset{p}))
  {
    var t, m := pages[p := pages[p].(refs := pages[p].refs - 1)], l.(pages := l.pages - multiset{p});
    forall q | q in m.pages ensures q in t && q in m.given && m.given[q] == VersionOf(t[q]) {
      assert q in l.pages;
    }
    forall q | q in t ensures t[q].refs == m.pages[q] {
      assert pages[q].refs == l.pages[q];
    }
  }

  lemma NoneTaken(s: State, p: CachePage, l: Ledger)
    requires p in s.pages && s.pages[p].refs == 0 && Accounted(s, l)
    ensures l.(pages := l.pages - multiset{p}) == l
  {}

  lemma UnrefAccounted(s: State, p: CachePage, l: Ledger)
    requires Inv(s) && p in s.pages && Accounted(s, l)
    ensures PageOk(s, p) && Accounted(UnrefPage(s, p), l.(pages := l.pages - multiset{p}))
  {
    hide Inv, Consistent, DeleteNetwork, Surplus, ReleasePage, PageOk, Held,
      Accounted;
    KnownPage(s, p) by { InvParts(s); }
    var r, m := s.pages[p], l.(pages := l.pages - multiset{p});
    if r.refs == 0 { NoneTaken(s, p, l); } else { TakenAccounted(s, p, l); }
    if r.refs == 1 {
      var z := s.(pages := s.pages[p := r.(refs := 0)]);
      ReleaseHeld(s, p);
      ReleaseStep(s, p);
      var t := ReleasePage(s, p);
      HeldAccounted(z, t, m);
      var u := if r.net in t.nets && t.nets[r.net].zombie && !InUse(t.nets[r.net]) then DeleteNetwork(t, r.net) else t;
      DeleteNetworkHeld(t, r.net);
      if u != t { HeldAccounted(t, u, m); }
      DeadNetworkGoes(t, r.net);
      SurplusHeld(u);
      if u.used > u.limit { HeldAccounted(u, Surplus(u), m); }
    }
  }

  // ---- Storing --------------------------------------------------------------------------------

  lemma StartHeld(s: State, n: CacheNetwork, pgno: nat, subno: nat, clock: bool)
    requires pgno < WORD && subno < WORD
    ensures Held(s, PutStart(s, n, pgno, subno, clock).0)
  {
    hide StoredSubno, FirstMatch, Remove, And;
  }

  /** A page without references comes in with one. */
  lemma InsertAccounted(s: State, p: CachePage, r: PageRec, l: Ledger)
    requires r.net in s.nets && |s.nets[r.net].stat| == 0x800 && 0x100 <= r.pgno <= 0x8FF
    requires p !in s.pages && Accounted(s, l)
    ensures Accounted(InsertPage(s, p, r), PageGiven(l, Some(p), InsertPage(s, p, r)))
  {
    hide NetAdd;
    NetAddRefs(s.nets[r.net], r.pgno, r.subno);
    var t := InsertPage(s, p, r);
    OnePageNew(s.pages, p, r.(refs := 1), t, l);
    hide PagesAccounted, PageGiven;
    assert NetsAccounted(t.nets, l);
  }

  lemma OnePageNew(pages: Pages, p: CachePage, r: PageRec, t: State, l: Ledger)
    requires p !in pages && r.refs == 1 && t.pages == pages[p := r] && PagesAccounted(pages, l)
    ensures var m := PageGiven(l, Some(p), t); PagesAccounted(t.pages, m) && m.nets == l.nets
  {
    var m := PageGiven(l, Some(p), t);
    assert p !in l.pages && m.pages == l.pages + multiset{p};
    forall q | q in m.pages ensures q in t.pages && q in m.given && m.given[q] == VersionOf(t.pages[q]) {
      assert q == p || q in l.pages;
    }
  }

  lemma NetAddRefs(r: NetRec, pgno: int, subno: nat)
    requires |r.stat| == 0x800 && 0x100 <= pgno <= 0x8FF
    ensures forall z: bool, k: int :: NetAdd(r.(zombie := z, nReferenced := k), pgno, subno).refs == r.refs
  {}

  lemma ReplaceAccounted(s: State, c: Scan, needed: nat, p: CachePage, r: PageRec, l: Ledger)
    requires Consistent(s) && Deletable(s, c.row) && Placed(r, s.nets) && Accounted(s, l)
    requires if Reuses(c, needed) then p == c.row[0] else p !in s.pages
    ensures Accounted(Replace(s, c, needed, p, r), PageGiven(l, Some(p), Replace(s, c, needed, p, r)))
  {
    hide Consistent, InsertPage, DeletePages, Drop, Deletable, Accounted, Held, PageGiven;
    if Reuses(c, needed) {
      var q := c.row[0];
      RowMember(s, c.row);
      DeletePageKeeps(s, q);
      Unreferenced(s, q);
      DropHeld(s, q, needed);
      DropOther(s, q, needed);
      DroppedPage(s, q, needed);
      HeldAccounted(s, Drop(s, q, needed), l);
      NetworkStat(DeletePage(s, q), r.net) by { SameKeys(s, DeletePage(s, q)); }
      InsertAccounted(Drop(s, q, needed), p, r, l);
    } else {
      DeletePagesKeeps(s, c.row);
      var v := DeletePages(s, c.row);
      DeletesHeld(s, c.row);
      HeldAccounted(s, v, l);
      NetworkStat(v, r.net);
      InsertAccounted(v, p, r, l);
    }
  }

  lemma PutAccounted(s: State, n: CacheNetwork, pgno: nat, subno: nat, content: Content, clock: bool,
      memory: Option<CachePage>, l: Ledger)
    requires Inv(s) && Accounted(s, l) && n in s.nets && 0x100 <= pgno <= 0x8FF && subno < WORD
    requires (memory.Some? ==> memory.value !in s.pages) && Storable(s, n, pgno, subno, content, clock)
    ensures var (t, o) := PutPage(s, n, pgno, subno, content, clock, memory); Accounted(t, PageGiven(l, o, t))
  {
    hide Consistent, PutStart, Found, Stored, PageSize, Replace, Suffices, PicksOnce, Accounted, Held, KeepsCount,
      Reuses, PageGiven;
    PutStartKeeps(s, n, pgno, subno, clock);
    StartHeld(s, n, pgno, subno, clock);
    var (t, prev) := PutStart(s, n, pgno, subno, clock);
    NothingGiven(l, s);
    NothingGiven(l, t);
    HeldAccounted(s, t, l);
    var needed := PageSize(s.sizes, content);
    var c := FindMemory(t, prev, needed);
    var r := Stored(n, pgno, subno, content, clock);
    StoredPlace(n, pgno, subno, content, clock);
    var (u, p) := PutPage(s, n, pgno, subno, content, clock, memory);
    if p.Some? {
      RowStorable(t, prev, needed);
      ReplaceAccounted(t, c, needed, p.value, r, l);
    }
  }

  // ---- Networks ---------------------------------------------------------------------------------

  /** Network n starts anew, referenced once. */
  lemma RenewedAccounted(s: State, n: CacheNetwork, q: seq<CacheNetwork>, l: Ledger)
    requires n in s.nets && s.nets[n].refs == 0 && Accounted(s, l)
    ensures var r := s.nets[n].(refs := 1, zombie := false, nCached := 0, maxCached := 0, nReferenced := 0);
      Accounted(s.(nets := s.nets[n := r], netList := q), NetworkGiven(l, Some(n)))
  {}

  lemma NewAccounted(s: State, n: CacheNetwork, l: Ledger)
    requires n !in s.nets && Accounted(s, l)
    ensures Accounted(NewNetwork(s, n), NetworkGiven(l, Some(n)))
  {}

  lemma RecycledAccounted(s: State, n: CacheNetwork, l: Ledger)
    requires n in s.nets && !InUse(s.nets[n]) && Accounted(s, l)
    ensures Accounted(Recycle(s, n), NetworkGiven(l, Some(n)))
  {
    hide Remove, DeletePages, UnreferencedOf, Held, Accounted, NetworkGiven;
    var t := if s.nets[n].nCached > 0 then DeletePages(s, UnreferencedOf(s, n)) else s;
    DeletesHeld(s, UnreferencedOf(s, n));
    DeletesNets(s, UnreferencedOf(s, n));
    SameHeld(s, s);
    HeldAccounted(s, t, l);
    assert t.nets[n].refs == 0 by { StillUnused(s, t, n); }
    RenewedAccounted(t, n, [n] + Remove(t.netList, n), l);
  }

  lemma StillUnused(s: State, t: State, n: CacheNetwork)
    requires Held(s, t) && n in s.nets && n in t.nets && s.nets[n].refs == 0
    ensures t.nets[n].refs == 0
  {}

  lemma AddedAccounted(s: State, known: Option<CacheNetwork>, space: Option<CacheNetwork>, l: Ledger)
    requires (space.Some? ==> space.value !in s.nets) && Accounted(s, l)
    ensures var (o, t) := Added(s, known, space); Accounted(t, NetworkGiven(l, o))
  {
    hide Remove, LastUnused, Recycle, NewNetwork, NetworkGiven, Accounted, Held, RefNetwork;
    var recycled := if s.nNets < s.netLimit then None else LastUnused(s, s.netList);
    NothingGiven(l, s);
    if known.Some? && known.value in s.nets {
      var t := Fronted(s, known.value);
      SameHeld(s, t);
      HeldAccounted(s, t, l);
      NetworkAccounted(t, known.value, l);
    } else if recycled.Some? {
      RecycledAccounted(s, recycled.value, l);
    } else if space.Some? {
      NewAccounted(s, space.value, l);
    }
  }

  lemma {:induction false} DeletesNets(s: State, q: seq<CachePage>)
    ensures DeletePages(s, q).nets.Keys == s.nets.Keys
  {
    hide DeletePage;
    if q != [] {
      DeletesNets(s, q[..|q| - 1]);
      DeletedNets(DeletePages(s, q[..|q| - 1]), q[|q| - 1]);
    }
  }

  lemma NetworkAccounted(s: State, n: CacheNetwork, l: Ledger)
    requires n in s.nets && Accounted(s, l)
    ensures Accounted(GetNetwork(s, n), NetworkGiven(l, Some(n)))
    ensures Accounted(RefNetwork(s, n), NetworkGiven(l, Some(n)))
  {
    NetworkCounts(s, n);
    hide GetNetwork, RefNetwork;
    MoreAccounted(s, n, s.nets[n].zombie, l);
    MoreAccounted(s, n, false, l);
    hide Accounted;
    SameAccounted(s.(nets := GetNetwork(s, n).nets), GetNetwork(s, n), NetworkGiven(l, Some(n)));
    SameAccounted(s.(nets := RefNetwork(s, n).nets), RefNetwork(s, n), NetworkGiven(l, Some(n)));
  }

  lemma MoreAccounted(s: State, n: CacheNetwork, zombie: bool, l: Ledger)
    requires n in s.nets && Accounted(s, l)
    ensures Accounted(s.(nets := s.nets[n := s.nets[n].(refs := s.nets[n].refs + 1, zombie := zombie)]),
                      NetworkGiven(l, Some(n)))
  {}

  lemma SameAccounted(s: State, t: State, l: Ledger)
    requires Accounted(s, l) && t.pages == s.pages && t.nets == s.nets
    ensures Accounted(t, l)
  {}

  lemma LessAccounted(s: State, n: CacheNetwork, l: Ledger)
    requires n in s.nets && s.nets[n].refs > 0 && Accounted(s, l)
    ensures Accounted(SetMarks(s, n, s.nets[n].zombie, s.nets[n].refs - 1), l.(nets := l.nets - multiset{n}))
  {}

  lemma NoneAccounted(s: State, n: CacheNetwork, l: Ledger)
    requires n in s.nets && s.nets[n].refs == 0 && Accounted(s, l)
    ensures l.(nets := l.nets - multiset{n}) == l
  {}

  lemma UnrefNetworkAccounted(s: State, n: CacheNetwork, l: Ledger)
    requires n in s.nets && Accounted(s, l)
    ensures Accounted(UnrefNetwork(s, n), l.(nets := l.nets - multiset{n}))
  {
    hide SurplusNetworks, Held, Accounted;
    var r, m := s.nets[n], l.(nets := l.nets - multiset{n});
    if r.refs > 0 {
      var t := SetMarks(s, n, r.zombie, r.refs - 1);
      LessAccounted(s, n, l);
      SurplusNetworksHeld(t, s.netList);
      HeldAccounted(t, SurplusNetworks(t, s.netList), m);
    } else {
      NoneAccounted(s, n, l);
    }
  }

  // ---- Runs ---------------------------------------------------------------------------------------

  /** Every operation keeps the reference counts equal to the ledger. */
  lemma ApplyAccounted(s: State, op: Operation, l: Ledger)
    requires Inv(s) && Allowed(s, op) && Accounted(s, l)
    ensures Accounted(Apply(s, op), Entered(s, op, l))
  {
    hide Inv, GetPage, RefPage, UnrefPage, PutPage, GetNetwork, RefNetwork, UnrefNetwork, Purge, PageOk, Added,
      PageSize, Storable, KeepsCount, Accounted, Held, PageGiven, NetworkGiven;
    match op
    case Get(n, pgno, subno, mask) => GetAccounted(s, n, pgno, subno, mask, l);
    case Ref(p) =>
      RefPageKeeps(s, p);
      RefAccounted(s, p, l);
    case Unref(p) => UnrefAccounted(s, p, l);
    case Put(n, pgno, subno, content, clock, memory) => PutAccounted(s, n, pgno, subno, content, clock, memory, l);
    case AskNetwork(n) => NetworkAccounted(s, n, l);
    case AddNetwork(known, space) => AddedAccounted(s, known, space, l);
    case RefNet(n) => NetworkAccounted(s, n, l);
    case UnrefNet(n) => UnrefNetworkAccounted(s, n, l);
    case PurgeCache =>
      PurgeHeld(s, s.netList);
      HeldAccounted(s, Purge(s, s.netList), l);
  }

  /** The ledger after a whole run. */
  ghost function RunLedger(s: State, ops: seq<Operation>, l: Ledger): Ledger
    requires AllAllowed(s, ops)
    decreases |ops|
  {
    if ops == [] then l else RunLedger(Apply(s, ops[0]), ops[1..], Entered(s, ops[0], l))
  }

  /** In every run the reference counts of all pages and networks are the references handed out less
      those given back. So what anyone still holds is in the cache, and a page is still the same version of
      the same page as when the first of its present holders got it. */
  lemma {:induction false} RunAccounted(s: State, ops: seq<Operation>, l: Ledger)
    requires Inv(s) && AllAllowed(s, ops) && Accounted(s, l)
    ensures var t, m := Run(s, ops), RunLedger(s, ops, l);
      && Accounted(t, m)
      && (forall p :: p in m.pages ==> p in t.pages && t.pages[p].refs == m.pages[p])
      && (forall p :: p in m.pages ==> p in m.given && VersionOf(t.pages[p]) == m.given[p])
      && (forall n :: n in m.nets ==> n in t.nets && t.nets[n].refs == m.nets[n])
    decreases |ops|
  {
    hide Inv, Apply, Allowed, Entered;
    if ops != [] {
      ApplyKeeps(s, ops[0]);
      ApplyAccounted(s, ops[0], l);
      hide Accounted;
      RunAccounted(Apply(s, ops[0]), ops[1..], Entered(s, ops[0], l));
    }
  }
}
