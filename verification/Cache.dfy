/** The Teletext page cache, with its lists, pages and networks updated in place. */
module Cache {
  import opened Bits
  import opened CacheChains
  import opened CacheEviction
  import opened CacheObjects
  import opened CacheOperations
  import opened CacheProofs
  import opened CachePut
  import opened CacheSearch
  import opened CacheState
  import opened Common
  import opened Seqs

  function Rec(p: CachePage): PageRec
    reads p
  {
    PageRec(p.network, p.refCount, p.priority, p.content, p.pgno, p.subno)
  }

  function NetworkRec(n: CacheNetwork): NetRec
    reads n
  {
    NetRec(n.refCount, n.zombie, n.nCachedPages, n.maxCachedPages, n.nReferencedPages, n.pageStat)
  }

  function NetworkOption(n: CacheNetwork?): Option<CacheNetwork> {
    if n == null then None else Some(n)
  }

  function ToOption(p: CachePage?): Option<CachePage> {
    if p == null then None else Some(p)
  }

  ghost function PagesOf(ps: set<CachePage>): Pages
    reads ps
  {
    map p | p in ps :: Rec(p)
  }

  ghost function NetsOf(ns: set<CacheNetwork>): Nets
    reads ns
  {
    map n | n in ns :: NetworkRec(n)
  }

  class Cache {
    const sizes: Sizes
    var hash: seq<seq<CachePage>>
    var nCachedPages: int
    var priority: seq<CachePage>
    var referenced: seq<CachePage>
    var memoryUsed: int
    const memoryLimit: nat
    var networks: seq<CacheNetwork>
    var nCachedNetworks: int
    const nNetworksLimit: int

    // The pages and networks which are allocated, and the list which the hash chains refine.
    ghost var pages: set<CachePage>
    ghost var nets: set<CacheNetwork>
    ghost var mru: seq<CachePage>

    ghost function Abs(): State
      reads this, pages, nets
    {
      State(sizes, PagesOf(pages), NetsOf(nets), mru, priority, referenced, networks,
            memoryUsed, memoryLimit, nCachedPages, nCachedNetworks, nNetworksLimit)
    }

    ghost predicate Valid()
      reads this, pages
    {
      Chains(PagesOf(pages), mru, hash)
    }

    constructor (sizes: Sizes, memoryLimit: nat, nNetworksLimit: int)
      ensures Valid() && Inv(Abs()) && pages == {} && nets == {} && fresh(this)
    {
      this.sizes, this.memoryLimit, this.nNetworksLimit := sizes, memoryLimit, nNetworksLimit;
      hash := seq(HASH_SIZE, _ => []);
      nCachedPages, priority, referenced, memoryUsed, networks, nCachedNetworks := 0, [], [], 0, [], 0;
      pages, nets, mru := {}, {}, [];
    }

    // ---- Single assignments ----------------------------------------------------------

    /** Only page p has changed, and it is still the page of its number. */
    twostate lemma PageChanged(p: CachePage)
      requires p in pages && unchanged(this`pages, this`nets, this`hash, this`mru)
        && forall q :: q in pages && q != p ==> unchanged(q)
      requires (forall n :: n in nets ==> unchanged(n)) && p.pgno == old(p.pgno)
      ensures PagesOf(pages) == old(PagesOf(pages))[p := Rec(p)] && NetsOf(nets) == old(NetsOf(nets))
      ensures old(Valid()) && Allocated() ==> Valid()
    {
      hide Chains;
      assert PagesOf(pages) == old(PagesOf(pages))[p := Rec(p)];
      if old(Valid()) && Allocated() { ChainsFrame(old(PagesOf(pages)), PagesOf(pages), mru, hash); }
    }

    /** Only network n has changed. */
    twostate lemma NetworkChanged(n: CacheNetwork)
      requires n in nets && unchanged(this`pages, this`nets, this`hash, this`mru)
        && forall q :: q in pages ==> unchanged(q)
      requires forall m :: m in nets && m != n ==> unchanged(m)
      ensures NetsOf(nets) == old(NetsOf(nets))[n := NetworkRec(n)] && PagesOf(pages) == old(PagesOf(pages))
      ensures old(Valid()) ==> Valid()
    {
      hide Chains;
      assert PagesOf(pages) == old(PagesOf(pages));
    }

    /** Page p is freed. */
    twostate lemma PageFreed(p: CachePage)
      requires p in old(pages) && pages == old(pages) - {p} && unchanged(this`hash, this`mru)
      requires (forall q :: q in pages ==> unchanged(q)) && nets == old(nets) && forall n :: n in nets ==> unchanged(n)
      ensures PagesOf(pages) == old(PagesOf(pages)) - {p} && NetsOf(nets) == old(NetsOf(nets))
      ensures old(Valid()) && p !in mru && (forall q :: q in mru ==> q in old(pages)) ==> Valid()
    {
      hide Chains;
      if old(Valid()) && p !in mru && forall q :: q in mru ==> q in old(pages) {
        ChainsFrame(old(PagesOf(pages)), PagesOf(pages), mru, hash);
      }
    }

    lemma Known(p: CachePage)
      requires PageOk(Abs(), p)
      ensures p in pages && p.network in nets && 0x100 <= p.pgno <= 0x8FF && |p.network.pageStat| == 0x800
      ensures Abs().pages[p] == Rec(p) && Abs().nets[p.network] == NetworkRec(p.network)
        && Size(Abs(), p) == PageSize(sizes, p.content)
    {}

    // ---- Pages -------------------------------------------------------------------

    /** Unlinks a page from its hash chain. */
    method UnlinkHash(p: CachePage)
      requires Valid() && p in pages
      modifies this`hash, this`mru
      ensures Valid() && Abs() == old(Abs()).(mru := Remove(old(mru), p))
    {
      hide Chains, Remove;
      ChainsRemove(PagesOf(pages), mru, hash, p);
      var h := p.pgno % HASH_SIZE;
      HashSize();
      hash := hash[h := Remove(hash[h], p)];
      mru := Remove(mru, p);
    }

    lemma HashSize()
      requires Valid()
      ensures |hash| == HASH_SIZE
    {}

    /** add_head on a hash chain. */
    method LinkHash(p: CachePage)
      requires Valid() && p in pages
      modifies this`hash, this`mru
      ensures Valid() && Abs() == old(Abs()).(mru := [p] + old(mru))
    {
      hide Chains;
      ChainsAdd(PagesOf(pages), mru, hash, p);
      var h := p.pgno % HASH_SIZE;
      HashSize();
      hash := hash[h := [p] + hash[h]];
      mru := [p] + mru;
    }

    /** cache_network_remove_page. */
    method RemoveFromNetwork(n: CacheNetwork, p: CachePage)
      requires Valid() && PageOk(Abs(), p) && n == p.network
      modifies n
      ensures Valid() && Abs() == old(Abs()).(nets := old(Abs()).nets[n := NetRemove(old(NetworkRec(n)), p.pgno)])
    {
      hide Chains;
      n.nCachedPages := n.nCachedPages - 1;
      var i := p.pgno - 0x100;
      var t := n.pageStat[i];
      n.pageStat := n.pageStat[i := t.(nSubpages := (t.nSubpages + 255) % 256)];
      NetworkChanged(n);
    }

    ghost predicate Allocated()
      reads this
    {
      forall q :: q in mru ==> q in pages
    }

    /** Takes a page which is in use out of the cache. */
    method MarkForDeletion(p: CachePage)
      requires Valid() && p in pages && Allocated()
      modifies this`hash, this`mru, p`priority
      ensures Valid() && Abs() == Zombify(old(Abs()), p)
    {
      hide Chains, Remove;
      RemoveMember(mru, p);
      UnlinkHash(p);
      label unlinked:
      p.priority := Zombie;
      PageChanged@unlinked(p);
    }

    /** Unlinks an unreferenced page from all lists and the network statistics. */
    method Unlink(p: CachePage)
      requires Valid() && PageOk(Abs(), p) && Allocated() && (p.priority == Zombie ==> p !in mru) && Distinct(mru)
      modifies this`hash, this`mru, this`pages, this`priority, this`referenced, p.network
      ensures Valid() && Abs() == Drop(old(Abs()), p, 0).(nPages := old(Abs()).nPages)
      ensures pages == old(pages) - {p}
    {
      hide Chains, Remove, NetRemove, Distinct, PagesOf, NetsOf;
      Known(p);
      RemoveMember(mru, p);
      if p.priority != Zombie {
        UnlinkHash(p);
      }
      priority := Remove(priority, p);
      referenced := Remove(referenced, p);
      RemoveFromNetwork(p.network, p);
      label removed:
      pages := pages - {p};
      PageFreed@removed(p);
    }

    /** delete_page. */
    method DeletePage(p: CachePage)
      requires Valid() && PageOk(Abs(), p) && Allocated() && (p.priority == Zombie ==> p !in mru) && Distinct(mru)
      modifies this`hash, this`mru, this`pages, this`priority, this`referenced, this`memoryUsed, this`nCachedPages, p,
        p.network
      ensures Valid() && Abs() == CacheState.DeletePage(old(Abs()), p)
      ensures pages <= old(pages)
    {
      hide Chains, Remove, NetRemove, Distinct, PagesOf, NetsOf;
      Known(p);
      if p.refCount > 0 {
        if p.priority != Zombie {
          MarkForDeletion(p);
        }
        return;
      }
      if p.priority != Zombie {
        // The memory in use is that of the unreferenced pages which are not deleted already.
        memoryUsed := memoryUsed - PageSize(sizes, p.content);
      }
      Unlink(p);
      nCachedPages := nCachedPages - 1;
    }

    lemma Walkable()
      requires Consistent(Abs())
      ensures Allocated() && Distinct(mru) && Distinct(networks) && Distinct(priority)
      ensures forall p :: p in priority ==> p in pages && PageOk(Abs(), p) && p.priority != Zombie
    {
      hide Counters, NetsOf, PageOk;
      forall p | p in priority ensures p in pages && PageOk(Abs(), p) && p.priority != Zombie {
        Unreferenced(Abs(), p); Known(p);
      }
    }

    /** delete_all_pages. */
    method DeleteAllPages(n: CacheNetwork)
      requires Valid() && Consistent(Abs()) && n in nets
      modifies this`hash, this`mru, this`pages, this`priority, this`referenced, this`memoryUsed, this`nCachedPages,
        pages, nets
      ensures Valid() && Abs() == DeletePages(old(Abs()), UnreferencedOf(old(Abs()), n))
      ensures pages <= old(pages)
    {
      hide Chains, Consistent, DeletePages, Filter, PageOk, Remove, PagesOf, NetsOf;
      ghost var s := Abs();
      ghost var f := OnNetwork(s, n);
      var q := priority;
      var i := 0;
      NothingVisited(s, f);
      while i < |q|
        invariant i <= |q| && Valid() && pages <= old(pages)
        invariant Abs() == DeletePages(s, Filter(q[..i], f))
      {
        VisitNext(s, i, f);
        Walkable();
        Known(q[i]);
        if q[i].network == n {
          DeletePage(q[i]);
        }
        i := i + 1;
      }
      assert q[..i] == q;
    }

    /** One pass of delete_surplus_pages. */
    method EvictPages(pri: Priority, all: bool) returns (done: bool)
      requires Valid() && Consistent(Abs())
      modifies this`hash, this`mru, this`pages, this`priority, this`referenced, this`memoryUsed, this`nCachedPages,
        pages, nets
      ensures Valid() && Consistent(Abs()) && Abs() == EvictPass(old(Abs()), old(priority), pri, all)
      ensures done ==> memoryUsed <= memoryLimit
      ensures pages <= old(pages)
    {
      hide Chains, Consistent, EvictPass, PageOk, Remove, PagesOf, NetsOf, CacheState.DeletePage;
      ghost var s := Abs();
      var q := priority;
      var i := 0;
      PrioDeletable(s);
      while i < |q|
        invariant i <= |q| && Valid() && pages <= old(pages)
        invariant Consistent(Abs()) && Deletable(Abs(), q[i..])
        invariant EvictPass(Abs(), q[i..], pri, all) == EvictPass(s, q, pri, all)
      {
        var p := q[i];
        EvictNext(Abs(), q[i..], pri, all);
        assert q[i..][1..] == q[i + 1..];
        if memoryUsed <= memoryLimit {
          return true;
        }
        Walkable();
        Known(p);
        if p.priority == pri && (all || p.network.refCount == 0) {
          DeletePage(p);
        }
        i := i + 1;
      }
      EvictEnd(Abs(), q[i..], pri, all);
      done := false;
    }

    /** delete_surplus_pages. */
    method DeleteSurplusPages()
      requires Valid() && Consistent(Abs())
      modifies this`hash, this`mru, this`pages, this`priority, this`referenced, this`memoryUsed, this`nCachedPages,
        pages, nets
      ensures Valid() && Abs() == Surplus(old(Abs()))
      ensures pages <= old(pages)
    {
      hide Chains, Consistent, PageOk, Remove, PagesOf, NetsOf, CacheState.DeletePage;
      var done := EvictPages(Normal, false);
      if done { return; }
      done := EvictPages(Special, false);
      if done { return; }
      done := EvictPages(Normal, true);
      if done { return; }
      done := EvictPages(Special, true);
    }

    // ---- Networks ---------------------------------------------------------------------

    lemma KnownNetwork(n: CacheNetwork)
      requires n in nets
      ensures n in Abs().nets && Abs().nets[n] == NetworkRec(n)
    {}

    /** The second half of delete_network. */
    method RetireNetwork(n: CacheNetwork)
      requires Valid() && n in nets
      modifies this`networks, this`nets, this`nCachedNetworks, n
      ensures Valid() && nets <= old(nets)
      ensures var u := SetMarks(old(Abs()), n, true, old(n.refCount));
        Abs() == if InUse(u.nets[n]) then u else u.(nets := u.nets - {n}, netList := Remove(u.netList, n))
    {
      hide Chains, Remove, PagesOf, NetsOf;
      KnownNetwork(n);
      // The count leaves out networks which are marked for deletion.
      if !n.zombie {
        nCachedNetworks := nCachedNetworks - 1;
      }
      if n.refCount > 0 || n.nReferencedPages > 0 {
        label marking:
        n.zombie := true;
        NetworkChanged@marking(n);
        return;
      }
      label freeing:
      networks := Remove(networks, n);
      nets := nets - {n};
      NetworkFreed@freeing(n);
    }

    /** delete_network. */
    method DeleteNetwork(n: CacheNetwork)
      requires Valid() && Consistent(Abs()) && n in nets
      modifies this, pages, nets
      ensures Valid() && Abs() == CacheState.DeleteNetwork(old(Abs()), n)
      ensures pages <= old(pages) && nets <= old(nets)
    {
      hide Chains, Consistent, Remove, PagesOf, NetsOf, DeletePages, UnreferencedOf;
      KnownNetwork(n);
      PurgedKeeps(Abs(), n);
      if n.nCachedPages > 0 {
        // Only the pages somebody holds remain.
        DeleteAllPages(n);
      }
      assert Abs() == Purged(old(Abs()), n);
      KeysAre();
      KnownNetwork(n);
      RetireNetwork(n);
    }

    /** Network n is freed. */
    twostate lemma NetworkFreed(n: CacheNetwork)
      requires n in old(nets) && nets == old(nets) - {n}
      requires pages == old(pages) && forall q :: q in pages ==> unchanged(q)
      requires forall m :: m in old(nets) ==> unchanged(m)
      ensures NetsOf(nets) == old(NetsOf(nets)) - {n} && PagesOf(pages) == old(PagesOf(pages))
    {}

    /** vbi_cache_purge. */
    method PurgeAll()
      requires Valid() && Inv(Abs())
      modifies this, pages, nets
      ensures Valid() && Abs() == Purge(old(Abs()), old(networks))
    {
      hide Chains, Inv, PagesOf, NetsOf, CacheState.DeleteNetwork;
      var q := networks;
      var i := 0;
      InvParts(Abs());
      NetworksListed();
      while i < |q|
        invariant i <= |q| && Valid() && pages <= old(pages) && nets <= old(nets)
        invariant Inv(Abs()) && (forall m :: m in q[i..] ==> m in nets)
        invariant Purge(Abs(), q[i..]) == Purge(old(Abs()), q)
      {
        KeysAre();
        PurgeNext(Abs(), q, i);
        InvParts(Abs());
        DeleteNetwork(q[i]);
        KeysAre();
        i := i + 1;
      }
    }

    lemma KeysAre()
      ensures Abs().nets.Keys == nets && Abs().pages.Keys == pages
    {}

    lemma NetworksListed()
      requires Consistent(Abs())
      ensures Distinct(networks)
      ensures forall m :: m in networks ==> m in nets
      ensures forall m :: m in nets ==> m in networks && m in Abs().nets
      ensures Abs().nets.Keys == nets
    {}

    /** delete_surplus_networks. */
    method DeleteSurplusNetworks()
      requires Valid() && Consistent(Abs())
      modifies this, pages, nets
      ensures Valid() && Abs() == SurplusNetworks(old(Abs()), old(networks))
    {
      hide Chains, Consistent, PagesOf, NetsOf, CacheState.DeleteNetwork;
      var q := networks;
      var i := |q|;
      assert q[..i] == q;
      NetworksListed();
      while i > 0
        invariant 0 <= i <= |q| && Valid() && pages <= old(pages) && nets <= old(nets)
        invariant Consistent(Abs()) && (forall m :: m in q[..i] ==> m in nets)
        invariant SurplusNetworks(Abs(), q[..i]) == SurplusNetworks(old(Abs()), q)
      {
        i := i - 1;
        var n := q[i];
        KeysAre();
        SurplusNext(Abs(), q, i);
        KnownNetwork(n);
        if n.refCount > 0 || n.nReferencedPages > 0 {
          continue;
        }
        if n.zombie || nCachedNetworks > nNetworksLimit {
          DeleteNetwork(n);
        }
        KeysAre();
      }
    }

    // ---- Looking up pages --------------------------------------------------------------

    /** page_by_pgno. */
    method PageByPgno(n: CacheNetwork, pgno: nat, subno: nat, mask: nat) returns (p: CachePage?)
      requires Valid() && Allocated() && Distinct(mru)
      modifies this`hash, this`mru
      ensures Valid() && (Abs(), ToOption(p)) == Lookup(old(Abs()), n, pgno, subno, mask)
    {
      hide Chains, Remove, PagesOf, NetsOf, FirstMatch, And, Matches, Lookup;
      HashSize();
      var chain := hash[pgno % HASH_SIZE];
      ChainMembers(pgno % HASH_SIZE);
      ChainLookup(Abs(), hash, n, pgno, subno, mask);
      var i := 0;
      assert chain[0..] == chain;
      while i < |chain|
        invariant i <= |chain| && unchanged(this)
        invariant i + FirstMatch(Abs(), chain[i..], n, pgno, subno, mask)
          == FirstMatch(Abs(), chain, n, pgno, subno, mask)
      {
        p := chain[i];
        KnownPages(p);
        FirstMatchStep(Abs(), chain[i..], n, pgno, subno, mask);
        assert chain[i..][1..] == chain[i + 1..];
        if p.pgno == pgno && And(p.subno, mask) == And(subno, mask) && p.network == n {
          // The page moves to the front of its chain.
          MatchIs(Abs().pages[p], n, pgno, subno, mask);
          RemoveMember(mru, p);
          UnlinkHash(p);
          LinkHash(p);
          return;
        }
        MatchIs(Abs().pages[p], n, pgno, subno, mask);
        i := i + 1;
      }
      p := null;
      FirstMatchNone(Abs(), chain[i..], n, pgno, subno, mask);
    }

    lemma ChainMembers(h: nat)
      requires Valid() && Allocated() && h < HASH_SIZE
      ensures |hash| == HASH_SIZE && forall p :: p in hash[h] ==> p in mru && p in pages && p.pgno % HASH_SIZE == h
    {
      FilterMembers(mru, OnChain(PagesOf(pages), h));
    }

    lemma KnownPages(p: CachePage)
      requires p in pages
      ensures p in Abs().pages && Abs().pages[p] == Rec(p)
    {}

    // ---- References -----------------------------------------------------------------------

    /** Revives a network which is marked for deletion. */
    method ReviveNetwork(n: CacheNetwork)
      requires Valid() && n in nets
      modifies this`nCachedNetworks, n`zombie
      ensures Valid() && Abs() == Revive(old(Abs()), n)
    {
      hide Chains, PagesOf, NetsOf;
      KnownNetwork(n);
      if n.zombie {
        nCachedNetworks := nCachedNetworks + 1;
        n.zombie := false;
      }
      NetworkChanged(n);
    }

    /** The part of cache_page_ref about the first reference to a page. */
    method PageRevive(p: CachePage)
      requires Valid() && PageOk(Abs(), p) && Allocated() && p.refCount == 0
      modifies this`nCachedNetworks, this`memoryUsed, this`priority, this`referenced, p.network
      ensures Valid() && Abs() == RevivePage(old(Abs()), p) && p.refCount == 0
    {
      hide Chains, PagesOf, NetsOf, Remove;
      Known(p);
      var n := p.network;
      ReviveNetwork(n);
      KnownNetwork(n);
      label revived:
      n.nReferencedPages := n.nReferencedPages + 1;
      NetworkChanged@revived(n);
      memoryUsed := memoryUsed - PageSize(sizes, p.content);
      priority := Remove(priority, p);
      referenced := Remove(referenced, p) + [p];
    }

    lemma RevivedPages(p: CachePage)
      requires Valid() && PageOk(Abs(), p)
      ensures RevivePage(Abs(), p).pages == Abs().pages
    {
      hide PagesOf, NetsOf, Remove;
    }

    /** cache_page_ref. */
    method PageRef(p: CachePage)
      requires Valid() && PageOk(Abs(), p) && Allocated()
      modifies this`nCachedNetworks, this`memoryUsed, this`priority, this`referenced, p`refCount, p.network
      ensures Valid() && Abs() == RefPage(old(Abs()), p) && p.refCount == old(p.refCount) + 1
    {
      hide Chains, PagesOf, NetsOf, RevivePage;
      Known(p);
      RevivedPages(p);
      if p.refCount == 0 {
        PageRevive(p);
      }
      label counting:
      p.refCount := p.refCount + 1;
      PageChanged@counting(p);
    }

    /** The part of cache_page_unref about the last reference to a page. */
    method PageRelease(p: CachePage)
      requires Valid() && PageOk(Abs(), p) && p.refCount == 1 && Allocated() && (p.priority == Zombie ==> p !in mru)
        && Distinct(mru)
      modifies this`hash, this`mru, this`pages, this`priority, this`referenced, this`memoryUsed, this`nCachedPages, p,
        p.network
      ensures Valid() && Abs() == ReleasePage(old(Abs()), p)
      ensures pages <= old(pages)
    {
      hide Chains, PagesOf, NetsOf, Remove, Distinct, NetRemove, PageSize, CacheState.DeletePage;
      Known(p);
      var n := p.network;
      p.refCount := 0;
      PageChanged(p);
      if p.priority == Zombie {
        DeletePage(p);
      } else {
        Park(p);
      }
      LowerReferenced(n);
    }

    /** The page joins the unreferenced ones. */
    method Park(p: CachePage)
      requires Valid() && PageOk(Abs(), p)
      modifies this`priority, this`referenced, this`memoryUsed
      ensures Valid()
      ensures var s := old(Abs());
        Abs() == s.(prio := Remove(s.prio, p) + [p], refd := Remove(s.refd, p), used := s.used + Size(s, p))
    {
      hide Chains, PagesOf, NetsOf, Remove, PageSize;
      Known(p);
      priority := Remove(priority, p) + [p];
      referenced := Remove(referenced, p);
      memoryUsed := memoryUsed + PageSize(sizes, p.content);
    }

    /** One page of network n less is referenced. */
    method LowerReferenced(n: CacheNetwork)
      requires Valid() && n in nets
      modifies n
      ensures Valid() && n in old(Abs()).nets
      ensures var s := old(Abs());
        Abs() == s.(nets := s.nets[n := s.nets[n].(nReferenced := s.nets[n].nReferenced - 1)])
    {
      hide Chains, PagesOf, NetsOf;
      KnownNetwork(n);
      n.nReferencedPages := n.nReferencedPages - 1;
      NetworkChanged(n);
    }

    lemma Releasable(p: CachePage)
      requires Inv(Abs()) && p in pages
      ensures PageOk(Abs(), p) && Allocated() && Distinct(mru) && (p.priority == Zombie ==> p !in mru)
    {
      hide Counters, NetsOf, PageOk;
      KnownPage(Abs(), p);
    }

    /** What cache_page_unref does when the last reference to a page of network n is gone. */
    method Settle(n: CacheNetwork)
      requires Valid() && Consistent(Abs()) && OtherZombiesInUse(Abs(), n) && n in nets
      modifies this, pages, nets
      ensures Valid()
      ensures var t := old(Abs());
        var u := if n in t.nets && t.nets[n].zombie && !InUse(t.nets[n]) then CacheState.DeleteNetwork(t, n) else t;
        Abs() == if u.used > u.limit then Surplus(u) else u
    {
      hide Chains, PagesOf, NetsOf, Consistent, OtherZombiesInUse, CacheState.DeleteNetwork, Surplus;
      KnownNetwork(n);
      NetworkStat(Abs(), n);
      DeadNetworkGoes(Abs(), n);
      if n.zombie && n.nReferencedPages == 0 && n.refCount == 0 {
        DeleteNetwork(n);
      }
      if memoryUsed > memoryLimit {
        DeleteSurplusPages();
      }
    }

    /** cache_page_unref. */
    method PageUnref(p: CachePage)
      requires Valid() && Inv(Abs()) && p in pages
      modifies this, pages, nets
      ensures PageOk(old(Abs()), p) && Valid() && Abs() == UnrefPage(old(Abs()), p)
    {
      hide Chains, PagesOf, NetsOf, ReleasePage, Inv, PageOk, CacheState.DeleteNetwork, Surplus, Consistent,
        OtherZombiesInUse;
      Releasable(p);
      Known(p);
      KeysAre();
      if p.refCount == 1 {
        ReleaseStep(Abs(), p);
        var n := p.network;
        PageRelease(p);
        KeysAre();
        Settle(n);
      } else if p.refCount > 1 {
        p.refCount := p.refCount - 1;
        PageChanged(p);
      }
    }

    /** _vbi_cache_get_page. */
    method GetPage(n: CacheNetwork, pgno: int, subno: nat, mask: nat) returns (p: CachePage?)
      requires Valid() && Inv(Abs())
      modifies this, pages, nets
      ensures Valid() && (Abs(), ToOption(p)) == CacheState.GetPage(old(Abs()), n, pgno, subno, mask)
    {
      hide Chains, PagesOf, NetsOf, Inv, PageOk, Lookup, RefPage, Consistent;
      if pgno < 0x100 || pgno > 0x8FF || pgno % 0x100 == 0xFF {
        return null;
      }
      var m := if subno == ANY_SUBNO then 0 else mask;
      InvParts(Abs());
      Walkable();
      LookupKeeps(Abs(), n, pgno, subno, m);
      p := PageByPgno(n, pgno, subno, m);
      if p != null {
        InvParts(Abs());
        Walkable();
        KeysAre();
        Releasable(p);
        Known(p);
        PageRef(p);
      }
    }

    // ---- Finding and adding networks ---------------------------------------------------

    /** network_by_id. A network which is found moves to the front, to be deleted last. */
    method NetworkById(nk: CacheNetwork) returns (n: CacheNetwork?)
      requires Valid()
      modifies this`networks
      ensures Valid()
      ensures if nk in old(networks) then n == nk && Abs() == Fronted(old(Abs()), nk)
        else n == null && Abs() == old(Abs())
    {
      hide Chains, Remove, PagesOf, NetsOf;
      var i := 0;
      while i < |networks|
        invariant i <= |networks| && nk !in networks[..i] && unchanged(this)
      {
        if networks[i] == nk {
          networks := [nk] + Remove(networks, nk);
          return nk;
        }
        i := i + 1;
      }
      n := null;
    }

    /** _vbi_cache_get_network. */
    method GetNetwork(nk: CacheNetwork) returns (n: CacheNetwork?)
      requires Valid() && Consistent(Abs())
      modifies this`networks, this`nCachedNetworks, nets
      ensures Valid()
      ensures if nk in old(nets) then n == nk && Abs() == CacheState.GetNetwork(old(Abs()), nk)
        else n == null && Abs() == old(Abs())
    {
      hide Chains, Remove, PagesOf, NetsOf, Consistent;
      NetworksListed();
      n := NetworkById(nk);
      if n != null {
        KnownNetwork(n);
        if n.zombie {
          nCachedNetworks := nCachedNetworks + 1;
          n.zombie := false;
        }
        n.refCount := n.refCount + 1;
        NetworkChanged(n);
      }
    }

    /** cache_network_ref. */
    method NetworkRef(n: CacheNetwork)
      requires Valid() && n in nets
      modifies n`refCount
      ensures Valid() && Abs() == RefNetwork(old(Abs()), n) && n.refCount == old(n.refCount) + 1
    {
      hide Chains, PagesOf, NetsOf;
      KnownNetwork(n);
      n.refCount := n.refCount + 1;
      NetworkChanged(n);
    }

    /** cache_network_unref. */
    method NetworkUnref(n: CacheNetwork)
      requires Valid() && Inv(Abs()) && n in nets
      modifies this, pages, nets
      ensures Valid() && n in old(Abs()).nets && Abs() == UnrefNetwork(old(Abs()), n)
    {
      hide Chains, PagesOf, NetsOf, Consistent, SurplusNetworks;
      KnownNetwork(n);
      if n.refCount == 1 {
        MarksKeep(Abs(), n, n.zombie, 0);
        n.refCount := 0;
        NetworkChanged(n);
        DeleteSurplusNetworks();
      } else if n.refCount > 1 {
        n.refCount := n.refCount - 1;
        NetworkChanged(n);
      }
    }

    /** The search of recycle_network. */
    method FindUnused() returns (n: CacheNetwork?)
      requires Consistent(Abs())
      ensures NetworkOption(n) == LastUnused(Abs(), networks)
    {
      hide Chains, PagesOf, NetsOf, Consistent, LastUnused;
      NetworksListed();
      var i := |networks|;
      assert networks[..i] == networks;
      while i > 0
        invariant 0 <= i <= |networks| && LastUnused(Abs(), networks[..i]) == LastUnused(Abs(), networks)
      {
        i := i - 1;
        var m := networks[i];
        KnownNetwork(m);
        LastUnusedStep(Abs(), networks, i);
        NetworkStat(Abs(), m);
        if m.refCount == 0 && m.nReferencedPages == 0 {
          return m;
        }
      }
      LastUnusedNone(Abs(), networks[..i]);
      n := null;
    }

    /** The rest of recycle_network. */
    method ResetNetwork(n: CacheNetwork)
      requires Valid() && Consistent(Abs()) && n in nets
      modifies this, pages, nets
      ensures Valid() && nets == old(nets) && nCachedNetworks == old(nCachedNetworks)
      ensures Abs().(nets := Abs().nets[n := NetworkRec(n).(refs := 1)], netList := [n] + networks)
        == Recycle(old(Abs()), n)
    {
      hide Chains, PagesOf, NetsOf, Consistent, DeletePages, UnreferencedOf, Remove;
      ghost var s := Abs();
      KnownNetwork(n);
      RecycleStats(s, n);
      if n.nCachedPages > 0 {
        DeleteAllPages(n);
      }
      assert Abs() == Purged(s, n);
      ClearNetwork(n);
    }

    method ClearNetwork(n: CacheNetwork)
      requires Valid() && n in nets
      modifies this`networks, n
      ensures Valid() && NetworkRec(n)
        == old(NetworkRec(n)).(refs := 0, zombie := false, nCached := 0, maxCached := 0, nReferenced := 0)
      ensures Abs() == old(Abs()).(nets := old(Abs()).nets[n := NetworkRec(n)], netList := Remove(old(networks), n))
      ensures old(Abs()).nets[n] == old(NetworkRec(n))
    {
      hide Chains, PagesOf, NetsOf, Remove;
      KnownNetwork(n);
      networks := Remove(networks, n);
      n.refCount := 0;
      n.zombie := false;
      n.nCachedPages := 0;
      n.maxCachedPages := 0;
      n.nReferencedPages := 0;
      NetworkChanged(n);
    }

    /** _vbi_cache_add_network. */
    method AddNetwork(nk: CacheNetwork?, mallocSucceeds: bool) returns (n: CacheNetwork?)
      requires Valid() && Inv(Abs())
      modifies this, pages, nets
      ensures Valid() && AddsNetwork(old(Abs()), NetworkOption(nk), mallocSucceeds, NetworkOption(n), Abs())
    {
      hide Chains, PagesOf, NetsOf, Inv, Consistent, LastUnused, Recycle, Remove;
      InvParts(Abs());
      NetworksListed();
      if nk != null {
        n := NetworkById(nk);
        if n != null {
          NetworkRef(n);
          return;
        }
      }
      n := null;
      if nCachedNetworks >= nNetworksLimit {
        n := FindUnused();
      }
      if n == null {
        if !mallocSucceeds {
          return;
        }
        n := NewNetworkObject();
      } else {
        ResetNetwork(n);
        KnownNetwork(n);
        label recycled:
        networks := [n] + networks;
        n.refCount := 1;
        NetworkChanged@recycled(n);
      }
    }

    method NewNetworkObject() returns (n: CacheNetwork)
      requires Valid()
      modifies this`networks, this`nets, this`nCachedNetworks
      ensures Valid() && fresh(n) && n !in old(nets) && Abs() == NewNetwork(old(Abs()), n)
    {
      hide Chains, PagesOf, NetsOf;
      n := new CacheNetwork();
      nCachedNetworks := nCachedNetworks + 1;
      networks := [n] + networks;
      n.refCount := 1;
      nets := nets + {n};
      NetworkAdded(n);
    }

    /** Network n is new. */
    twostate lemma NetworkAdded(new n: CacheNetwork)
      requires n !in old(nets) && nets == old(nets) + {n} && pages == old(pages) && unchanged(this`mru, this`hash)
      requires (forall q :: q in pages ==> unchanged(q)) && forall m :: m in old(nets) ==> unchanged(m)
      ensures NetsOf(nets) == old(NetsOf(nets))[n := NetworkRec(n)] && PagesOf(pages) == old(PagesOf(pages))
      ensures old(Valid()) ==> Valid()
    {
      hide Chains;
      assert PagesOf(pages) == old(PagesOf(pages));
    }

    // ---- Storing pages ----------------------------------------------------------------------

    /** One scan for replacement candidates. When the assertion on the length of death row fails the
        scan ends with RowFull. */
    method ScanCandidates(pri: Priority, all: bool, prev: CachePage?, needed: int, row0: seq<CachePage>,
        available0: int)
      returns (row: seq<CachePage>, available: int, progress: Progress)
      requires Consistent(Abs())
      ensures ScanPass(Abs(), priority, CandidateIn(Abs(), pri, all, ToOption(prev)), needed,
        Scan(row0, available0, More))
           == Scan(row, available, progress)
    {
      hide Consistent, PagesOf, NetsOf, ScanPass, Candidate, PageOk;
      ghost var s, f := Abs(), CandidateIn(Abs(), pri, all, ToOption(prev));
      ghost var d := ScanPass(s, priority, f, needed, Scan(row0, available0, More));
      row, available, progress := row0, available0, More;
      var i := 0;
      assert priority[0..] == priority;
      Walkable();
      while i < |priority|
        invariant i <= |priority| && progress == More
          && ScanPass(s, priority[i..], f, needed, Scan(row, available, More)) == d
      {
        var p := priority[i];
        Known(p);
        ScanStep(s, priority[i..], f, needed, Scan(row, available, More));
        assert priority[i..][1..] == priority[i + 1..];
        if available >= needed {
          progress := Enough;
          return;
        }
        CandidateIs(s, p, pri, all, ToOption(prev));
        if p.priority == pri && (all || p.network.refCount == 0) && p != prev {
          if |row| >= DEATH_ROW {
            progress := RowFull;
            return;
          }
          row := row + [p];
          available := available + PageSize(sizes, p.content);
        }
        i := i + 1;
      }
      ScanEnd(s, priority[i..], f, needed, Scan(row, available, More));
    }

    /** The search of _vbi_cache_put_page for enough memory. */
    method FindPages(prev: CachePage?, needed: nat) returns (row: seq<CachePage>, available: int, progress: Progress)
      requires Consistent(Abs()) && (prev != null ==> prev in pages)
      ensures FindMemory(Abs(), ToOption(prev), needed) == Scan(row, available, progress)
    {
      hide Consistent, PagesOf, NetsOf, ScanPass, Candidate, PageOk, CandidateIn, Found;
      ghost var s, o := Abs(), ToOption(prev);
      row, available := [], memoryLimit - memoryUsed;
      if prev != null {
        KnownPages(prev);
        row := [prev];
        available := available + PageSize(sizes, prev.content);
      }
      progress := if available >= needed then Enough else More;
      FoundFirst(s, o, needed);
      assert Found(s, o, needed, 0) == Scan(row, available, progress);
      FoundScan(s, o, needed, 0);
      if progress != More { return; }
      row, available, progress := ScanCandidates(Normal, false, prev, needed, row, available);
      FoundScan(s, o, needed, 1);
      if progress != More { return; }
      row, available, progress := ScanCandidates(Special, false, prev, needed, row, available);
      FoundScan(s, o, needed, 2);
      if progress != More { return; }
      row, available, progress := ScanCandidates(Normal, true, prev, needed, row, available);
      FoundScan(s, o, needed, 3);
      if progress != More { return; }
      row, available, progress := ScanCandidates(Special, true, prev, needed, row, available);
    }

    /** Page p is new. */
    twostate lemma PageAdded(new p: CachePage)
      requires p !in old(pages) && pages == old(pages) + {p} && nets == old(nets) && unchanged(this`mru, this`hash)
      requires (forall q :: q in old(pages) ==> unchanged(q)) && forall m :: m in nets ==> unchanged(m)
      ensures PagesOf(pages) == old(PagesOf(pages))[p := Rec(p)] && NetsOf(nets) == old(NetsOf(nets))
      ensures old(Valid()) && old(Allocated()) ==> Valid()
    {
      hide Chains;
      assert NetsOf(nets) == old(NetsOf(nets));
      if old(Valid()) && old(Allocated()) { ChainsFrame(old(PagesOf(pages)), PagesOf(pages), mru, hash); }
    }

    /** cache_network_add_page, for a page which is also referenced. */
    method AddToNetwork(n: CacheNetwork, pgno: int, subno: nat)
      requires Valid() && n in nets && |n.pageStat| == 0x800 && 0x100 <= pgno <= 0x8FF
      modifies this`nCachedNetworks, n
      ensures Valid()
      ensures var t := Revive(old(Abs()), n); var r := t.nets[n];
        Abs() == t.(nets := t.nets[n := NetAdd(r.(nReferenced := r.nReferenced + 1), pgno, subno)])
    {
      hide Chains, PagesOf, NetsOf, StatAdd;
      KnownNetwork(n);
      n.nReferencedPages := n.nReferencedPages + 1;
      if n.zombie {
        nCachedNetworks := nCachedNetworks + 1;
        n.zombie := false;
      }
      n.nCachedPages := n.nCachedPages + 1;
      if n.nCachedPages > n.maxCachedPages {
        n.maxCachedPages := n.nCachedPages;
      }
      n.pageStat := n.pageStat[pgno - 0x100 := StatAdd(n.pageStat[pgno - 0x100], subno)];
      KnownNetwork(n);
      NetworkChanged(n);
    }

    /** The new contents of a page, which is referenced once. */
    method EnterPage(p: CachePage, r: PageRec)
      requires Valid() && p !in pages && Allocated() && r.net in nets && |r.net.pageStat| == 0x800
        && 0x100 <= r.pgno <= 0x8FF
      modifies this`hash, this`mru, this`pages, this`referenced, this`nCachedNetworks, p, r.net
      ensures Valid() && pages == old(pages) + {p}
      ensures r.net in old(Abs()).nets && |old(Abs()).nets[r.net].stat| == 0x800
      ensures Abs() == InsertPage(old(Abs()), p, r).(nPages := old(Abs()).nPages)
    {
      hide Chains, PagesOf, NetsOf, NetAdd, Distinct;
      KnownNetwork(r.net);
      Add(p, r);
      LinkHash(p);
      referenced := referenced + [p];
      AddToNetwork(r.net, r.pgno, r.subno);
    }

    /** A page is given its contents, and one reference. */
    method Add(p: CachePage, r: PageRec)
      requires Valid() && p !in pages && Allocated() && r.net in nets
      modifies this`pages, p
      ensures Valid() && pages == old(pages) + {p}
      ensures Abs() == old(Abs()).(pages := old(Abs()).pages[p := r.(refs := 1)])
    {
      hide Chains, PagesOf, NetsOf;
      p.network := r.net;
      p.priority := r.pri;
      p.content := r.content;
      p.pgno := r.pgno;
      p.subno := r.subno;
      p.refCount := 1;
      pages := pages + {p};
      PageAdded(p);
    }

    /** delete_page for the pages on death row. */
    method DeleteRow(row: seq<CachePage>)
      requires Valid() && Consistent(Abs()) && Deletable(Abs(), row)
      modifies this`hash, this`mru, this`pages, this`priority, this`referenced, this`memoryUsed, this`nCachedPages,
        pages, nets
      ensures Valid() && Abs() == DeletePages(old(Abs()), row)
      ensures pages <= old(pages)
    {
      hide Chains, Consistent, DeletePages, PageOk, Remove, PagesOf, NetsOf, Deletable;
      ghost var s := Abs();
      var i := 0;
      RowStart(s, row);
      while i < |row|
        invariant i <= |row| && Valid() && pages <= old(pages) && Abs() == DeletePages(s, row[..i])
      {
        RowNext(s, row, i);
        Walkable();
        Known(row[i]);
        DeletePage(row[i]);
        i := i + 1;
      }
      assert row[..i] == row;
    }

    /** Replaces page p in place. */
    method ReusePage(p: CachePage, needed: nat, r: PageRec)
      requires Valid() && Consistent(Abs()) && p in priority && r.net in nets && 0x100 <= r.pgno <= 0x8FF
      modifies this, pages, nets
      ensures Valid() && PageOk(old(Abs()), p)
      ensures var t := Drop(old(Abs()), p, needed);
        r.net in t.nets && |t.nets[r.net].stat| == 0x800 && Abs() == InsertPage(t, p, r)
    {
      hide Chains, PagesOf, NetsOf, Consistent, PageOk, InsertPage, Drop;
      ghost var s := Abs();
      KeysAre();
      Walkable();
      ReuseFacts(s, p, needed, r.net);
      Known(p);
      Unlink(p);
      memoryUsed := memoryUsed - needed;
      DropPages(s, p, needed);
      assert Abs() == Drop(s, p, needed).(nPages := s.nPages);
      KeysAre();
      KnownNetwork(r.net);
      EnterPage(p, r);
      InsertPages(Drop(s, p, needed), p, r);
    }

    /** Replaces the pages of the row by a new one. */
    method ReplaceRow(row: seq<CachePage>, r: PageRec) returns (p: CachePage)
      requires Valid() && Consistent(Abs()) && Deletable(Abs(), row) && r.net in nets && 0x100 <= r.pgno <= 0x8FF
      modifies this, pages, nets
      ensures Valid() && fresh(p)
      ensures var t := DeletePages(old(Abs()), row);
        r.net in t.nets && |t.nets[r.net].stat| == 0x800 && Abs() == InsertPage(t, p, r)
    {
      hide Chains, PagesOf, NetsOf, Consistent, PageOk, InsertPage, DeletePages, Deletable;
      KeysAre();
      DeleteFacts(Abs(), row, r.net);
      p := new CachePage(r.net);
      DeleteRow(row);
      ghost var t := Abs();
      nCachedPages := nCachedPages + 1;
      KeysAre();
      KnownNetwork(r.net);
      EnterPage(p, r);
      InsertPages(t, p, r);
    }

    lemma PriorityKnown()
      requires Valid() && Consistent(Abs())
      ensures forall p :: p in priority ==> p in pages
    {}

    /** The second half of _vbi_cache_put_page. */
    method ReplacePages(prev: CachePage?, r: PageRec, mallocSucceeds: bool) returns (p: CachePage?)
      requires Valid() && Inv(Abs()) && r.net in nets && 0x100 <= r.pgno <= 0x8FF && (prev != null ==> prev in priority)
      requires SizesNear(sizes)
      requires var needed := PageSize(sizes, r.content);
        Suffices(Abs(), ToOption(prev), needed) ==> PicksOnce(Abs(), ToOption(prev), needed)
      modifies this, pages, nets
      ensures Valid() && r.net in old(Abs()).nets && (p != null ==> p in old(pages) || fresh(p))
      ensures var needed := PageSize(sizes, r.content);
        var c := FindMemory(old(Abs()), ToOption(prev), needed);
        if c.progress != Enough || (!Reuses(c, needed) && !mallocSucceeds) then p == null && Abs() == old(Abs())
        else p != null && (Reuses(c, needed) ==> p == c.row[0]) && Abs() == Replace(old(Abs()), c, needed, p, r)
    {
      hide Chains, PagesOf, NetsOf, Inv, Consistent, Found, PageOk, InsertPage, Drop, DeletePages, Deletable, PageSize,
        Suffices, PicksOnce, SizesNear;
      KeysAre();
      InvParts(Abs());
      Walkable();
      PriorityKnown();
      var needed := PageSize(sizes, r.content);
      RowFits(Abs(), ToOption(prev), r.content);
      var row, available, progress := FindPages(prev, needed);
      assert progress != RowFull;
      if progress != Enough {
        return null;
      }
      RowStorable(Abs(), ToOption(prev), needed);
      if available == needed && |row| == 1 {
        RowMember(Abs(), row);
        p := row[0];
        ReusePage(p, needed, r);
      } else {
        if !mallocSucceeds {
          return null;
        }
        p := ReplaceRow(row, r);
      }
    }

    /** _vbi_cache_put_page. */
    method PutPage(n: CacheNetwork, pgno: nat, subno: nat, content: Content, clock: bool, mallocSucceeds: bool)
        returns (p: CachePage?)
      requires Valid() && Inv(Abs()) && n in nets && 0x100 <= pgno <= 0x8FF && subno < WORD
      requires SizesNear(sizes) && Storable(Abs(), n, pgno, subno, content, clock)
      modifies this, pages, nets
      ensures Valid() && n in old(Abs()).nets
      ensures (Abs(), ToOption(p))
           == CacheState.PutPage(old(Abs()), n, pgno, subno, content, clock, if mallocSucceeds then ToOption(p)
             else None)
      ensures p != null ==> p in old(pages) || fresh(p)
    {
      hide Chains, PagesOf, NetsOf, Inv, Consistent, FindMemory, Lookup, PageSize, Replace, Stored, And, StoredSubno,
        PageOk, Found, InsertPage, Drop, Zombify, Suffices, PicksOnce, SizesNear;
      KeysAre();
      PutStartKeeps(Abs(), n, pgno, subno, clock);
      if pgno % 0x100 == 0xFF {
        return null;
      }
      var (sub, mask) := StoredSubno(pgno, subno, clock);
      ghost var s := Abs();
      InvParts(s);
      Walkable();
      LookupKeeps(s, n, pgno, And(sub, mask), mask);
      var prev := PageByPgno(n, pgno, And(sub, mask), mask);
      KeysAre();
      InvParts(Abs());
      Walkable();
      if prev != null {
        KnownPages(prev);
        if prev.refCount > 0 {
          // Whoever holds the previous version keeps it.
          MarkForDeletion(prev);
          prev := null;
        }
      }
      assert (Abs(), ToOption(prev)) == PutStart(s, n, pgno, subno, clock);
      KeysAre();
      StoredPlace(n, pgno, subno, content, clock);
      p := ReplacePages(prev, Stored(n, pgno, subno, content, clock), mallocSucceeds);
    }
  }

  lemma FirstMatchStep(s: State, q: seq<CachePage>, n: CacheNetwork, pgno: int, subno: nat, mask: nat)
    requires q != [] && q[0] in s.pages
    ensures FirstMatch(s, q, n, pgno, subno, mask)
      == if Matches(s.pages[q[0]], n, pgno, subno, mask) then 0 else 1 + FirstMatch(s, q[1..], n, pgno, subno, mask)
  {
    hide Matches;
  }

  lemma FirstMatchNone(s: State, q: seq<CachePage>, n: CacheNetwork, pgno: int, subno: nat, mask: nat)
    requires q == []
    ensures FirstMatch(s, q, n, pgno, subno, mask) == 0
  {}

  lemma MatchIs(r: PageRec, n: CacheNetwork, pgno: int, subno: nat, mask: nat)
    ensures Matches(r, n, pgno, subno, mask) <==> r.pgno == pgno && And(r.subno, mask) == And(subno, mask) && r.net == n
  {
    hide And;
  }

  lemma LastUnusedStep(s: State, q: seq<CacheNetwork>, i: nat)
    requires i < |q| && q[i] in s.nets
    ensures LastUnused(s, q[..i + 1]) == if InUse(s.nets[q[i]]) then LastUnused(s, q[..i]) else Some(q[i])
  {
    assert q[..i + 1][..i] == q[..i];
  }

  lemma LastUnusedNone(s: State, q: seq<CacheNetwork>)
    requires q == []
    ensures LastUnused(s, q) == None
  {}

  lemma RecycleStats(s: State, n: CacheNetwork)
    requires Consistent(s) && n in s.nets
    ensures s.nets[n].nCached >= 0 && s.nets.Keys == Purged(s, n).nets.Keys && Purged(s, n).nNets == s.nNets
  {
    hide Consistent;
    NetworkStat(s, n);
    PurgedKeeps(s, n);
  }

  // ---- Steps of storing a page -----------------------------------------------------------

  lemma CandidateIs(s: State, p: CachePage, pri: Priority, all: bool, prev: Option<CachePage>)
    requires PageOk(s, p)
    ensures Candidate(s, p, pri, all, prev)
       <==> s.pages[p].pri == pri && (all || s.nets[s.pages[p].net].refs == 0) && prev != Some(p)
  {}

  lemma FoundFirst(s: State, prev: Option<CachePage>, needed: int)
    ensures var row := if prev.Some? then [prev.value] else [];
      var available := s.limit - s.used + if prev.Some? then Size(s, prev.value) else 0;
      Found(s, prev, needed, 0) == Scan(row, available, if available >= needed then Enough else More)
  {
    hide Size;
  }

  /** The search goes scan by scan, until one of them finds enough memory. */
  lemma FoundScan(s: State, prev: Option<CachePage>, needed: int, k: nat)
    requires k < 4
    ensures Found(s, prev, needed, k + 1)
         == ScanPass(s, s.prio, CandidateIn(s, PassPriority(k), k >= 2, prev), needed, Found(s, prev, needed, k))
    ensures Found(s, prev, needed, k).progress != More ==> FindMemory(s, prev, needed) == Found(s, prev, needed, k)
    ensures Found(s, prev, needed, k + 1).progress == RowFull ==> FindMemory(s, prev, needed).progress == RowFull
    decreases 4 - k
  {
    hide ScanPass, CandidateIn;
    if k < 3 { FoundScan(s, prev, needed, k + 1); }
    if Found(s, prev, needed, k).progress != More {
      ScanNothing(s, s.prio, CandidateIn(s, PassPriority(k), k >= 2, prev), needed, Found(s, prev, needed, k));
    }
  }

  lemma RowStart(s: State, row: seq<CachePage>)
    ensures DeletePages(s, row[..0]) == s
  {}

  lemma RowNext(s: State, row: seq<CachePage>, i: nat)
    requires Consistent(s) && Deletable(s, row) && i < |row|
    ensures var t := DeletePages(s, row[..i]);
      && Consistent(t) && row[i] in t.prio && PageOk(t, row[i]) && t.pages[row[i]].pri != Zombie
      && DeletePages(s, row[..i + 1]) == CacheState.DeletePage(t, row[i])
  {
    hide Consistent, Deleted, CacheState.DeletePage;
    assert Deletable(s, row[..i]) && row[i] !in row[..i];
    DeletePagesKeeps(s, row[..i]);
    var t := DeletePages(s, row[..i]);
    StillUnreferenced(s, row[..i], t, row[i]);
    Unreferenced(t, row[i]);
    assert row[..i + 1][..i] == row[..i];
  }

  lemma ReuseFacts(s: State, p: CachePage, needed: nat, n: CacheNetwork)
    requires Consistent(s) && p in s.prio && n in s.nets
    ensures PageOk(s, p) && var t := Drop(s, p, needed); n in t.nets && |t.nets[n].stat| == 0x800
    ensures Drop(s, p, needed) == Drop(s, p, 0).(used := s.used - needed)
    ensures forall q :: q in Drop(s, p, needed).mru ==> q in s.mru && q != p
  {
    hide Consistent, Remove;
    Unreferenced(s, p);
    NetworkStat(s, n);
    NetworkStat(s, s.pages[p].net);
    assert Distinct(s.mru) by { DistinctMru(s); }
    RemoveMembers(s.mru, p);
  }

  lemma DropPages(s: State, p: CachePage, needed: nat)
    requires PageOk(s, p)
    ensures Drop(s, p, needed).nPages == s.nPages - 1
    ensures Drop(s, p, needed).(nPages := s.nPages) == Drop(s, p, 0).(nPages := s.nPages, used := s.used - needed)
  {
    hide Remove;
  }

  /** Only the number of pages tells whether the page was counted before or afterwards. */
  lemma InsertPages(s: State, p: CachePage, r: PageRec)
    requires r.net in s.nets && |s.nets[r.net].stat| == 0x800 && 0x100 <= r.pgno <= 0x8FF
    ensures var t := s.(nPages := s.nPages + 1);
      InsertPage(s, p, r) == InsertPage(t, p, r).(nPages := t.nPages)
  {}

  lemma DistinctMru(s: State)
    requires Consistent(s)
    ensures Distinct(s.mru) && forall p :: p in s.mru ==> p in s.pages
  {
    hide Counters;
  }

  lemma DeleteFacts(s: State, row: seq<CachePage>, n: CacheNetwork)
    requires Consistent(s) && Deletable(s, row) && n in s.nets
    ensures var t := DeletePages(s, row);
      n in t.nets && |t.nets[n].stat| == 0x800
        && (forall q :: q in t.mru ==> q in t.pages) && t.pages.Keys <= s.pages.Keys
  {
    hide Consistent;
    DeletePagesKeeps(s, row);
    NetworkStat(DeletePages(s, row), n);
    DistinctMru(DeletePages(s, row));
  }

  lemma EvictNext(s: State, q: seq<CachePage>, pri: Priority, all: bool)
    requires Consistent(s) && Deletable(s, q) && q != []
    ensures s.used <= s.limit ==> EvictPass(s, q, pri, all) == s
    ensures s.used > s.limit ==>
      var t := if Evictable(s, q[0], pri, all) then CacheState.DeletePage(s, q[0]) else s;
      Consistent(t) && Deletable(t, q[1..]) && EvictPass(s, q, pri, all) == EvictPass(t, q[1..], pri, all)
  {
    hide Consistent, CacheState.DeletePage, Evictable, Deleted;
    var p, rest := q[0], q[1..];
    assert q == [p] + rest;
    OneDeleted(s, p);
    EvictFirst(s, p, rest, pri, all, CacheState.DeletePage(s, p));
    DeletableRest(s, p, rest);
  }

  lemma EvictEnd(s: State, q: seq<CachePage>, pri: Priority, all: bool)
    requires q == []
    ensures EvictPass(s, q, pri, all) == s
  {}

  lemma PurgeNext(s: State, q: seq<CacheNetwork>, i: nat)
    requires Inv(s) && Distinct(q) && i < |q| && forall m :: m in q[i..] ==> m in s.nets
    ensures var t := CacheState.DeleteNetwork(s, q[i]);
      Inv(t) && (forall m :: m in q[i + 1..] ==> m in t.nets) && Purge(s, q[i..]) == Purge(t, q[i + 1..])
  {
    hide Consistent, CacheState.DeleteNetwork;
    assert q[i..][1..] == q[i + 1..] && q[i..][0] == q[i];
    assert forall m :: m in q[i + 1..] ==> m in q[i..];
    DeleteNetworkKeeps(s, q[i]);
  }

  lemma SurplusNext(s: State, q: seq<CacheNetwork>, i: nat)
    requires Consistent(s) && Distinct(q) && i < |q| && forall m :: m in q[..i + 1] ==> m in s.nets
    ensures var n := q[i];
      var t := if !InUse(s.nets[n]) && (s.nets[n].zombie || s.nNets > s.netLimit)
        then CacheState.DeleteNetwork(s, n) else s;
      && Consistent(t) && (forall m :: m in q[..i] ==> m in t.nets)
      && SurplusNetworks(s, q[..i + 1]) == SurplusNetworks(t, q[..i])
  {
    hide Consistent, CacheState.DeleteNetwork;
    assert q[..i + 1][..i] == q[..i] && q[..i + 1][i] == q[i];
    assert forall m :: m in q[..i] ==> m in q[..i + 1];
    DeleteNetworkKeeps(s, q[i]);
  }

  // ---- Walking the eviction list -----------------------------------------------------

  lemma NothingVisited(s: State, f: CachePage -> bool)
    ensures DeletePages(s, Filter(s.prio[..0], f)) == s
  {}

  /** The pages before page i which f selects were deleted. */
  lemma VisitedKeeps(s: State, i: nat, f: CachePage -> bool)
    requires Consistent(s) && i < |s.prio|
    ensures var v := Filter(s.prio[..i], f);
      s.prio[i] !in v && Consistent(DeletePages(s, v)) && Deleted(s, v, DeletePages(s, v))
  {
    hide Consistent, Deleted, DeletePages, Filter;
    PrioDeletable(s);
    FilterMembers(s.prio[..i], f);
    DeletePagesKeeps(s, Filter(s.prio[..i], f));
  }

  lemma DeleteNext(s: State, i: nat, f: CachePage -> bool)
    requires i < |s.prio|
    ensures var t, p := DeletePages(s, Filter(s.prio[..i], f)), s.prio[i];
      DeletePages(s, Filter(s.prio[..i + 1], f)) == if f(p) then CacheState.DeletePage(t, p) else t
  {
    hide CacheState.DeletePage;
    var q, p := s.prio[..i], s.prio[i];
    var v := Filter(q, f);
    assert s.prio[..i + 1] == q + [p];
    FilterAppend(q, [p], f);
    assert Filter([p], f) == if f(p) then [p] else [];
    assert (v + [p])[..|v|] == v && v + [] == v;
  }

  /** The next page of the list, when some of those before it have been deleted. */
  lemma VisitNext(s: State, i: nat, f: CachePage -> bool)
    requires Consistent(s) && i < |s.prio|
    ensures var t, p := DeletePages(s, Filter(s.prio[..i], f)), s.prio[i];
      && Consistent(t) && p in t.prio && p in t.pages && p in s.pages && t.pages[p] == s.pages[p]
      && DeletePages(s, Filter(s.prio[..i + 1], f)) == if f(p) then CacheState.DeletePage(t, p) else t
  {
    DeleteNext(s, i, f);
    VisitedKeeps(s, i, f);
    hide *;
    var p, v := s.prio[i], Filter(s.prio[..i], f);
    var t := DeletePages(s, v);
    StillUnreferenced(s, v, t, p);
    NextOk(t, p);
    SamePage(s, v, t, p);
  }

  lemma NextOk(s: State, p: CachePage)
    requires Consistent(s) && p in s.prio
    ensures p in s.pages
  {
    hide Consistent;
    Unreferenced(s, p);
  }

  lemma SamePage(s: State, q: seq<CachePage>, t: State, p: CachePage)
    requires Deleted(s, q, t) && p in t.pages
    ensures p in s.pages && t.pages[p] == s.pages[p]
  {}

  lemma RemoveMember<T>(q: seq<T>, p: T)
    ensures p !in q ==> Remove(q, p) == q
    ensures Distinct(q) ==> p !in Remove(q, p)
    ensures forall x :: x in Remove(q, p) ==> x in q
  {
    if p !in q { RemoveAbsent(q, p); }
    if Distinct(q) { RemoveMembers(q, p); }
    RemoveSubset(q, p);
  }

  lemma {:induction false} RemoveSubset<T>(q: seq<T>, p: T)
    ensures forall x :: x in Remove(q, p) ==> x in q
  {
    if q != [] { RemoveSubset(q[1..], p); }
  }
}
