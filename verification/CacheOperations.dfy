/** What every public operation keeps, and what it promises. */
module CacheOperations {
  import opened CacheEviction
  import opened CacheObjects
  import opened CacheProofs
  import opened CacheState
  import opened Common
  import opened Seqs

  // ---- References to pages -----------------------------------------------------

  lemma RefPageNets(s: State, p: CachePage)
    requires PageOk(s, p)
    ensures var t := RefPage(s, p); var n := s.pages[p].net;
      && t.limit == s.limit && t.used <= s.used && t.nets.Keys == s.nets.Keys
      && (forall m :: m in s.nets && m != n ==> t.nets[m] == s.nets[m])
      && (if s.pages[p].refs > 0 then t.nets[n] == s.nets[n] else !t.nets[n].zombie)
  {
    hide Remove;
  }

  /** cache_page_ref. */
  lemma RefPageKeeps(s: State, p: CachePage)
    requires Inv(s) && p in s.pages
    ensures PageOk(s, p) && Inv(RefPage(s, p))
    ensures RefPage(s, p).pages == s.pages[p := s.pages[p].(refs := s.pages[p].refs + 1)]
  {
    hide Consistent, RefPage;
    NewReference(s, p);
    RefPageNets(s, p);
  }

  lemma {:induction false} FirstMatchIs(s: State, q: seq<CachePage>, n: CacheNetwork, pgno: int, subno: nat, mask: nat)
    ensures var i := FirstMatch(s, q, n, pgno, subno, mask);
      && (forall j :: 0 <= j < i ==> !(q[j] in s.pages && Matches(s.pages[q[j]], n, pgno, subno, mask)))
      && (i < |q| ==> q[i] in s.pages && Matches(s.pages[q[i]], n, pgno, subno, mask))
  {
    hide Matches;
    if q != [] { FirstMatchIs(s, q[1..], n, pgno, subno, mask); }
  }

  lemma LookupKeeps(s: State, n: CacheNetwork, pgno: int, subno: nat, mask: nat)
    requires Inv(s)
    ensures var (t, o) := Lookup(s, n, pgno, subno, mask);
      && Inv(t) && t.pages == s.pages && t.nets == s.nets && t.used == s.used && t.limit == s.limit && t.prio == s.prio
      && t.sizes == s.sizes
      && (o.Some? ==> o.value in t.mru && o.value in t.pages && Matches(t.pages[o.value], n, pgno, subno, mask))
  {
    hide Consistent, FirstMatch, Matches, Remove;
    FirstMatchIs(s, s.mru, n, pgno, subno, mask);
    var i := FirstMatch(s, s.mru, n, pgno, subno, mask);
    if i < |s.mru| { MoveKeeps(s, s.mru[i]); }
  }

  /** _vbi_cache_get_page. */
  lemma GetPageKeeps(s: State, n: CacheNetwork, pgno: int, subno: nat, mask: nat)
    requires Inv(s)
    ensures Inv(GetPage(s, n, pgno, subno, mask).0)
  {
    hide Inv, Lookup, RefPage, PageOk;
    var m := if subno == ANY_SUBNO then 0 else mask;
    LookupKeeps(s, n, pgno, subno, m);
    var (t, o) := Lookup(s, n, pgno, subno, m);
    if o.Some? && PageOk(t, o.value) { RefPageKeeps(t, o.value); }
  }

  /** The zombies other than network n are still in use. */
  ghost predicate OtherZombiesInUse(s: State, n: CacheNetwork) {
    forall m :: m in s.nets && m != n && s.nets[m].zombie ==> InUse(s.nets[m])
  }

  /** The last reference to a page goes, and its network if that was waiting for it. */
  lemma ReleaseStep(s: State, p: CachePage)
    requires Inv(s) && p in s.pages && s.pages[p].refs > 0
    ensures PageOk(s, p)
    ensures var t := ReleasePage(s, p); var n := s.pages[p].net;
      Consistent(t) && n in t.nets && t.limit == s.limit && OtherZombiesInUse(t, n)
  {
    hide Consistent, ReleasePage;
    ReleaseKeeps(s, p);
    ReleaseNets(s, p);
  }

  /** A page whose last reference went is the last of the unreferenced ones to be evicted, or gone if it was marked. */
  lemma ReleasedLast(s: State, p: CachePage)
    requires Inv(s) && p in s.pages && s.pages[p].refs > 0
    ensures PageOk(s, p)
    ensures var t := ReleasePage(s, p);
      if s.pages[p].pri == Zombie then p !in t.pages && t.prio == s.prio
      else p in t.pages && t.pages[p].refs == 0 && t.prio == s.prio + [p]
  {
    hide Sum, Distinct, Counters, NetRemove, Inv;
    InvParts(s);
    KnownPage(s, p);
    RemoveAbsent(s.prio, p);
  }

  lemma DeadNetworkGoes(t: State, n: CacheNetwork)
    requires Consistent(t) && n in t.nets && OtherZombiesInUse(t, n)
    ensures var u := if t.nets[n].zombie && !InUse(t.nets[n]) then DeleteNetwork(t, n) else t;
      Consistent(u) && ZombiesInUse(u) && u.limit == t.limit
  {
    hide Consistent, DeleteNetwork;
    DeleteNetworkKeeps(t, n);
  }

  lemma SurplusZombies(s: State)
    requires Consistent(s) && ZombiesInUse(s) && s.limit >= 0
    ensures Inv(Surplus(s))
  {
    hide Consistent, Surplus;
    SurplusKeeps(s);
  }

  lemma FewerReferences(s: State, p: CachePage)
    requires Inv(s) && p in s.pages && s.pages[p].refs > 1
    ensures Inv(s.(pages := s.pages[p := s.pages[p].(refs := s.pages[p].refs - 1)]))
  {
    hide Consistent;
    MoreReferences(s, p, s.pages[p].refs - 1);
  }

  /** cache_page_unref: whatever happens to the page and its network, the cache
      is consistent afterwards and within its memory limit. */
  lemma UnrefPageKeeps(s: State, p: CachePage)
    requires Inv(s) && p in s.pages
    ensures PageOk(s, p) && Inv(UnrefPage(s, p))
  {
    hide Inv, Consistent, DeleteNetwork, Surplus, ReleasePage, PageOk, ZombiesInUse;
    LimitNonNegative(s);
    KnownPage(s, p) by { InvParts(s); }
    var r := s.pages[p];
    if r.refs > 1 {
      FewerReferences(s, p);
    } else if r.refs == 1 {
      ReleaseStep(s, p);
      var t := ReleasePage(s, p);
      DeadNetworkGoes(t, r.net);
      var u := if r.net in t.nets && t.nets[r.net].zombie && !InUse(t.nets[r.net]) then DeleteNetwork(t, r.net) else t;
      if u.used > u.limit { SurplusZombies(u); } else { InvFromParts(u); }
    }
  }

  lemma LimitNonNegative(s: State)
    requires Inv(s)
    ensures s.limit >= s.used >= 0
  {
    hide Lists, AllNetCounters;
    SumNonNegative(s.prio, Weight(s));
  }

  lemma InvParts(s: State)
    requires Inv(s)
    ensures Consistent(s) && ZombiesInUse(s) && s.used <= s.limit
  {}

  lemma InvFromParts(s: State)
    requires Consistent(s) && ZombiesInUse(s) && s.used <= s.limit
    ensures Inv(s)
  {}

  // ---- Networks -------------------------------------------------------------------

  /** What deletions of unused networks leave alone. */
  ghost predicate NetProgress(s: State, t: State) {
    && t.nets.Keys <= s.nets.Keys && t.nNets <= s.nNets && t.used <= s.used
    && t.netLimit == s.netLimit && t.limit == s.limit
    && (forall n :: n in t.nets ==> SameMarks(s.nets[n], t.nets[n]))
    && (forall n :: n in s.nets && n !in t.nets ==> !InUse(s.nets[n]))
  }

  /** Network n may stay after delete_surplus_networks. */
  predicate Settled(s: State, n: CacheNetwork) {
    n in s.nets ==> InUse(s.nets[n]) || (!s.nets[n].zombie && s.nNets <= s.netLimit)
  }

  lemma NetProgressTrans(s: State, t: State, u: State)
    requires NetProgress(s, t) && NetProgress(t, u)
    ensures NetProgress(s, u)
  {}

  lemma SettledStays(s: State, t: State, n: CacheNetwork)
    requires NetProgress(s, t) && Settled(s, n)
    ensures Settled(t, n)
  {}

  lemma SurplusStep(s: State, n: CacheNetwork)
    requires Consistent(s)
    ensures var t := if n in s.nets && !InUse(s.nets[n]) && (s.nets[n].zombie || s.nNets > s.netLimit)
                     then DeleteNetwork(s, n) else s;
      Consistent(t) && NetProgress(s, t) && Settled(t, n)
  {
    hide Consistent, DeleteNetwork;
    if n in s.nets && !InUse(s.nets[n]) && (s.nets[n].zombie || s.nNets > s.netLimit) { DeleteNetworkKeeps(s, n); }
  }

  /** delete_surplus_networks: the limit is met or the networks left are all in use. */
  lemma {:induction false} SurplusNetworksKeep(s: State, q: seq<CacheNetwork>)
    requires Consistent(s)
    ensures var t := SurplusNetworks(s, q);
      Consistent(t) && NetProgress(s, t) && forall n :: n in q ==> Settled(t, n)
    decreases |q|
  {
    hide Consistent, DeleteNetwork, NetProgress, Settled;
    if q == [] {
      assert NetProgress(s, s) by { NoProgress(s); }
    } else {
      var n, front := q[|q| - 1], q[..|q| - 1];
      var t := if n in s.nets && !InUse(s.nets[n]) && (s.nets[n].zombie || s.nNets > s.netLimit)
               then DeleteNetwork(s, n) else s;
      SurplusStep(s, n);
      SurplusNetworksKeep(t, front);
      var u := SurplusNetworks(t, front);
      NetProgressTrans(s, t, u);
      SettledStays(t, u, n);
    }
  }

  lemma BelowLimitStep(s: State, n: CacheNetwork, m: CacheNetwork)
    requires Consistent(s) && s.nNets <= s.netLimit && m in s.nets && !s.nets[m].zombie
    ensures var t := if n in s.nets && !InUse(s.nets[n]) && (s.nets[n].zombie || s.nNets > s.netLimit)
                     then DeleteNetwork(s, n) else s;
      Consistent(t) && m in t.nets && !t.nets[m].zombie && t.nNets <= t.netLimit
  {
    hide Consistent, DeleteNetwork;
    if n in s.nets && !InUse(s.nets[n]) && s.nets[n].zombie { DeleteNetworkKeeps(s, n); }
  }

  /** Within the limit only zombies go. */
  lemma {:induction false} BelowLimit(s: State, q: seq<CacheNetwork>, m: CacheNetwork)
    requires Consistent(s) && s.nNets <= s.netLimit && m in s.nets && !s.nets[m].zombie
    ensures m in SurplusNetworks(s, q).nets
    decreases |q|
  {
    hide Consistent, DeleteNetwork;
    if q != [] {
      var n := q[|q| - 1];
      BelowLimitStep(s, n, m);
      BelowLimit(if n in s.nets && !InUse(s.nets[n]) && (s.nets[n].zombie || s.nNets > s.netLimit)
                 then DeleteNetwork(s, n) else s, q[..|q| - 1], m);
    }
  }

  /** delete_surplus_networks takes networks from the end of the list: where one went because there were too many,
      no unused one behind it is left. */
  lemma {:induction false} SurplusNetworksOrder(s: State, q: seq<CacheNetwork>, i: nat, j: nat)
    requires Consistent(s) && Distinct(q) && i < j < |q| && q[i] in s.nets && !s.nets[q[i]].zombie
    requires q[j] in s.nets && !InUse(s.nets[q[j]])
    ensures var t := SurplusNetworks(s, q); q[i] !in t.nets ==> q[j] !in t.nets
    decreases |q|
  {
    hide Consistent, DeleteNetwork, NetProgress, Settled, SurplusNetworks;
    var n, front := q[|q| - 1], q[..|q| - 1];
    var t := if n in s.nets && !InUse(s.nets[n]) && (s.nets[n].zombie || s.nNets > s.netLimit)
             then DeleteNetwork(s, n) else s;
    assert SurplusNetworks(s, q) == SurplusNetworks(t, front) by { LastVisited(s, q); }
    SurplusStep(s, n);
    SurplusNetworksKeep(t, front);
    assert front[i] == q[i] && q[i] != n;
    OthersLeft(s, n, q[i]);
    assert q[i] in t.nets ==> !t.nets[q[i]].zombie by { Progress(s, t); }
    Progress(t, SurplusNetworks(t, front));
    if q[j] in t.nets {
      assert !InUse(t.nets[q[j]]) by { Progress(s, t); }
      if j < |q| - 1 {
        assert front[j] == q[j];
        SurplusNetworksOrder(t, front, i, j);
      } else {
        assert t.nNets <= t.netLimit by { IsSettled(t, n); }
        BelowLimit(t, front, q[i]);
      }
    }
  }

  lemma OthersLeft(s: State, n: CacheNetwork, m: CacheNetwork)
    requires Consistent(s) && m in s.nets && m != n
    ensures m in DeleteNetwork(s, n).nets
  {
    hide Consistent, DeleteNetwork;
    if n in s.nets { DeleteNetworkKeeps(s, n); } else { assert DeleteNetwork(s, n) == s by { NoNetwork(s, n); } }
  }

  lemma NoNetwork(s: State, n: CacheNetwork)
    requires n !in s.nets
    ensures DeleteNetwork(s, n) == s
  {}

  lemma LastVisited(s: State, q: seq<CacheNetwork>)
    requires q != []
    ensures var n := q[|q| - 1];
      var t := if n in s.nets && !InUse(s.nets[n]) && (s.nets[n].zombie || s.nNets > s.netLimit)
               then DeleteNetwork(s, n) else s;
      SurplusNetworks(s, q) == SurplusNetworks(t, q[..|q| - 1])
  {
    hide DeleteNetwork;
  }

  lemma Progress(s: State, t: State)
    requires NetProgress(s, t)
    ensures t.nets.Keys <= s.nets.Keys && forall n :: n in t.nets ==> SameMarks(s.nets[n], t.nets[n])
  {}

  lemma IsSettled(s: State, n: CacheNetwork)
    requires Settled(s, n) && n in s.nets && !InUse(s.nets[n])
    ensures s.nNets <= s.netLimit
  {}

  lemma NoProgress(s: State)
    ensures NetProgress(s, s)
  {}

  /** A reference to a network goes. With the last one networks nobody uses are
      deleted, the longest unused first, as long as there are too many. */
  lemma UnrefNetworkKeeps(s: State, n: CacheNetwork)
    requires Inv(s) && n in s.nets
    ensures Inv(UnrefNetwork(s, n))
    ensures var t := UnrefNetwork(s, n);
      s.nets[n].refs == 1 ==> t.nNets <= t.netLimit || forall m :: m in t.nets ==> InUse(t.nets[m])
  {
    hide Consistent, SurplusNetworks;
    var r := s.nets[n];
    if r.refs > 1 {
      MarksKeep(s, n, r.zombie, r.refs - 1);
    } else if r.refs == 1 {
      MarksKeep(s, n, r.zombie, 0);
      var u := SetMarks(s, n, r.zombie, 0);
      SurplusNetworksKeep(u, s.netList);
      var t := SurplusNetworks(u, s.netList);
      assert forall m :: m in u.nets ==> m in u.netList by { Listed(u); }
      assert forall m :: m in t.nets ==> Settled(t, m);
    }
  }

  lemma Listed(s: State)
    requires Consistent(s)
    ensures forall m :: m in s.nets ==> m in s.netList
    ensures forall m :: m in s.netList ==> m in s.nets
    ensures Distinct(s.netList)
  {
    hide Counters;
  }

  lemma NetListFronted(nets: Nets, netList: seq<CacheNetwork>, n: CacheNetwork)
    requires NetLists(nets, netList) && n in nets
    ensures NetLists(nets, [n] + Remove(netList, n))
  {
    hide Remove;
    RemoveMembers(netList, n);
    AddMember(Remove(netList, n), n);
  }

  lemma FrontedKeeps(s: State, n: CacheNetwork)
    requires Consistent(s) && n in s.nets
    ensures Consistent(Fronted(s, n))
  {
    hide Remove, Sum, PageLists, NetLists, AllNetCounters;
    NetListFronted(s.nets, s.netList, n);
    SumExt(s.prio, Weight(s), Weight(Fronted(s, n)));
  }

  /** _vbi_cache_get_network and cache_network_ref. A network which is asked for
      is no longer marked for deletion. */
  lemma GetNetworkKeeps(s: State, n: CacheNetwork)
    requires Inv(s) && n in s.nets
    ensures Inv(GetNetwork(s, n)) && Inv(RefNetwork(s, n)) && Inv(Fronted(s, n))
    ensures !GetNetwork(s, n).nets[n].zombie
  {
    hide Consistent, Remove;
    FrontedKeeps(s, n);
    MarksKeep(Fronted(s, n), n, false, s.nets[n].refs + 1);
    MarksKeep(s, n, s.nets[n].zombie, s.nets[n].refs + 1);
  }

  /** The network which is recycled is the one not used for longest: all behind it are in use. */
  lemma {:induction false} LastUnusedIs(s: State, q: seq<CacheNetwork>)
    ensures var o := LastUnused(s, q);
      && (o.Some? ==> o.value in s.nets && !InUse(s.nets[o.value]) && LastInUse(s, q, o.value))
      && (o.None? ==> forall n :: n in q && n in s.nets ==> InUse(s.nets[n]))
  {
    if q != [] {
      var front := q[..|q| - 1];
      LastUnusedIs(s, front);
      assert forall n :: n in q ==> n in front || n == q[|q| - 1];
      var o := LastUnused(s, q);
      if o.Some? { LastInUseGrows(s, front, q[|q| - 1], o.value); }
      assert q == front + [q[|q| - 1]];
      hide LastInUse;
    }
  }

  lemma LastInUseGrows(s: State, q: seq<CacheNetwork>, m: CacheNetwork, n: CacheNetwork)
    ensures LastInUse(s, q + [m], m)
    ensures LastInUse(s, q, n) && (m in s.nets ==> InUse(s.nets[m])) ==> LastInUse(s, q + [m], n)
  {
    var r := q + [m];
    assert r[|q|] == m && r[|q| + 1..] == [];
    if LastInUse(s, q, n) && (m in s.nets ==> InUse(s.nets[m])) {
      var i: nat :| i < |q| && q[i] == n && AllInUse(s, q[i + 1..]);
      assert r[i] == n && r[i + 1..] == q[i + 1..] + [m];
    }
  }

  /** Behind some occurrence of network n all networks of the list are in use. */
  ghost predicate LastInUse(s: State, q: seq<CacheNetwork>, n: CacheNetwork) {
    exists i: nat :: i < |q| && q[i] == n && AllInUse(s, q[i + 1..])
  }

  ghost predicate AllInUse(s: State, q: seq<CacheNetwork>) {
    forall n :: n in q && n in s.nets ==> InUse(s.nets[n])
  }

  /** A network without pages has empty statistics. */
  lemma EmptyNetwork(s: State, n: CacheNetwork)
    requires Consistent(s) && n in s.nets && forall p :: p in s.pages ==> s.pages[p].net != n
    ensures s.nets[n].nCached == 0 && s.nets[n].nReferenced == 0
  {
    assert NetCounters(s.pages, n, s.nets[n]);
    assert Matching(s.pages, OfNetwork(n)) == {};
    assert Matching(s.pages, ReferencedOf(n)) == {};
  }

  lemma MaxCachedFree(s: State, n: CacheNetwork)
    requires Consistent(s) && n in s.nets
    ensures Consistent(s.(nets := s.nets[n := s.nets[n].(maxCached := 0)]))
  {
    hide Count, Sum, PageLists, LiveNetworks;
    var t := s.(nets := s.nets[n := s.nets[n].(maxCached := 0)]);
    SumExt(s.prio, Weight(s), Weight(t));
    SameLive(s.nets, t.nets);
    forall m | m in t.nets ensures NetCounters(t.pages, m, t.nets[m]) {
      assert NetCounters(s.pages, m, s.nets[m]);
    }
    forall p | p in t.pages ensures Placed(t.pages[p], t.nets) {
      assert Placed(s.pages[p], s.nets);
    }
  }

  /** The network which recycle_network picks loses its pages and starts anew.
      It still counts as one network. */
  lemma RecycleKeeps(s: State, n: CacheNetwork)
    requires Inv(s) && n in s.nets && !InUse(s.nets[n])
    ensures Inv(Recycle(s, n)) && Recycle(s, n).nNets == s.nNets
    ensures forall p :: p in Recycle(s, n).pages ==> Recycle(s, n).pages[p].net != n
  {
    hide Consistent, Remove, DeletePages;
    var t := Purged(s, n);
    PurgedKeeps(s, n);
    assert t.nets[n].nReferenced == 0 by { NetworkStat(s, n); }
    NoReferencedPages(t, n);
    EmptyNetwork(t, n);
    MarksKeep(t, n, false, 1);
    var u := SetMarks(t, n, false, 1);
    MaxCachedFree(u, n);
    var v := u.(nets := u.nets[n := u.nets[n].(maxCached := 0)]);
    FrontedKeeps(v, n);
    assert Recycle(s, n) == Fronted(v, n);
  }

  lemma NewNetworkLists(s: State, n: CacheNetwork)
    requires Lists(s) && n !in s.nets
    ensures Lists(NewNetwork(s, n)) && forall p :: p in s.pages ==> s.pages[p].net != n
  {
    hide PageLists;
    AddMember(s.netList, n);
    forall p | p in s.pages ensures Placed(s.pages[p], NewNetwork(s, n).nets) && s.pages[p].net != n {
      assert Placed(s.pages[p], s.nets);
    }
  }

  lemma NoCounts(pages: Pages, n: CacheNetwork, r: NetRec)
    requires (forall p :: p in pages ==> pages[p].net != n) && |r.stat| == 0x800 && r.nCached == 0 && r.nReferenced == 0
    requires forall i :: 0 <= i < 0x800 ==> r.stat[i].nSubpages == 0
    ensures NetCounters(pages, n, r)
  {
    assert Matching(pages, OfNetwork(n)) == {};
    assert Matching(pages, ReferencedOf(n)) == {};
    forall g {:trigger SubpageOf(n, g)} ensures Count(pages, SubpageOf(n, g)) == 0 {
      assert Matching(pages, SubpageOf(n, g)) == {};
    }
  }

  lemma NewLive(nets: Nets, n: CacheNetwork, r: NetRec)
    requires n !in nets && !r.zombie
    ensures |LiveNetworks(nets[n := r])| == |LiveNetworks(nets)| + 1
  {
    assert LiveNetworks(nets[n := r]) == LiveNetworks(nets) + {n};
  }

  lemma NewAllCounters(pages: Pages, nets: Nets, n: CacheNetwork, r: NetRec)
    requires AllNetCounters(pages, nets) && n !in nets && NetCounters(pages, n, r)
    ensures AllNetCounters(pages, nets[n := r])
  {
    hide NetCounters;
  }

  lemma NewNetworkCounters(s: State, n: CacheNetwork)
    requires Counters(s) && n !in s.nets && forall p :: p in s.pages ==> s.pages[p].net != n
    ensures Counters(NewNetwork(s, n))
  {
    hide Sum, NetCounters, AllNetCounters, LiveNetworks;
    var t := NewNetwork(s, n);
    SumExt(s.prio, Weight(s), Weight(t));
    NewLive(s.nets, n, t.nets[n]);
    NoCounts(t.pages, n, t.nets[n]);
    NewAllCounters(s.pages, s.nets, n, t.nets[n]);
  }

  lemma NewNetworkKeeps(s: State, n: CacheNetwork)
    requires Inv(s) && n !in s.nets
    ensures Inv(NewNetwork(s, n))
  {
    hide Lists, Counters;
    NewNetworkLists(s, n);
    NewNetworkCounters(s, n);
  }

  /** vbi_cache_purge leaves only what is in use, marked for deletion. */
  lemma {:induction false} PurgeKeeps(s: State, q: seq<CacheNetwork>)
    requires Inv(s) && Distinct(q) && forall n :: n in q ==> n in s.nets
    ensures Inv(Purge(s, q)) && Purge(s, q).nets.Keys <= s.nets.Keys
    ensures forall n :: n in Purge(s, q).nets && n !in q ==> Purge(s, q).nets[n].zombie == s.nets[n].zombie
    ensures forall n :: n in q && n in Purge(s, q).nets ==> Purge(s, q).nets[n].zombie
    decreases |q|
  {
    hide Consistent, DeleteNetwork;
    if q != [] {
      var n, rest := q[0], q[1..];
      DeleteNetworkKeeps(s, n);
      var t := DeleteNetwork(s, n);
      assert forall m :: m in rest ==> m in q && m != n;
      assert Inv(t);
      PurgeKeeps(t, rest);
    }
  }

  /** A network which is known already. */
  lemma KnownNetworkKeeps(s: State, n: CacheNetwork)
    requires Inv(s) && n in s.nets
    ensures Inv(RefNetwork(Fronted(s, n), n)) && RefNetwork(Fronted(s, n), n).nNets == s.nNets
  {
    hide Inv, Remove;
    GetNetworkKeeps(s, n);
    GetNetworkKeeps(Fronted(s, n), n);
  }

  /** _vbi_cache_add_network keeps the cache consistent. It makes one network more only below
      the limit, or when all networks are in use. */
  lemma AddNetworkKeeps(s: State, known: Option<CacheNetwork>, memory: bool, o: Option<CacheNetwork>, t: State)
    requires Inv(s) && AddsNetwork(s, known, memory, o, t)
    ensures Inv(t)
    ensures t.nNets > s.nNets ==> s.nNets < s.netLimit || forall n :: n in s.nets ==> InUse(s.nets[n])
  {
    hide Inv, LastUnused, Recycle, NewNetwork, RefNetwork, Fronted;
    LastUnusedIs(s, s.netList);
    InvParts(s);
    Listed(s);
    var recycled := if s.nNets < s.netLimit then None else LastUnused(s, s.netList);
    if known.Some? && known.value in s.nets {
      KnownNetworkKeeps(s, known.value);
    } else if recycled.Some? {
      RecycleKeeps(s, recycled.value);
    } else if memory {
      NewNetworkKeeps(s, o.value);
    }
  }

  /** The network which was asked for or added is the first of the list, to be deleted or recycled last. The others
      stay in their order. */
  lemma NetworkFirst(s: State, known: Option<CacheNetwork>, memory: bool, o: Option<CacheNetwork>, t: State)
    requires Inv(s) && AddsNetwork(s, known, memory, o, t)
    ensures o.Some? ==> t.netList == [o.value] + Remove(s.netList, o.value)
    ensures forall n :: n in s.nets ==> GetNetwork(s, n).netList == [n] + Remove(s.netList, n)
  {
    hide Inv, Remove, LastUnused, DeletePages;
    LastUnusedIs(s, s.netList);
    InvParts(s);
    Listed(s);
    var recycled := if s.nNets < s.netLimit then None else LastUnused(s, s.netList);
    if known.Some? && known.value in s.nets {
    } else if recycled.Some? {
      var n := recycled.value;
      PurgedKeeps(s, n);
      assert Purged(s, n).netList == s.netList && n in Purged(s, n).nets by { FrameNets(s, Purged(s, n)); }
    } else if memory {
      RemoveAbsent(s.netList, o.value);
    }
  }

  lemma FrameNets(s: State, t: State)
    requires Frame(s, t)
    ensures t.netList == s.netList && t.nets.Keys == s.nets.Keys
  {}
}
