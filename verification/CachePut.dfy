/** Storing a page: what it keeps, and what the page is found as. */
module CachePut {
  import opened Bcd
  import opened Bits
  import opened CacheObjects
  import opened CacheOperations
  import opened CacheProofs
  import opened CacheSearch
  import opened CacheState
  import opened Common
  import opened Seqs

  // ---- What storing a page keeps ----------------------------------------------------------

  lemma PutStartKeeps(s: State, n: CacheNetwork, pgno: nat, subno: nat, clock: bool)
    requires Inv(s) && pgno < WORD && subno < WORD
    ensures var (t, prev) := PutStart(s, n, pgno, subno, clock);
      && Inv(t) && t.pages.Keys == s.pages.Keys && t.nets == s.nets && t.used == s.used && t.limit == s.limit
      && t.sizes == s.sizes && (prev.Some? ==> prev.value in t.prio)
  {
    hide Consistent, Lookup, Zombify, StoredSubno, And, Matches, Remove;
    var (sub, mask) := StoredSubno(pgno, subno, clock);
    LookupKeeps(s, n, pgno, And(sub, mask), mask);
    var (t, o) := Lookup(s, n, pgno, And(sub, mask), mask);
    if o.Some? {
      KnownPage(t, o.value);
      if t.pages[o.value].refs > 0 {
        ZombifyKeeps(t, o.value);
        ZombifyLeaves(t, o.value);
      }
    }
  }

  lemma ZombifyLeaves(s: State, p: CachePage)
    requires p in s.pages
    ensures var t := Zombify(s, p);
      t.pages.Keys == s.pages.Keys && t.nets == s.nets && t.used == s.used && t.limit == s.limit && t.sizes == s.sizes
  {
    hide Remove;
  }

  lemma InsertNets(s: State, p: CachePage, r: PageRec)
    requires r.net in s.nets && |s.nets[r.net].stat| == 0x800 && 0x100 <= r.pgno <= 0x8FF
    ensures var t := InsertPage(s, p, r);
      && t.nets.Keys == s.nets.Keys && !t.nets[r.net].zombie && t.limit == s.limit && t.used == s.used
      && (forall m :: m in s.nets && m != r.net ==> t.nets[m] == s.nets[m])
      && t.mru == [p] + s.mru && t.pages == s.pages[p := r.(refs := 1)] && t.prio == s.prio && t.sizes == s.sizes
  {}

  /** A page comes in. */
  lemma InsertKeepsInv(s: State, p: CachePage, r: PageRec)
    requires Consistent(s) && ZombiesInUse(s) && s.used <= s.limit
    requires p !in s.pages && r.pri != Zombie && Placed(r, s.nets)
    ensures |s.nets[r.net].stat| == 0x800 && Inv(InsertPage(s, p, r))
  {
    hide Consistent, InsertPage;
    InsertKeeps(s, p, r);
    InsertNets(s, p, r);
  }

  /** The row goes and page p comes in. */
  lemma ReplaceKeeps(s: State, c: Scan, needed: nat, p: CachePage, r: PageRec)
    requires Inv(s) && Deletable(s, c.row) && !Reuses(c, needed)
    requires p !in s.pages && r.pri != Zombie && Placed(r, s.nets)
    ensures Inv(Replace(s, c, needed, p, r))
  {
    hide Consistent, DeletePages, Sum, InsertPage;
    var t := DeletePages(s, c.row);
    DeletePagesKeeps(s, c.row);
    SumNonNegative(c.row, Weight(s));
    InsertKeepsInv(t, p, r);
  }

  /** A page is reused without its own size. */
  lemma DropOther(s: State, p: CachePage, needed: nat)
    requires Consistent(s) && p in s.prio
    ensures PageOk(s, p) && Drop(s, p, needed) == Drop(s, p, Size(s, p)).(used := s.used - needed)
  {
    hide Remove;
    Unreferenced(s, p);
  }

  /** Only the memory in use tells whether the cache is consistent. */
  lemma UsedMatters(s: State, used: int)
    requires Consistent(s)
    ensures Consistent(s.(used := used)) <==> used == s.used
  {
    hide Lists, Sum, AllNetCounters;
    SumExt(s.prio, Weight(s), Weight(s.(used := used)));
    if used == s.used { assert s.(used := used) == s; }
  }

  /** InsertPage does not look at the memory in use. */
  lemma InsertUsed(s: State, p: CachePage, r: PageRec, used: int)
    requires r.net in s.nets && |s.nets[r.net].stat| == 0x800 && 0x100 <= r.pgno <= 0x8FF
    ensures InsertPage(s.(used := used), p, r) == InsertPage(s, p, r).(used := used)
  {
    hide NetAdd;
  }

  /** The page on the row is reused in place. The memory in use is then right if and
      only if the cache was full: only then has the page the size needed. */
  lemma ReuseKeepsIff(s: State, c: Scan, needed: nat, r: PageRec)
    requires Inv(s) && Deletable(s, c.row) && Reuses(c, needed)
    requires c.available == s.limit - s.used + Sum(c.row, Weight(s))
    requires r.pri != Zombie && Placed(r, s.nets)
    ensures Inv(Replace(s, c, needed, c.row[0], r)) <==> s.used == s.limit
  {
    hide Consistent, Drop, InsertPage, Deletable, Size;
    var p := c.row[0];
    assert p in s.prio by { RowMember(s, c.row); }
    assert c.row == [p];
    SumOne(p, Weight(s));
    DeletePageKeeps(s, p);
    var t := Drop(s, p, Size(s, p));
    DroppedPage(s, p, Size(s, p));
    DropOther(s, p, needed);
    InsertKeepsInv(t, p, r);
    InsertNets(t, p, r);
    InsertUsed(t, p, r, s.used - needed);
    UsedMatters(InsertPage(t, p, r), s.used - needed);
    assert Replace(s, c, needed, p, r) == InsertPage(t, p, r).(used := s.used - needed);
  }

  lemma RowMember(s: State, q: seq<CachePage>)
    requires Deletable(s, q) && q != []
    ensures q[0] in s.prio
  {}

  lemma DroppedPage(s: State, p: CachePage, freed: nat)
    requires PageOk(s, p)
    ensures var t := Drop(s, p, freed);
      p !in t.pages && t.used == s.used - freed && t.limit == s.limit && t.nets.Keys == s.nets.Keys
  {
    hide Remove, NetRemove;
  }

  /** If the search will find enough memory, it will not pick a page twice. */
  ghost predicate Storable(s: State, n: CacheNetwork, pgno: nat, subno: nat, content: Content, clock: bool)
    requires pgno < WORD && subno < WORD
  {
    var (t, prev) := PutStart(s, n, pgno, subno, clock);
    var needed := PageSize(s.sizes, content);
    pgno % 0x100 != 0xFF && Suffices(t, prev, needed) ==> PicksOnce(t, prev, needed)
  }

  /** The row of a search which found enough memory. */
  lemma RowStorable(s: State, prev: Option<CachePage>, needed: int)
    requires Consistent(s) && (prev.Some? ==> prev.value in s.prio) && FindMemory(s, prev, needed).progress == Enough
    requires Suffices(s, prev, needed) ==> PicksOnce(s, prev, needed)
    ensures Deletable(s, FindMemory(s, prev, needed).row)
  {
    hide Found, Consistent, PicksOnce;
    FoundEnough(s, prev, needed, 4);
    RowDistinctIff(s, prev, needed);
    FoundRow(s, prev, needed, 4);
  }

  /** _vbi_cache_put_page keeps the cache consistent, unless it reuses a page in place
      while the cache is not full. */
  lemma PutKeeps(s: State, n: CacheNetwork, pgno: nat, subno: nat, content: Content, clock: bool,
      memory: Option<CachePage>)
    requires Inv(s) && n in s.nets && 0x100 <= pgno <= 0x8FF && subno < WORD
    requires memory.Some? ==> memory.value !in s.pages
    requires Storable(s, n, pgno, subno, content, clock)
    ensures var (t, prev) := PutStart(s, n, pgno, subno, clock);
      var (u, p) := PutPage(s, n, pgno, subno, content, clock, memory);
      Inv(u) <==> (p.Some? && JustEnough(t, prev, PageSize(s.sizes, content)) ==> s.used == s.limit)
  {
    hide Inv, PutStart, FindMemory, Replace, Stored, PageSize, JustEnough, Suffices, PicksOnce, Reuses, Placed;
    PutStartKeeps(s, n, pgno, subno, clock);
    var (t, prev) := PutStart(s, n, pgno, subno, clock);
    var needed := PageSize(s.sizes, content);
    var c := FindMemory(t, prev, needed);
    var r := Stored(n, pgno, subno, content, clock);
    StoredPlace(n, pgno, subno, content, clock);
    assert Placed(r, t.nets) by { IsPlaced(r, t.nets); }
    if pgno % 0x100 != 0xFF && c.progress == Enough {
      FoundKeeps(t, prev, needed, r, memory);
    }
  }

  lemma IsPlaced(r: PageRec, nets: Nets)
    requires r.net in nets && 0x100 <= r.pgno <= 0x8FF
    ensures Placed(r, nets)
  {}

  /** There was enough memory: a page is reused in place, or the row is replaced by a new page. */
  lemma FoundKeeps(s: State, prev: Option<CachePage>, needed: nat, r: PageRec, memory: Option<CachePage>)
    requires Inv(s) && (prev.Some? ==> prev.value in s.prio) && r.pri != Zombie && Placed(r, s.nets)
    requires FindMemory(s, prev, needed).progress == Enough
      && (Suffices(s, prev, needed) ==> PicksOnce(s, prev, needed))
    requires memory.Some? ==> memory.value !in s.pages
    ensures var c := FindMemory(s, prev, needed);
      && (c.row != [] || !Reuses(c, needed))
      && (Reuses(c, needed) <==> JustEnough(s, prev, needed))
      && (Reuses(c, needed) ==> (Inv(Replace(s, c, needed, c.row[0], r)) <==> s.used == s.limit))
      && (!Reuses(c, needed) && memory.Some? ==> Inv(Replace(s, c, needed, memory.value, r)))
  {
    hide Inv, Found, Replace, JustEnough, Suffices, PicksOnce, Placed, Deletable;
    var c := FindMemory(s, prev, needed);
    InvParts(s);
    FoundRow(s, prev, needed, 4);
    RowStorable(s, prev, needed);
    ReusesIff(s, prev, needed);
    if Reuses(c, needed) {
      ReuseKeepsIff(s, c, needed, r);
    } else if memory.Some? {
      ReplaceKeeps(s, c, needed, memory.value, r);
    }
  }

  lemma StoredPlace(n: CacheNetwork, pgno: nat, subno: nat, content: Content, clock: bool)
    requires 0x100 <= pgno <= 0x8FF && subno < WORD
    ensures var r := Stored(n, pgno, subno, content, clock);
      r.net == n && r.pgno == pgno && r.pri != Zombie && r.refs == 1 && r.content == content
    ensures Stored(n, pgno, subno, content, clock).subno == StoredSubno(pgno, subno, clock).0
  {
    hide StoredSubno, IsBcd;
  }

  // ---- What a stored page is found as ----------------------------------------------------

  lemma ReplaceFirst(s: State, c: Scan, needed: nat, p: CachePage, r: PageRec)
    requires Consistent(s) && Deletable(s, c.row) && Placed(r, s.nets) && r.refs == 1
    ensures var u := Replace(s, c, needed, p, r); u.mru != [] && u.mru[0] == p && p in u.pages && u.pages[p] == r
  {
    hide Consistent, InsertPage, DeletePages, Drop, Deletable;
    if Reuses(c, needed) {
      var q := c.row[0];
      RowMember(s, c.row);
      DeletePageKeeps(s, q);
      DropOther(s, q, needed);
      NetworkStat(DeletePage(s, q), r.net) by { SameKeys(s, DeletePage(s, q)); }
      InsertNets(Drop(s, q, needed), p, r);
    } else {
      DeletePagesKeeps(s, c.row);
      var v := DeletePages(s, c.row);
      NetworkStat(v, r.net);
      InsertNets(v, p, r);
    }
  }

  lemma SameKeys(s: State, t: State)
    requires Frame(s, t)
    ensures t.nets.Keys == s.nets.Keys
  {}

  /** A page which was stored is the first of all pages, with what it was given. */
  lemma PutFirst(s: State, n: CacheNetwork, pgno: nat, subno: nat, content: Content, clock: bool,
      memory: Option<CachePage>)
    requires Inv(s) && n in s.nets && 0x100 <= pgno <= 0x8FF && subno < WORD
    requires Storable(s, n, pgno, subno, content, clock)
    ensures var (u, p) := PutPage(s, n, pgno, subno, content, clock, memory);
      p.None? || (u.mru != [] && u.mru[0] == p.value && p.value in u.pages
                  && u.pages[p.value] == Stored(n, pgno, subno, content, clock))
  {
    hide Consistent, PutStart, Found, Stored, PageSize, Replace, Suffices, PicksOnce;
    PutStartKeeps(s, n, pgno, subno, clock);
    var (t, prev) := PutStart(s, n, pgno, subno, clock);
    var needed := PageSize(s.sizes, content);
    var c := FindMemory(t, prev, needed);
    var r := Stored(n, pgno, subno, content, clock);
    FoundRow(t, prev, needed, 4);
    StoredPlace(n, pgno, subno, content, clock);
    var (u, p) := PutPage(s, n, pgno, subno, content, clock, memory);
    if p.Some? {
      RowStorable(t, prev, needed);
      ReplaceFirst(t, c, needed, p.value, r);
    }
  }

  lemma FirstMatches(s: State, n: CacheNetwork, pgno: nat, subno: nat, mask: nat)
    requires s.mru != [] && s.mru[0] in s.pages && Matches(s.pages[s.mru[0]], n, pgno, subno, mask)
    ensures Lookup(s, n, pgno, subno, mask).1 == Some(s.mru[0])
  {
    hide Remove, Matches;
  }
}
