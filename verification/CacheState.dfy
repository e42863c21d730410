/** The structures of the Teletext page cache (src/cache-priv.h). */
module CacheObjects {

  datatype Priority = Zombie | Normal | Special

  /** The page functions which cache_page_size and put_page tell apart. */
  datatype PageFunction = Unknown | Lop | Pop | Gpop | Drcs | Gdrcs | Ait | OtherFunction

  /** x28 stands for (x28_designations & 0x13) != 0, x26 for x26_designations != 0. */
  datatype Content = Content(func: PageFunction, x26: bool, x28: bool)

  /** The sizes of struct cache_page and of the members of its union. */
  datatype Sizes = Sizes(header: nat, lop: nat, enhLop: nat, extLop: nat, pop: nat, drcs: nat, ait: nat, whole: nat)

  /** cache_page_size. */
  function PageSize(z: Sizes, c: Content): nat {
    match c.func
    case Unknown | Lop => z.header + if c.x28 then z.extLop else if c.x26 then z.enhLop else z.lop
    case Gpop | Pop => z.header + z.pop
    case Gdrcs | Drcs => z.header + z.drcs
    case Ait => z.header + z.ait
    case OtherFunction => z.whole
  }

  /** struct ttx_page_stat: all four are 8 bit numbers. */
  datatype PageStat = PageStat(nSubpages: nat, maxSubpages: nat, subnoMin: nat, subnoMax: nat)

  class CachePage {
    var network: CacheNetwork
    var refCount: nat
    var priority: Priority
    var content: Content
    var pgno: int
    var subno: nat

    constructor (cn: CacheNetwork)
      ensures fresh(this)
    {
      network := cn;
      refCount := 0;
      priority := Normal;
      content := Content(Unknown, false, false);
      pgno := 0;
      subno := 0;
    }
  }

  class CacheNetwork {
    var refCount: nat
    var zombie: bool
    var nCachedPages: int
    var maxCachedPages: int
    var nReferencedPages: int
    var pageStat: seq<PageStat>

    constructor ()
      ensures refCount == 0 && !zombie && nCachedPages == 0 && maxCachedPages == 0 && nReferencedPages == 0
      ensures pageStat == seq(0x800, _ => PageStat(0, 0, 0, 0))
    {
      refCount := 0;
      zombie := false;
      nCachedPages := 0;
      maxCachedPages := 0;
      nReferencedPages := 0;
      pageStat := seq(0x800, _ => PageStat(0, 0, 0, 0));
    }
  }
}

/** The cache as a value: what its lists hold and what every operation does to
    them. One most-recently-used list stands for the hash chains. */
module CacheState {
  import opened Bcd
  import opened Bits
  import opened CacheObjects
  import opened Common
  import opened Seqs

  datatype PageRec = PageRec(net: CacheNetwork, refs: nat, pri: Priority, content: Content, pgno: int, subno: nat)

  datatype NetRec = NetRec(refs: nat, zombie: bool, nCached: int, maxCached: int, nReferenced: int, stat: seq<PageStat>)

  datatype State = State(
    sizes: Sizes,
    pages: map<CachePage, PageRec>,
    nets: map<CacheNetwork, NetRec>,
    mru: seq<CachePage>,
    prio: seq<CachePage>,
    refd: seq<CachePage>,
    netList: seq<CacheNetwork>,
    used: int,
    limit: int,
    nPages: int,
    nNets: int,
    netLimit: int)

  function Size(s: State, p: CachePage): nat {
    if p in s.pages then PageSize(s.sizes, s.pages[p].content) else 0
  }

  ghost function Weight(s: State): CachePage -> int {
    (p: CachePage) => Size(s, p)
  }

  // ---- What must hold ------------------------------------------------------

  type Pages = map<CachePage, PageRec>
  type Nets = map<CacheNetwork, NetRec>

  /** Which lists every page is on. */
  ghost predicate PageLists(pages: Pages, mru: seq<CachePage>, prio: seq<CachePage>, refd: seq<CachePage>) {
    && Distinct(prio) && Distinct(refd) && Distinct(mru)
    && (forall p :: p in refd ==> p in pages && pages[p].refs > 0)
    && (forall p :: p in prio ==> p in pages && pages[p].refs == 0)
    && (forall p :: p in mru ==> p in pages && pages[p].pri != Zombie)
    && (forall p :: p in pages && pages[p].refs > 0 ==> p in refd)
    && (forall p :: p in pages && pages[p].refs == 0 ==> p in prio && pages[p].pri != Zombie)
    && (forall p :: p in pages && pages[p].pri != Zombie ==> p in mru)
  }

  ghost predicate NetLists(nets: Nets, netList: seq<CacheNetwork>) {
    Distinct(netList) && (forall n :: n in netList ==> n in nets) && (forall n :: n in nets ==> n in netList)
  }

  ghost predicate Placed(r: PageRec, nets: Nets) {
    r.net in nets && 0x100 <= r.pgno <= 0x8FF
  }

  ghost predicate Lists(s: State) {
    && PageLists(s.pages, s.mru, s.prio, s.refd)
    && NetLists(s.nets, s.netList)
    && forall p :: p in s.pages ==> Placed(s.pages[p], s.nets)
  }

  ghost function Matching(pages: Pages, f: PageRec -> bool): set<CachePage> {
    set p | p in pages && f(pages[p])
  }

  /** The number of pages with some property. */
  ghost function Count(pages: Pages, f: PageRec -> bool): nat {
    |Matching(pages, f)|
  }

  ghost function OfNetwork(n: CacheNetwork): PageRec -> bool {
    (r: PageRec) => r.net == n
  }

  ghost function ReferencedOf(n: CacheNetwork): PageRec -> bool {
    (r: PageRec) => r.net == n && r.refs > 0
  }

  ghost function SubpageOf(n: CacheNetwork, pgno: int): PageRec -> bool {
    (r: PageRec) => r.net == n && r.pgno == pgno
  }

  ghost function LiveNetworks(nets: Nets): set<CacheNetwork> {
    set n | n in nets && !nets[n].zombie
  }

  /** The statistics of a network are the numbers of pages they are about.
      n_subpages counts modulo 256. */
  ghost predicate NetCounters(pages: Pages, n: CacheNetwork, r: NetRec) {
    && |r.stat| == 0x800
    && r.nCached == Count(pages, OfNetwork(n))
    && r.nReferenced == Count(pages, ReferencedOf(n))
    && forall g :: 0x100 <= g <= 0x8FF ==> r.stat[g - 0x100].nSubpages == Count(pages, SubpageOf(n, g)) % 256
  }

  ghost predicate AllNetCounters(pages: Pages, nets: Nets) {
    forall n :: n in nets ==> NetCounters(pages, n, nets[n])
  }

  ghost predicate Counters(s: State) {
    && s.used == Sum(s.prio, Weight(s))
    && s.nPages == |s.pages|
    && s.nNets == |LiveNetworks(s.nets)|
    && AllNetCounters(s.pages, s.nets)
  }

  ghost predicate Consistent(s: State) {
    Lists(s) && Counters(s)
  }

  /** A network marked for deletion is still in use. */
  ghost predicate ZombiesInUse(s: State) {
    forall n :: n in s.nets && s.nets[n].zombie ==> s.nets[n].refs > 0 || s.nets[n].nReferenced > 0
  }

  /** Holds between any two operations. */
  ghost predicate Inv(s: State) {
    Consistent(s) && ZombiesInUse(s) && s.used <= s.limit
  }

  // ---- Network statistics ---------------------------------------------------

  function StatAdd(t: PageStat, subno: nat): PageStat {
    var n := (t.nSubpages + 1) % 256;
    PageStat(n,
             if n > t.maxSubpages then n else t.maxSubpages,
             if t.subnoMin == 0 || subno < t.subnoMin then subno % 256 else t.subnoMin,
             if subno > t.subnoMax then subno % 256 else t.subnoMax)
  }

  /** cache_network_add_page, without the revival of a zombie. */
  function NetAdd(r: NetRec, pgno: int, subno: nat): NetRec
    requires |r.stat| == 0x800 && 0x100 <= pgno <= 0x8FF
  {
    var n := r.nCached + 1;
    r.(nCached := n,
       maxCached := if n > r.maxCached then n else r.maxCached,
       stat := r.stat[pgno - 0x100 := StatAdd(r.stat[pgno - 0x100], subno)])
  }

  /** cache_network_remove_page. */
  function NetRemove(r: NetRec, pgno: int): NetRec
    requires |r.stat| == 0x800 && 0x100 <= pgno <= 0x8FF
  {
    var t := r.stat[pgno - 0x100];
    r.(nCached := r.nCached - 1,
       stat := r.stat[pgno - 0x100 := t.(nSubpages := (t.nSubpages + 255) % 256)])
  }

  /** Network n with other marks. Zombies do not count as cached networks. */
  function SetMarks(s: State, n: CacheNetwork, zombie: bool, refs: nat): State
    requires n in s.nets
  {
    s.(nets := s.nets[n := s.nets[n].(zombie := zombie, refs := refs)],
       nNets := s.nNets + (if zombie then 0 else 1) - (if s.nets[n].zombie then 0 else 1))
  }

  /** Revives a network which is about to be used. */
  function Revive(s: State, n: CacheNetwork): State
    requires n in s.nets
  {
    SetMarks(s, n, false, s.nets[n].refs)
  }

  // ---- Pages ------------------------------------------------------------------

  ghost predicate PageOk(s: State, p: CachePage) {
    && p in s.pages && s.pages[p].net in s.nets && |s.nets[s.pages[p].net].stat| == 0x800
    && 0x100 <= s.pages[p].pgno <= 0x8FF
  }

  /** Unlinks page p from all lists and the statistics. */
  ghost function Drop(s: State, p: CachePage, freed: int): State
    requires PageOk(s, p)
  {
    var r := s.pages[p];
    s.(pages := s.pages - {p},
       nets := s.nets[r.net := NetRemove(s.nets[r.net], r.pgno)],
       mru := Remove(s.mru, p),
       prio := Remove(s.prio, p),
       refd := Remove(s.refd, p),
       used := s.used - freed,
       nPages := s.nPages - 1)
  }

  /** Takes a referenced page out of the hash chains, to be deleted when unreferenced. */
  ghost function Zombify(s: State, p: CachePage): State
    requires p in s.pages
  {
    s.(pages := s.pages[p := s.pages[p].(pri := Zombie)], mru := Remove(s.mru, p))
  }

  /** delete_page. */
  ghost function DeletePage(s: State, p: CachePage): State {
    if !PageOk(s, p) then s
    else if s.pages[p].refs > 0 then
      if s.pages[p].pri != Zombie then Zombify(s, p) else s
    else
      Drop(s, p, if s.pages[p].pri != Zombie then Size(s, p) else 0)
  }

  /** delete_page for every page of q, in this order. */
  ghost function DeletePages(s: State, q: seq<CachePage>): State {
    if q == [] then s else DeletePage(DeletePages(s, q[..|q| - 1]), q[|q| - 1])
  }

  /** The part of a new reference to page p which is about its list and its network. */
  ghost function RevivePage(s: State, p: CachePage): State
    requires PageOk(s, p)
  {
    var r, t := s.pages[p], Revive(s, s.pages[p].net);
    t.(nets := t.nets[r.net := t.nets[r.net].(nReferenced := t.nets[r.net].nReferenced + 1)],
       used := t.used - Size(s, p),
       prio := Remove(t.prio, p),
       refd := Remove(t.refd, p) + [p])
  }

  /** A new reference to page p. */
  ghost function RefPage(s: State, p: CachePage): State
    requires PageOk(s, p)
  {
    var r := s.pages[p];
    if r.refs > 0 then s.(pages := s.pages[p := r.(refs := r.refs + 1)])
    else
      RevivePage(s, p).(pages := s.pages[p := r.(refs := 1)])
  }

  /** The last reference to page p goes, up to the deletion of its network. */
  ghost function ReleasePage(s: State, p: CachePage): State
    requires PageOk(s, p)
  {
    var r := s.pages[p];
    var t := s.(pages := s.pages[p := r.(refs := 0)]);
    var u := if r.pri == Zombie then DeletePage(t, p)
             else t.(prio := Remove(t.prio, p) + [p], refd := Remove(t.refd, p), used := t.used + Size(s, p));
    u.(nets := u.nets[r.net := u.nets[r.net].(nReferenced := u.nets[r.net].nReferenced - 1)])
  }

  /** A page of network n enters the cache, referenced once. */
  ghost function InsertPage(s: State, p: CachePage, r: PageRec): State
    requires r.net in s.nets && |s.nets[r.net].stat| == 0x800 && 0x100 <= r.pgno <= 0x8FF
  {
    var t := Revive(s, r.net);
    var n := t.nets[r.net];
    t.(pages := t.pages[p := r.(refs := 1)],
       nets := t.nets[r.net := NetAdd(n.(nReferenced := n.nReferenced + 1), r.pgno, r.subno)],
       mru := [p] + t.mru,
       refd := t.refd + [p],
       nPages := t.nPages + 1)
  }

  // ---- Lookup -----------------------------------------------------------------

  /** Page p is a version of page pgno.subno of network n, as far as the mask tells. */
  predicate Matches(r: PageRec, n: CacheNetwork, pgno: int, subno: nat, mask: nat) {
    r.pgno == pgno && And(r.subno, mask) == And(subno, mask) && r.net == n
  }

  /** The first match in a list of pages. */
  ghost function FirstMatch(s: State, q: seq<CachePage>, n: CacheNetwork, pgno: int, subno: nat, mask: nat): (i: nat)
    ensures i <= |q|
  {
    if q == [] then 0
    else if q[0] in s.pages && Matches(s.pages[q[0]], n, pgno, subno, mask) then 0
    else 1 + FirstMatch(s, q[1..], n, pgno, subno, mask)
  }

  ghost function MoveToFront(s: State, p: CachePage): State {
    s.(mru := [p] + Remove(s.mru, p))
  }

  /** page_by_pgno. */
  ghost function Lookup(s: State, n: CacheNetwork, pgno: int, subno: nat, mask: nat): (State, Option<CachePage>) {
    var i := FirstMatch(s, s.mru, n, pgno, subno, mask);
    if i == |s.mru| then (s, None) else (MoveToFront(s, s.mru[i]), Some(s.mru[i]))
  }

  const ANY_SUBNO := 0x3F7F

  /** _vbi_cache_get_page. */
  ghost function GetPage(s: State, n: CacheNetwork, pgno: int, subno: nat, mask: nat): (State, Option<CachePage>) {
    if pgno < 0x100 || pgno > 0x8FF || pgno % 0x100 == 0xFF then (s, None) else
    var (t, o) := Lookup(s, n, pgno, subno, if subno == ANY_SUBNO then 0 else mask);
    if o.Some? && PageOk(t, o.value) then (RefPage(t, o.value), o) else (t, o)
  }

  // ---- Networks -----------------------------------------------------------------

  /** The unreferenced pages of network n, oldest first. */
  ghost function UnreferencedOf(s: State, n: CacheNetwork): seq<CachePage> {
    Filter(s.prio, OnNetwork(s, n))
  }

  ghost function OnNetwork(s: State, n: CacheNetwork): CachePage -> bool {
    (p: CachePage) => p in s.pages && s.pages[p].net == n
  }

  /** delete_network. */
  ghost function DeleteNetwork(s: State, n: CacheNetwork): State {
    if n !in s.nets then s else
    var t := if s.nets[n].nCached > 0 then DeletePages(s, UnreferencedOf(s, n)) else s;
    if n !in t.nets then t else
    var u := SetMarks(t, n, true, t.nets[n].refs);
    if InUse(u.nets[n]) then u else u.(nets := u.nets - {n}, netList := Remove(u.netList, n))
  }

  predicate InUse(r: NetRec) {
    r.refs > 0 || r.nReferenced > 0
  }

  /** delete_surplus_networks, still to visit the networks of q from the last to the first. */
  ghost function SurplusNetworks(s: State, q: seq<CacheNetwork>): State
    decreases |q|
  {
    if q == [] then s else
    var n := q[|q| - 1];
    var t := if n in s.nets && !InUse(s.nets[n]) && (s.nets[n].zombie || s.nNets > s.netLimit)
             then DeleteNetwork(s, n) else s;
    SurplusNetworks(t, q[..|q| - 1])
  }

  /** Network n moves to the head of the list of networks. */
  ghost function Fronted(s: State, n: CacheNetwork): State {
    s.(netList := [n] + Remove(s.netList, n))
  }

  /** _vbi_cache_get_network for a network of this cache. */
  ghost function GetNetwork(s: State, n: CacheNetwork): State
    requires n in s.nets
  {
    SetMarks(Fronted(s, n), n, false, s.nets[n].refs + 1)
  }

  /** cache_network_ref, also what _vbi_cache_add_network does to a network it knows. */
  function RefNetwork(s: State, n: CacheNetwork): State
    requires n in s.nets
  {
    SetMarks(s, n, s.nets[n].zombie, s.nets[n].refs + 1)
  }

  /** cache_network_unref. */
  ghost function UnrefNetwork(s: State, n: CacheNetwork): State
    requires n in s.nets
  {
    var r := s.nets[n];
    if r.refs == 0 then s
    else if r.refs > 1 then SetMarks(s, n, r.zombie, r.refs - 1)
    else SurplusNetworks(SetMarks(s, n, r.zombie, 0), s.netList)
  }

  /** The last unused network of a list. */
  ghost function LastUnused(s: State, q: seq<CacheNetwork>): (o: Option<CacheNetwork>)
    ensures o.Some? ==> o.value in q && o.value in s.nets && !InUse(s.nets[o.value])
  {
    if q == [] then None
    else if q[|q| - 1] in s.nets && !InUse(s.nets[q[|q| - 1]]) then Some(q[|q| - 1])
    else LastUnused(s, q[..|q| - 1])
  }

  /** recycle_network for network n, which then gets the first reference to its new self. */
  ghost function Recycle(s: State, n: CacheNetwork): State
    requires n in s.nets
  {
    var t := if s.nets[n].nCached > 0 then DeletePages(s, UnreferencedOf(s, n)) else s;
    if n !in t.nets then t else
    var r := t.nets[n].(refs := 1, zombie := false, nCached := 0, maxCached := 0, nReferenced := 0);
    t.(nets := t.nets[n := r], netList := [n] + Remove(t.netList, n))
  }

  /** A network n enters the cache, referenced once. */
  ghost function NewNetwork(s: State, n: CacheNetwork): State {
    s.(nets := s.nets[n := NetRec(1, false, 0, 0, 0, seq(0x800, _ => PageStat(0, 0, 0, 0)))],
       netList := [n] + s.netList,
       nNets := s.nNets + 1)
  }

  /** _vbi_cache_add_network: what it may return and leave behind. A network which is known is
      used again, even one marked for deletion. */
  ghost predicate AddsNetwork(s: State, known: Option<CacheNetwork>, memory: bool, o: Option<CacheNetwork>, t: State) {
    var recycled := if s.nNets < s.netLimit then None else LastUnused(s, s.netList);
    if known.Some? && known.value in s.nets then o == known && t == RefNetwork(Fronted(s, known.value), known.value)
    else if recycled.Some? then o == recycled && t == Recycle(s, recycled.value)
    else if memory then o.Some? && o.value !in s.nets && t == NewNetwork(s, o.value)
    else o == None && t == s
  }

  /** vbi_cache_purge, still to visit the networks of q. */
  ghost function Purge(s: State, q: seq<CacheNetwork>): State
    decreases |q|
  {
    if q == [] then s else Purge(DeleteNetwork(s, q[0]), q[1..])
  }

  // ---- Eviction -----------------------------------------------------------------

  /** delete_surplus_pages takes pages of this priority, at first only those of
      networks without references. */
  ghost predicate Evictable(s: State, p: CachePage, pri: Priority, all: bool) {
    PageOk(s, p) && s.pages[p].pri == pri && (all || s.nets[s.pages[p].net].refs == 0)
  }

  /** One pass of delete_surplus_pages, still to visit the pages of q. */
  ghost function EvictPass(s: State, q: seq<CachePage>, pri: Priority, all: bool): State
    decreases |q|
  {
    if q == [] || s.used <= s.limit then s
    else EvictPass(if Evictable(s, q[0], pri, all) then DeletePage(s, q[0]) else s, q[1..], pri, all)
  }

  /** delete_surplus_pages. */
  ghost function Surplus(s: State): State {
    var t := EvictPass(s, s.prio, Normal, false);
    var u := EvictPass(t, t.prio, Special, false);
    var v := EvictPass(u, u.prio, Normal, true);
    EvictPass(v, v.prio, Special, true)
  }

  /** cache_page_unref. */
  ghost function UnrefPage(s: State, p: CachePage): State
    requires PageOk(s, p)
  {
    var r := s.pages[p];
    if r.refs == 0 then s
    else if r.refs > 1 then s.(pages := s.pages[p := r.(refs := r.refs - 1)])
    else
      var t := ReleasePage(s, p);
      var u := if r.net in t.nets && t.nets[r.net].zombie && !InUse(t.nets[r.net]) then DeleteNetwork(t, r.net) else t;
      if u.used > u.limit then Surplus(u) else u
  }

  // ---- Storing pages ----------------------------------------------------------------

  /** The subpage number under which _vbi_cache_put_page stores a page, and the bits
      of it that tell versions of the page apart. clock says that the page is
      known as a clock page. */
  function StoredSubno(pgno: nat, subno: nat, clock: bool): (nat, nat)
    requires pgno < WORD && subno < WORD
  {
    if !IsBcd(pgno) then (subno, 0x0F)
    else if subno == 0 then (0, 0)
    else if clock || subno >= 0x100 then
      (if BcdDigitsGreater(subno, 0x2959) || subno > 0x2300 then 0 else subno, 0)
    else if BcdDigitsGreater(subno, 0x79) then (0, 0)
    else (subno, 0xFF)
  }

  /** The priority of a page which is about to be stored. */
  function StoredPriority(pgno: nat, subno: nat, f: PageFunction): Priority
    requires pgno < WORD
  {
    if pgno % 0x100 == 0 then Special
    else if pgno / 0x10 == pgno % 0x100 then Special
    else if f == Unknown then Normal
    else if f != Lop then Special
    else if IsBcd(pgno) && 0 < subno <= 0x79 then Special
    else Normal
  }

  datatype Progress = More | Enough | RowFull

  /** The pages to replace so far, and the memory available without them. */
  datatype Scan = Scan(row: seq<CachePage>, available: int, progress: Progress)

  const DEATH_ROW := 20

  predicate Candidate(s: State, p: CachePage, pri: Priority, all: bool, prev: Option<CachePage>) {
    && p in s.pages && s.pages[p].pri == pri && prev != Some(p)
    && (all || (s.pages[p].net in s.nets && s.nets[s.pages[p].net].refs == 0))
  }

  ghost function CandidateIn(s: State, pri: Priority, all: bool, prev: Option<CachePage>): CachePage -> bool {
    (p: CachePage) => Candidate(s, p, pri, all, prev)
  }

  /** One scan for replacement candidates, still to visit the pages of q. The need
      is checked before a page is visited, not after the last one. */
  ghost function ScanPass(s: State, q: seq<CachePage>, f: CachePage -> bool, needed: int, c: Scan): Scan
    decreases |q|
  {
    if q == [] || c.progress != More then c
    else if c.available >= needed then c.(progress := Enough)
    else if !f(q[0]) then ScanPass(s, q[1..], f, needed, c)
    else if |c.row| >= DEATH_ROW then c.(progress := RowFull)
    else ScanPass(s, q[1..], f, needed, c.(row := c.row + [q[0]], available := c.available + Size(s, q[0])))
  }

  /** The priority of the pages which a scan visits: twice normal and special pages,
      the first time only those of networks without references. */
  function PassPriority(k: nat): Priority {
    if k % 2 == 0 then Normal else Special
  }

  /** The search for memory after k scans. At first there is the previous version of the page. */
  ghost function Found(s: State, prev: Option<CachePage>, needed: int, k: nat): Scan {
    if k == 0 then
      var free := s.limit - s.used;
      var a := if prev.Some? then Scan([prev.value], free + Size(s, prev.value), More) else Scan([], free, More);
      if a.available >= needed then a.(progress := Enough) else a
    else
      ScanPass(s, s.prio, CandidateIn(s, PassPriority(k - 1), k >= 3, prev), needed, Found(s, prev, needed, k - 1))
  }

  ghost function FindMemory(s: State, prev: Option<CachePage>, needed: int): Scan {
    Found(s, prev, needed, 4)
  }

  /** The cache without the version of a page which is about to be replaced, if
      that is in use, and otherwise that version. */
  ghost function RetireOld(s: State, n: CacheNetwork, pgno: int, subno: nat, mask: nat): (State, Option<CachePage>) {
    var (t, o) := Lookup(s, n, pgno, subno, mask);
    if o.Some? && o.value in t.pages && t.pages[o.value].refs > 0 then (Zombify(t, o.value), None) else (t, o)
  }

  /** One page of the size needed is replaced in place. */
  predicate Reuses(c: Scan, needed: int) {
    c.available == needed && |c.row| == 1
  }

  /** The cache with the pages on death row replaced by page p. */
  ghost function Replace(s: State, c: Scan, needed: nat, p: CachePage, r: PageRec): State
    requires r.net in s.nets && 0x100 <= r.pgno <= 0x8FF
  {
    var t := if Reuses(c, needed) then if PageOk(s, c.row[0]) then Drop(s, c.row[0], needed) else s
             else DeletePages(s, c.row);
    if r.net in t.nets && |t.nets[r.net].stat| == 0x800 then InsertPage(t, p, r) else t
  }

  /** The page which _vbi_cache_put_page stores. */
  function Stored(n: CacheNetwork, pgno: nat, subno: nat, content: Content, clock: bool): PageRec
    requires pgno < WORD && subno < WORD
  {
    var sub := StoredSubno(pgno, subno, clock).0;
    PageRec(n, 1, StoredPriority(pgno, sub, content.func), content, pgno, sub)
  }

  /** The cache when _vbi_cache_put_page begins to search for memory, and the
      version of the page which will be replaced. */
  ghost function PutStart(s: State, n: CacheNetwork, pgno: nat, subno: nat, clock: bool): (State, Option<CachePage>)
    requires pgno < WORD && subno < WORD
  {
    var (sub, mask) := StoredSubno(pgno, subno, clock);
    RetireOld(s, n, pgno, And(sub, mask), mask)
  }

  /** _vbi_cache_put_page. memory is what malloc returns, if it is called. */
  ghost function PutPage(s: State, n: CacheNetwork, pgno: nat, subno: nat, content: Content, clock: bool,
                         memory: Option<CachePage>): (State, Option<CachePage>)
    requires n in s.nets && 0x100 <= pgno <= 0x8FF && subno < WORD
  {
    if pgno % 0x100 == 0xFF then (s, None) else
    var (t, prev) := PutStart(s, n, pgno, subno, clock);
    var needed := PageSize(s.sizes, content);
    var c := FindMemory(t, prev, needed);
    var p := if c.progress != Enough then None else if Reuses(c, needed) then Some(c.row[0]) else memory;
    if p.None? then (t, None) else (Replace(t, c, needed, p.value, Stored(n, pgno, subno, content, clock)), p)
  }
}
