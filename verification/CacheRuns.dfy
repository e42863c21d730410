/** Whole runs of the cache, with any number of operations in any order. */
module CacheRuns {
  import opened Bits
  import opened CacheForeach
  import opened CacheObjects
  import opened CacheOperations
  import opened CacheOrder
  import opened CacheProofs
  import opened CachePut
  import opened CacheSearch
  import opened CacheState
  import opened Common

  datatype Operation =
    | Get(n: CacheNetwork, pgno: int, subno: nat, mask: nat)
    | Ref(p: CachePage)
    | Unref(p: CachePage)
    | Put(n: CacheNetwork, number: nat, subno: nat, content: Content, clock: bool, memory: Option<CachePage>)
    | AskNetwork(n: CacheNetwork)
    | AddNetwork(known: Option<CacheNetwork>, space: Option<CacheNetwork>)
    | RefNet(n: CacheNetwork)
    | UnrefNet(n: CacheNetwork)
    | PurgeCache

  /** The network which _vbi_cache_add_network picks. */
  ghost function Added(s: State, known: Option<CacheNetwork>, space: Option<CacheNetwork>): (Option<CacheNetwork>,
      State) {
    var recycled := if s.nNets < s.netLimit then None else LastUnused(s, s.netList);
    if known.Some? && known.value in s.nets then (known, RefNetwork(Fronted(s, known.value), known.value))
    else if recycled.Some? then (recycled, Recycle(s, recycled.value))
    else if space.Some? then (space, NewNetwork(s, space.value))
    else (None, s)
  }

  /** A page which is just large enough is reused in place only when the cache is full. */
  ghost predicate KeepsCount(s: State, n: CacheNetwork, pgno: nat, subno: nat, content: Content, clock: bool)
    requires pgno < WORD && subno < WORD
  {
    var (t, prev) := PutStart(s, n, pgno, subno, clock);
    var needed := PageSize(s.sizes, content);
    pgno % 0x100 != 0xFF && Suffices(t, prev, needed) && JustEnough(t, prev, needed) ==> s.used == s.limit
  }

  /** What the cache demands of its callers: pages and networks are its own, what malloc returns is
      not yet. A page can be stored when the memory suffices before the search comes to a page the
      second time, and, should the first page to be given up be just large enough, when the cache
      is full. */
  ghost predicate Allowed(s: State, op: Operation) {
    match op
    case Get(n, pgno, subno, mask) => n in s.nets
    case Ref(p) => p in s.pages
    case Unref(p) => p in s.pages
    case Put(n, pgno, subno, content, clock, memory) =>
      && n in s.nets && 0x100 <= pgno <= 0x8FF && subno < WORD && (memory.Some? ==> memory.value !in s.pages)
      && Storable(s, n, pgno, subno, content, clock) && KeepsCount(s, n, pgno, subno, content, clock)
    case AskNetwork(n) => n in s.nets
    case AddNetwork(known, space) => space.Some? ==> space.value !in s.nets
    case RefNet(n) => n in s.nets
    case UnrefNet(n) => n in s.nets
    case PurgeCache => true
  }

  ghost function Apply(s: State, op: Operation): State
    requires Allowed(s, op)
  {
    match op
    case Get(n, pgno, subno, mask) => GetPage(s, n, pgno, subno, mask).0
    case Ref(p) => if PageOk(s, p) then RefPage(s, p) else s
    case Unref(p) => if PageOk(s, p) then UnrefPage(s, p) else s
    case Put(n, pgno, subno, content, clock, memory) => PutPage(s, n, pgno, subno, content, clock, memory).0
    case AskNetwork(n) => GetNetwork(s, n)
    case AddNetwork(known, space) => Added(s, known, space).1
    case RefNet(n) => RefNetwork(s, n)
    case UnrefNet(n) => UnrefNetwork(s, n)
    case PurgeCache => Purge(s, s.netList)
  }

  lemma StoreKeeps(s: State, n: CacheNetwork, pgno: nat, subno: nat, content: Content, clock: bool,
      memory: Option<CachePage>)
    requires Inv(s) && Allowed(s, Put(n, pgno, subno, content, clock, memory))
    ensures Inv(PutPage(s, n, pgno, subno, content, clock, memory).0)
  {
    hide Inv, PutStart, Found, PageSize, Storable, JustEnough, Suffices, Replace, Stored, Reuses;
    PutKeeps(s, n, pgno, subno, content, clock, memory);
    if pgno % 0x100 != 0xFF { StoredSuffices(s, n, pgno, subno, content, clock, memory); }
  }

  /** A page is stored only when the memory suffices. */
  lemma StoredSuffices(s: State, n: CacheNetwork, pgno: nat, subno: nat, content: Content, clock: bool,
      memory: Option<CachePage>)
    requires n in s.nets && 0x100 <= pgno <= 0x8FF && subno < WORD
    ensures var (t, prev) := PutStart(s, n, pgno, subno, clock);
      PutPage(s, n, pgno, subno, content, clock, memory).1.Some? ==> Suffices(t, prev, PageSize(s.sizes, content))
  {
    hide PutStart, Found, PageSize, Replace, Stored, Reuses, Total, BeforeLast;
    var (t, prev) := PutStart(s, n, pgno, subno, clock);
    var needed := PageSize(s.sizes, content);
    if FindMemory(t, prev, needed).progress == Enough { FoundEnough(t, prev, needed, 4); }
  }

  /** Every operation keeps all lists, counters and limits. */
  lemma ApplyKeeps(s: State, op: Operation)
    requires Inv(s) && Allowed(s, op)
    ensures Inv(Apply(s, op))
  {
    hide Inv, GetPage, RefPage, UnrefPage, PutPage, GetNetwork, RefNetwork, UnrefNetwork, Purge, PageOk, LastUnused,
      Recycle, NewNetwork, Fronted, PageSize, Storable, KeepsCount;
    match op
    case Get(n, pgno, subno, mask) => GetPageKeeps(s, n, pgno, subno, mask);
    case Ref(p) => RefPageKeeps(s, p);
    case Unref(p) => UnrefPageKeeps(s, p);
    case Put(n, pgno, subno, content, clock, memory) => StoreKeeps(s, n, pgno, subno, content, clock, memory);
    case AskNetwork(n) => GetNetworkKeeps(s, n);
    case AddNetwork(known, space) =>
      AddNetworkKeeps(s, known, space.Some?, Added(s, known, space).0, Added(s, known, space).1);
    case RefNet(n) => GetNetworkKeeps(s, n);
    case UnrefNet(n) => UnrefNetworkKeeps(s, n);
    case PurgeCache =>
      InvParts(s);
      Listed(s);
      PurgeKeeps(s, s.netList);
  }

  /** The cache after a whole run. */
  ghost function Run(s: State, ops: seq<Operation>): State
    requires AllAllowed(s, ops)
    decreases |ops|
  {
    if ops == [] then s else Run(Apply(s, ops[0]), ops[1..])
  }

  ghost predicate AllAllowed(s: State, ops: seq<Operation>)
    decreases |ops|
  {
    ops != [] ==> Allowed(s, ops[0]) && AllAllowed(Apply(s, ops[0]), ops[1..])
  }

  /** In every run the cache stays consistent and within its memory limit, and what
      is marked for deletion is still in use. */
  lemma {:induction false} RunKeeps(s: State, ops: seq<Operation>)
    requires Inv(s) && AllAllowed(s, ops)
    ensures Inv(Run(s, ops))
    decreases |ops|
  {
    hide Inv, Apply, Allowed;
    if ops != [] {
      ApplyKeeps(s, ops[0]);
      RunKeeps(Apply(s, ops[0]), ops[1..]);
    }
  }

  /** No clock page is stored. */
  predicate NoClock(op: Operation) {
    op.Put? ==> op.subno < 0x100
  }

  lemma ApplyOrder(s: State, op: Operation)
    requires Allowed(s, op) && NoClock(op)
    ensures OrderStays(s, Apply(s, op))
  {
    hide RefPage, UnrefPage, PutPage, UnrefNetwork, Purge, LastUnused, Recycle, NewNetwork, PageOk, Storable,
      KeepsCount, Lookup, Ordered, AllOrdered;
    match op
    case Get(n, pgno, subno, mask) =>
      var m := if subno == ANY_SUBNO then 0 else mask;
      LookupStays(s, n, pgno, subno, m);
      var (t, o) := Lookup(s, n, pgno, subno, m);
      if o.Some? && PageOk(t, o.value) { RefStays(t, o.value); }
    case Ref(p) => if PageOk(s, p) { RefStays(s, p); }
    case Unref(p) => if PageOk(s, p) { UnrefPageStays(s, p); }
    case Put(n, pgno, subno, content, clock, memory) => PutStays(s, n, pgno, subno, content, clock, memory);
    case AskNetwork(n) => MarkStays(s, GetNetwork(s, n), n, GetNetwork(s, n).nets[n]);
    case AddNetwork(known, space) =>
      var recycled := if s.nNets < s.netLimit then None else LastUnused(s, s.netList);
      if known.Some? && known.value in s.nets {
        MarkStays(s, Apply(s, op), known.value, Apply(s, op).nets[known.value]);
      } else if recycled.Some? {
        RecycleStays(s, recycled.value);
      } else if space.Some? {
        NewNetworkStays(s, space.value);
      }
    case RefNet(n) => MarkStays(s, RefNetwork(s, n), n, RefNetwork(s, n).nets[n]);
    case UnrefNet(n) => UnrefNetworkStays(s, n);
    case PurgeCache => PurgeStays(s, s.netList);
  }

  lemma ApplySizes(s: State, op: Operation)
    requires Allowed(s, op)
    ensures Apply(s, op).sizes == s.sizes
  {
    hide Storable, KeepsCount, AllOrdered, RefPage, UnrefPage, PutPage, UnrefNetwork, Purge, LastUnused, Recycle,
      Lookup, PageOk;
    match op
    case Put(n, pgno, subno, content, clock, memory) => PutSizes(s, n, pgno, subno, content, clock, memory);
    case _ => ApplyOrder(s, op);
  }

  /** The assertion on the length of death row holds. */
  ghost predicate Fits(s: State, op: Operation)
    requires Allowed(s, op)
  {
    op.Put? ==>
      var (t, prev) := PutStart(s, op.n, op.number, op.subno, op.clock);
      FindMemory(t, prev, PageSize(s.sizes, op.content)).progress != RowFull
  }

  ghost predicate AllFit(s: State, ops: seq<Operation>)
    requires AllAllowed(s, ops)
    decreases |ops|
  {
    ops != [] ==> Fits(s, ops[0]) && AllFit(Apply(s, ops[0]), ops[1..])
  }

  /** In no run does the assertion fail, if no page is more than twenty times as large as another. */
  lemma {:induction false} RunFits(s: State, ops: seq<Operation>)
    requires Inv(s) && SizesNear(s.sizes) && AllAllowed(s, ops)
    ensures AllFit(s, ops)
    decreases |ops|
  {
    hide Inv, Apply, SizesNear, Allowed;
    if ops != [] {
      PutFits(s, ops[0]);
      ApplyKeeps(s, ops[0]);
      ApplySizes(s, ops[0]);
      RunFits(Apply(s, ops[0]), ops[1..]);
    }
  }

  lemma PutFits(s: State, op: Operation)
    requires Inv(s) && SizesNear(s.sizes) && Allowed(s, op)
    ensures Fits(s, op)
  {
    hide Inv, SizesNear, PutStart, FindMemory, PageSize, Storable, KeepsCount;
    if op.Put? {
      PutStartKeeps(s, op.n, op.number, op.subno, op.clock);
      var (t, prev) := PutStart(s, op.n, op.number, op.subno, op.clock);
      InvParts(t);
      PrioKnown(t);
      RowFits(t, prev, op.content);
    }
  }

  lemma PrioKnown(s: State)
    requires Consistent(s)
    ensures forall p :: p in s.prio ==> p in s.pages
  {}

  lemma {:induction false} RunOrder(s: State, ops: seq<Operation>)
    requires AllAllowed(s, ops) && forall i :: 0 <= i < |ops| ==> NoClock(ops[i])
    ensures OrderStays(s, Run(s, ops))
    decreases |ops|
  {
    hide Apply, Allowed, AllOrdered;
    if ops != [] {
      ApplyOrder(s, ops[0]);
      RunOrder(Apply(s, ops[0]), ops[1..]);
      Stays(s, Apply(s, ops[0]), Run(s, ops));
    }
  }

  /** After every run from such a cache, for every network with cached pages and less than 256
      versions of each, the loop which steps from page to page ends. */
  lemma RunReachable(s: State, ops: seq<Operation>, n: CacheNetwork)
    requires Inv(s) && AllOrdered(s) && AllAllowed(s, ops) && forall i :: 0 <= i < |ops| ==> NoClock(ops[i])
    ensures var t := Run(s, ops);
      n in t.nets && t.nets[n].nCached > 0
        && (forall g :: 0x100 <= g <= 0x8FF ==> Count(t.pages, SubpageOf(n, g)) < 0x100) ==>
        |t.nets[n].stat| == 0x800 && exists i :: 0 <= i < 0x800 && Reachable(t.nets[n].stat[i])
  {
    hide Inv, Run, Ordered, Reachable;
    RunKeeps(s, ops);
    RunOrder(s, ops);
    var t := Run(s, ops);
    InvParts(t);
    if n in t.nets && t.nets[n].nCached > 0
      && forall g :: 0x100 <= g <= 0x8FF ==> Count(t.pages, SubpageOf(n, g)) < 0x100 {
      NetworkStat(t, n);
      CachedPagesReachable(t, n);
    }
  }
}
