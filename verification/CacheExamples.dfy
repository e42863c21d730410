/** Caches in which storing a page goes wrong. */
module CacheExamples {
  import opened Bits
  import opened CacheObjects
  import opened CacheProofs
  import opened CachePut
  import opened CacheSearch
  import opened CacheState
  import opened Common
  import opened Seqs

  // Ordinary pages have size one, those with an extension three.
  const SIZES := Sizes(0, 1, 1, 3, 1, 1, 1, 3)
  const SMALL := Content(Lop, false, false)
  const LARGE := Content(Lop, false, true)

  /** The statistics of a network with c versions of page 100. */
  function Versions(c: nat): seq<PageStat> {
    seq(0x800, i => if i == 0 then PageStat(c % 256, c % 256, 0, 0) else PageStat(0, 0, 0, 0))
  }

  function PagesOn(m: CacheNetwork, n: CacheNetwork, ps: seq<CachePage>, qs: seq<CachePage>, pri: Priority): Pages {
    map p | p in ps + qs :: PageRec(if p in ps then m else n, 0, pri, SMALL, 0x100, 0)
  }

  /** A cache with small pages ps of network m, which nobody uses, and qs of network n, which has a
      reference. No page has one. */
  function Sample(m: CacheNetwork, n: CacheNetwork, ps: seq<CachePage>, qs: seq<CachePage>, pri: Priority,
      limit: int): State {
    State(SIZES, PagesOn(m, n, ps, qs, pri),
          map[m := NetRec(0, false, |ps|, |ps|, 0, Versions(|ps|)), n :=
            NetRec(1, false, |qs|, |qs|, 0, Versions(|qs|))],
          ps + qs, ps + qs, [], [m, n], |ps + qs|, limit, |ps + qs|, 2, 2)
  }

  lemma {:induction false} SumOnes(q: seq<CachePage>, w: CachePage -> int)
    requires forall p :: p in q ==> w(p) == 1
    ensures Sum(q, w) == |q|
  {
    if q != [] { SumOnes(q[1..], w); }
  }

  lemma TwoParts(ps: seq<CachePage>, qs: seq<CachePage>)
    requires Distinct(ps + qs)
    ensures Distinct(ps) && Distinct(qs) && forall p :: p in qs ==> p !in ps
  {
    assert forall i :: 0 <= i < |ps| ==> ps[i] == (ps + qs)[i];
    assert forall i :: 0 <= i < |qs| ==> qs[i] == (ps + qs)[|ps| + i];
  }

  lemma SampleCounts(m: CacheNetwork, n: CacheNetwork, ps: seq<CachePage>, qs: seq<CachePage>, pri: Priority,
      k: CacheNetwork, g: int)
    requires Distinct(ps + qs) && m != n && (k == m || k == n)
    ensures var pages, own := PagesOn(m, n, ps, qs, pri), if k == m then ps else qs;
      && Count(pages, OfNetwork(k)) == |own| && Count(pages, ReferencedOf(k)) == 0
      && Count(pages, SubpageOf(k, g)) == if g == 0x100 then |own| else 0
  {
    hide Distinct;
    var pages, own := PagesOn(m, n, ps, qs, pri), if k == m then ps else qs;
    TwoParts(ps, qs);
    DistinctCount(own, Matching(pages, OfNetwork(k)));
    assert Matching(pages, ReferencedOf(k)) == {};
    assert Matching(pages, SubpageOf(k, g)) == if g == 0x100 then Matching(pages, OfNetwork(k)) else {};
  }

  lemma SampleNetwork(m: CacheNetwork, n: CacheNetwork, ps: seq<CachePage>, qs: seq<CachePage>, pri: Priority,
      k: CacheNetwork)
    requires Distinct(ps + qs) && m != n && (k == m || k == n)
    ensures NetCounters(PagesOn(m, n, ps, qs, pri), k, Sample(m, n, ps, qs, pri, 0).nets[k])
  {
    hide Count, Distinct, PagesOn;
    var pages, c := PagesOn(m, n, ps, qs, pri), if k == m then |ps| else |qs|;
    forall g | 0x100 <= g <= 0x8FF
      ensures Versions(c)[g - 0x100].nSubpages == Count(pages, SubpageOf(k, g)) % 256
    {
      SampleCounts(m, n, ps, qs, pri, k, g);
    }
    SampleCounts(m, n, ps, qs, pri, k, 0x100);
  }

  lemma SampleLists(m: CacheNetwork, n: CacheNetwork, ps: seq<CachePage>, qs: seq<CachePage>, pri: Priority, limit: int)
    requires Distinct(ps + qs) && m != n && pri != Zombie
    ensures Lists(Sample(m, n, ps, qs, pri, limit))
  {
    assert Distinct([m, n]) && Distinct<CachePage>([]);
  }

  lemma SampleTotals(m: CacheNetwork, n: CacheNetwork, ps: seq<CachePage>, qs: seq<CachePage>, pri: Priority,
      limit: int)
    requires Distinct(ps + qs) && m != n
    ensures var s := Sample(m, n, ps, qs, pri, limit);
      && s.used == Sum(s.prio, Weight(s)) && s.nPages == |s.pages| && s.nNets == |LiveNetworks(s.nets)|
  {
    hide Sum, Distinct, Versions;
    var s := Sample(m, n, ps, qs, pri, limit);
    SumOnes(s.prio, Weight(s));
    assert LiveNetworks(s.nets) == {m, n};
    var keys := s.pages.Keys;
    assert forall p :: p in keys <==> p in ps + qs;
    DistinctCount(ps + qs, keys);
    assert |s.pages| == |keys|;
  }

  /** All lists and counters of such a cache are right. */
  lemma SampleKeeps(m: CacheNetwork, n: CacheNetwork, ps: seq<CachePage>, qs: seq<CachePage>, pri: Priority, limit: int)
    requires Distinct(ps + qs) && m != n && pri != Zombie && |ps + qs| <= limit
    ensures Inv(Sample(m, n, ps, qs, pri, limit))
  {
    hide Count, Lists, NetCounters, Versions, Sum, Distinct, PagesOn, LiveNetworks;
    SampleLists(m, n, ps, qs, pri, limit);
    SampleNetwork(m, n, ps, qs, pri, m);
    SampleNetwork(m, n, ps, qs, pri, n);
    SampleTotals(m, n, ps, qs, pri, limit);
  }

  /** No version of page 101 is in the cache. */
  lemma NoVersion(m: CacheNetwork, n: CacheNetwork, ps: seq<CachePage>, qs: seq<CachePage>, pri: Priority, limit: int)
    ensures var s := Sample(m, n, ps, qs, pri, limit); PutStart(s, m, 0x101, 0, false) == (s, None)
  {
    var s := Sample(m, n, ps, qs, pri, limit);
    hide And;
    var (sub, mask) := StoredSubno(0x101, 0, false);
    NoMatch(s, s.mru, m, And(sub, mask), mask);
  }

  lemma {:induction false} NoMatch(s: State, q: seq<CachePage>, n: CacheNetwork, subno: nat, mask: nat)
    requires forall p :: p in q && p in s.pages ==> s.pages[p].pgno != 0x101
    ensures FirstMatch(s, q, n, 0x101, subno, mask) == |q|
  {
    hide And;
    if q != [] { NoMatch(s, q[1..], n, subno, mask); }
  }

  lemma SampleOf(m: CacheNetwork, n: CacheNetwork, ps: seq<CachePage>, qs: seq<CachePage>, pri: Priority, limit: int,
      p: CachePage)
    requires m != n && Distinct(ps + qs) && p in ps + qs && (pri == Normal || pri == Special)
    ensures var s := Sample(m, n, ps, qs, pri, limit);
      && Size(s, p) == 1
      && (PassCandidates(s, None, 0)(p) <==> pri == Normal && p in ps)
      && (PassCandidates(s, None, 1)(p) <==> pri == Special && p in ps)
      && (PassCandidates(s, None, 2)(p) <==> pri == Normal) && (PassCandidates(s, None, 3)(p) <==> pri == Special)
  {
    var s := Sample(m, n, ps, qs, pri, limit);
    forall k | 0 <= k < 4
      ensures PassCandidates(s, None, k)(p) == Candidate(s, p, PassPriority(k), k >= 2, None)
    {}
    assert p in s.pages && s.pages[p] == PageRec(if p in ps then m else n, 0, pri, SMALL, 0x100, 0);
    assert PassPriority(0) == PassPriority(2) == Normal && PassPriority(1) == PassPriority(3) == Special;
  }

  lemma SearchStart(m: CacheNetwork, n: CacheNetwork, ps: seq<CachePage>, qs: seq<CachePage>, pri: Priority,
      limit: int, needed: int)
    requires limit - |ps + qs| < needed
    ensures Found(Sample(m, n, ps, qs, pri, limit), None, needed, 0) == Scan([], limit - |ps + qs|, More)
  {}

  /** The four scans of three small pages for the memory of a large one. */
  lemma SearchTwice(s: State, p: CachePage, q: CachePage, r: CachePage)
    requires s.prio == [p, q, r] && Found(s, None, 3, 0) == Scan([], 0, More)
      && Size(s, p) == Size(s, q) == Size(s, r) == 1
    requires forall x :: x in s.prio ==> PassCandidates(s, None, 2)(x) && !PassCandidates(s, None, 1)(x)
    requires PassCandidates(s, None, 0)(p) && !PassCandidates(s, None, 0)(q) && !PassCandidates(s, None, 0)(r)
    ensures FindMemory(s, None, 3) == Scan([p, p, q], 3, Enough)
  {
    hide CandidateIn, PassCandidates, ScanPass, Found, Size, Total, Gain;
    assert p in s.prio && q in s.prio && r in s.prio;
    assert [] + [p] == [p] && [p] + [p] == [p, p] && [p, p] + [q] == [p, p, q];
    ScanThree(s, p, q, r, PassCandidates(s, None, 0), 3, Scan([], 0, More));
    ScanThree(s, p, q, r, PassCandidates(s, None, 1), 3, Scan([p], 1, More));
    ScanThree(s, p, q, r, PassCandidates(s, None, 2), 3, Scan([p], 1, More));
    ScanNothing(s, s.prio, PassCandidates(s, None, 3), 3, Scan([p, p, q], 3, Enough));
    FourScans(s, 3);
  }

  /** The small page p of an unused network and the small pages q and r of a used one fill the
      cache. A large page is to be stored: death row has p twice, q is to go as well. */
  lemma PicksTwice(m: CacheNetwork, n: CacheNetwork, p: CachePage, q: CachePage, r: CachePage)
    requires m != n && p != q && p != r && q != r
    ensures var s, needed := Sample(m, n, [p], [q, r], Normal, 3), PageSize(SIZES, LARGE);
      && Inv(s) && PutStart(s, m, 0x101, 0, false) == (s, None) && !PicksOnce(s, None, needed)
      && FindMemory(s, None, needed) == Scan([p, p, q], needed, Enough)
  {
    hide Inv, PutStart, PicksOnce, PassCandidates, FindMemory, Found, Sample, Size, Distinct;
    var s := Sample(m, n, [p], [q, r], Normal, 3);
    ThreePages(m, n, p, q, r);
    SampleKeeps(m, n, [p], [q, r], Normal, 3);
    NoVersion(m, n, [p], [q, r], Normal, 3);
    SearchTwice(s, p, q, r);
    assert !Distinct([p, p, q]) by { Repeated([p, p, q]); }
    InvIs(s);
    RowDistinctIff(s, None, 3);
  }

  lemma Repeated(q: seq<CachePage>)
    requires |q| >= 2 && q[0] == q[1]
    ensures !Distinct(q)
  {}

  lemma ThreePages(m: CacheNetwork, n: CacheNetwork, p: CachePage, q: CachePage, r: CachePage)
    requires m != n && p != q && p != r && q != r
    ensures Distinct([p] + [q, r])
    ensures var s := Sample(m, n, [p], [q, r], Normal, 3);
      && s.prio == [p, q, r] && Found(s, None, 3, 0) == Scan([], 0, More) && Size(s, p) == Size(s, q) == Size(s, r) == 1
      && (forall x :: x in s.prio ==> PassCandidates(s, None, 2)(x) && !PassCandidates(s, None, 1)(x))
      && PassCandidates(s, None, 0)(p) && !PassCandidates(s, None, 0)(q) && !PassCandidates(s, None, 0)(r)
  {
    hide PassCandidates, Found, Sample, Size;
    assert [p] + [q, r] == [p, q, r];
    SamplePrio(m, n, [p], [q, r], Normal, 3);
    SearchStart(m, n, [p], [q, r], Normal, 3, 3);
    SampleOf(m, n, [p], [q, r], Normal, 3, p);
    SampleOf(m, n, [p], [q, r], Normal, 3, q);
    SampleOf(m, n, [p], [q, r], Normal, 3, r);
  }

  lemma InvIs(s: State)
    requires Inv(s)
    ensures Consistent(s)
  {}

  lemma SamplePrio(m: CacheNetwork, n: CacheNetwork, ps: seq<CachePage>, qs: seq<CachePage>, pri: Priority, limit: int)
    ensures var s := Sample(m, n, ps, qs, pri, limit);
      s.prio == ps + qs && s.used == |ps + qs| && s.limit == limit && s.sizes == SIZES
  {}

  /** A scan of three small pages. */
  lemma ScanThree(s: State, p: CachePage, q: CachePage, r: CachePage, f: CachePage -> bool, needed: int, c: Scan)
    requires c.progress == More && c.available < needed && |c.row| < 10
    requires Size(s, p) == Size(s, q) == Size(s, r) == 1
    ensures var d := if f(p) then Scan(c.row + [p], c.available + 1, More) else c;
      var e := if d.available >= needed then d.(progress := Enough)
        else if f(q) then Scan(d.row + [q], d.available + 1, More) else d;
      ScanPass(s, [p, q, r], f, needed, c)
        == if e.progress == Enough then e
           else if e.available >= needed then e.(progress := Enough)
           else if f(r) then Scan(e.row + [r], e.available + 1, More)
           else e
  {
    hide ScanPass, Size;
    assert [p, q, r][1..] == [q, r] && [q, r][1..] == [r] && [r][1..] == [];
    var d := if f(p) then Scan(c.row + [p], c.available + 1, More) else c;
    ScanStep(s, [p, q, r], f, needed, c);
    ScanStep(s, [q, r], f, needed, d);
    if d.available < needed {
      var e := if f(q) then Scan(d.row + [q], d.available + 1, More) else d;
      ScanStep(s, [r], f, needed, e);
      ScanEnd(s, [], f, needed, e);
      ScanEnd(s, [], f, needed, Scan(e.row + [r], e.available + 1, More));
    }
  }

  /** The small page p leaves room for two more in the cache. A large page is just large enough to be
      stored in its place: then less than nothing is in use. */
  lemma ReuseLosesCount(m: CacheNetwork, n: CacheNetwork, p: CachePage)
    requires m != n
    ensures var s := Sample(m, n, [p], [], Normal, 3);
      var (u, r) := PutPage(s, m, 0x101, 0, LARGE, false, None);
      Inv(s) && s.used == 1 && r == Some(p) && u.used == -2 && !Inv(u)
  {
    hide Inv, PutStart, CandidateIn, ScanPass, Found, Sample, Size, Replace, Stored;
    var s := Sample(m, n, [p], [], Normal, 3);
    assert [p] + [] == [p] && s.prio == [p] && s.used == 1 && s.limit == 3 && s.sizes == SIZES by {
      SamplePrio(m, n, [p], [], Normal, 3);
    }
    SampleKeeps(m, n, [p], [], Normal, 3);
    NoVersion(m, n, [p], [], Normal, 3);
    SearchStart(m, n, [p], [], Normal, 3, 3);
    SampleOf(m, n, [p], [], Normal, 3, p);
    ScanOne(s, p, PassCandidates(s, None, 0), 3, Scan([], 2, More));
    ScanStep(s, [p], PassCandidates(s, None, 1), 3, Scan([p], 3, More));
    ScanNothing(s, [p], PassCandidates(s, None, 2), 3, Scan([p], 3, Enough));
    ScanNothing(s, [p], PassCandidates(s, None, 3), 3, Scan([p], 3, Enough));
    FourScans(s, 3);
    assert FindMemory(s, None, 3) == Scan([p], 3, Enough);
    assert m in s.nets by { SampleNets(m, n, [p], [], Normal, 3); }
    StoredPlace(m, 0x101, 0, LARGE, false);
    ReuseDrops(s, p, 3, Stored(m, 0x101, 0, LARGE, false));
  }

  lemma SampleNets(m: CacheNetwork, n: CacheNetwork, ps: seq<CachePage>, qs: seq<CachePage>, pri: Priority, limit: int)
    ensures m in Sample(m, n, ps, qs, pri, limit).nets
  {}

  /** A page which is reused takes more memory away than was in use. */
  lemma ReuseDrops(s: State, p: CachePage, needed: nat, r: PageRec)
    requires Inv(s) && p in s.prio && r.net in s.nets && 0x100 <= r.pgno <= 0x8FF && s.used < needed
    ensures var u := Replace(s, Scan([p], needed, Enough), needed, p, r); u.used == s.used - needed && !Inv(u)
  {
    hide Drop, InsertPage, PageOk, Lists;
    InvIs(s);
    DropOther(s, p, needed);
    DeletePageKeeps(s, p);
    NetworkStat(DeletePage(s, p), r.net) by { SameKeys(s, DeletePage(s, p)); }
    var t := Drop(s, p, needed);
    assert t == Drop(s, p, Size(s, p)).(used := s.used - needed);
    InsertNets(t, p, r);
    var u := Replace(s, Scan([p], needed, Enough), needed, p, r);
    SumNonNegative(u.prio, Weight(u));
  }

  /** The one page of a full cache, which belongs to a network in use, is as large as the page to be
      stored. The search comes to it last, and storing the page fails. */
  lemma PutMissesTheLastPage(m: CacheNetwork, n: CacheNetwork, p: CachePage, memory: Option<CachePage>)
    requires m != n
    ensures var s := Sample(m, n, [], [p], Special, 1);
      Inv(s) && Total(s, None, 4) == PageSize(SIZES, SMALL)
        && PutPage(s, m, 0x101, 0, SMALL, false, memory) == (s, None)
  {
    hide Inv, PutStart, CandidateIn, ScanPass, Found, Sample, Size, Total;
    var s := Sample(m, n, [], [p], Special, 1);
    assert [] + [p] == [p] && s.prio == [p] && s.used == 1 && s.limit == 1 && s.sizes == SIZES by {
      SamplePrio(m, n, [], [p], Special, 1);
    }
    SampleKeeps(m, n, [], [p], Special, 1);
    NoVersion(m, n, [], [p], Special, 1);
    SampleOf(m, n, [], [p], Special, 1, p);
    assert m in s.nets by { SampleNets(m, n, [], [p], Special, 1); }
    OneCandidate(s, p, 1);
  }
}
