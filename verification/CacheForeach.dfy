/** How _vbi_cache_foreach_page finds the next page. */
module CacheForeach {
  import opened CacheObjects
  import opened CacheState

  predicate IsStat(stat: seq<PageStat>) {
    |stat| == 0x800
  }

  /** The page k places after page pgno, or before it, going round. */
  function Around(pgno: int, backward: bool, k: nat): (g: int)
    ensures 0x100 <= g <= 0x8FF
  {
    0x100 + (if backward then pgno - 0x100 - k else pgno - 0x100 + k) % 0x800
  }

  lemma AroundStep(pgno: int, backward: bool, k: nat)
    requires 0x100 <= pgno <= 0x8FF && k < 0x800
    ensures var g := Around(pgno, backward, k);
      && Around(pgno, backward, 0) == pgno
      && Around(pgno, backward, k + 1) ==
        (if backward then if g == 0x100 then 0x8FF else g - 1 else if g == 0x8FF then 0x100 else g + 1)
    ensures var g := Around(pgno, backward, k);
      var wrapped := if backward then pgno - k < 0x100 else pgno + k > 0x8FF;
      var next := if backward then pgno - k - 1 < 0x100 else pgno + k + 1 > 0x8FF;
      next == (wrapped || g == if backward then 0x100 else 0x8FF)
  {}

  /** Subpage subno is in the range of subpages of a page. */
  predicate Present(t: PageStat, subno: int) {
    t.nSubpages != 0 && t.subnoMin <= subno <= t.subnoMax
  }

  /** The range of subpages of a page has a first and a last number. */
  predicate Reachable(t: PageStat) {
    t.nSubpages != 0 && t.subnoMin <= t.subnoMax
  }

  /** Where the search enters a page. */
  function Entry(t: PageStat, backward: bool): int {
    if backward then t.subnoMax else t.subnoMin
  }

  /** The next subpage, found after k steps to other pages, all of them without subpages. */
  predicate IsNext(stat: seq<PageStat>, pgno: int, subno: int, backward: bool, k: nat, g: int, sub: int, wrapped: bool)
    requires IsStat(stat) && 0x100 <= pgno <= 0x8FF
  {
    && g == Around(pgno, backward, k) && Present(stat[g - 0x100], sub)
    && (k == 0 ==> sub == subno)
    && (k > 0 ==> !Present(stat[pgno - 0x100], subno) && sub == Entry(stat[g - 0x100], backward))
    && (forall j: nat :: 0 < j < k ==> !Reachable(stat[Around(pgno, backward, j) - 0x100]))
    && (wrapped <==> if backward then pgno - k < 0x100 else pgno + k > 0x8FF)
  }

  /** The loop which steps from page to page until it finds one with subpages: it needs
      at most one revolution, in both directions. */
  method FindNext(stat: seq<PageStat>, pgno: int, subno: int, backward: bool) returns (g: int, sub: int, wrapped: bool)
    requires IsStat(stat) && 0x100 <= pgno <= 0x8FF
    requires Present(stat[pgno - 0x100], subno) || exists i :: 0 <= i < 0x800 && Reachable(stat[i])
    ensures exists k: nat :: k <= 0x800 && IsNext(stat, pgno, subno, backward, k, g, sub, wrapped)
  {
    hide Around;
    g, sub, wrapped := pgno, subno, false;
    ghost var k: nat := 0;
    AroundStep(pgno, backward, 0);
    ghost var end := 0;
    if !Present(stat[pgno - 0x100], subno) {
      end := Revolution(stat, pgno, backward);
    }
    while stat[g - 0x100].nSubpages == 0 || sub < stat[g - 0x100].subnoMin || sub > stat[g - 0x100].subnoMax
      invariant k <= end <= 0x800 && g == Around(pgno, backward, k)
      invariant (k == 0 ==> sub == subno) && (k > 0 ==> end > 0 && sub == Entry(stat[g - 0x100], backward))
      invariant end > 0 ==> Reachable(stat[Around(pgno, backward, end) - 0x100])
      invariant end == 0 <==> Present(stat[pgno - 0x100], subno)
      invariant forall j: nat :: 0 < j < k ==> !Reachable(stat[Around(pgno, backward, j) - 0x100])
      invariant wrapped <==> if backward then pgno - k < 0x100 else pgno + k > 0x8FF
      decreases end - k
    {
      assert k > 0 ==> !Reachable(stat[g - 0x100]);
      AroundStep(pgno, backward, k);
      if backward {
        g := g - 1;
        if g < 0x100 {
          g, wrapped := 0x8FF, true;
        }
        sub := stat[g - 0x100].subnoMax;
      } else {
        g := g + 1;
        if g > 0x8FF {
          g, wrapped := 0x100, true;
        }
        sub := stat[g - 0x100].subnoMin;
      }
      k := k + 1;
    }
    assert IsNext(stat, pgno, subno, backward, k, g, sub, wrapped);
  }

  /** Some page with subpages is at most one revolution away. */
  lemma Revolution(stat: seq<PageStat>, pgno: int, backward: bool) returns (k: nat)
    requires IsStat(stat) && 0x100 <= pgno <= 0x8FF && exists i :: 0 <= i < 0x800 && Reachable(stat[i])
    ensures 0 < k <= 0x800 && Reachable(stat[Around(pgno, backward, k) - 0x100])
  {
    var i :| 0 <= i < 0x800 && Reachable(stat[i]);
    var d := if backward then pgno - 0x100 - i else i - (pgno - 0x100);
    k := if d <= 0 then d + 0x800 else d;
  }

  /** Without any such page the loop goes on forever. */
  lemma NoNext(stat: seq<PageStat>, pgno: int, subno: int, backward: bool)
    requires IsStat(stat) && 0x100 <= pgno <= 0x8FF && !Present(stat[pgno - 0x100], subno)
    requires forall i :: 0 <= i < 0x800 ==> !Reachable(stat[i])
    ensures forall k: nat :: k > 0 ==> var t := stat[Around(pgno, backward, k) - 0x100]; !Present(t, Entry(t, backward))
    ensures forall k: nat, g, sub, wrapped :: !IsNext(stat, pgno, subno, backward, k, g, sub, wrapped)
  {
    forall k: nat, g, sub, wrapped ensures !IsNext(stat, pgno, subno, backward, k, g, sub, wrapped) {
      if IsNext(stat, pgno, subno, backward, k, g, sub, wrapped) {
        assert Reachable(stat[g - 0x100]);
      }
    }
  }

  // ---- Ranges of subpages --------------------------------------------------------

  /** All four statistics are 8 bit numbers. */
  predicate Bytes(t: PageStat) {
    t.nSubpages < 0x100 && t.maxSubpages < 0x100 && t.subnoMin < 0x100 && t.subnoMax < 0x100
  }

  /** A page with subpages is reachable as long as its numbers are in order. They stay so
      for regular subpages, but not for every time of day of a clock page: only
      eight bits of a number are stored. */
  lemma StatAddOrderIff(t: PageStat, subno: nat)
    requires Bytes(t) && t.subnoMin <= t.subnoMax
    ensures Bytes(StatAdd(t, subno))
    ensures StatAdd(t, subno).subnoMin <= StatAdd(t, subno).subnoMax
       <==> (subno < 0x100 || t.subnoMin == 0 || t.subnoMin <= subno % 0x100)
  {}

  /** The versions 01:50 and 01:20 of a page make it unreachable. */
  lemma ClockPageUnreachable()
    ensures var t := StatAdd(StatAdd(PageStat(0, 0, 0, 0), 0x150), 0x120);
      t.nSubpages == 2 && t.subnoMin == 0x50 && t.subnoMax == 0x20 && !Reachable(t)
  {}

  ghost predicate Ordered(r: NetRec) {
    forall i :: 0 <= i < |r.stat| ==> Bytes(r.stat[i]) && r.stat[i].subnoMin <= r.stat[i].subnoMax
  }

  /** A network with cached pages has a page where the search ends, if it stored
      no clock pages and no page has so many versions that their number wraps around. */
  lemma CachedPagesReachable(s: State, n: CacheNetwork)
    requires Consistent(s) && n in s.nets && s.nets[n].nCached > 0 && Ordered(s.nets[n])
    requires forall g :: 0x100 <= g <= 0x8FF ==> Count(s.pages, SubpageOf(n, g)) < 0x100
    ensures exists i :: 0 <= i < 0x800 && Reachable(s.nets[n].stat[i])
  {
    hide PageLists;
    assert NetCounters(s.pages, n, s.nets[n]);
    var p :| p in Matching(s.pages, OfNetwork(n));
    var g := s.pages[p].pgno;
    assert Placed(s.pages[p], s.nets);
    assert p in Matching(s.pages, SubpageOf(n, g));
    assert Reachable(s.nets[n].stat[g - 0x100]);
  }

  /** Adding regular subpages and removing pages keeps the numbers in order. */
  lemma OrderKept(r: NetRec, pgno: int, subno: nat)
    requires Ordered(r) && |r.stat| == 0x800 && 0x100 <= pgno <= 0x8FF
    ensures Ordered(NetRemove(r, pgno)) && (subno < 0x100 ==> Ordered(NetAdd(r, pgno, subno)))
  {
    hide StatAdd;
    var t := r.stat[pgno - 0x100];
    if subno < 0x100 { StatAddOrderIff(t, subno); }
    SetOrdered(r, NetRemove(r, pgno), pgno - 0x100);
    SetOrdered(r, NetAdd(r, pgno, subno), pgno - 0x100);
  }

  /** Another pair of numbers for one page. */
  lemma SetOrdered(r: NetRec, t: NetRec, i: nat)
    requires Ordered(r) && i < |r.stat| == |t.stat| && t.stat == r.stat[i := t.stat[i]]
    ensures Bytes(t.stat[i]) && t.stat[i].subnoMin <= t.stat[i].subnoMax ==> Ordered(t)
  {}
}
