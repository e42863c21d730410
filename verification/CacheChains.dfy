/** The hash chains hold the most-recently-used list, page number by page number. */
module CacheChains {
  import opened CacheObjects
  import opened CacheState
  import opened Common
  import opened Seqs

  const HASH_SIZE := 113

  ghost function OnChain(pages: Pages, h: int): CachePage -> bool {
    (p: CachePage) => p in pages && pages[p].pgno % HASH_SIZE == h
  }

  /** Each of the chains lists the pages of its page numbers in the order of one
      most-recently-used list. */
  ghost predicate Chains(pages: Pages, mru: seq<CachePage>, hash: seq<seq<CachePage>>) {
    |hash| == HASH_SIZE && forall h :: 0 <= h < HASH_SIZE ==> hash[h] == Filter(mru, OnChain(pages, h))
  }

  /** Only the numbers of the listed pages matter. */
  lemma ChainsFrame(pages: Pages, other: Pages, mru: seq<CachePage>, hash: seq<seq<CachePage>>)
    requires Chains(pages, mru, hash)
    requires forall p :: p in mru ==> p in pages && p in other && other[p].pgno == pages[p].pgno
    ensures Chains(other, mru, hash)
  {
    hide Filter;
    forall h | 0 <= h < HASH_SIZE ensures hash[h] == Filter(mru, OnChain(other, h)) {
      FilterExt(mru, OnChain(pages, h), OnChain(other, h));
    }
  }

  /** A page is unlinked from its chain. */
  lemma ChainsRemove(pages: Pages, mru: seq<CachePage>, hash: seq<seq<CachePage>>, p: CachePage)
    requires Chains(pages, mru, hash) && p in pages
    ensures var h := pages[p].pgno % HASH_SIZE;
      Chains(pages, Remove(mru, p), hash[h := Remove(hash[h], p)])
  {
    hide Filter, Remove;
    var g := pages[p].pgno % HASH_SIZE;
    forall h | 0 <= h < HASH_SIZE
      ensures (if h == g then Remove(hash[h], p) else hash[h]) == Filter(Remove(mru, p), OnChain(pages, h))
    {
      FilterRemove(mru, p, OnChain(pages, h));
      if h != g {
        FilterMembers(mru, OnChain(pages, h));
        RemoveAbsent(hash[h], p);
      }
    }
  }

  /** A page is linked at the head of its chain. */
  lemma ChainsAdd(pages: Pages, mru: seq<CachePage>, hash: seq<seq<CachePage>>, p: CachePage)
    requires Chains(pages, mru, hash) && p in pages
    ensures var h := pages[p].pgno % HASH_SIZE;
      Chains(pages, [p] + mru, hash[h := [p] + hash[h]])
  {
    assert ([p] + mru)[1..] == mru;
  }

  /** The first match on the chain of a page number is the first match on the whole list. */
  lemma {:induction false} ChainFirst(s: State, q: seq<CachePage>, n: CacheNetwork, pgno: int, subno: nat, mask: nat)
    ensures var c := Filter(q, OnChain(s.pages, pgno % HASH_SIZE));
      var i, j := FirstMatch(s, q, n, pgno, subno, mask), FirstMatch(s, c, n, pgno, subno, mask);
      (i == |q| <==> j == |c|) && (i < |q| ==> c[j] == q[i])
  {
    if q != [] {
      var f := OnChain(s.pages, pgno % HASH_SIZE);
      ChainFirst(s, q[1..], n, pgno, subno, mask);
      if f(q[0]) { assert ([q[0]] + Filter(q[1..], f))[1..] == Filter(q[1..], f); }
    }
  }

  /** A lookup on the chain is a lookup on the whole list. */
  lemma ChainLookup(s: State, hash: seq<seq<CachePage>>, n: CacheNetwork, pgno: int, subno: nat, mask: nat)
    requires Chains(s.pages, s.mru, hash)
    ensures var c := hash[pgno % HASH_SIZE];
      var j := FirstMatch(s, c, n, pgno, subno, mask);
      Lookup(s, n, pgno, subno, mask) == if j == |c| then (s, None) else (MoveToFront(s, c[j]), Some(c[j]))
  {
    hide FirstMatch, Filter, Remove;
    ChainFirst(s, s.mru, n, pgno, subno, mask);
  }
}
