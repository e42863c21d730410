/** The search of _vbi_cache_put_page for pages to replace: what it picks, when it fails, when it
    picks a page twice and when it reuses one in place. */
module CacheSearch {
  import opened CacheEviction
  import opened CacheObjects
  import opened CacheProofs
  import opened CacheState
  import opened Common
  import opened Seqs

  // ---- The scans for replacement candidates ----------------------------------------

  lemma ScanStep(s: State, q: seq<CachePage>, f: CachePage -> bool, needed: int, c: Scan)
    requires q != [] && c.progress == More
    ensures c.available >= needed ==> ScanPass(s, q, f, needed, c) == c.(progress := Enough)
    ensures c.available < needed && !f(q[0]) ==> ScanPass(s, q, f, needed, c) == ScanPass(s, q[1..], f, needed, c)
    ensures c.available < needed && f(q[0]) && |c.row| >= DEATH_ROW ==>
      ScanPass(s, q, f, needed, c) == c.(progress := RowFull)
    ensures c.available < needed && f(q[0]) && |c.row| < DEATH_ROW ==>
      var d := c.(row := c.row + [q[0]], available := c.available + Size(s, q[0]));
      ScanPass(s, q, f, needed, c) == ScanPass(s, q[1..], f, needed, d)
  {
    hide Size;
  }

  lemma ScanEnd(s: State, q: seq<CachePage>, f: CachePage -> bool, needed: int, c: Scan)
    requires q == []
    ensures ScanPass(s, q, f, needed, c) == c
  {}

  /** The memory available with the candidates among the first j pages of q. */
  ghost function Gain(s: State, q: seq<CachePage>, j: nat, f: CachePage -> bool): int
    requires j <= |q|
  {
    Sum(Filter(q[..j], f), Weight(s))
  }

  lemma GainStep(s: State, q: seq<CachePage>, j: nat, f: CachePage -> bool)
    requires j < |q|
    ensures Filter(q[..j + 1], f) == (if f(q[0]) then [q[0]] else []) + Filter(q[1..][..j], f)
    ensures Gain(s, q, j + 1, f) == (if f(q[0]) then Size(s, q[0]) else 0) + Gain(s, q[1..], j, f)
  {
    hide Size;
    assert q[..j + 1][1..] == q[1..][..j];
    var r := Filter(q[1..][..j], f);
    assert ([q[0]] + r)[1..] == r;
  }

  /** d is what a scan of q from c finds when it stops before page j. */
  ghost predicate Scanned(s: State, q: seq<CachePage>, f: CachePage -> bool, needed: int, c: Scan, d: Scan, j: nat) {
    && j <= |q| && d.row == c.row + Filter(q[..j], f) && d.available == c.available + Gain(s, q, j, f)
    && (d.progress == More ==> j == |q|)
    && (d.progress == Enough ==> j < |q| && d.available >= needed)
    && (d.progress == RowFull ==> j < |q| && |d.row| >= DEATH_ROW && d.available < needed)
    && forall i :: 0 <= i < j ==> c.available + Gain(s, q, i, f) < needed
  }

  lemma ScannedStep(s: State, q: seq<CachePage>, f: CachePage -> bool, needed: int, c: Scan, d: Scan, j: nat)
    requires q != [] && c.available < needed
    requires Scanned(s, q[1..], f, needed,
                     if f(q[0]) then c.(row := c.row + [q[0]], available := c.available + Size(s, q[0])) else c, d, j)
    ensures Scanned(s, q, f, needed, c, d, j + 1)
  {
    hide Size, Gain, Filter;
    GainStep(s, q, j, f);
    forall i | 0 <= i < j + 1 ensures c.available + Gain(s, q, i, f) < needed {
      if i > 0 { GainStep(s, q, i - 1, f); } else { assert Gain(s, q, 0, f) == 0 by { NoGain(s, q, f); } }
    }
  }

  lemma GainIs(s: State, q: seq<CachePage>, j: nat, f: CachePage -> bool)
    requires j <= |q|
    ensures Gain(s, q, j, f) == Sum(Filter(q[..j], f), Weight(s))
  {}

  lemma NoGain(s: State, q: seq<CachePage>, f: CachePage -> bool)
    ensures Gain(s, q, 0, f) == 0 && Filter(q[..0], f) == []
  {}

  /** A scan takes candidates until there is enough memory, the row is full or the
      list ends. In the last case the memory was short before every page. */
  lemma {:induction false} ScanPassIs(s: State, q: seq<CachePage>, f: CachePage -> bool, needed: int, c: Scan)
      returns (j: nat)
    requires c.progress == More
    ensures Scanned(s, q, f, needed, c, ScanPass(s, q, f, needed, c), j)
    decreases |q|
  {
    hide Size, Gain, Filter;
    NoGain(s, q, f);
    assert c.row + [] == c.row;
    j := 0;
    if q != [] && c.available < needed && (f(q[0]) ==> |c.row| < DEATH_ROW) {
      var d := if f(q[0]) then c.(row := c.row + [q[0]], available := c.available + Size(s, q[0])) else c;
      j := ScanPassIs(s, q[1..], f, needed, d);
      ScannedStep(s, q, f, needed, c, ScanPass(s, q, f, needed, c), j);
      j := j + 1;
    }
  }

  // ---- The pages on death row ---------------------------------------------------------

  /** The candidates of scan k. */
  ghost function PassCandidates(s: State, prev: Option<CachePage>, k: nat): CachePage -> bool {
    CandidateIn(s, PassPriority(k), k >= 2, prev)
  }

  lemma FoundStep(s: State, prev: Option<CachePage>, needed: int, k: nat) returns (j: nat)
    ensures var c, d := Found(s, prev, needed, k), Found(s, prev, needed, k + 1);
      if c.progress == More then Scanned(s, s.prio, PassCandidates(s, prev, k), needed, c, d, j) else d == c
  {
    hide ScanPass, Scanned, Filter;
    var c := Found(s, prev, needed, k);
    j := 0;
    if c.progress == More {
      j := ScanPassIs(s, s.prio, PassCandidates(s, prev, k), needed, c);
    } else {
      ScanNothing(s, s.prio, PassCandidates(s, prev, k), needed, c);
    }
  }

  lemma ScanNothing(s: State, q: seq<CachePage>, f: CachePage -> bool, needed: int, c: Scan)
    requires c.progress != More
    ensures ScanPass(s, q, f, needed, c) == c
  {}

  /** Every page on the row is unreferenced, and the row accounts for the memory available. */
  ghost predicate RowOk(s: State, needed: int, c: Scan) {
    && (forall p :: p in c.row ==> p in s.prio) && c.available == s.limit - s.used + Sum(c.row, Weight(s))
    && (c.progress == Enough ==> c.available >= needed)
    && (c.progress == RowFull ==> |c.row| >= DEATH_ROW && c.available < needed)
  }

  lemma FoundRowStep(s: State, f: CachePage -> bool, needed: int, c: Scan, d: Scan, j: nat)
    requires RowOk(s, needed, c) && Scanned(s, s.prio, f, needed, c, d, j)
    ensures RowOk(s, needed, d)
  {
    hide Filter, Sum, Weight, Gain;
    FilterMembers(s.prio[..j], f);
    SumAppend(c.row, Filter(s.prio[..j], f), Weight(s));
    GainIs(s, s.prio, j, f);
  }

  lemma {:induction false} FoundRow(s: State, prev: Option<CachePage>, needed: int, k: nat)
    requires prev.Some? ==> prev.value in s.prio
    ensures RowOk(s, needed, Found(s, prev, needed, k))
  {
    if k == 0 {
      if prev.Some? { SumOne(prev.value, Weight(s)); }
    } else {
      hide Found, RowOk, Scanned, PassCandidates;
      FoundRow(s, prev, needed, k - 1);
      var j := FoundStep(s, prev, needed, k - 1);
      var c, d, f := Found(s, prev, needed, k - 1), Found(s, prev, needed, k), PassCandidates(s, prev, k - 1);
      if c.progress == More { FoundRowStep(s, f, needed, c, d, j); }
    }
  }

  /** The assertion on the length of the row cannot fail as long as no page is smaller
      than a twentieth of the memory needed. */
  lemma RowNeverFull(s: State, prev: Option<CachePage>, needed: int, least: nat)
    requires (prev.Some? ==> prev.value in s.prio) && s.used <= s.limit
    requires forall p :: p in s.prio ==> Size(s, p) >= least
    requires DEATH_ROW * least >= needed
    ensures FindMemory(s, prev, needed).progress != RowFull
  {
    hide Found, Sum;
    FoundRow(s, prev, needed, 4);
    var c := FindMemory(s, prev, needed);
    SumAtLeast(s, c.row, least);
    if |c.row| >= DEATH_ROW { TimesMore(DEATH_ROW, |c.row|, least); }
  }

  /** No page is more than twenty times as large as another. */
  ghost predicate SizesNear(z: Sizes) {
    forall c: Content, d: Content :: DEATH_ROW * PageSize(z, c) >= PageSize(z, d)
  }

  /** With such sizes the assertion never fails. */
  lemma RowFits(s: State, prev: Option<CachePage>, content: Content)
    requires (prev.Some? ==> prev.value in s.prio) && s.used <= s.limit && SizesNear(s.sizes)
    requires forall p :: p in s.prio ==> p in s.pages
    ensures FindMemory(s, prev, PageSize(s.sizes, content)).progress != RowFull
  {
    hide FindMemory, PageSize;
    var needed := PageSize(s.sizes, content);
    var least := (needed + DEATH_ROW - 1) / DEATH_ROW;
    RowNeverFull(s, prev, needed, least);
  }

  lemma TimesMore(a: nat, b: nat, c: nat)
    requires a <= b
    ensures a * c <= b * c
  {}

  lemma {:induction false} SumAtLeast(s: State, q: seq<CachePage>, least: nat)
    requires forall p :: p in q ==> Size(s, p) >= least
    ensures Sum(q, Weight(s)) >= |q| * least
  {
    if q != [] {
      hide Size;
      SumAtLeast(s, q[1..], least);
      assert Size(s, q[0]) >= least && Sum(q, Weight(s)) == Size(s, q[0]) + Sum(q[1..], Weight(s));
      OneTimeMore(|q| - 1, least);
    }
  }

  lemma OneTimeMore(n: nat, least: nat)
    ensures (n + 1) * least == n * least + least
  {}

  // ---- When storing a page fails -----------------------------------------------------

  lemma {:induction false} GainGrows(s: State, q: seq<CachePage>, i: nat, j: nat, f: CachePage -> bool)
    requires i <= j <= |q|
    ensures 0 <= Gain(s, q, i, f) <= Gain(s, q, j, f)
  {
    hide Size, Gain, Filter;
    if i == 0 {
      NoGain(s, q, f);
      if j > 0 {
        GainStep(s, q, j - 1, f);
        GainGrows(s, q[1..], 0, j - 1, f);
      }
    } else {
      GainStep(s, q, i - 1, f);
      GainStep(s, q, j - 1, f);
      GainGrows(s, q[1..], i - 1, j - 1, f);
    }
  }

  /** The memory available with all candidates of the first k scans. */
  ghost function Total(s: State, prev: Option<CachePage>, k: nat): int {
    if k == 0 then s.limit - s.used + (if prev.Some? then Size(s, prev.value) else 0)
    else Total(s, prev, k - 1) + Gain(s, s.prio, |s.prio|, PassCandidates(s, prev, k - 1))
  }

  /** The memory available when the last page is visited in the last of k scans. */
  ghost function BeforeLast(s: State, prev: Option<CachePage>, k: nat): int
    requires k > 0 && s.prio != []
  {
    Total(s, prev, k - 1) + Gain(s, s.prio, |s.prio| - 1, PassCandidates(s, prev, k - 1))
  }

  lemma FoundGain(s: State, prev: Option<CachePage>, needed: int, k: nat)
    ensures var c, d := Found(s, prev, needed, k), Found(s, prev, needed, k + 1); var f := PassCandidates(s, prev, k);
      if c.progress == More then
        && (d.progress == More ==> d.available == c.available + Gain(s, s.prio, |s.prio|, f))
        && (d.progress == More && s.prio != [] ==> c.available + Gain(s, s.prio, |s.prio| - 1, f) < needed)
        && (d.progress == Enough ==> s.prio != [] && c.available + Gain(s, s.prio, |s.prio| - 1, f) >= needed)
      else d == c
  {
    hide ScanPass, Gain, PassCandidates, Found, Filter;
    var j := FoundStep(s, prev, needed, k);
    if j < |s.prio| { GainGrows(s, s.prio, j, |s.prio| - 1, PassCandidates(s, prev, k)); }
  }

  lemma {:induction false} FoundMore(s: State, prev: Option<CachePage>, needed: int, k: nat)
    requires Found(s, prev, needed, k).progress == More
    ensures Found(s, prev, needed, k).available == Total(s, prev, k) && Total(s, prev, 0) < needed
    ensures k > 0 && s.prio != [] ==> BeforeLast(s, prev, k) < needed
  {
    if k > 0 {
      hide Gain, PassCandidates, Found;
      FoundGain(s, prev, needed, k - 1);
      FoundMore(s, prev, needed, k - 1);
    }
  }

  lemma BeforeLastGrows(s: State, prev: Option<CachePage>, k: nat)
    requires k > 0 && s.prio != []
    ensures Total(s, prev, k - 1) <= BeforeLast(s, prev, k) <= Total(s, prev, k)
  {
    hide Gain, PassCandidates;
    GainGrows(s, s.prio, 0, |s.prio| - 1, PassCandidates(s, prev, k - 1));
    GainGrows(s, s.prio, |s.prio| - 1, |s.prio|, PassCandidates(s, prev, k - 1));
  }

  lemma StartEnough(s: State, prev: Option<CachePage>, needed: int)
    requires Found(s, prev, needed, 0).progress == Enough
    ensures Total(s, prev, 0) >= needed
  {}

  lemma {:induction false} FoundEnough(s: State, prev: Option<CachePage>, needed: int, k: nat)
    requires Found(s, prev, needed, k).progress == Enough
    ensures Total(s, prev, 0) >= needed || (k > 0 && s.prio != [] && BeforeLast(s, prev, k) >= needed)
  {
    if k == 0 { StartEnough(s, prev, needed); }
    hide Gain, PassCandidates, Found, Total, BeforeLast;
    if k > 0 {
      FoundGain(s, prev, needed, k - 1);
      if Found(s, prev, needed, k - 1).progress == More {
        FoundMore(s, prev, needed, k - 1);
        BeforeLastIs(s, prev, k);
      } else {
        FoundEnough(s, prev, needed, k - 1);
        if s.prio != [] {
          BeforeLastGrows(s, prev, k);
          if k > 1 { BeforeLastGrows(s, prev, k - 1); }
        }
      }
    }
  }

  lemma BeforeLastIs(s: State, prev: Option<CachePage>, k: nat)
    requires k > 0 && s.prio != []
    ensures BeforeLast(s, prev, k) == Total(s, prev, k - 1)
      + Gain(s, s.prio, |s.prio| - 1, PassCandidates(s, prev, k - 1))
  {}

  /** _vbi_cache_put_page finds enough memory if and only if there is enough without
      the very last page of the list, which no scan checks after taking it. */
  lemma PutFailsIff(s: State, prev: Option<CachePage>, needed: int)
    requires FindMemory(s, prev, needed).progress != RowFull
    ensures var short := Total(s, prev, 0) < needed && (s.prio != [] ==> BeforeLast(s, prev, 4) < needed);
      FindMemory(s, prev, needed).progress == More <==> short
  {
    hide Found, Total, BeforeLast;
    match FindMemory(s, prev, needed).progress
    case More => FoundMore(s, prev, needed, 4);
    case Enough => FoundEnough(s, prev, needed, 4);
  }

  lemma OneCandidate(s: State, p: CachePage, needed: nat)
    requires s.prio == [p] && s.used == s.limit && Size(s, p) == needed > 0
    requires forall k :: 0 <= k < 3 ==> !PassCandidates(s, None, k)(p)
    requires PassCandidates(s, None, 3)(p)
    ensures Total(s, None, 4) == needed && FindMemory(s, None, needed).progress == More
  {
    hide Size, CandidateIn;
    SumOne(p, Weight(s));
    var c := Scan([], 0, More);
    assert Found(s, None, needed, 0) == c;
    forall k | 0 <= k < 4 ensures Gain(s, [p], 1, PassCandidates(s, None, k)) == if k < 3 then 0 else needed {
      GainOne(s, p, PassCandidates(s, None, k));
    }
    ScanOne(s, p, PassCandidates(s, None, 0), needed, c);
    ScanOne(s, p, PassCandidates(s, None, 1), needed, c);
    ScanOne(s, p, PassCandidates(s, None, 2), needed, c);
    ScanOne(s, p, PassCandidates(s, None, 3), needed, c);
    FourScans(s, needed);
  }

  lemma GainOne(s: State, p: CachePage, f: CachePage -> bool)
    ensures Gain(s, [p], 1, f) == if f(p) then Size(s, p) else 0
  {
    hide Size;
    assert [p][..1] == [p] && [p][1..] == [];
    assert Filter([p], f) == if f(p) then [p] else [];
    SumOne(p, Weight(s));
  }

  lemma ScanOne(s: State, p: CachePage, f: CachePage -> bool, needed: nat, c: Scan)
    requires c.available < needed && c.progress == More && c.row == []
    ensures ScanPass(s, [p], f, needed, c) == if f(p) then Scan([p], c.available + Size(s, p), More) else c
  {
    hide Size;
    assert [p][1..] == [];
  }

  lemma FourScans(s: State, needed: nat)
    ensures Found(s, None, needed, 4) ==
      var a := Found(s, None, needed, 0);
      var b := ScanPass(s, s.prio, PassCandidates(s, None, 0), needed, a);
      var c := ScanPass(s, s.prio, PassCandidates(s, None, 1), needed, b);
      var d := ScanPass(s, s.prio, PassCandidates(s, None, 2), needed, c);
      ScanPass(s, s.prio, PassCandidates(s, None, 3), needed, d)
    ensures Total(s, None, 4) == s.limit - s.used
      + Gain(s, s.prio, |s.prio|, PassCandidates(s, None, 0)) + Gain(s, s.prio, |s.prio|, PassCandidates(s, None, 1))
      + Gain(s, s.prio, |s.prio|, PassCandidates(s, None, 2)) + Gain(s, s.prio, |s.prio|, PassCandidates(s, None, 3))
  {
    hide ScanPass, Gain, CandidateIn;
    assert Found(s, None, needed, 2)
        == ScanPass(s, s.prio, PassCandidates(s, None, 1), needed, Found(s, None, needed, 1));
    assert Total(s, None, 2) == Total(s, None, 1) + Gain(s, s.prio, |s.prio|, PassCandidates(s, None, 1));
  }

  // ---- Whether a page is twice on the row ----------------------------------------------

  predicate OfUnusedNetwork(s: State, p: CachePage) {
    p in s.pages && s.pages[p].net in s.nets && s.nets[s.pages[p].net].refs == 0
  }

  lemma PassRow(s: State, prev: Option<CachePage>, needed: int, k: nat) returns (picks: seq<CachePage>)
    requires Consistent(s)
    ensures var c, d := Found(s, prev, needed, k), Found(s, prev, needed, k + 1);
      && d.row == c.row + picks && Distinct(picks) && (c.progress != More ==> d == c && picks == [])
      && (forall p :: p in picks ==> p in s.prio && PassCandidates(s, prev, k)(p))
      && (d.progress == More ==> forall p :: p in s.prio && PassCandidates(s, prev, k)(p) ==> p in picks)
  {
    hide ScanPass, Filter, Found, CandidateIn, Gain, Counters;
    var j := FoundStep(s, prev, needed, k);
    if Found(s, prev, needed, k).progress == More {
      picks := Filter(s.prio[..j], PassCandidates(s, prev, k));
      FilterMembers(s.prio[..j], PassCandidates(s, prev, k));
    } else {
      picks := [];
    }
  }

  lemma FoundStart(s: State, prev: Option<CachePage>, needed: int)
    ensures Found(s, prev, needed, 0).row == if prev.Some? then [prev.value] else []
  {}

  /** The first two scans visit the pages of networks without references, but not the previous version. */
  lemma FirstCandidates(s: State, prev: Option<CachePage>, p: CachePage)
    requires Consistent(s) && p in s.prio
    ensures PassCandidates(s, prev, 0)(p) ==> !PassCandidates(s, prev, 1)(p)
    ensures PassCandidates(s, prev, 0)(p) || PassCandidates(s, prev, 1)(p) <==> OfUnusedNetwork(s, p) && prev != Some(p)
  {
    UnreferencedRank(s, p);
  }

  /** The last two scans visit all pages but the previous version. */
  lemma LastCandidates(s: State, prev: Option<CachePage>, p: CachePage)
    ensures PassCandidates(s, prev, 2)(p) ==> !PassCandidates(s, prev, 3)(p) && prev != Some(p)
    ensures PassCandidates(s, prev, 3)(p) ==> prev != Some(p)
  {}

  /** The first two scans pick no page twice. If they do not suffice, they pick every
      unreferenced page of the networks without references. */
  lemma FirstScans(s: State, prev: Option<CachePage>, needed: int)
    requires Consistent(s) && (prev.Some? ==> prev.value in s.prio)
    ensures var c := Found(s, prev, needed, 2);
      && Distinct(c.row) && (forall p :: p in c.row ==> prev == Some(p) || OfUnusedNetwork(s, p))
      && (c.progress == More ==> forall p :: p in s.prio && OfUnusedNetwork(s, p) ==> p in c.row)
  {
    hide ScanPass, Consistent, OfUnusedNetwork, Found, PassCandidates;
    var a := PassRow(s, prev, needed, 0);
    var b := PassRow(s, prev, needed, 1);
    FoundStart(s, prev, needed);
    forall p | p in s.prio
      ensures PassCandidates(s, prev, 0)(p) ==> !PassCandidates(s, prev, 1)(p)
      ensures PassCandidates(s, prev, 0)(p) || PassCandidates(s, prev, 1)(p) <==>
        OfUnusedNetwork(s, p) && prev != Some(p)
    {
      FirstCandidates(s, prev, p);
    }
    Appended(Found(s, prev, needed, 0).row, a);
    Appended(Found(s, prev, needed, 1).row, b);
  }

  lemma Appended(q: seq<CachePage>, r: seq<CachePage>)
    ensures Distinct(q) && Distinct(r) && (forall p :: p in r ==> p !in q) ==> Distinct(q + r)
    ensures forall p :: p in q + r ==> p in q || p in r
  {
    assert forall i :: 0 <= i < |q| ==> q[i] in q;
    assert forall i :: 0 <= i < |r| ==> r[i] in r;
  }

  lemma JoinedOnce(q: seq<CachePage>, r: seq<CachePage>)
    requires Distinct(q) && Distinct(r)
    ensures Distinct(q + r) <==> forall p :: p in r ==> p !in q
  {
    Appended(q, r);
    if p :| p in r && p in q {
      var i :| 0 <= i < |q| && q[i] == p;
      var j :| 0 <= j < |r| && r[j] == p;
      assert (q + r)[i] == (q + r)[|q| + j];
    }
  }

  /** What the last two scans pick. They do not skip the pages of the first two. */
  lemma LastPicks(s: State, prev: Option<CachePage>, needed: int) returns (picks: seq<CachePage>)
    requires Consistent(s) && (prev.Some? ==> prev.value in s.prio)
    ensures var first := Found(s, prev, needed, 2).row;
      && FindMemory(s, prev, needed).row == first + picks && Distinct(picks) && Distinct(first)
      && forall p :: p in picks ==> (p in first <==> OfUnusedNetwork(s, p))
  {
    hide ScanPass, Consistent, OfUnusedNetwork, Found, PassCandidates, Distinct;
    FirstScans(s, prev, needed);
    var c := PassRow(s, prev, needed, 2);
    var d := PassRow(s, prev, needed, 3);
    picks := c + d;
    var first := Found(s, prev, needed, 2).row;
    assert (first + c) + d == first + picks;
    forall p | p in c || p in d
      ensures prev != Some(p) && (p in c ==> p !in d)
    {
      LastCandidates(s, prev, p);
    }
    Appended(c, d);
  }

  /** No page is on death row twice if and only if the last two scans pick only
      pages of networks with references. */
  lemma RowDistinctPicks(s: State, prev: Option<CachePage>, needed: int)
    requires Consistent(s) && (prev.Some? ==> prev.value in s.prio)
    ensures var first, row := Found(s, prev, needed, 2).row, FindMemory(s, prev, needed).row;
      first <= row && (Distinct(row) <==> forall p :: p in row[|first|..] ==> !OfUnusedNetwork(s, p))
  {
    hide Consistent, OfUnusedNetwork, Found, FindMemory, Distinct;
    var picks := LastPicks(s, prev, needed);
    var first := Found(s, prev, needed, 2).row;
    assert (first + picks)[|first|..] == picks;
    JoinedOnce(first, picks);
  }

  /** The last scan which visits page p, unreferenced as it is. */
  function LastScan(s: State, p: CachePage): nat {
    if p in s.pages && s.pages[p].pri == Normal then 2 else 3
  }

  /** By the time page i of the list is visited again, after the first two scans have picked it,
      there is enough memory. */
  ghost predicate EnoughBefore(s: State, prev: Option<CachePage>, needed: int, i: nat)
    requires i < |s.prio|
  {
    var k := LastScan(s, s.prio[i]);
    Total(s, prev, k) + Gain(s, s.prio, i, PassCandidates(s, prev, k)) >= needed
  }

  /** Death row will have no page twice: there is enough memory before the last two scans come to a
      page which the first two have picked. */
  ghost predicate PicksOnce(s: State, prev: Option<CachePage>, needed: int) {
    forall i :: 0 <= i < |s.prio| && OfUnusedNetwork(s, s.prio[i]) && prev != Some(s.prio[i]) ==>
      EnoughBefore(s, prev, needed, i)
  }

  lemma TotalGrows(s: State, prev: Option<CachePage>, k: nat)
    ensures Total(s, prev, k) <= Total(s, prev, k + 1)
  {
    hide Gain, PassCandidates;
    GainGrows(s, s.prio, 0, |s.prio|, PassCandidates(s, prev, k));
  }

  /** A search which has ended after k scans had enough memory by then. */
  lemma {:induction false} EndedEnough(s: State, prev: Option<CachePage>, needed: int, k: nat)
    requires Found(s, prev, needed, k).progress == Enough
    ensures Total(s, prev, k) >= needed
  {
    hide Found, BeforeLast, Gain;
    FoundEnough(s, prev, needed, k);
    if k > 0 && s.prio != [] { BeforeLastGrows(s, prev, k); }
    TotalsGrow(s, prev, k);
  }

  lemma {:induction false} TotalsGrow(s: State, prev: Option<CachePage>, k: nat)
    ensures Total(s, prev, 0) <= Total(s, prev, k)
  {
    hide Total;
    if k > 0 {
      TotalsGrow(s, prev, k - 1);
      TotalGrows(s, prev, k - 1);
    }
  }

  /** An overflow of death row ends the search. */
  lemma {:induction false} StaysFull(s: State, prev: Option<CachePage>, needed: int, k: nat, n: nat)
    requires k <= n && Found(s, prev, needed, k).progress != More
    ensures Found(s, prev, needed, n) == Found(s, prev, needed, k)
  {
    hide Found;
    if k < n {
      StaysFull(s, prev, needed, k, n - 1);
      var j := FoundStep(s, prev, needed, n - 1);
    }
  }

  /** Scan k picks page i of the list if and only if it is a candidate and the memory was short
      before. */
  lemma PicksIff(s: State, prev: Option<CachePage>, needed: int, k: nat, i: nat) returns (picks: seq<CachePage>)
    requires Consistent(s) && i < |s.prio| && Found(s, prev, needed, k + 1).progress != RowFull
    ensures var c, d := Found(s, prev, needed, k), Found(s, prev, needed, k + 1);
      && d.row == c.row + picks && (forall p :: p in picks ==> PassCandidates(s, prev, k)(p))
      && (PassCandidates(s, prev, k)(s.prio[i]) ==>
            (s.prio[i] in picks <==> Total(s, prev, k) + Gain(s, s.prio, i, PassCandidates(s, prev, k)) < needed))
  {
    hide ScanPass, Filter, Found, CandidateIn, Gain, Consistent, PassCandidates, Total;
    var f, p := PassCandidates(s, prev, k), s.prio[i];
    var c, d := Found(s, prev, needed, k), Found(s, prev, needed, k + 1);
    var j := FoundStep(s, prev, needed, k);
    GainGrows(s, s.prio, 0, i, f);
    if c.progress == More {
      picks := Filter(s.prio[..j], f);
      FilterMembers(s.prio[..j], f);
      FoundMore(s, prev, needed, k);
      Unreferenced(s, p);
      if i < j {
        assert s.prio[..j][i] == p;
      } else {
        GainGrows(s, s.prio, j, i, f);
        assert p !in s.prio[..j];
      }
    } else {
      picks := [];
      StaysFull(s, prev, needed, k, k + 1);
      EndedEnough(s, prev, needed, k);
      assert c.row + [] == c.row;
    }
  }

  /** A page of an unused network is picked by the last two scans if and only if the memory was
      short when its turn came. */
  lemma PickedAgainIff(s: State, prev: Option<CachePage>, needed: int, i: nat)
    requires Consistent(s) && (prev.Some? ==> prev.value in s.prio) && i < |s.prio|
    requires FindMemory(s, prev, needed).progress != RowFull && prev != Some(s.prio[i])
    ensures var first, row := Found(s, prev, needed, 2).row, FindMemory(s, prev, needed).row;
      first <= row && (s.prio[i] in row[|first|..] <==> !EnoughBefore(s, prev, needed, i))
  {
    hide Found, CandidateIn, Gain, Consistent, Total;
    var p := s.prio[i];
    if Found(s, prev, needed, 3).progress == RowFull { StaysFull(s, prev, needed, 3, 4); }
    var a := PicksIff(s, prev, needed, 2, i);
    var b := PicksIff(s, prev, needed, 3, i);
    UnreferencedRank(s, p);
    LaterCandidates(s, prev, p);
    var first, row := Found(s, prev, needed, 2).row, FindMemory(s, prev, needed).row;
    assert row == first + (a + b) && row[|first|..] == a + b;
  }

  lemma LaterCandidates(s: State, prev: Option<CachePage>, p: CachePage)
    requires p in s.pages && (s.pages[p].pri == Normal || s.pages[p].pri == Special) && prev != Some(p)
    ensures PassCandidates(s, prev, 2)(p) <==> LastScan(s, p) == 2
    ensures PassCandidates(s, prev, 3)(p) <==> LastScan(s, p) == 3
  {}

  /** No page is on death row twice if and only if there is enough memory before the last two scans
      come to a page of an unused network. */
  lemma RowDistinctIff(s: State, prev: Option<CachePage>, needed: int)
    requires Consistent(s) && (prev.Some? ==> prev.value in s.prio) && FindMemory(s, prev, needed).progress != RowFull
    ensures Distinct(FindMemory(s, prev, needed).row) <==> PicksOnce(s, prev, needed)
  {
    hide Found, FindMemory, CandidateIn, Consistent, EnoughBefore, OfUnusedNetwork;
    RowDistinctPicks(s, prev, needed);
    var first, row := Found(s, prev, needed, 2).row, FindMemory(s, prev, needed).row;
    forall i | 0 <= i < |s.prio| && prev != Some(s.prio[i])
      ensures s.prio[i] in row[|first|..] <==> !EnoughBefore(s, prev, needed, i)
    {
      PickedAgainIff(s, prev, needed, i);
    }
    forall p | p in row[|first|..]
      ensures p in s.prio && prev != Some(p)
    {
      LaterPicks(s, prev, needed, p);
    }
  }

  lemma LaterPicks(s: State, prev: Option<CachePage>, needed: int, p: CachePage)
    requires Consistent(s) && (prev.Some? ==> prev.value in s.prio)
    ensures var first, row := Found(s, prev, needed, 2).row, FindMemory(s, prev, needed).row;
      first <= row && (p in row[|first|..] ==> p in s.prio && prev != Some(p))
  {
    hide ScanPass, Consistent, Found, PassCandidates;
    var c := PassRow(s, prev, needed, 2);
    var d := PassRow(s, prev, needed, 3);
    var first, row := Found(s, prev, needed, 2).row, FindMemory(s, prev, needed).row;
    assert row == first + (c + d) && row[|first|..] == c + d;
    LastCandidates(s, prev, p);
  }

  // ---- Whether a page is reused in place -------------------------------------------------

  /** There is enough memory to store a page, counted as the search does. */
  ghost predicate Suffices(s: State, prev: Option<CachePage>, needed: int) {
    Total(s, prev, 0) >= needed || (s.prio != [] && BeforeLast(s, prev, 4) >= needed)
  }

  /** The first page to be given up is just large enough. */
  ghost predicate JustEnough(s: State, prev: Option<CachePage>, needed: int) {
    if prev.Some? then Total(s, prev, 0) == needed
    else
      && s.limit - s.used < needed && EvictionOrder(s) != []
      && s.limit - s.used + Size(s, EvictionOrder(s)[0]) == needed
  }

  lemma {:induction false} TwoPicks<T>(q: seq<T>, j: nat, f: T -> bool) returns (i: nat)
    requires j <= |q| && |Filter(q[..j], f)| >= 2
    ensures i < j && Filter(q[..i], f) == Filter(q[..j], f)[..1]
  {
    assert j > 0;
    assert q[..j] == q[..j - 1] + [q[j - 1]];
    FilterAppend(q[..j - 1], [q[j - 1]], f);
    OneFiltered(q[j - 1], f);
    if |Filter(q[..j - 1], f)| >= 2 {
      i := TwoPicks(q, j - 1, f);
      assert Filter(q[..j], f)[..1] == Filter(q[..j - 1], f)[..1];
    } else {
      i := j - 1;
      assert Filter(q[..j], f)[..1] == Filter(q[..j - 1], f);
    }
  }

  lemma OneFiltered<T>(x: T, f: T -> bool)
    ensures Filter([x], f) == if f(x) then [x] else []
  {
    assert [x][1..] == [];
  }

  /** As long as nothing was picked, scan k looks for the pages of rank k. */
  lemma ScanOfRank(s: State, k: nat)
    requires Consistent(s) && k < 4 && First(s, k) == []
    ensures Filter(s.prio, PassCandidates(s, None, k)) == OfRank(s, k)
  {
    hide Consistent, Filter, First;
    FirstMembers(s, k);
    forall p | p in s.prio
      ensures PassCandidates(s, None, k)(p) == Ranked(s, k)(p)
    {
      UnreferencedRank(s, p);
      Unreferenced(s, p);
      assert p !in First(s, k);
    }
    FilterExt(s.prio, PassCandidates(s, None, k), Ranked(s, k));
  }

  /** The first pick is the first page of the eviction order, and there is only one if that is
      enough. */
  ghost predicate FirstPick(s: State, needed: int, c: Scan, k: nat) {
    && (c.row == [] ==> c.progress == More && First(s, k) == [])
    && (c.row != [] ==> EvictionOrder(s) != [] && c.row[0] == EvictionOrder(s)[0])
    && (|c.row| >= 2 ==> s.limit - s.used + Size(s, c.row[0]) < needed)
  }

  lemma NoPick(s: State, needed: int)
    requires s.limit - s.used < needed
    ensures FirstPick(s, needed, Found(s, None, needed, 0), 0)
  {
    hide EvictionOrder;
  }

  lemma {:induction false} FirstPickIs(s: State, needed: int, k: nat)
    requires Consistent(s) && s.limit - s.used < needed && k <= 4
    ensures FirstPick(s, needed, Found(s, None, needed, k), k)
  {
    hide Found, Consistent, FirstPick, EvictionOrder, First;
    if k > 0 {
      FirstPickIs(s, needed, k - 1);
      FirstPickStep(s, needed, k - 1);
    } else {
      NoPick(s, needed);
    }
  }

  lemma FirstPickStep(s: State, needed: int, k: nat)
    requires Consistent(s) && s.limit - s.used < needed && k < 4 && FirstPick(s, needed, Found(s, None, needed, k), k)
    ensures FirstPick(s, needed, Found(s, None, needed, k + 1), k + 1)
  {
    hide Found, Consistent, Gain, Filter, PassCandidates, Size, OfRank, EvictionOrder;
    var c, d, f := Found(s, None, needed, k), Found(s, None, needed, k + 1), PassCandidates(s, None, k);
    var j := FoundStep(s, None, needed, k);
    if c.progress == More {
      FoundRow(s, None, needed, k);
      var picks := Filter(s.prio[..j], f);
      GainIs(s, s.prio, j, f);
      if c.row == [] {
        FirstScan(s, needed, k, j);
      } else if picks != [] {
        if |c.row| == 1 { SumOne(c.row[0], Weight(s)); }
        NoGain(s, s.prio, f);
        assert j > 0;
        assert c.available + Gain(s, s.prio, 0, f) < needed;
        SizeIs(s, c.row[0]);
        assert c.row == [c.row[0]] || |c.row| >= 2;
      }
    }
  }

  lemma SizeIs(s: State, p: CachePage)
    ensures Weight(s)(p) == Size(s, p)
  {}

  lemma FirstScan(s: State, needed: int, k: nat, j: nat)
    requires Consistent(s) && k < 4 && First(s, k) == [] && j <= |s.prio|
    requires var c, d := Found(s, None, needed, k), Found(s, None, needed, k + 1);
      c.row == [] && c.progress == More && Scanned(s, s.prio, PassCandidates(s, None, k), needed, c, d, j)
      && c.available == s.limit - s.used < needed
    ensures FirstPick(s, needed, Found(s, None, needed, k + 1), k + 1)
  {
    hide Found, Consistent, Filter, PassCandidates, Size, OfRank, Sum;
    var d, f := Found(s, None, needed, k + 1), PassCandidates(s, None, k);
    var picks := Filter(s.prio[..j], f);
    assert d.row == picks;
    ScanOfRank(s, k);
    assert s.prio == s.prio[..j] + s.prio[j..];
    FilterAppend(s.prio[..j], s.prio[j..], f);
    OrderStart(s, k);
    GainIs(s, s.prio, j, f);
    if picks == [] {
      NoSum(Weight(s));
      if d.progress == More { assert s.prio[..j] == s.prio; }
    } else if |picks| >= 2 {
      var i := TwoPicks(s.prio, j, f);
      assert Filter(s.prio[..i], f) == [picks[0]];
      SumOne(picks[0], Weight(s));
      SizeIs(s, picks[0]);
      GainIs(s, s.prio, i, f);
    }
  }

  lemma NoSum(w: CachePage -> int)
    ensures Sum<CachePage>([], w) == 0
  {}

  lemma OrderStart(s: State, k: nat)
    requires k < 4 && First(s, k) == []
    ensures OfRank(s, k) != [] ==> EvictionOrder(s) != [] && EvictionOrder(s)[0] == OfRank(s, k)[0]
    ensures First(s, k + 1) == OfRank(s, k)
  {
    hide OfRank;
    FirstFour(s);
  }

  lemma FirstFour(s: State)
    ensures First(s, 1) == OfRank(s, 0) && First(s, 2) == OfRank(s, 0) + OfRank(s, 1)
    ensures First(s, 3) == OfRank(s, 0) + OfRank(s, 1) + OfRank(s, 2)
  {
    hide OfRank;
    assert First(s, 1) == [] + OfRank(s, 0);
  }

  lemma {:induction false} PreviousFirst(s: State, prev: CachePage, needed: int, k: nat)
    ensures Found(s, Some(prev), needed, k).row != [] && Found(s, Some(prev), needed, k).row[0] == prev
  {
    if k > 0 {
      hide Found, ScanPass, Filter, PassCandidates, Gain;
      PreviousFirst(s, prev, needed, k - 1);
      var j := FoundStep(s, Some(prev), needed, k - 1);
    }
  }

  /** A page is reused in place if and only if the first page to be given up is just large enough. */
  lemma ReusesIff(s: State, prev: Option<CachePage>, needed: int)
    requires Consistent(s) && (prev.Some? ==> prev.value in s.prio) && FindMemory(s, prev, needed).progress == Enough
    ensures Reuses(FindMemory(s, prev, needed), needed) <==> JustEnough(s, prev, needed)
  {
    hide Consistent, EvictionOrder, First;
    var a, c := Found(s, prev, needed, 0), FindMemory(s, prev, needed);
    assert a.progress == if Total(s, prev, 0) >= needed then Enough else More;
    assert a.row == (if prev.Some? then [prev.value] else []) && a.available == Total(s, prev, 0);
    hide Found;
    FoundRow(s, prev, needed, 4);
    if |c.row| == 1 {
      SumOne(c.row[0], Weight(s));
      SizeIs(s, c.row[0]);
      assert c.row == [c.row[0]];
    }
    if a.progress == Enough { StaysFull(s, prev, needed, 0, 4); }
    if prev.Some? {
      PreviousFirst(s, prev.value, needed, 4);
    } else if a.progress == More {
      FirstPickIs(s, needed, 4);
    }
  }
}
