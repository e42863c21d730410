/** Which versions of a page the cache tells apart, and under which number it finds them again. */
module CacheVersions {
  import opened Bcd
  import opened Bits
  import opened CacheLedger
  import opened CacheObjects
  import opened CacheOperations
  import opened CacheProofs
  import opened CachePut
  import opened CacheState
  import opened Common
  import opened Seqs

  /** A subpage number from 01 to 79. */
  predicate Subpage(x: nat) {
    0 < x <= 0x79 && x % 16 <= 9
  }

  /** A time of day in hours and minutes. None after 23:00 passes for one. */
  predicate Time(x: nat) {
    x <= 0x2300 && x % 16 <= 9 && x / 16 % 16 <= 5 && x / 0x100 % 16 <= 9
  }

  lemma FourDigits(x: nat)
    requires x < 0x10000
    ensures x == Digit(x, 0) + 0x10 * Digit(x, 1) + 0x100 * Digit(x, 2) + 0x1000 * Digit(x, 3)
    ensures forall i: nat :: 4 <= i < 7 ==> Digit(x, i) == 0
    ensures forall i: nat :: i < 7 ==> Digit(x, i) <= 15
  {
    assert Digit(x, 2) == Digit(x / 16, 1) && Digit(x, 3) == Digit(x / 16 / 16, 1);
    forall i: nat | 4 <= i < 7 ensures Digit(x, i) == 0 {
      assert Digit(x, i) == Digit(x / 16, i - 1) == Digit(x / 16 / 16, i - 2) == Digit(x / 16 / 16 / 16, i - 3);
      assert Digit(0, i - 4) == 0 by { NoDigit(i - 4); }
    }
    forall i: nat | i < 7 ensures Digit(x, i) <= 15 { AnyDigit(x, i); }
  }

  lemma {:induction false} NoDigit(i: nat)
    ensures Digit(0, i) == 0
  {
    if i > 0 { NoDigit(i - 1); }
  }

  lemma {:induction false} AnyDigit(x: nat, i: nat)
    ensures Digit(x, i) <= 15
  {
    if i > 0 { AnyDigit(x / 16, i - 1); }
  }

  lemma DigitsOf(x: nat)
    ensures Digit(x, 0) == x % 16 && Digit(x, 1) == x / 16 % 16 && Digit(x, 2) == x / 0x100 % 16
    ensures Digit(x, 3) == x / 0x1000 % 16
  {
    assert x / 16 / 16 == x / 0x100 && x / 16 / 16 / 16 == x / 0x1000;
    assert Digit(x, 2) == Digit(x / 16, 1) && Digit(x, 3) == Digit(x / 16, 2) == Digit(x / 16 / 16, 1);
  }

  /** x is no greater than m in any digit. */
  lemma FourDigitsGreater(x: nat, m: nat)
    requires x < 0x10000 && m < 0x10000
    ensures BcdDigitsGreater(x, m) <==>
      x % 16 > m % 16 || x / 16 % 16 > m / 16 % 16 || x / 0x100 % 16 > m / 0x100 % 16
        || x / 0x1000 % 16 > m / 0x1000 % 16
  {
    hide BcdDigitsGreater, Digit;
    BcdDigitsGreaterIff(x, m);
    FourDigits(x);
    FourDigits(m);
    DigitsOf(x);
    DigitsOf(m);
    if BcdDigitsGreater(x, m) {
      var i: nat :| i < 7 && DigitGreater(x, m, i);
      assert i < 4;
    } else {
      assert !DigitGreater(x, m, 0) && !DigitGreater(x, m, 1) && !DigitGreater(x, m, 2) && !DigitGreater(x, m, 3);
    }
  }

  lemma TimeIff(x: nat)
    requires x < WORD
    ensures BcdDigitsGreater(x, 0x2959) || x > 0x2300 <==> !Time(x)
  {
    hide BcdDigitsGreater;
    if x <= 0x2300 { FourDigitsGreater(x, 0x2959); }
  }

  lemma SubpageIff(x: nat)
    requires 0 < x < 0x100
    ensures BcdDigitsGreater(x, 0x79) <==> !Subpage(x)
  {
    hide BcdDigitsGreater;
    FourDigitsGreater(x, 0x79);
  }

  /** m is the mask of the k lowest bits. */
  lemma {:induction false} AndLow(x: nat, k: nat, m: nat)
    requires m + 1 == Pow2(k)
    ensures And(x, m) == x % (m + 1)
  {
    hide And;
    if k == 0 {
      AndNothing(x);
    } else {
      assert m % 2 == 1 && m / 2 + 1 == Pow2(k - 1);
      AndLow(x / 2, k - 1, m / 2);
      AndIs(x, m);
      LowBits(x, m / 2 + 1);
    }
  }

  lemma LowBits(x: nat, m: nat)
    requires m > 0
    ensures x % (2 * m) == x % 2 + 2 * (x / 2 % m)
  {
    var h := x / 2;
    assert x == 2 * h + x % 2 && h == m * (h / m) + h % m;
    assert x == (2 * m) * (h / m) + (x % 2 + 2 * (h % m));
    QuotientIs(x, 2 * m, h / m, x % 2 + 2 * (h % m));
  }

  /** The masks under which _vbi_cache_put_page looks for the previous version. */
  lemma AndMasks(x: nat)
    ensures And(x, 0xFF) == x % 0x100 && And(x, 0x0F) == x % 0x10 && And(x, 0) == 0
  {
    assert Pow2(4) == 0x10 && Pow2(8) == 0x100;
    AndLow(x, 8, 0xFF);
    AndLow(x, 4, 0x0F);
    AndNothing(x);
  }

  // ---- Under which number a page is stored ----------------------------------------------------

  /** Pages with decimal numbers are stored as subpage 01 to 79, as a clock page if they are one or have
      a greater number, and otherwise without a subpage number. The subpage number of others stays as it is. */
  lemma StoredSubnoValid(pgno: nat, subno: nat, clock: bool)
    requires pgno < WORD && subno < WORD
    ensures StoredSubno(pgno, subno, clock)
         == if !IsBcd(pgno) then (subno, 0x0F)
            else if !clock && Subpage(subno) then (subno, 0xFF)
            else if (clock || subno >= 0x100) && Time(subno) then (subno, 0)
            else (0, 0)
  {
    hide BcdDigitsGreater, IsBcd;
    TimeIff(subno);
    if 0 < subno < 0x100 { SubpageIff(subno); }
  }

  /** The number of the page which was stored. */
  lemma PutNumber(s: State, n: CacheNetwork, pgno: nat, subno: nat, content: Content, clock: bool,
      memory: Option<CachePage>)
    requires Inv(s) && n in s.nets && 0x100 <= pgno <= 0x8FF && subno < WORD
    requires Storable(s, n, pgno, subno, content, clock)
    ensures var (u, p) := PutPage(s, n, pgno, subno, content, clock, memory);
      p.Some? ==>
        && p.value in u.pages && u.pages[p.value].net == n && u.pages[p.value].pgno == pgno
        && u.pages[p.value].content == content
        && (!IsBcd(pgno) ==> u.pages[p.value].subno == subno)
        && (IsBcd(pgno) && !clock && Subpage(subno) ==> u.pages[p.value].subno == subno)
        && (IsBcd(pgno) && (clock || subno >= 0x100) ==> u.pages[p.value].subno == if Time(subno) then subno else 0)
        && (IsBcd(pgno) && !clock && subno < 0x100 && !Subpage(subno) ==> u.pages[p.value].subno == 0)
  {
    hide Inv, PutPage, Stored, StoredSubno, IsBcd, Storable, Time;
    PutFirst(s, n, pgno, subno, content, clock, memory);
    StoredPlace(n, pgno, subno, content, clock);
    StoredSubnoValid(pgno, subno, clock);
  }

  /** Which page a get finds: that of the matching ones which was used last, if the number is valid. It is then the
      first of all pages and has a reference more. */
  lemma GetPageIs(s: State, n: CacheNetwork, pgno: int, subno: nat, mask: nat)
    requires Inv(s)
    ensures var (t, o) := GetPage(s, n, pgno, subno, mask);
      var m := if subno == ANY_SUBNO then 0 else mask;
      && (o.None? ==> t == s)
      && (o.None? <==> pgno < 0x100 || pgno > 0x8FF || pgno % 0x100 == 0xFF
                       || forall q :: q in s.mru ==> !Matches(s.pages[q], n, pgno, subno, m))
      && (o.Some? ==>
            && o.value in s.pages && t.pages == s.pages[o.value := s.pages[o.value].(refs := s.pages[o.value].refs + 1)]
            && t.mru == [o.value] + Remove(s.mru, o.value) && FirstOf(s, o.value, n, pgno, subno, m))
  {
    hide Inv, RefPage, PageOk, Matches, Remove, FirstMatch;
    var m := if subno == ANY_SUBNO then 0 else mask;
    ListedDistinct(s);
    FirstMatchIs(s, s.mru, n, pgno, subno, m);
    LookupKeeps(s, n, pgno, subno, m);
    var (t, o) := Lookup(s, n, pgno, subno, m);
    if o.Some? {
      RefPageKeeps(t, o.value);
      RefPageCounts(t, o.value);
      RefMru(t, o.value);
    }
  }

  /** Page p is the first matching one of the list. */
  ghost predicate FirstOf(s: State, p: CachePage, n: CacheNetwork, pgno: int, subno: nat, mask: nat) {
    exists i :: 0 <= i < |s.mru| && s.mru[i] == p && p in s.pages && Matches(s.pages[p], n, pgno, subno, mask)
      && forall j :: 0 <= j < i && s.mru[j] in s.pages ==> !Matches(s.pages[s.mru[j]], n, pgno, subno, mask)
  }

  lemma RefMru(s: State, p: CachePage)
    requires PageOk(s, p)
    ensures RefPage(s, p).mru == s.mru
  {
    hide Remove;
  }

  /** Pages which are special, to be evicted after the others: those with two zeros or three equal digits, pages with
      other than text, and text pages of a set of subpages. */
  lemma SpecialIff(n: CacheNetwork, pgno: nat, subno: nat, content: Content, clock: bool)
    requires 0x100 <= pgno <= 0x8FF && subno < WORD
    ensures var r := Stored(n, pgno, subno, content, clock);
      && (r.pri == Special || r.pri == Normal)
      && (r.pri == Special <==>
            || pgno % 0x100 == 0
            || pgno / 0x100 == pgno / 0x10 % 0x10 == pgno % 0x10
            || (content.func != Unknown && content.func != Lop)
            || (content.func == Lop && IsBcd(pgno) && 0 < subno <= 0x79 && if clock then Time(subno)
              else Subpage(subno)))
  {
    hide StoredSubno, IsBcd;
    StoredSubnoValid(pgno, subno, clock);
    EqualDigits(pgno);
  }

  lemma EqualDigits(pgno: nat)
    requires pgno < 0x1000
    ensures pgno / 0x10 == pgno % 0x100 <==> pgno / 0x100 == pgno / 0x10 % 0x10 == pgno % 0x10
  {
    var high, middle, low := pgno / 0x100, pgno / 0x10 % 0x10, pgno % 0x10;
    assert pgno == 0x10 * (pgno / 0x10) + low && pgno / 0x10 == 0x10 * high + middle;
    QuotientIs(pgno, 0x100, high, 0x10 * middle + low);
  }

  /** A get right after a put finds the page just stored, under any number which agrees with its own on
      the bits of the mask, and when any version of the page will do. */
  lemma PutThenGet(s: State, n: CacheNetwork, pgno: nat, subno: nat, content: Content, clock: bool,
      memory: Option<CachePage>, wanted: nat, mask: nat)
    requires Inv(s) && n in s.nets && 0x100 <= pgno <= 0x8FF && subno < WORD
    requires Storable(s, n, pgno, subno, content, clock)
    ensures var (u, p) := PutPage(s, n, pgno, subno, content, clock, memory);
      p.Some? ==>
        && p.value in u.pages
        && (wanted == ANY_SUBNO || And(wanted, mask) == And(u.pages[p.value].subno, mask) ==>
              GetPage(u, n, pgno, wanted, mask).1 == p)
  {
    hide Inv, PutStart, Found, PageSize, Replace, RefPage, PageOk, And, Storable, Stored;
    PutFirst(s, n, pgno, subno, content, clock, memory);
    StoredPlace(n, pgno, subno, content, clock);
    var (u, p) := PutPage(s, n, pgno, subno, content, clock, memory);
    if p.Some? && (wanted == ANY_SUBNO || And(wanted, mask) == And(u.pages[p.value].subno, mask)) {
      assert pgno % 0x100 != 0xFF;
      AndNothing(wanted);
      AndNothing(u.pages[p.value].subno);
      FirstMatches(u, n, pgno, wanted, if wanted == ANY_SUBNO then 0 else mask);
    }
  }

  /** A subpage is found as itself. */
  lemma PutSubpage(s: State, n: CacheNetwork, pgno: nat, x: nat, content: Content, memory: Option<CachePage>)
    requires Inv(s) && n in s.nets && 0x100 <= pgno <= 0x8FF && IsBcd(pgno) && Subpage(x)
    requires Storable(s, n, pgno, x, content, false)
    ensures var (u, p) := PutPage(s, n, pgno, x, content, false, memory);
      p.Some? ==> p.value in u.pages && u.pages[p.value].subno == x && GetPage(u, n, pgno, x, 0xFF).1 == p
  {
    hide Inv, PutPage, GetPage, And, IsBcd, Storable;
    PutNumber(s, n, pgno, x, content, false, memory);
    PutThenGet(s, n, pgno, x, content, false, memory, x, 0xFF);
  }

  /** A clock page is found by its time, whatever the mask, and one without a valid time as subpage 0. */
  lemma PutClock(s: State, n: CacheNetwork, pgno: nat, time: nat, content: Content, clock: bool,
      memory: Option<CachePage>, mask: nat)
    requires Inv(s) && n in s.nets && 0x100 <= pgno <= 0x8FF && time < WORD
    requires Storable(s, n, pgno, time, content, clock)
    requires IsBcd(pgno) && (clock || time >= 0x100)
    ensures var (u, p) := PutPage(s, n, pgno, time, content, clock, memory);
      p.Some? ==> GetPage(u, n, pgno, if Time(time) then time else 0, mask).1 == p
  {
    hide Inv, PutPage, GetPage, And, IsBcd, Storable, Time;
    PutNumber(s, n, pgno, time, content, clock, memory);
    PutThenGet(s, n, pgno, time, content, clock, memory, if Time(time) then time else 0, mask);
  }

  /** A page with a hexadecimal number is found by the lowest digit of its subpage number. */
  lemma PutHexadecimal(s: State, n: CacheNetwork, pgno: nat, x: nat, content: Content, clock: bool,
      memory: Option<CachePage>, wanted: nat)
    requires Inv(s) && n in s.nets && 0x100 <= pgno <= 0x8FF && x < WORD && Storable(s, n, pgno, x, content, clock)
    requires !IsBcd(pgno) && wanted % 16 == x % 16
    ensures var (u, p) := PutPage(s, n, pgno, x, content, clock, memory);
      p.Some? ==> p.value in u.pages && u.pages[p.value].subno == x && GetPage(u, n, pgno, wanted, 0x0F).1 == p
  {
    hide Inv, PutPage, GetPage, And, IsBcd, Storable;
    PutNumber(s, n, pgno, x, content, clock, memory);
    AndMasks(x);
    AndMasks(wanted);
    PutThenGet(s, n, pgno, x, content, clock, memory, wanted, 0x0F);
  }

  // ---- Which version is replaced ------------------------------------------------------------------

  /** Only one of this page and a page about to be stored stays: the same subpage, with a hexadecimal
      page number the same lowest digit of it, and otherwise any version of the page. */
  predicate OneVersion(r: PageRec, n: CacheNetwork, pgno: nat, subno: nat, clock: bool)
    requires pgno < WORD
  {
    && r.net == n && r.pgno == pgno
    && if !IsBcd(pgno) then r.subno % 0x10 == subno % 0x10
       else !clock && Subpage(subno) ==> r.subno % 0x100 == subno
  }

  lemma ReplacedIff(r: PageRec, n: CacheNetwork, pgno: nat, subno: nat, clock: bool)
    requires pgno < WORD && subno < WORD
    ensures var (sub, mask) := StoredSubno(pgno, subno, clock);
      Matches(r, n, pgno, And(sub, mask), mask) <==> OneVersion(r, n, pgno, subno, clock)
  {
    hide And, StoredSubno, IsBcd;
    StoredSubnoValid(pgno, subno, clock);
    var (sub, mask) := StoredSubno(pgno, subno, clock);
    AndMasks(r.subno);
    AndMasks(sub);
    AndMasks(And(sub, mask));
  }

  /** Without a version of the page to replace, storing begins with the cache as it is. */
  lemma NoneReplaced(s: State, n: CacheNetwork, pgno: nat, subno: nat, clock: bool)
    requires pgno < WORD && subno < WORD
    requires forall p :: p in s.mru && p in s.pages ==> !OneVersion(s.pages[p], n, pgno, subno, clock)
    ensures PutStart(s, n, pgno, subno, clock) == (s, None)
  {
    hide And, StoredSubno, OneVersion, Matches, FirstMatch;
    var (sub, mask) := StoredSubno(pgno, subno, clock);
    FirstMatchIs(s, s.mru, n, pgno, And(sub, mask), mask);
    var i := FirstMatch(s, s.mru, n, pgno, And(sub, mask), mask);
    if i < |s.mru| { ReplacedIff(s.pages[s.mru[i]], n, pgno, subno, clock); }
  }

  /** The version used last is replaced. If it is in use it is marked for deletion and can no longer be
      looked up, otherwise its memory is the first to be given up. */
  lemma FirstReplaced(s: State, n: CacheNetwork, pgno: nat, subno: nat, clock: bool, i: nat)
    requires pgno < WORD && subno < WORD
    requires i < |s.mru| && s.mru[i] in s.pages && OneVersion(s.pages[s.mru[i]], n, pgno, subno, clock)
    requires forall j :: 0 <= j < i && s.mru[j] in s.pages ==> !OneVersion(s.pages[s.mru[j]], n, pgno, subno, clock)
    ensures var q := s.mru[i]; var r := s.pages[q];
      PutStart(s, n, pgno, subno, clock)
        == if r.refs > 0 then (s.(pages := s.pages[q := r.(pri := Zombie)], mru := Remove(s.mru, q)), None)
           else (s.(mru := [q] + Remove(s.mru, q)), Some(q))
  {
    hide And, StoredSubno, OneVersion, Matches, FirstMatch;
    var (sub, mask) := StoredSubno(pgno, subno, clock);
    FirstMatchIs(s, s.mru, n, pgno, And(sub, mask), mask);
    var k := FirstMatch(s, s.mru, n, pgno, And(sub, mask), mask);
    if k < |s.mru| { ReplacedIff(s.pages[s.mru[k]], n, pgno, subno, clock); }
    ReplacedIff(s.pages[s.mru[i]], n, pgno, subno, clock);
    assert k == i;
    var q := s.mru[i];
    assert Remove([q] + Remove(s.mru, q), q) == Remove(s.mru, q);
  }

  /** Storing one subpage neither replaces another subpage of the page nor gives up its memory first. */
  lemma SubpagesApart(s: State, n: CacheNetwork, pgno: nat, x: nat, y: nat, q: CachePage)
    requires pgno < WORD && IsBcd(pgno) && Subpage(x) && Subpage(y) && x != y
    requires q in s.pages && s.pages[q].net == n && s.pages[q].pgno == pgno && s.pages[q].subno == x
    ensures var (t, prev) := PutStart(s, n, pgno, y, false);
      q in t.pages && t.pages[q] == s.pages[q] && prev != Some(q) && (q in t.mru <==> q in s.mru)
  {
    hide IsBcd, PutStart;
    AnyReplaced(s, n, pgno, y, false, q);
  }

  /** A page which need not make room for the one to be stored is left alone when storing begins. */
  lemma AnyReplaced(s: State, n: CacheNetwork, pgno: nat, subno: nat, clock: bool, q: CachePage)
    requires pgno < WORD && subno < WORD && q in s.pages && !OneVersion(s.pages[q], n, pgno, subno, clock)
    ensures var (t, prev) := PutStart(s, n, pgno, subno, clock);
      q in t.pages && t.pages[q] == s.pages[q] && prev != Some(q) && (q in t.mru <==> q in s.mru)
  {
    hide And, StoredSubno, OneVersion, Matches, FirstMatch, Remove;
    var (sub, mask) := StoredSubno(pgno, subno, clock);
    FirstMatchIs(s, s.mru, n, pgno, And(sub, mask), mask);
    var k := FirstMatch(s, s.mru, n, pgno, And(sub, mask), mask);
    if k < |s.mru| {
      var p := s.mru[k];
      ReplacedIff(s.pages[p], n, pgno, subno, clock);
      OthersStay(s.mru, p, q);
      OthersStay([p] + Remove(s.mru, p), p, q);
    }
  }

  lemma {:induction false} OthersStay<T>(m: seq<T>, p: T, q: T)
    requires p != q
    ensures q in Remove(m, p) <==> q in m
  {
    if m != [] && m[0] != p { OthersStay(m[1..], p, q); }
  }

  // ---- Two subpages side by side ----------------------------------------------------------------

  ghost function MatchesIn(s: State, n: CacheNetwork, pgno: int, subno: nat, mask: nat): CachePage -> bool {
    (p: CachePage) => p in s.pages && Matches(s.pages[p], n, pgno, subno, mask)
  }

  ghost function Head<T>(q: seq<T>): Option<T> {
    if q == [] then None else Some(q[0])
  }

  /** A lookup finds the first of the matching pages. */
  lemma {:induction false} LookupIsHead(s: State, q: seq<CachePage>, n: CacheNetwork, pgno: int, subno: nat, mask: nat)
    ensures var i := FirstMatch(s, q, n, pgno, subno, mask);
      (if i < |q| then Some(q[i]) else None) == Head(Filter(q, MatchesIn(s, n, pgno, subno, mask)))
  {
    hide Matches;
    if q != [] { LookupIsHead(s, q[1..], n, pgno, subno, mask); }
  }

  /** The same pages of a list match before and after, but for a page p at the head and a page q, which do not. */
  lemma SameFound(m: seq<CachePage>, p: CachePage, q: CachePage, f: CachePage -> bool, g: CachePage -> bool)
    requires !g(p) && !f(q)
    requires forall x :: x in m && x != q ==> f(x) == g(x)
    requires Distinct(m)
    ensures Filter([p] + Remove(m, q), g) == Filter(m, f)
  {
    hide Filter, Remove, Distinct;
    FilterAppend([p], Remove(m, q), g);
    assert Filter([p], g) == [] by { FilterNone(p, g); }
    RemoveMembers(m, q);
    FilterExt(Remove(m, q), f, g);
    FilterRemove(m, q, f);
    FilterMembers(m, f);
    RemoveAbsent(Filter(m, f), q);
  }

  lemma FilterNone<T>(x: T, f: T -> bool)
    requires !f(x)
    ensures Filter([x], f) == []
  {}

  /** With enough free memory nothing but the previous version of the page is given up. */
  lemma NothingEvicted(s: State, prev: Option<CachePage>, needed: int)
    requires needed <= s.limit - s.used
    ensures FindMemory(s, prev, needed)
         == Scan(if prev.Some? then [prev.value] else [],
                 s.limit - s.used + (if prev.Some? then Size(s, prev.value) else 0), Enough)
  {
    hide Size, CandidateIn;
    FoundStays(s, prev, needed, 4);
  }

  lemma {:induction false} FoundStays(s: State, prev: Option<CachePage>, needed: int, k: nat)
    requires needed <= s.limit - s.used
    ensures Found(s, prev, needed, k) == Found(s, prev, needed, 0) && Found(s, prev, needed, 0).progress == Enough
  {
    hide Size, CandidateIn;
    if k > 0 { FoundStays(s, prev, needed, k - 1); }
  }

  /** The row is replaced by page p. What is used before all others is p, the rest of the list stays. */
  lemma ReplaceMru(s: State, prev: Option<CachePage>, c: Scan, needed: nat, p: CachePage, r: PageRec)
    requires Consistent(s) && Placed(r, s.nets) && (prev.Some? ==> prev.value in s.prio)
    requires c.row == if prev.Some? then [prev.value] else []
    requires p !in s.pages || (prev == Some(p) && Reuses(c, needed))
    ensures var u := Replace(s, c, needed, p, r);
      && u.mru == [p] + (if prev.Some? then Remove(s.mru, prev.value) else s.mru)
      && u.pages == (if prev.Some? then s.pages - {prev.value} else s.pages)[p := r.(refs := 1)]
  {
    hide Consistent, InsertPage, Size;
    assert c.row != [] ==> c.row[..0] == [];
    if prev.Some? {
      DeletePageKeeps(s, prev.value);
      DropOther(s, prev.value, needed);
      var t := Drop(s, prev.value, if Reuses(c, needed) then needed else Size(s, prev.value));
      assert DeletePages(s, [prev.value]) == DeletePage(s, prev.value);
      NetworkStat(DeletePage(s, prev.value), r.net) by { SameKeys(s, DeletePage(s, prev.value)); }
      InsertNets(t, p, r);
    } else {
      NetworkStat(s, r.net);
      InsertNets(s, p, r);
    }
  }

  /** The cache after storing began: perhaps without a version q of the page in its list, perhaps with that
      at the head and to be replaced. */
  lemma StartShape(s: State, n: CacheNetwork, pgno: nat, subno: nat, clock: bool) returns (q: Option<CachePage>)
    requires pgno < WORD && subno < WORD
    ensures var (t, prev) := PutStart(s, n, pgno, subno, clock);
      && (q.Some? ==> q.value in s.pages && OneVersion(s.pages[q.value], n, pgno, subno, clock))
      && (forall x :: x in s.pages && q != Some(x) ==> x in t.pages && t.pages[x] == s.pages[x])
      && (prev.Some? ==> prev == q && t.pages == s.pages && t.mru == [q.value] + Remove(s.mru, q.value))
      && (prev.None? ==> t.mru == if q.Some? then Remove(s.mru, q.value) else s.mru)
  {
    hide And, StoredSubno, OneVersion, Matches, FirstMatch, PutStart, Remove;
    var (sub, mask) := StoredSubno(pgno, subno, clock);
    FirstMatchIs(s, s.mru, n, pgno, And(sub, mask), mask);
    var i := FirstMatch(s, s.mru, n, pgno, And(sub, mask), mask);
    forall j | 0 <= j < i && s.mru[j] in s.pages ensures !OneVersion(s.pages[s.mru[j]], n, pgno, subno, clock) {
      ReplacedIff(s.pages[s.mru[j]], n, pgno, subno, clock);
    }
    if i < |s.mru| {
      ReplacedIff(s.pages[s.mru[i]], n, pgno, subno, clock);
      FirstReplaced(s, n, pgno, subno, clock, i);
      q := Some(s.mru[i]);
    } else {
      NoneReplaced(s, n, pgno, subno, clock);
      q := None;
    }
  }

  /** The cache after a page was stored without evicting others: it has page p at the head of its list and
      perhaps a version q of that page less. */
  lemma StoredShape(s: State, n: CacheNetwork, pgno: nat, subno: nat, content: Content, clock: bool, m: CachePage)
    returns (q: CachePage)
    requires Inv(s) && n in s.nets && 0x100 <= pgno <= 0x8FF && pgno % 0x100 != 0xFF && subno < WORD
    requires m !in s.pages && PageSize(s.sizes, content) <= s.limit - s.used
    ensures var (u, p) := PutPage(s, n, pgno, subno, content, clock, Some(m));
      && p.Some? && u.mru == [p.value] + Remove(s.mru, q)
      && p.value in u.pages && u.pages[p.value] == Stored(n, pgno, subno, content, clock)
      && (q in s.pages ==> OneVersion(s.pages[q], n, pgno, subno, clock))
      && (forall x :: x in s.mru && x in s.pages && x != q ==> x in u.pages && u.pages[x] == s.pages[x])
  {
    hide Consistent, OneVersion, PutStart, Found, Stored, PageSize, Replace, Size, Remove;
    var o := StartShape(s, n, pgno, subno, clock);
    PutStartKeeps(s, n, pgno, subno, clock);
    var (t, prev) := PutStart(s, n, pgno, subno, clock);
    var needed := PageSize(s.sizes, content);
    NothingEvicted(t, prev, needed);
    var c := FindMemory(t, prev, needed);
    var r := Stored(n, pgno, subno, content, clock);
    StoredPlace(n, pgno, subno, content, clock);
    var p := if Reuses(c, needed) then c.row[0] else m;
    ReplaceMru(t, prev, c, needed, p, r);
    q := if o.Some? then o.value else m;
    if o.Some? { FrontRemoved(s.mru, q); } else { RemoveAbsent(s.mru, m) by { NotListedPage(s, m); } }
  }

  lemma FrontRemoved<T>(m: seq<T>, q: T)
    ensures Remove([q] + Remove(m, q), q) == Remove(m, q)
  {}

  lemma NotListedPage(s: State, p: CachePage)
    requires Inv(s) && p !in s.pages
    ensures p !in s.mru
  {
    hide Counters;
  }

  lemma ListedDistinct(s: State)
    requires Inv(s)
    ensures Distinct(s.mru) && forall p :: p in s.mru ==> p in s.pages
  {
    hide Counters;
  }

  lemma DecimalPage(pgno: nat)
    requires 0x100 <= pgno <= 0x8FF && IsBcd(pgno)
    ensures pgno % 0x100 != 0xFF
  {
    hide IsBcd;
    IsBcdIff(pgno);
    LowestDigit(pgno);
  }

  /** With enough free memory a page can be stored, is found, and every other subpage of it is found as before. */
  lemma SubpagesCoexist(s: State, n: CacheNetwork, pgno: nat, x: nat, y: nat, content: Content, m: CachePage)
    requires Inv(s) && n in s.nets && 0x100 <= pgno <= 0x8FF && IsBcd(pgno) && Subpage(x) && Subpage(y) && x != y
    requires m !in s.pages && PageSize(s.sizes, content) <= s.limit - s.used
    ensures var (u, p) := PutPage(s, n, pgno, y, content, false, Some(m));
      && p.Some? && GetPage(u, n, pgno, y, 0xFF).1 == p
      && GetPage(u, n, pgno, x, 0xFF).1 == GetPage(s, n, pgno, x, 0xFF).1
  {
    hide Inv, PutPage, IsBcd, Stored, StoredSubno, OneVersion, Matches, PageSize, And, FirstMatch, Remove, Distinct,
      Filter, RefPage, PageOk;
    DecimalPage(pgno);
    var q := StoredShape(s, n, pgno, y, content, false, m);
    var (u, p) := PutPage(s, n, pgno, y, content, false, Some(m));
    StoredPlace(n, pgno, y, content, false);
    StoredSubnoValid(pgno, y, false);
    ListedDistinct(s);
    var f, g := MatchesIn(s, n, pgno, x, 0xFF), MatchesIn(u, n, pgno, x, 0xFF);
    assert !f(q) by { if q in s.pages { DifferentSubpage(s.pages[q], n, pgno, x, y); } }
    assert !g(p.value) by { NumberMatches(u.pages[p.value], n, pgno, x); }
    NumberMatches(u.pages[p.value], n, pgno, y);
    SameFound(s.mru, p.value, q, f, g);
    LookupIsHead(s, s.mru, n, pgno, x, 0xFF);
    LookupIsHead(u, u.mru, n, pgno, x, 0xFF);
    FirstMatches(u, n, pgno, y, 0xFF);
  }

  lemma NumberMatches(r: PageRec, n: CacheNetwork, pgno: nat, x: nat)
    ensures Matches(r, n, pgno, x, 0xFF) <==> r.net == n && r.pgno == pgno && r.subno % 0x100 == x % 0x100
  {
    hide And;
    AndMasks(r.subno);
    AndMasks(x);
  }

  lemma DifferentSubpage(r: PageRec, n: CacheNetwork, pgno: nat, x: nat, y: nat)
    requires pgno < WORD && IsBcd(pgno) && Subpage(x) && Subpage(y) && x != y && OneVersion(r, n, pgno, y, false)
    ensures !Matches(r, n, pgno, x, 0xFF)
  {
    hide Matches, IsBcd;
    NumberMatches(r, n, pgno, x);
  }
}
