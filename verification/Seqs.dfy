/** Sequences as the contents of lists: removal, filtering and sums. */
module Seqs {

  predicate Distinct<T(==)>(q: seq<T>) {
    forall i, j :: 0 <= i < j < |q| ==> q[i] != q[j]
  }

  lemma {:induction false} DistinctAt<T>(q: seq<T>, i: nat, j: nat)
    requires Distinct(q) && i < j < |q|
    ensures q[i] != q[j]
  {
    if i > 0 {
      DistinctAt(q[1..], i - 1, j - 1);
    } else {
      assert q[j] == q[1..][j - 1];
    }
  }

  /** r lists the elements of q except x. */
  ghost predicate IsWithout<T>(q: seq<T>, x: T, r: seq<T>) {
    Distinct(r) && (forall y :: y in r ==> y in q && y != x) && (forall y :: y in q && y != x ==> y in r)
  }

  /** r lists the elements of q and x. */
  ghost predicate IsWith<T>(q: seq<T>, x: T, r: seq<T>) {
    Distinct(r) && x in r && (forall y :: y in r ==> y in q || y == x) && (forall y :: y in q ==> y in r)
  }

  /** Adds x at the end of a list, or at its head. */
  lemma {:induction false} AddMember<T>(q: seq<T>, x: T)
    requires Distinct(q) && x !in q
    ensures IsWith(q, x, q + [x]) && IsWith(q, x, [x] + q)
  {
    assert ([x] + q)[1..] == q;
    if q != [] {
      AddMember(q[1..], x);
      assert (q + [x])[1..] == q[1..] + [x];
    } else {
      assert q + [x] == [x];
      assert [x][1..] == [];
    }
  }

  /** q without its first occurrence of x. */
  function Remove<T(==)>(q: seq<T>, x: T): seq<T> {
    if q == [] then [] else if q[0] == x then q[1..] else [q[0]] + Remove(q[1..], x)
  }

  ghost function Filter<T>(q: seq<T>, f: T -> bool): seq<T> {
    if q == [] then [] else if f(q[0]) then [q[0]] + Filter(q[1..], f) else Filter(q[1..], f)
  }

  ghost function Sum<T>(q: seq<T>, w: T -> int): int {
    if q == [] then 0 else w(q[0]) + Sum(q[1..], w)
  }

  lemma RemoveAbsent<T>(q: seq<T>, x: T)
    requires x !in q
    ensures Remove(q, x) == q
  {}

  lemma {:induction false} RemoveMembers<T>(q: seq<T>, x: T)
    requires Distinct(q)
    ensures IsWithout(q, x, Remove(q, x))
    ensures |Remove(q, x)| == if x in q then |q| - 1 else |q|
  {
    if q != [] {
      RemoveMembers(q[1..], x);
      assert forall y :: y in q ==> y == q[0] || y in q[1..];
      var r := Remove(q[1..], x);
      if q[0] != x {
        assert Remove(q, x) == [q[0]] + r;
        assert q[0] !in r;
      }
    }
  }

  lemma {:induction false} RemoveAt<T>(q: seq<T>, i: nat)
    requires i < |q| && Distinct(q)
    ensures Remove(q, q[i]) == q[..i] + q[i + 1..]
  {
    if i > 0 {
      DistinctAt(q, 0, i);
      RemoveAt(q[1..], i - 1);
      assert q[1..][..i - 1] == q[1..i] && q[1..][i..] == q[i + 1..];
      assert [q[0]] + (q[1..i] + q[i + 1..]) == q[..i] + q[i + 1..];
    }
  }

  lemma {:induction false} FilterMembers<T>(q: seq<T>, f: T -> bool)
    ensures forall y :: y in Filter(q, f) ==> y in q && f(y)
    ensures forall y :: y in q && f(y) ==> y in Filter(q, f)
    ensures Distinct(q) ==> Distinct(Filter(q, f))
    ensures |Filter(q, f)| <= |q|
  {
    if q != [] {
      FilterMembers(q[1..], f);
      assert forall y :: y in q ==> y == q[0] || y in q[1..];
    }
  }

  lemma {:induction false} FilterAppend<T>(q: seq<T>, r: seq<T>, f: T -> bool)
    ensures Filter(q + r, f) == Filter(q, f) + Filter(r, f)
  {
    if q == [] {
      assert q + r == r;
    } else {
      FilterAppend(q[1..], r, f);
      assert (q + r)[1..] == q[1..] + r && (q + r)[0] == q[0];
      if f(q[0]) {
        assert [q[0]] + (Filter(q[1..], f) + Filter(r, f)) == ([q[0]] + Filter(q[1..], f)) + Filter(r, f);
      }
    }
  }

  lemma {:induction false} FilterRemove<T>(q: seq<T>, x: T, f: T -> bool)
    ensures Filter(Remove(q, x), f) == Remove(Filter(q, f), x)
  {
    if q != [] {
      FilterRemove(q[1..], x, f);
      if q[0] == x {
        if !f(x) {
          FilterMembers(q[1..], f);
          RemoveAbsent(Filter(q[1..], f), x);
        }
      } else {
        assert ([q[0]] + Remove(q[1..], x))[1..] == Remove(q[1..], x);
      }
    }
  }

  lemma {:induction false} FilterExt<T>(q: seq<T>, f: T -> bool, g: T -> bool)
    requires forall x :: x in q ==> f(x) == g(x)
    ensures Filter(q, f) == Filter(q, g)
  {
    if q != [] {
      FilterExt(q[1..], f, g);
    }
  }

  lemma {:induction false} SumAppend<T>(q: seq<T>, r: seq<T>, w: T -> int)
    ensures Sum(q + r, w) == Sum(q, w) + Sum(r, w)
  {
    if q == [] {
      assert q + r == r;
    } else {
      SumAppend(q[1..], r, w);
      assert (q + r)[1..] == q[1..] + r;
    }
  }

  lemma {:induction false} SumRemove<T>(q: seq<T>, x: T, w: T -> int)
    requires x in q
    ensures Sum(Remove(q, x), w) == Sum(q, w) - w(x)
  {
    if q[0] != x {
      SumRemove(q[1..], x, w);
      assert ([q[0]] + Remove(q[1..], x))[1..] == Remove(q[1..], x);
    }
  }

  lemma {:induction false} SumExt<T>(q: seq<T>, v: T -> int, w: T -> int)
    requires forall x :: x in q ==> v(x) == w(x)
    ensures Sum(q, v) == Sum(q, w)
  {
    if q != [] {
      SumExt(q[1..], v, w);
    }
  }

  lemma {:induction false} SumNonNegative<T>(q: seq<T>, w: T -> int)
    requires forall x :: x in q ==> w(x) >= 0
    ensures Sum(q, w) >= 0
  {
    if q != [] {
      SumNonNegative(q[1..], w);
    }
  }

  /** A list without repetitions has as many elements as its set. */
  lemma {:induction false} DistinctCount<T>(q: seq<T>, s: set<T>)
    requires Distinct(q) && (forall x :: x in s ==> x in q) && (forall x :: x in q ==> x in s)
    ensures |q| == |s|
  {
    if q == [] {
      assert s == {};
    } else {
      assert forall x :: x in q ==> x == q[0] || x in q[1..];
      DistinctCount(q[1..], s - {q[0]});
    }
  }

  lemma {:induction false} DistinctFront<T>(q: seq<T>)
    requires Distinct(q) && q != []
    ensures Distinct(q[..|q| - 1]) && q[|q| - 1] !in q[..|q| - 1]
  {
    if |q| > 1 {
      DistinctFront(q[1..]);
      assert q[1..][..|q| - 2] == q[..|q| - 1][1..];
      assert q[1..][|q| - 2] == q[|q| - 1];
      DistinctAt(q, 0, |q| - 1);
    }
  }
}
