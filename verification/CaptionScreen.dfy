/** The screens of a caption channel as they lie in memory: two times fifteen rows of 33 cells in
    one array, of which parts are moved and cleared (src/cc608_decoder.c). */
module CaptionScreen {
  import opened CaptionState

  const CELLS := 990

  /** The index of a cell. */
  function At(b: nat, r: nat, i: nat): nat {
    b * 495 + r * 33 + i
  }

  function RowAt(a: seq<nat>, b: nat, r: nat): Row
    requires |a| == CELLS && b < 2 && r < ROWS
  {
    a[At(b, r, 0)..At(b, r, 33)]
  }

  function ScreenAt(a: seq<nat>, b: nat): Screen
    requires |a| == CELLS && b < 2
  {
    seq(ROWS, r requires 0 <= r < ROWS => RowAt(a, b, r))
  }

  function Screens(a: seq<nat>): (s: seq<Screen>)
    requires |a| == CELLS
    ensures |s| == 2 && FormedScreen(s[0]) && FormedScreen(s[1])
  {
    [ScreenAt(a, 0), ScreenAt(a, 1)]
  }

  lemma RowsAre(a: seq<nat>, b: nat)
    requires |a| == CELLS && b < 2
    ensures forall r :: 0 <= r < ROWS ==> Screens(a)[b][r] == RowAt(a, b, r)
  {}

  lemma CellAt(a: seq<nat>, b: nat, r: nat, i: nat)
    requires |a| == CELLS && b < 2 && r < ROWS && i < 33
    ensures Screens(a)[b][r][i] == a[At(b, r, i)]
  {}

  /** Nothing but the cells of one screen differs. */
  ghost predicate OtherSame(a: seq<nat>, c: seq<nat>, b: nat) {
    |a| == |c| == CELLS && forall i :: 0 <= i < CELLS && !(b * 495 <= i < b * 495 + 495) ==> c[i] == a[i]
  }

  lemma ScreenWritten(a: seq<nat>, c: seq<nat>, b: nat, t: Screen)
    requires b < 2 && OtherSame(a, c, b) && |t| == ROWS && forall r :: 0 <= r < ROWS ==> RowAt(c, b, r) == t[r]
    ensures Screens(c) == Screens(a)[b := t]
  {
    var o := 1 - b;
    forall r | 0 <= r < ROWS
      ensures ScreenAt(c, o)[r] == ScreenAt(a, o)[r]
    {
      assert RowAt(c, o, r) == RowAt(a, o, r);
    }
    assert ScreenAt(c, o) == ScreenAt(a, o);
    assert ScreenAt(c, b) == t;
  }

  /** Cells of one row are written. */
  lemma RowWritten(a: seq<nat>, c: seq<nat>, b: nat, r: nat, line: Row)
    requires |a| == |c| == CELLS && b < 2 && r < ROWS && |line| == 33
    requires forall i :: 0 <= i < CELLS && !(At(b, r, 0) <= i < At(b, r, 33)) ==> c[i] == a[i]
    requires forall i :: 0 <= i < 33 ==> c[At(b, r, i)] == line[i]
    ensures Screens(c) == Screens(a)[b := Screens(a)[b][r := line]]
  {
    var t := Screens(a)[b][r := line];
    forall q | 0 <= q < ROWS
      ensures RowAt(c, b, q) == t[q]
    {
      if q == r {
        forall i | 0 <= i < 33
          ensures RowAt(c, b, q)[i] == line[i]
        {
          assert c[At(b, r, i)] == line[i];
        }
      } else {
        assert RowAt(c, b, q) == RowAt(a, b, q);
      }
    }
    ScreenWritten(a, c, b, t);
  }

  function WithCell(s: seq<Screen>, b: nat, r: nat, i: nat, x: nat): seq<Screen>
    requires |s| == 2 && FormedScreen(s[0]) && FormedScreen(s[1]) && b < 2 && r < ROWS && i < 33
  {
    s[b := s[b][r := s[b][r][i := x]]]
  }

  lemma WithCells(s: seq<Screen>, b: nat, r: nat, i: nat, x: nat, j: nat, y: nat)
    requires |s| == 2 && FormedScreen(s[0]) && FormedScreen(s[1]) && b < 2 && r < ROWS && i < 33 && j < 33
    ensures WithCell(s, b, r, i, x) == s[b := s[b][r := s[b][r][i := x]]]
      && WithCell(s, b, r, i, x)[b][r] == s[b][r][i := x]
    ensures WithCell(WithCell(s, b, r, i, x), b, r, j, y) == s[b := s[b][r := s[b][r][i := x][j := y]]]
  {
    assert FormedScreen(s[b]);
    var line: Row, last: Row := s[b][r][i := x], s[b][r][i := x][j := y];
    var t: Screen := s[b][r := line];
    assert t[r] == line && t[r := last] == s[b][r := last];
    assert WithCell(s, b, r, i, x)[b] == t;
    assert s[b := t][b := t[r := last]] == s[b := t[r := last]];
  }

  lemma CellWritten(a: seq<nat>, b: nat, r: nat, i: nat, x: nat)
    requires |a| == CELLS && b < 2 && r < ROWS && i < 33
    ensures Screens(a[At(b, r, i) := x]) == WithCell(Screens(a), b, r, i, x)
  {
    hide RowAt, ScreenAt, Screens, At;
    InRow(b, r, i);
    RowBounds(b, r);
    var c := a[At(b, r, i) := x];
    var line: Row := Screens(a)[b][r][i := x];
    forall k | 0 <= k < CELLS && !(At(b, r, 0) <= k < At(b, r, 33)) ensures c[k] == a[k] { InRow(b, r, i); }
    forall j | 0 <= j < 33 ensures c[At(b, r, j)] == line[j] {
      CellAt(a, b, r, j);
      Apart(b, r, i, j);
    }
    RowWritten(a, c, b, r, line);
  }

  lemma InRow(b: nat, r: nat, i: nat)
    requires b < 2 && r < ROWS && i < 33
    ensures At(b, r, 0) <= At(b, r, i) < At(b, r, 33) <= CELLS
  {}

  lemma RowBounds(b: nat, r: nat)
    requires b < 2 && r < ROWS
    ensures forall j :: 0 <= j < 33 ==> At(b, r, 0) <= At(b, r, j) < CELLS
  {}

  lemma Apart(b: nat, r: nat, i: nat, j: nat)
    ensures At(b, r, i) == At(b, r, j) <==> i == j
  {}

  /** memmove: the places may overlap. */
  method MemMove(a: array<nat>, dest: nat, source: nat, n: nat)
    requires dest + n <= a.Length && source + n <= a.Length
    modifies a
    ensures forall i :: dest <= i < dest + n ==> a[i] == old(a[i - dest + source])
    ensures forall i :: 0 <= i < a.Length && !(dest <= i < dest + n) ==> a[i] == old(a[i])
  {
    if dest < source {
      var k := 0;
      while k < n
        invariant 0 <= k <= n
        invariant forall i :: 0 <= i < a.Length ==>
          a[i] == if dest <= i < dest + k then old(a[i - dest + source]) else old(a[i])
      {
        a[dest + k] := a[source + k];
        k := k + 1;
      }
    } else {
      var k := n;
      while k > 0
        invariant 0 <= k <= n
        invariant forall i :: 0 <= i < a.Length ==>
          a[i] == if dest + k <= i < dest + n then old(a[i - dest + source]) else old(a[i])
      {
        k := k - 1;
        a[dest + k] := a[source + k];
      }
    }
  }

  /** memset with zero */
  method MemClear(a: array<nat>, from: nat, n: nat)
    requires from + n <= a.Length
    modifies a
    ensures forall i :: 0 <= i < a.Length ==> a[i] == if from <= i < from + n then 0 else old(a[i])
  {
    var k := 0;
    while k < n
      invariant 0 <= k <= n
      invariant forall i :: 0 <= i < a.Length ==> a[i] == if from <= i < from + k then 0 else old(a[i])
    {
      a[from + k] := 0;
      k := k + 1;
    }
  }

  // ---- Rows which are moved and cleared --------------------------------------------

  /** c is a with n rows moved from source to dest. */
  ghost predicate IsMoved(a: seq<nat>, c: seq<nat>, b: nat, dest: nat, source: nat, n: nat) {
    && |a| == |c| == CELLS && b < 2 && dest + n <= ROWS && source + n <= ROWS
    && (forall i :: At(b, dest, 0) <= i < At(b, dest + n, 0) ==> c[i] == a[i - At(b, dest, 0) + At(b, source, 0)])
    && (forall i :: 0 <= i < CELLS && !(At(b, dest, 0) <= i < At(b, dest + n, 0)) ==> c[i] == a[i])
  }

  /** c is a with the rows from first up to but not including end cleared. */
  ghost predicate IsCleared(a: seq<nat>, c: seq<nat>, b: nat, first: nat, end: nat) {
    && |a| == |c| == CELLS && b < 2 && first <= end <= ROWS
    && forall i :: 0 <= i < CELLS ==> c[i] == if At(b, first, 0) <= i < At(b, end, 0) then 0 else a[i]
  }

  /** Moves n rows from source to dest. */
  method MoveRows(a: array<nat>, b: nat, dest: nat, source: nat, n: nat)
    requires a.Length == CELLS && b < 2 && dest + n <= ROWS && source + n <= ROWS
    modifies a
    ensures IsMoved(old(a[..]), a[..], b, dest, source, n)
  {
    ghost var s, d, o := a[..], At(b, dest, 0), At(b, source, 0);
    assert d + n * 33 == At(b, dest + n, 0) <= CELLS && o + n * 33 == At(b, source + n, 0) <= CELLS;
    MemMove(a, At(b, dest, 0), At(b, source, 0), n * 33);
    hide At;
    forall i | d <= i < d + n * 33
      ensures a[i] == s[i - d + o]
    {}
    assert forall i :: 0 <= i < CELLS && !(d <= i < d + n * 33) ==> a[i] == s[i];
  }

  /** Clears the rows from first up to but not including end. */
  method ClearRows(a: array<nat>, b: nat, first: nat, end: nat)
    requires a.Length == CELLS && b < 2 && first <= end <= ROWS
    modifies a
    ensures IsCleared(old(a[..]), a[..], b, first, end)
  {
    MemClear(a, At(b, first, 0), (end - first) * 33);
  }

  lemma RowIsMoved(a: seq<nat>, c: seq<nat>, b: nat, dest: nat, source: nat, n: nat, r: nat)
    requires IsMoved(a, c, b, dest, source, n) && dest <= r < dest + n
    ensures RowAt(c, b, r) == RowAt(a, b, r - dest + source)
  {
    var q := r - dest + source;
    forall i | 0 <= i < 33
      ensures RowAt(c, b, r)[i] == RowAt(a, b, q)[i]
    {
      var k := At(b, r, i);
      assert k - At(b, dest, 0) + At(b, source, 0) == At(b, q, i);
      assert At(b, dest, 0) <= k < At(b, dest + n, 0);
      assert c[k] == a[At(b, q, i)];
    }
  }

  lemma RowNotMoved(a: seq<nat>, c: seq<nat>, b: nat, dest: nat, source: nat, n: nat, r: nat)
    requires IsMoved(a, c, b, dest, source, n) && r < ROWS && !(dest <= r < dest + n)
    ensures RowAt(c, b, r) == RowAt(a, b, r)
  {
    forall i | 0 <= i < 33
      ensures c[At(b, r, i)] == a[At(b, r, i)]
    {
      assert !(At(b, dest, 0) <= At(b, r, i) < At(b, dest + n, 0));
    }
  }

  /** n rows were moved from source to dest. */
  lemma RowsMoved(a: seq<nat>, c: seq<nat>, b: nat, dest: nat, source: nat, n: nat)
    requires |a| == |c| == CELLS && b < 2 && dest + n <= ROWS && source + n <= ROWS && IsMoved(a, c, b, dest, source, n)
    ensures forall r :: dest <= r < dest + n ==> RowAt(c, b, r) == RowAt(a, b, r - dest + source)
    ensures forall r :: 0 <= r < ROWS && !(dest <= r < dest + n) ==> RowAt(c, b, r) == RowAt(a, b, r)
  {
    hide IsMoved, RowAt;
    forall r | dest <= r < dest + n
      ensures RowAt(c, b, r) == RowAt(a, b, r - dest + source)
    {
      RowIsMoved(a, c, b, dest, source, n, r);
    }
    forall r | 0 <= r < ROWS && !(dest <= r < dest + n)
      ensures RowAt(c, b, r) == RowAt(a, b, r)
    {
      RowNotMoved(a, c, b, dest, source, n, r);
    }
  }

  lemma MovedOthers(a: seq<nat>, c: seq<nat>, b: nat, dest: nat, source: nat, n: nat)
    requires IsMoved(a, c, b, dest, source, n)
    ensures OtherSame(a, c, b)
  {}

  /** The rows from first up to but not including end were cleared. */
  lemma RowsCleared(a: seq<nat>, c: seq<nat>, b: nat, first: nat, end: nat)
    requires IsCleared(a, c, b, first, end)
    ensures OtherSame(a, c, b)
    ensures forall r :: 0 <= r < ROWS ==> RowAt(c, b, r) == if first <= r < end then BLANK else RowAt(a, b, r)
  {
    forall r | 0 <= r < ROWS
      ensures RowAt(c, b, r) == if first <= r < end then BLANK else RowAt(a, b, r)
    {
      if first <= r < end {
        forall i | 0 <= i < 33
          ensures RowAt(c, b, r)[i] == 0
        {
          assert c[At(b, r, i)] == 0;
        }
      }
    }
  }

  lemma OtherStill(a: seq<nat>, c: seq<nat>, e: seq<nat>, b: nat)
    requires OtherSame(a, c, b) && OtherSame(c, e, b)
    ensures OtherSame(a, e, b)
  {}

  /** Moving the rows below firstRow up by one and clearing row scrolls the screen. */
  lemma FlatScrolled(s0: seq<nat>, s1: seq<nat>, s2: seq<nat>, b: nat, firstRow: nat, row: nat)
    requires |s0| == |s1| == |s2| == CELLS && b < 2
    requires firstRow <= row < ROWS && IsMoved(s0, s1, b, firstRow, firstRow + 1, row - firstRow)
      && IsCleared(s1, s2, b, row, row + 1)
    ensures Screens(s2) == Screens(s0)[b := Scrolled(Screens(s0)[b], firstRow, row)]
  {
    hide IsMoved, IsCleared, OtherSame, RowAt, At;
    RowsMoved(s0, s1, b, firstRow, firstRow + 1, row - firstRow);
    MovedOthers(s0, s1, b, firstRow, firstRow + 1, row - firstRow);
    RowsCleared(s1, s2, b, row, row + 1);
    OtherStill(s0, s1, s2, b);
    RowsAre(s0, b);
    var t := Scrolled(Screens(s0)[b], firstRow, row);
    forall r | 0 <= r < ROWS
      ensures RowAt(s2, b, r) == t[r]
    {
      assert RowAt(s2, b, r) == if r == row then BLANK else RowAt(s1, b, r);
      if firstRow <= r < row {
        var below := r - firstRow + (firstRow + 1);
        assert RowAt(s1, b, r) == RowAt(s0, b, below) == Screens(s0)[b][below] && below == r + 1;
      } else {
        assert r != row ==> RowAt(s1, b, r) == RowAt(s0, b, r) == Screens(s0)[b][r];
      }
    }
    ScreenWritten(s0, s2, b, t);
  }

  /** The rows which a moved window leaves. */
  function EraseBegin(row: nat, base: nat, n: nat): nat
    requires n <= row + 1
  {
    if base < row then base + 1 else row + 1 - n
  }

  function EraseEnd(row: nat, base: nat, n: nat): nat
    requires n <= base + 1
  {
    if base < row then row + 1 else base + 1 - n
  }

  /** Moving n rows and clearing those which are left moves the window. */
  lemma FlatMoved(s0: seq<nat>, s1: seq<nat>, s2: seq<nat>, b: nat, row: nat, base: nat, n: nat)
    requires |s0| == |s1| == |s2| == CELLS && b < 2
    requires row < ROWS && base < ROWS && row != base && n <= row + 1 && n <= base + 1
    requires IsMoved(s0, s1, b, base + 1 - n, row + 1 - n, n)
    requires IsCleared(s1, s2, b, EraseBegin(row, base, n), EraseEnd(row, base, n))
    ensures Screens(s2) == Screens(s0)[b := Moved(Screens(s0)[b], row, base, n)]
  {
    hide IsMoved, IsCleared, OtherSame, RowAt, At, Screens, ScreenAt;
    RowsMoved(s0, s1, b, base + 1 - n, row + 1 - n, n);
    MovedOthers(s0, s1, b, base + 1 - n, row + 1 - n, n);
    RowsCleared(s1, s2, b, EraseBegin(row, base, n), EraseEnd(row, base, n));
    OtherStill(s0, s1, s2, b);
    RowsAre(s0, b);
    var s := Screens(s0)[b];
    forall r | 0 <= r < ROWS
      ensures RowAt(s2, b, r) == Moved(s, row, base, n)[r]
    {
      MovedRow(s0, s1, s2, b, row, base, n, s, r);
    }
    ScreenWritten(s0, s2, b, Moved(s, row, base, n));
  }

  lemma MovedRow(s0: seq<nat>, s1: seq<nat>, s2: seq<nat>, b: nat, row: nat, base: nat, n: nat, s: Screen, r: nat)
    requires |s0| == |s1| == |s2| == CELLS && b < 2 && FormedScreen(s) && r < ROWS
    requires row < ROWS && base < ROWS && row != base && n <= row + 1 && n <= base + 1
    requires forall k :: 0 <= k < ROWS ==> s[k] == RowAt(s0, b, k)
    requires RowAt(s1, b, r) == RowAt(s0, b, if base - n < r <= base then r - base + row else r)
    requires RowAt(s2, b, r) == if EraseBegin(row, base, n) <= r < EraseEnd(row, base, n) then BLANK
      else RowAt(s1, b, r)
    ensures RowAt(s2, b, r) == Moved(s, row, base, n)[r]
  {
    hide RowAt, At;
  }

  /** Clearing rows of one screen. */
  lemma FlatCleared(s0: seq<nat>, s1: seq<nat>, b: nat, first: nat, end: nat)
    requires |s0| == |s1| == CELLS && b < 2 && IsCleared(s0, s1, b, first, end)
    ensures Screens(s1) == Screens(s0)[b := ClearedRows(Screens(s0)[b], first, end)]
  {
    hide IsCleared, OtherSame, RowAt, At;
    RowsCleared(s0, s1, b, first, end);
    RowsAre(s0, b);
    var t := ClearedRows(Screens(s0)[b], first, end);
    forall r | 0 <= r < ROWS
      ensures RowAt(s1, b, r) == t[r]
    {
      assert RowAt(s1, b, r) == if first <= r < end then BLANK else RowAt(s0, b, r);
    }
    ScreenWritten(s0, s1, b, t);
  }
}
