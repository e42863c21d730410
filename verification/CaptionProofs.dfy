/** What every command keeps on a channel of the caption decoder, and what the commands which
    scroll, move and erase do to the screen. */
module CaptionProofs {
  import opened CaptionState
  import opened Common

  /** The commands which the decoder gives. */
  predicate OpOk(op: Op) {
    && (op.Put? ==> CellOk(op.c) && (op.displayable ==> op.c != 0))
    && (op.Ru? ==> 2 <= op.rows <= 4) && (op.Pac? ==> 0x40 <= op.c2 < 0x80)
  }

  // ---- The cursor row --------------------------------------------------------------

  /** A new cursor row on the active screen, with its dirty bit. */
  lemma RowKeeps(k: Chan, m: Chan, b: nat, line: Row)
    requires Inv(k) && b == Active(k) && k.mode != Unknown && |line| == 33 && RowOk(line)
    requires Formed(m) && m.mode == k.mode && m.shown == k.shown && m.row == k.row && m.window == k.window
      && m.pac == k.pac
    requires m.screen == SetRow(k, b, line).screen && m.dirty[1 - b] == k.dirty[1 - b]
    requires m.dirty[b] == k.dirty[b] + {k.row} || (m.dirty[b] == k.dirty[b] - {k.row} && IsBlank(line))
    ensures Inv(m)
  {
    assert m.screen[1 - b] == k.screen[1 - b] && m.screen[b] == k.screen[b][k.row := line];
    assert Sound(k.screen[b], k.dirty[b]);
    assert Sound(k.screen[1 - b], k.dirty[1 - b]);
    assert CellsOk(k.screen[b]) && CellsOk(k.screen[1 - b]);
    assert Sound(m.screen[b], m.dirty[b]);
    assert CellsOk(m.screen[b]);
    assert b == 0 || b == 1;
  }

  lemma SettleKeeps(k: Chan, m: Chan, b: nat, line: Row)
    requires Inv(k) && b == Active(k) && k.mode != Unknown && |line| == 33 && RowOk(line)
    requires m == k.(column := m.column) && 1 <= m.column <= LAST_COLUMN
    requires IsBlank(line) || k.row in k.dirty[b]
    ensures Inv(Settle(m, b, line))
  {
    assert k.row in k.dirty[b] ==> k.dirty[b] == k.dirty[b] + {k.row};
    RowKeeps(k, Settle(m, b, line), b, line);
  }

  lemma CellKeeps(line: Row, i: nat, c: nat)
    requires i < |line| && RowOk(line) && CellOk(c) && (i == 0 ==> c == 0 || IsPac(c))
    ensures RowOk(line[i := c])
    ensures IsBlank(line) && c == 0 ==> IsBlank(line[i := c])
  {}

  lemma CleanRow(s: Screen, d: set<nat>, r: nat)
    requires Sound(s, d) && r < |s| && r !in d
    ensures IsBlank(s[r])
  {}

  lemma PutKeeps(k: Chan, c: nat, displayable: bool, backspace: bool)
    requires Inv(k) && k.mode != Unknown && CellOk(c) && (displayable ==> c != 0)
    ensures Inv(PutChar(k, c, displayable, backspace))
  {
    hide CellOk, RowOk, Confined, Sound;
    var b, m, column := Active(k), PutChar(k, c, displayable, backspace), PutColumn(k, backspace);
    var line := k.screen[b][k.row];
    assert CellsOk(k.screen[b]) && Sound(k.screen[b], k.dirty[b]);
    CellKeeps(line, column, c);
    if !displayable && c == 0 {
      if k.row !in k.dirty[b] {
        CleanRow(k.screen[b], k.dirty[b], k.row);
      }
      SettleKeeps(k, k.(column := if backspace then k.column else Min(k.column + 1, LAST_COLUMN)), b,
        line[column := 0]);
    } else {
      CellKeeps(line[column := c], column - 1, k.pac);
      RowKeeps(k, m, b, Written(k, c, backspace));
    }
  }

  lemma DeleteKeeps(k: Chan)
    requires Inv(k) && k.mode != Unknown
    ensures Inv(DeleteToEnd(k))
  {
    hide CellOk, IsBlank, Sound, Confined;
    var b := Active(k);
    var line := k.screen[b][k.row];
    assert CellsOk(k.screen[b]);
    if k.row in k.dirty[b] {
      ClearedOk(line, k.column);
      SettleKeeps(k, k, b, ClearedFrom(line, k.column));
    }
  }

  lemma ClearedOk(line: Row, column: nat)
    requires RowOk(line)
    ensures RowOk(ClearedFrom(line, column))
  {}

  lemma NotClean(s: Screen, d: set<nat>, r: nat, i: nat)
    requires Sound(s, d) && r < |s| && 1 <= i < |s[r]| && s[r][i] != 0
    ensures r in d
  {
    assert !IsBlank(s[r]);
  }

  lemma BackspaceKeeps(k: Chan)
    requires Inv(k) && k.mode != Unknown
    ensures Inv(Backspace(k))
  {
    hide CellOk, RowOk, IsBlank, Sound, Confined;
    var b := Active(k);
    var line := k.screen[b][k.row];
    assert CellsOk(k.screen[b]) && Sound(k.screen[b], k.dirty[b]);
    if 1 < k.column {
      ZeroKeeps(line, k.column - 1);
      ColumnKeeps(k, k.column - 1);
      if line[k.column - 1] != 0 {
        NotClean(k.screen[b], k.dirty[b], k.row, k.column - 1);
        SettleKeeps(k, k.(column := k.column - 1), b, line[k.column - 1 := 0]);
      }
    }
  }

  lemma ColumnKeeps(k: Chan, column: nat)
    requires Inv(k) && 1 <= column <= LAST_COLUMN
    ensures Inv(k.(column := column))
  {}

  lemma ZeroKeeps(line: Row, i: nat)
    requires i < |line| && RowOk(line)
    ensures RowOk(line[i := 0])
  {}

  // ---- Whole screens ---------------------------------------------------------------

  lemma BlankRow()
    ensures IsBlank(BLANK) && RowOk(BLANK)
  {}

  /** A new displayed screen. */
  lemma ScreenKeeps(k: Chan, m: Chan)
    requires Inv(k) && Formed(m) && m.mode == k.mode && m.shown == k.shown && (m.pac == k.pac || m.pac == 0)
    requires m.screen[1 - k.shown] == k.screen[1 - k.shown] && m.dirty[1 - k.shown] == k.dirty[1 - k.shown]
    requires Sound(m.screen[k.shown], m.dirty[k.shown]) && CellsOk(m.screen[k.shown]) && Confined(m)
    requires k.mode != Unknown
    ensures Inv(m)
  {
    assert k.shown == 0 || k.shown == 1;
  }

  /** Rows first to row scroll up, and all other rows are blank. */
  lemma ScrolledKeeps(s: Screen, d: set<nat>, first: nat, row: nat)
    requires FormedScreen(s) && Sound(s, d) && CellsOk(s) && first <= row < ROWS
    requires forall r :: 0 <= r < ROWS && !(first <= r <= row) ==> IsBlank(s[r])
    ensures FormedScreen(Scrolled(s, first, row)) && CellsOk(Scrolled(s, first, row))
    ensures Sound(Scrolled(s, first, row), Shifted(d, 1))
    ensures forall r :: 0 <= r < ROWS && !(first <= r < row) ==> IsBlank(Scrolled(s, first, row)[r])
  {
    hide CellOk, RowOk, IsBlank, IsPac;
    BlankRow();
    forall r: nat | r < ROWS && r !in Shifted(d, 1)
      ensures IsBlank(Scrolled(s, first, row)[r])
    {
      assert !HasBit(d, r, 1);
    }
  }

  lemma CarriageReturnKeeps(k: Chan)
    requires Inv(k)
    ensures Inv(CarriageReturn(k))
  {
    hide CellOk, RowOk, IsBlank, IsPac, Scrolled, Shifted;
    var s, d := Shown(k), k.dirty[k.shown];
    assert Sound(s, d) && CellsOk(s);
    if k.mode == RollUp || (k.mode == Text && k.row == LAST_ROW) {
      if d == {} {
        AllBlank(s);
      } else {
        ScrolledKeeps(s, d, k.row + 1 - (if k.mode == RollUp then WindowRows(k) else ROWS), k.row);
      }
      ScreenKeeps(k, CarriageReturn(k));
    }
  }

  lemma AllBlank(s: Screen)
    requires Sound(s, {})
    ensures forall r :: 0 <= r < |s| ==> IsBlank(s[r])
  {}

  lemma BlankScreen(s: Screen, r: nat)
    requires Sound(s, {}) && r < |s|
    ensures IsBlank(s[r])
  {}

  /** Erasing one of the screens, which is blank afterwards even if nothing had to be done. */
  lemma EraseKeeps(k: Chan, b: nat)
    requires Inv(k) && b < 2
    ensures Inv(EraseMemory(k, b)) && EraseMemory(k, b).dirty == k.dirty[b := {}]
    ensures forall r :: 0 <= r < ROWS ==> IsBlank(EraseMemory(k, b).screen[b][r])
    ensures EraseMemory(k, b).screen[1 - b] == k.screen[1 - b]
  {
    assert b == 0 || b == 1;
    if k.dirty[b] == {} {
      assert Sound(k.screen[b], {});
    }
  }

  /** The rows which a window loses become blank. */
  lemma ResizedKeeps(s: Screen, d: set<nat>, first: nat, after: nat)
    requires FormedScreen(s) && Sound(s, d) && CellsOk(s)
    requires forall r :: 0 <= r < first && r < ROWS ==> IsBlank(s[r])
    ensures var t := ClearedRows(s, first, after);
      && FormedScreen(t) && Sound(t, RowsFrom(d, after)) && CellsOk(t)
      && (forall r :: 0 <= r < after && r < ROWS ==> IsBlank(t[r])) && forall r :: after <= r < ROWS ==> t[r] == s[r]
  {
    hide CellOk, RowOk, IsBlank, IsPac;
    BlankRow();
  }

  lemma ResizeKeeps(k: Chan, rows: nat)
    requires Inv(k) && k.mode == RollUp && 2 <= rows <= 4
    ensures Inv(RollUpCaption(k, rows))
  {
    hide CellOk, RowOk, IsBlank, IsPac, RowsFrom, CellsOk, ClearedRows;
    var m, s, d, after := RollUpCaption(k, rows), Shown(k), k.dirty[k.shown], Min(rows, k.row + 1);
    assert Sound(s, d) && CellsOk(s);
    if d == {} {
      AllBlank(s);
    } else if after < WindowRows(k) {
      ResizedKeeps(s, d, k.row + 1 - WindowRows(k), k.row + 1 - after);
    }
    ScreenKeeps(k, m);
  }

  /** One of the screens was erased, or was blank before. */
  lemma ErasedIs(k: Chan, b: nat)
    requires Formed(k) && b < 2 && Sound(k.screen[b], k.dirty[b]) && CellsOk(k.screen[b])
    ensures var m := EraseMemory(k, b);
      && Formed(m) && m == k.(screen := m.screen, dirty := k.dirty[b := {}]) && m.screen[1 - b] == k.screen[1 - b]
      && Sound(m.screen[b], {}) && CellsOk(m.screen[b])
  {
    hide CellOk, RowOk, IsBlank, IsPac;
    BlankRow();
    assert b == 0 || b == 1;
    if k.dirty[b] == {} { assert k.dirty == k.dirty[b := {}]; }
  }

  /** RUx from pop-on or paint-on mode: both screens are blank, the cursor is on the last row. */
  lemma StartRollUp(k: Chan, rows: nat)
    requires Inv(k) && 2 <= rows <= 4 && (k.mode == PopOn || k.mode == PaintOn)
    ensures Inv(RollUpCaption(k, rows))
    ensures RollUpCaption(k, rows).dirty == [{}, {}]
    ensures forall b, r :: 0 <= b < 2 && 0 <= r < ROWS ==> IsBlank(RollUpCaption(k, rows).screen[b][r])
  {
    hide CellOk, RowOk, IsBlank, IsPac, Sound, CellsOk, EraseMemory;
    assert k.shown == 0 || k.shown == 1;
    var m := k.(mode := RollUp, window := rows, row := LAST_ROW, column := 1);
    ErasedIs(m, k.shown);
    ErasedIs(EraseMemory(m, k.shown), 1 - k.shown);
    var e := RollUpCaption(k, rows);
    assert e.dirty == [{}, {}];
    AllBlank(e.screen[0]);
    AllBlank(e.screen[1]);
  }

  lemma RollUpKeeps(k: Chan, rows: nat)
    requires Inv(k) && 2 <= rows <= 4
    ensures Inv(RollUpCaption(k, rows))
  {
    match k.mode
    case RollUp => ResizeKeeps(k, rows);
    case Unknown =>
      assert Sound(k.screen[k.shown], {});
    case Text =>
    case _ => StartRollUp(k, rows);
  }

  /** Row r after a window has moved, when all rows outside it were blank. */
  lemma MovedAt(s: Screen, row: nat, base: nat, n: nat, r: nat)
    requires FormedScreen(s) && row < ROWS && base < ROWS && n <= row + 1 && n <= base + 1 && r < ROWS
    requires forall q :: 0 <= q < ROWS && !(row - n < q <= row) ==> IsBlank(s[q])
    ensures FormedScreen(Moved(s, row, base, n))
    ensures base - n < r <= base ==> Moved(s, row, base, n)[r] == s[r - base + row]
    ensures !(base - n < r <= base) ==> IsBlank(Moved(s, row, base, n)[r])
    ensures !(base - n < r <= base) && RowOk(s[r]) ==> RowOk(Moved(s, row, base, n)[r])
  {
    hide RowOk, IsBlank;
    BlankRow();
  }

  /** A window of n rows keeps its rows and their dirty bits when it moves. */
  lemma MovedSound(s: Screen, d: set<nat>, row: nat, base: nat, n: nat)
    requires FormedScreen(s) && Sound(s, d) && CellsOk(s) && row < ROWS && base < ROWS && 1 <= n <= row + 1
      && n <= base + 1
    requires forall r :: 0 <= r < ROWS && !(row - n < r <= row) ==> IsBlank(s[r])
    ensures FormedScreen(Moved(s, row, base, n)) && CellsOk(Moved(s, row, base, n))
    ensures Sound(Moved(s, row, base, n), Shifted(d, row - base))
    ensures forall r :: 0 <= r < ROWS && !(base - n < r <= base) ==> IsBlank(Moved(s, row, base, n)[r])
  {
    hide RowOk, IsBlank, Moved;
    MovedAt(s, row, base, n, 0);
    var t, e := Moved(s, row, base, n), Shifted(d, row - base);
    forall r: nat | r < ROWS
      ensures RowOk(t[r]) && (r !in e ==> IsBlank(t[r])) && (!(base - n < r <= base) ==> IsBlank(t[r]))
    {
      MovedAt(s, row, base, n, r);
      assert r !in e ==> !HasBit(d, r, row - base);
    }
  }

  lemma MoveKeeps(k: Chan, base: nat)
    requires Inv(k) && k.mode == RollUp && base < ROWS && k.window <= base + 1
    ensures Inv(MoveWindow(k, base).(row := base))
  {
    hide CellOk, RowOk, IsBlank, IsPac, Moved, Shifted;
    var m, s, d := MoveWindow(k, base).(row := base), Shown(k), k.dirty[k.shown];
    assert Sound(s, d) && CellsOk(s);
    if base != k.row && d != {} {
      MovedSound(s, d, k.row, base, WindowRows(k));
    } else if d == {} {
      forall r | 0 <= r < ROWS
        ensures IsBlank(s[r])
      {
        BlankScreen(s, r);
      }
    }
    ScreenKeeps(k, m);
  }

  lemma PacKeeps(k: Chan, c1: nat, c2: nat)
    requires Inv(k) && 0x40 <= c2 < 0x80
    ensures Inv(PreambleAddress(k, c1, c2))
  {
    var row := PacRow(c1, c2);
    if row >= 0 && k.mode == RollUp {
      MoveKeeps(k, BaseRow(k, row));
    }
  }

  /** Every command the decoder gives keeps the invariant, and a text channel stays one. */
  lemma ApplyKeeps(k: Chan, op: Op)
    requires Inv(k) && Applicable(k, op) && OpOk(op)
    ensures Inv(Apply(k, op)) && (Apply(k, op).mode == Text <==> k.mode == Text)
  {
    hide Inv, PutChar, CarriageReturn, PreambleAddress, DeleteToEnd, Backspace;
    match op
    case Put(c, displayable, backspace) =>
      PutKeeps(k, c, displayable, backspace);
      PutStays(k, c, displayable, backspace);
    case Cr => CarriageReturnKeeps(k); OthersStay(k);
    case Edm => EraseKeeps(k, k.shown);
    case Enm => EraseKeeps(k, 1 - k.shown);
    case Tr => RestartKeeps(k);
    case Der => DeleteKeeps(k); OthersStay(k);
    case Bs => BackspaceKeeps(k); OthersStay(k);
    case Ru(rows) => RollUpKeeps(k, rows);
    case Pac(c1, c2) => PacKeeps(k, c1, c2); PacStays(k, c1, c2);
    case _ => SimpleKeeps(k, op);
  }

  lemma SimpleKeeps(k: Chan, op: Op)
    requires Inv(k) && Applicable(k, op) && (op.Nothing? || op.Tab? || op.Eoc? || op.Rdc? || op.Rcl?)
    ensures Inv(Apply(k, op))
  {}

  lemma RestartKeeps(k: Chan)
    requires Inv(k) && k.mode == Text
    ensures Inv(TextRestart(k))
  {
    EraseKeeps(k, k.shown);
  }

  lemma PutStays(k: Chan, c: nat, displayable: bool, backspace: bool)
    requires Formed(k)
    ensures PutChar(k, c, displayable, backspace).mode == k.mode
  {}

  lemma PacStays(k: Chan, c1: nat, c2: nat)
    requires Formed(k) && (k.mode == RollUp ==> k.window <= ROWS)
    ensures PreambleAddress(k, c1, c2).mode == k.mode
  {}

  lemma OthersStay(k: Chan)
    requires Formed(k) && (k.mode == RollUp ==> 1 <= k.window)
    ensures CarriageReturn(k).mode == DeleteToEnd(k).mode == Backspace(k).mode == k.mode
  {}

  // ---- What the commands do to the screen ------------------------------------------

  /** Cells 1 to 32 of two rows are the same. */
  predicate SameCells(a: Row, b: Row) {
    |a| == |b| && forall i :: 1 <= i < |a| ==> a[i] == b[i]
  }

  lemma BlankSame(a: Row, b: Row)
    requires IsBlank(a) && IsBlank(b) && |a| == |b|
    ensures SameCells(a, b)
  {}

  /** A carriage return drops the top row of the roll-up window, moves the others up by one and
      leaves a blank base row; all else is blank. It does so even when it finds no dirty bit. */
  lemma CarriageReturnRolls(k: Chan)
    requires Inv(k) && k.mode == RollUp
    ensures var m, n := CarriageReturn(k), WindowRows(k);
            && m.row == k.row && m.column == 1 && m.screen[1 - k.shown] == k.screen[1 - k.shown]
            && (forall r :: k.row - n < r < k.row ==> SameCells(Shown(m)[r], Shown(k)[r + 1]))
            && (forall r :: 0 <= r < ROWS && !(k.row - n < r < k.row) ==> IsBlank(Shown(m)[r]))
  {
    hide IsBlank, SameCells, CellOk, RowOk;
    BlankRow();
    var m, n, s := CarriageReturn(k), WindowRows(k), Shown(k);
    forall r | 0 <= r < ROWS
      ensures k.row - n < r < k.row ==> SameCells(Shown(m)[r], s[r + 1])
      ensures !(k.row - n < r < k.row) ==> IsBlank(Shown(m)[r])
    {
      if k.dirty[k.shown] == {} {
        BlankScreen(s, r);
        if r < k.row {
          BlankScreen(s, r + 1);
          BlankSame(s[r], s[r + 1]);
        }
      } else if k.row - n < r < k.row {
        SameRow(s[r + 1]);
      }
    }
  }

  lemma SameRow(a: Row)
    ensures SameCells(a, a)
  {}

  /** On a text channel the cursor moves down until it is on the last row, then all rows move up. */
  lemma CarriageReturnInText(k: Chan)
    requires Inv(k) && k.mode == Text
    ensures var m := CarriageReturn(k);
            && m.column == 1 && m.row == Min(k.row + 1, LAST_ROW)
            && (k.row < LAST_ROW ==> m.screen == k.screen && m.dirty == k.dirty)
            && (k.row == LAST_ROW ==>
                  IsBlank(Shown(m)[LAST_ROW])
                  && forall r :: 0 <= r < LAST_ROW ==> SameCells(Shown(m)[r], Shown(k)[r + 1]))
  {
    hide IsBlank, SameCells, CellOk, RowOk;
    BlankRow();
    var m, s := CarriageReturn(k), Shown(k);
    if k.row == LAST_ROW {
      forall r | 0 <= r < LAST_ROW
        ensures SameCells(Shown(m)[r], s[r + 1])
      {
        if k.dirty[k.shown] == {} {
          BlankScreen(s, r);
          BlankScreen(s, r + 1);
          BlankSame(s[r], s[r + 1]);
        } else {
          SameRow(s[r + 1]);
        }
      }
      if k.dirty[k.shown] == {} {
        BlankScreen(s, LAST_ROW);
      }
    }
  }

  /** Dirty bits are not exact: the row above the window is blank after a carriage return, but
      its bit is set if and only if the top row of the window was dirty. */
  lemma StaleBit(k: Chan)
    requires Inv(k) && k.mode == RollUp && k.window <= k.row
    ensures var m, above := CarriageReturn(k), k.row - k.window;
            IsBlank(Shown(m)[above]) && (above in m.dirty[k.shown] <==> above + 1 in k.dirty[k.shown])
  {
    var d, above := k.dirty[k.shown], k.row - k.window;
    assert HasBit(d, above, 1) <==> above + 1 in d;
    CarriageReturnRolls(k);
  }

  /** A channel with the letter A on row 13, the top row of its window of two, and its bit set. */
  function TopRowWritten(): Chan {
    Chan([seq(ROWS, r => if r == 13 then BLANK[1 := 0x41] else BLANK), seq(ROWS, r => BLANK)],
         [{13}, {}], 0, 14, 1, 2, 0, 0, RollUp)
  }

  /** A carriage return leaves a blank row 12 with its bit set. */
  lemma StaleBitLeft()
    ensures Inv(TopRowWritten())
    ensures var m := CarriageReturn(TopRowWritten()); IsBlank(Shown(m)[12]) && 12 in m.dirty[m.shown]
  {
    var k := TopRowWritten();
    BlankRow();
    CellKeeps(BLANK, 1, 0x41);
    assert k.screen[0][13] == BLANK[1 := 0x41];
    StaleBit(k);
  }

  /** The n rows above and including row are those above and including base now, and all else is
      blank. */
  ghost predicate MovedAsUnit(s: Screen, row: nat, t: Screen, base: nat, n: nat)
    requires FormedScreen(s) && FormedScreen(t) && row < ROWS && base < ROWS && n <= row + 1
  {
    && (forall r :: 0 <= r < ROWS && base - n < r <= base ==> SameCells(t[r], s[r - base + row]))
    && (forall r :: 0 <= r < ROWS && !(base - n < r <= base) ==> IsBlank(t[r]))
  }

  lemma MovedIsUnit(s: Screen, row: nat, base: nat, n: nat)
    requires FormedScreen(s) && row < ROWS && base < ROWS && n <= row + 1 && n <= base + 1
    requires forall r :: 0 <= r < ROWS && !(row - n < r <= row) ==> IsBlank(s[r])
    ensures FormedScreen(Moved(s, row, base, n)) && MovedAsUnit(s, row, Moved(s, row, base, n), base, n)
  {
    hide IsBlank, SameCells, RowOk, Moved;
    MovedAt(s, row, base, n, 0);
    forall r | 0 <= r < ROWS
      ensures base - n < r <= base ==> SameCells(Moved(s, row, base, n)[r], s[r - base + row])
      ensures !(base - n < r <= base) ==> IsBlank(Moved(s, row, base, n)[r])
    {
      MovedAt(s, row, base, n, r);
      if base - n < r <= base { SameRow(s[r - base + row]); }
    }
  }

  /** A preamble address code moves the window as a unit to the row it names, or to the first one
      where the whole window is on the screen. */
  lemma PacMovesWindow(k: Chan, c1: nat, c2: nat)
    requires Inv(k) && k.mode == RollUp && PacRow(c1, c2) >= 0
    ensures Formed(PreambleAddress(k, c1, c2))
    ensures var m := PreambleAddress(k, c1, c2);
            && m.row == (if k.window <= PacRow(c1, c2) + 1 then PacRow(c1, c2) else k.window - 1)
            && MovedAsUnit(Shown(k), k.row, Shown(m), m.row, WindowRows(k))
            && m.screen[1 - k.shown] == k.screen[1 - k.shown]
  {
    hide IsBlank, SameCells, CellOk, RowOk, Moved;
    var m, n, s, base := PreambleAddress(k, c1, c2), WindowRows(k), Shown(k), BaseRow(k, PacRow(c1, c2));
    if base == k.row || k.dirty[k.shown] == {} {
      assert Shown(m) == s;
      forall r | 0 <= r < ROWS
        ensures SameCells(s[r], s[r]) && (k.dirty[k.shown] == {} ==> IsBlank(s[r]))
      {
        SameRow(s[r]);
        if k.dirty[k.shown] == {} {
          BlankScreen(s, r);
        }
      }
      forall r | 0 <= r < ROWS && base - n < r <= base
        ensures SameCells(s[r], s[r - base + k.row])
      {
        if base != k.row {
          BlankSame(s[r], s[r - base + k.row]);
        }
      }
    } else {
      MovedIsUnit(s, k.row, base, n);
    }
  }

  /** A backspace after a character clears its cell in the row which was written. */
  lemma PutTakenBack(k: Chan, c: nat)
    requires Formed(k) && c != 0 && k.column < LAST_COLUMN
    ensures Formed(PutChar(k, c, true, false))
    ensures var b := Active(k);
      Backspace(PutChar(k, c, true, false))
      == Settle(k.(upper := Counted(k.upper, c), dirty := k.dirty[b := k.dirty[b] + {k.row}]), b,
        Written(k, c, false)[k.column := 0])
  {
    hide IsBlank, Counted;
    var b, m := Active(k), PutChar(k, c, true, false);
    var line := m.screen[b][k.row];
    assert line == Written(k, c, false) && line[k.column] == c;
    var back: Row := line[k.column := 0];
    assert m.screen[b] == k.screen[b][k.row := line] && m.screen[b][k.row := back] == k.screen[b][k.row := back];
    assert m.screen[b := m.screen[b][k.row := back]] == k.screen[b := k.screen[b][k.row := back]];
    var d := k.dirty[b] + {k.row};
    assert k.dirty[b := d][b := d - {k.row}] == k.dirty[b := d - {k.row}];
  }

  /** Backspace takes back a character written to a free cell which has one to its left: the
      channel is as before, if the dirty bit of the row was right. */
  lemma BackspaceUndoesPut(k: Chan, c: nat)
    requires Inv(k) && k.mode != Unknown && 0x20 <= c < 0x80 && k.column < LAST_COLUMN
    requires k.screen[Active(k)][k.row][k.column] == 0 && (k.screen[Active(k)][k.row][k.column - 1] != 0 || k.pac == 0)
    ensures var m := Backspace(PutChar(k, c, true, false));
            && m == k.(screen := m.screen, dirty := m.dirty, upper := m.upper)
            && m.screen[Active(k)][k.row][1..] == k.screen[Active(k)][k.row][1..]
            && (forall r :: 0 <= r < ROWS && r != k.row ==> m.screen[Active(k)][r] == k.screen[Active(k)][r])
            && m.screen[1 - Active(k)] == k.screen[1 - Active(k)]
            && (m.dirty == k.dirty <==> (k.row in k.dirty[Active(k)] ==> !IsBlank(k.screen[Active(k)][k.row])))
  {
    hide CellsOk, Confined, Counted, PutChar, Backspace, Sound, IsBlank;
    var b := Active(k);
    var line, back, d := k.screen[b][k.row], Written(k, c, false)[k.column := 0], k.dirty[b];
    PutTakenBack(k, c);
    assert SameCells(back, line);
    SameBlank(back, line);
    if k.row in d {
      assert d + {k.row} == d;
    } else {
      CleanRow(k.screen[b], d, k.row);
      assert d + {k.row} - {k.row} == d;
    }
    assert k.dirty[b := d] == k.dirty;
  }

  lemma SameBlank(a: Row, b: Row)
    requires SameCells(a, b)
    ensures IsBlank(a) <==> IsBlank(b)
  {}

  /** The commands which may change what a channel in pop-on mode displays. */
  predicate Displays(op: Op) {
    op == Edm || op == Eoc || op.Ru?
  }

  /** Characters written one after the other. */
  function Typed(k: Chan, w: seq<nat>): Chan
    requires Formed(k)
    ensures Formed(Typed(k, w)) && Typed(k, w).mode == k.mode && Typed(k, w).shown == k.shown
      && Typed(k, w).row == k.row
    decreases |w|
  {
    if w == [] then k else Typed(PutChar(k, w[0], true, false), w[1..])
  }

  function LineOf(k: Chan): Row
    requires Formed(k)
  {
    k.screen[Active(k)][k.row]
  }

  /** One character: it is in the cell at the cursor, the last PAC is to its left if that cell was
      free, and all other cells of the row are as before. */
  lemma PutShows(k: Chan, c: nat)
    requires Formed(k) && c != 0
    ensures Formed(PutChar(k, c, true, false))
    ensures var m := PutChar(k, c, true, false);
            && m.column == Min(k.column + 1, LAST_COLUMN) && m.mode == k.mode && m.shown == k.shown && m.row == k.row
            && m.pac == k.pac
            && LineOf(m)[k.column] == c && LineOf(m)[k.column + 1..] == LineOf(k)[k.column + 1..]
            && LineOf(m)[..k.column - 1] == LineOf(k)[..k.column - 1]
            && LineOf(m)[k.column - 1] == (if k.column == 1 || LineOf(k)[k.column - 1] == 0 then k.pac
              else LineOf(k)[k.column - 1])
            && k.row in m.dirty[Active(k)]
  {}

  /** A word w begins at the column, with the PAC to its left if that cell was free. */
  ghost predicate HasWord(line: Row, was: Row, column: nat, w: seq<nat>, pac: nat)
    requires |line| == |was| && 1 <= column && column + |w| <= |was|
  {
    && line[column..column + |w|] == w && line[column + |w|..] == was[column + |w|..]
    && line[..column - 1] == was[..column - 1]
    && line[column - 1] == if w != [] && (column == 1 || was[column - 1] == 0) then pac else was[column - 1]
  }

  lemma WordGrows(line: Row, next: Row, was: Row, column: nat, w: seq<nat>, pac: nat)
    requires |line| == |next| == |was| && 1 <= column && column + |w| <= |was| && w != [] && w[0] != 0
    requires HasWord(next, was, column, w[..1], pac) && HasWord(line, next, column + 1, w[1..], pac)
    ensures HasWord(line, was, column, w, pac)
  {
    var n := |w|;
    assert w[..1] == [w[0]] && next[column] == next[column..column + 1][0] == w[0];
    assert line[column] == next[column];
    TakeTake(line, next, column, column - 1);
    assert line[column..column + n] == [line[column]] + line[column + 1..column + n];
    assert [w[0]] + w[1..] == w;
    assert next[column + n..] == was[column + n..] by { DropSame(next, was, column + 1, column + n); }
  }

  lemma TakeTake(a: Row, b: Row, n: nat, i: nat)
    requires i < n <= |a| && n <= |b| && a[..n] == b[..n]
    ensures a[..i] == b[..i] && a[i] == b[i]
  {
    assert a[..n][..i] == b[..n][..i] && a[..n][i] == b[..n][i];
  }

  lemma DropSame(a: Row, b: Row, n: nat, m: nat)
    requires n <= m <= |a| == |b| && a[n..] == b[n..]
    ensures a[m..] == b[m..]
  {
    assert a[n..][m - n..] == b[n..][m - n..];
  }

  /** A word which fits on the row is found there, and the cells after it are as before. */
  lemma {:induction false} TypedShows(k: Chan, w: seq<nat>)
    requires Formed(k) && k.column + |w| <= LAST_COLUMN + 1 && forall i :: 0 <= i < |w| ==> w[i] != 0
    ensures Typed(k, w).column == Min(k.column + |w|, LAST_COLUMN)
    ensures HasWord(LineOf(Typed(k, w)), LineOf(k), k.column, w, k.pac)
    decreases |w|
  {
    hide PutChar;
    if w != [] {
      var m := PutChar(k, w[0], true, false);
      PutShows(k, w[0]);
      assert w[..1] == [w[0]] && HasWord(LineOf(m), LineOf(k), k.column, w[..1], k.pac);
      if |w| > 1 {
        TypedShows(m, w[1..]);
        hide HasWord;
        WordGrows(LineOf(Typed(m, w[1..])), LineOf(m), LineOf(k), k.column, w, k.pac);
      } else {
        assert w == [w[0]] && w[1..] == [];
        assert Typed(k, w) == m;
      }
    }
  }

  /** The channel displays the same screen as before. */
  predicate DisplaysSame(k: Chan, m: Chan)
    requires Formed(k)
  {
    m.shown == k.shown && |m.screen| == 2 && m.screen[k.shown] == Shown(k)
  }

  lemma PutHidden(k: Chan, c: nat, displayable: bool, backspace: bool)
    requires Formed(k) && k.mode == PopOn
    ensures DisplaysSame(k, PutChar(k, c, displayable, backspace))
  {
    hide IsBlank;
  }

  lemma EditHidden(k: Chan)
    requires Formed(k) && k.mode == PopOn
    ensures DisplaysSame(k, DeleteToEnd(k)) && DisplaysSame(k, Backspace(k))
      && DisplaysSame(k, EraseMemory(k, 1 - k.shown))
    ensures EraseMemory(k, 1 - k.shown).mode == PopOn
  {
    hide IsBlank;
  }

  lemma PacHidden(k: Chan, c1: nat, c2: nat)
    requires Formed(k) && k.mode == PopOn
    ensures DisplaysSame(k, PreambleAddress(k, c1, c2)) && PreambleAddress(k, c1, c2).mode == PopOn
  {}

  lemma ReturnHidden(k: Chan)
    requires Formed(k) && k.mode == PopOn
    ensures CarriageReturn(k) == k
  {}

  /** In pop-on mode characters are not seen: the displayed screen changes through EDM, EOC and
      RUx only. Only RUx and RDC end the mode. */
  lemma PopOnIsolates(k: Chan, op: Op)
    requires Inv(k) && Applicable(k, op) && k.mode == PopOn && !Displays(op)
    ensures DisplaysSame(k, Apply(k, op))
    ensures op != Rdc ==> Apply(k, op).mode == PopOn
  {
    hide PutChar, DeleteToEnd, Backspace, EraseMemory, PreambleAddress, CarriageReturn, Inv;
    match op
    case Put(c, displayable, backspace) =>
      PutHidden(k, c, displayable, backspace);
      PutStays(k, c, displayable, backspace);
    case Pac(c1, c2) => PacHidden(k, c1, c2);
    case Nothing | Tab(_) | Rdc | Rcl | Eoc | Edm | Tr | Ru(_) =>
    case _ =>
      EditHidden(k);
      OthersStay(k);
      ReturnHidden(k);
  }

  /** EOC displays what was loaded, and keeps what was displayed for the next one. */
  lemma EndOfCaptionFlips(k: Chan)
    requires Inv(k) && k.mode == PopOn
    ensures Shown(EndOfCaption(k)) == k.screen[Active(k)] && EndOfCaption(EndOfCaption(k)) == k
  {}
}
