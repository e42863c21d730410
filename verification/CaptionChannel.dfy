/** A channel of the caption decoder, updated in place (src/cc608_decoder.c): every command is
    proved to do what its function in CaptionState says, although it writes, moves and clears
    parts of one array of cells. */
module CaptionChannel {
  import opened CaptionScreen
  import opened CaptionState
  import S = CaptionState

  class Channel {
    const buffer: array<nat>
    var dirty: seq<set<nat>>
    var displayedBuffer: nat
    var currRow: nat
    var currColumn: nat
    var windowRows: nat
    var lastPac: nat
    var uppercasePredictor: nat
    var mode: Mode

    ghost function Abs(): Chan
      requires buffer.Length == CELLS
      reads this, buffer
    {
      Chan(Screens(buffer[..]), dirty, displayedBuffer, currRow, currColumn, windowRows, lastPac,
        uppercasePredictor, mode)
    }

    ghost predicate Valid()
      reads this, buffer
    {
      buffer.Length == CELLS && Formed(Abs())
    }

    /** The state after a reset of a new decoder, for channel number i. */
    constructor (text: bool)
      ensures Valid() && fresh(buffer)
      ensures Abs().screen == [seq(ROWS, r => BLANK), seq(ROWS, r => BLANK)]
      ensures dirty == [{}, {}] && displayedBuffer == 0 && lastPac == 0 && uppercasePredictor == 0
      ensures currRow == (if text then 0 else LAST_ROW) && currColumn == 1 && windowRows == (if text then 0 else 4)
      ensures mode == if text then Text else Unknown
    {
      buffer := new nat[CELLS](i => 0);
      dirty, displayedBuffer, lastPac, uppercasePredictor := [{}, {}], 0, 0, 0;
      currRow, currColumn, windowRows := if text then 0 else LAST_ROW, 1, if text then 0 else 4;
      mode := if text then Text else Unknown;
      new;
      forall b, r | 0 <= b < 2 && 0 <= r < ROWS
        ensures RowAt(buffer[..], b, r) == BLANK
      {}
      assert ScreenAt(buffer[..], 0) == seq(ROWS, r => BLANK);
      assert ScreenAt(buffer[..], 1) == seq(ROWS, r => BLANK);
    }

    /** The buffer which characters are written to. */
    function CurrBuffer(): (b: nat)
      requires displayedBuffer < 2
      reads this
      ensures b < 2
    {
      if mode == PopOn then 1 - displayedBuffer else displayedBuffer
    }

    /** Whether the cells of a row from column first up to but not including end are all zero. */
    method CellsBlank(b: nat, row: nat, first: nat, end: nat) returns (blank: bool)
      requires buffer.Length == CELLS && b < 2 && row < ROWS && first <= end <= 33
      ensures blank <==> forall i :: first <= i < end ==> Screens(buffer[..])[b][row][i] == 0
    {
      blank := true;
      for i := first to end
        invariant blank <==> forall j :: first <= j < i ==> Screens(buffer[..])[b][row][j] == 0
      {
        CellAt(buffer[..], b, row, i);
        blank := blank && buffer[At(b, row, i)] == 0;
      }
    }

    method SetCell(b: nat, row: nat, i: nat, c: nat)
      requires buffer.Length == CELLS && b < 2 && row < ROWS && i < 33
      modifies buffer
      ensures Screens(buffer[..]) == WithCell(old(Screens(buffer[..])), b, row, i, c)
    {
      CellWritten(buffer[..], b, row, i, c);
      ghost var after := buffer[..][At(b, row, i) := c];
      buffer[At(b, row, i)] := c;
      assert buffer[..] == after;
    }

    method GetCell(b: nat, row: nat, i: nat) returns (c: nat)
      requires buffer.Length == CELLS && b < 2 && row < ROWS && i < 33
      ensures c == Screens(buffer[..])[b][row][i]
    {
      CellAt(buffer[..], b, row, i);
      c := buffer[At(b, row, i)];
    }

    lemma BlankIs(line: Row)
      requires |line| == 33
      ensures IsBlank(line) <==> forall i :: 1 <= i < 33 ==> line[i] == 0
    {}

    /** Clears the dirty bit of a row if its cells before end, the first which was not cleared
        already, are all zero. */
    method SettleRow(b: nat, row: nat, end: nat)
      requires buffer.Length == CELLS && b < 2 && |dirty| == 2 && row < ROWS && 1 <= end <= 33
      requires forall i :: end <= i < 33 ==> Screens(buffer[..])[b][row][i] == 0
      modifies `dirty
      ensures dirty == if IsBlank(Screens(buffer[..])[b][row]) then old(dirty)[b := old(dirty)[b] - {row}]
        else old(dirty)
    {
      hide IsBlank, Screens;
      var blank := CellsBlank(b, row, 1, end);
      BlankIs(Screens(buffer[..])[b][row]);
      if blank {
        dirty := dirty[b := dirty[b] - {row}];
      }
    }

    /** The last PAC goes to a free cell, and to column zero in any case. */
    method AttachPac(b: nat, row: nat, i: nat)
      requires buffer.Length == CELLS && b < 2 && row < ROWS && i < 33
      modifies buffer
      ensures Screens(buffer[..])
           == if i == 0 || old(Screens(buffer[..]))[b][row][i] == 0
             then WithCell(old(Screens(buffer[..])), b, row, i, lastPac)
              else old(Screens(buffer[..]))
    {
      var left := GetCell(b, row, i);
      if i == 0 || left == 0 {
        SetCell(b, row, i, lastPac);
      }
    }

    method CountLetter(c: nat)
      modifies `uppercasePredictor
      ensures uppercasePredictor == Counted(old(uppercasePredictor), c)
    {
      if 'a' as nat <= c <= 'z' as nat {
        uppercasePredictor := 0;
      } else if 'A' as nat <= c <= 'Z' as nat {
        if uppercasePredictor < 0xFFFF_FFFF {
          uppercasePredictor := uppercasePredictor + 1;
        }
      }
    }

    /** Writes c, and the last PAC to its left unless c is a transparent space. */
    method WriteCell(b: nat, row: nat, column: nat, c: nat, attach: bool)
      requires buffer.Length == CELLS && b < 2 && row < ROWS && 1 <= column < 33
      modifies buffer
      ensures var ss := old(Screens(buffer[..]));
              Screens(buffer[..]) == ss[b := ss[b][row := if attach
                then Attached(ss[b][row][column := c], column, lastPac) else ss[b][row][column := c]]]
    {
      hide Screens, WithCell;
      WithCells(Screens(buffer[..]), b, row, column, c, column - 1, lastPac);
      SetCell(b, row, column, c);
      if attach {
        AttachPac(b, row, column - 1);
      }
    }

    /** put_char */
    method PutChar(c: nat, displayable: bool, backspace: bool)
      requires Valid()
      modifies this, buffer
      ensures Valid() && Abs() == S.PutChar(old(Abs()), c, displayable, backspace)
    {
      hide IsBlank, Screens, Counted, Attached;
      var currBuffer, row, column := CurrBuffer(), currRow, currColumn;
      if backspace {
        if column > 1 {
          column := column - 1;
        }
      } else if column < LAST_COLUMN {
        currColumn := column + 1;
      }
      WriteCell(currBuffer, row, column, c, displayable || c != 0);
      if displayable {
        CountLetter(c);
      } else if c == 0 {
        SettleRow(currBuffer, row, 33);
        return;
      }
      dirty := dirty[currBuffer := dirty[currBuffer] + {row}];
    }

    /** TO1, TO2, TO3 of ext_control_code */
    method TabOffset(n: nat)
      requires Valid()
      modifies `currColumn
      ensures Valid() && Abs() == S.TabOffset(old(Abs()), n)
    {
      var column := currColumn + n;
      currColumn := if column < LAST_COLUMN then column else LAST_COLUMN;
    }

    /** end_of_caption */
    method EndOfCaption()
      requires Valid()
      modifies `displayedBuffer, `mode
      ensures Valid() && Abs() == S.EndOfCaption(old(Abs()))
    {
      if mode == Text {
        return;
      }
      displayedBuffer := 1 - displayedBuffer;
      mode := PopOn;
    }

    /** carriage_return */
    method CarriageReturn()
      requires Valid() && (mode == RollUp ==> 1 <= windowRows)
      modifies this, buffer
      ensures Valid() && Abs() == S.CarriageReturn(old(Abs()))
    {
      var currBuffer, row, window := displayedBuffer, currRow, 0;
      match mode {
        case RollUp =>
          currColumn := 1;
          lastPac := 0;
          if dirty[currBuffer] == {} {
            return;
          }
          window := if row + 1 < windowRows then row + 1 else windowRows;
        case Text =>
          currColumn := 1;
          lastPac := 0;
          if LAST_ROW != row {
            currRow := row + 1;
            return;
          }
          if dirty[currBuffer] == {} {
            return;
          }
          window := ROWS;
        case _ =>
          return;
      }
      ScrollRows(currBuffer, row + 1 - window, row);
      dirty := dirty[currBuffer := Shifted(dirty[currBuffer], 1)];
    }

    /** The rows from firstRow to row move up by one. */
    method ScrollRows(b: nat, firstRow: nat, row: nat)
      requires Valid() && b < 2 && firstRow <= row < ROWS
      modifies buffer
      ensures Valid()
      ensures Screens(buffer[..]) == old(Screens(buffer[..]))[b := Scrolled(old(Screens(buffer[..]))[b], firstRow, row)]
    {
      hide Screens, Scrolled, IsMoved, IsCleared;
      ghost var s0 := buffer[..];
      CaptionScreen.MoveRows(buffer, b, firstRow, firstRow + 1, row - firstRow);
      ghost var s1 := buffer[..];
      ClearRows(buffer, b, row, row + 1);
      FlatScrolled(s0, s1, buffer[..], b, firstRow, row);
    }

    /** erase_memory */
    method EraseMemory(b: nat)
      requires Valid() && b < 2
      modifies buffer, `dirty
      ensures Valid() && Abs() == S.EraseMemory(old(Abs()), b)
    {
      hide Screens;
      if dirty[b] != {} {
        ghost var s0 := buffer[..];
        ClearRows(buffer, b, 0, ROWS);
        FlatCleared(s0, buffer[..], b, 0, ROWS);
        AllCleared(Screens(s0)[b]);
        dirty := dirty[b := {}];
      }
    }

    lemma AllCleared(s: Screen)
      requires FormedScreen(s)
      ensures ClearedRows(s, 0, ROWS) == seq(ROWS, r => BLANK)
    {}

    /** erase_displayed_memory */
    method EraseDisplayedMemory()
      requires Valid()
      modifies buffer, `dirty
      ensures Valid() && Abs() == S.EraseDisplayed(old(Abs()))
    {
      if mode == Text {
        return;
      }
      EraseMemory(displayedBuffer);
    }

    /** text_restart */
    method TextRestart()
      requires Valid()
      modifies buffer, `dirty, `currRow, `currColumn
      ensures Valid() && Abs() == S.TextRestart(old(Abs()))
    {
      EraseMemory(displayedBuffer);
      currRow := 0;
      currColumn := 1;
    }

    /** resume_direct_captioning */
    method ResumeDirectCaptioning()
      requires Valid()
      modifies `mode
      ensures Valid() && Abs() == ResumeDirect(old(Abs()))
    {
      if mode == Text {
        return;
      }
      mode := PaintOn;
    }

    /** resume_caption_loading */
    method ResumeCaptionLoading()
      requires Valid()
      modifies `mode
      ensures Valid() && Abs() == ResumeLoading(old(Abs()))
    {
      if mode == Text {
        return;
      }
      mode := PopOn;
    }

    /** resize_window */
    method ResizeWindow(rows: nat)
      requires Valid()
      modifies buffer, `dirty
      ensures Valid() && Abs() == S.ResizeWindow(old(Abs()), rows)
    {
      hide Screens, ClearedRows, RowsFrom;
      var currBuffer := displayedBuffer;
      if dirty[currBuffer] == {} {
        return;
      }
      var row1 := currRow + 1;
      var oldRows := if windowRows < row1 then windowRows else row1;
      var newRows := if rows < row1 then rows else row1;
      if newRows == 0 || newRows >= oldRows {
        return;
      }
      ghost var s0 := buffer[..];
      ClearRows(buffer, currBuffer, row1 - oldRows, row1 - newRows);
      FlatCleared(s0, buffer[..], currBuffer, row1 - oldRows, row1 - newRows);
      dirty := dirty[currBuffer := RowsFrom(dirty[currBuffer], row1 - newRows)];
    }

    /** roll_up_caption */
    method RollUpCaption(rows: nat)
      requires Valid()
      modifies this, buffer
      ensures Valid() && Abs() == S.RollUpCaption(old(Abs()), rows)
    {
      hide S.ResizeWindow, S.EraseMemory, Screens;
      match mode {
        case RollUp =>
          ResizeWindow(rows);
          mode := RollUp;
          windowRows := rows;
        case Unknown =>
          mode := RollUp;
          windowRows := rows;
        case Text =>
        case _ =>
          mode := RollUp;
          windowRows := rows;
          currRow := LAST_ROW;
          currColumn := 1;
          EraseMemory(displayedBuffer);
          ErasedShown(old(Abs()).(mode := RollUp, window := rows, row := LAST_ROW, column := 1));
          EraseMemory(1 - displayedBuffer);
      }
    }

    lemma ErasedShown(k: Chan)
      requires Formed(k)
      ensures Formed(S.EraseMemory(k, k.shown)) && S.EraseMemory(k, k.shown).shown == k.shown
    {}

    /** delete_to_end_of_row */
    method DeleteToEndOfRow()
      requires Valid()
      modifies buffer, `dirty
      ensures Valid() && Abs() == DeleteToEnd(old(Abs()))
    {
      hide IsBlank;
      var currBuffer, row := CurrBuffer(), currRow;
      if row in dirty[currBuffer] {
        var column := currColumn;
        ghost var s0 := buffer[..];
        MemClear(buffer, At(currBuffer, row, column), LAST_COLUMN - column + 1);
        ghost var line := ClearedFrom(Screens(s0)[currBuffer][row], column);
        RowWritten(s0, buffer[..], currBuffer, row, line);
        assert Screens(buffer[..])[currBuffer][row] == line;
        assert forall i :: column <= i < 33 ==> line[i] == 0;
        SettleRow(currBuffer, row, column);
      }
    }

    /** backspace */
    method Backspace()
      requires Valid()
      modifies buffer, `dirty, `currColumn
      ensures Valid() && Abs() == S.Backspace(old(Abs()))
    {
      hide IsBlank, Screens, WithCell;
      var column := currColumn;
      if column <= 1 {
        return;
      }
      column := column - 1;
      currColumn := column;
      var currBuffer, row := CurrBuffer(), currRow;
      var c := GetCell(currBuffer, row, column);
      if c != 0 {
        WithCells(Screens(buffer[..]), currBuffer, row, column, 0, column, 0);
        SetCell(currBuffer, row, column, 0);
        SettleRow(currBuffer, row, 33);
      }
    }

    /** The n rows above and including row move to base. */
    method MoveRows(b: nat, row: nat, base: nat, n: nat)
      requires Valid() && b < 2 && row < ROWS && base < ROWS && row != base && n <= row + 1 && n <= base + 1
      modifies buffer
      ensures Valid()
      ensures Screens(buffer[..]) == old(Screens(buffer[..]))[b := Moved(old(Screens(buffer[..]))[b], row, base, n)]
    {
      hide Screens, Moved, IsMoved, IsCleared;
      ghost var s0 := buffer[..];
      CaptionScreen.MoveRows(buffer, b, base + 1 - n, row + 1 - n, n);
      ghost var s1 := buffer[..];
      ClearRows(buffer, b, EraseBegin(row, base, n), EraseEnd(row, base, n));
      FlatMoved(s0, s1, buffer[..], b, row, base, n);
    }

    /** move_window */
    method MoveWindow(newBaseRow: nat)
      requires Valid() && newBaseRow < ROWS
      modifies buffer, `dirty
      ensures Valid() && Abs() == S.MoveWindow(old(Abs()), newBaseRow)
    {
      hide Screens, Moved, Shifted;
      var currBuffer := displayedBuffer;
      if newBaseRow == currRow || dirty[currBuffer] == {} {
        return;
      }
      var oldMaxRows, newMaxRows := currRow + 1, newBaseRow + 1;
      var copyRows := if oldMaxRows < newMaxRows then oldMaxRows else newMaxRows;
      copyRows := if copyRows < windowRows then copyRows else windowRows;
      MoveRows(currBuffer, currRow, newBaseRow, copyRows);
      dirty := dirty[currBuffer := Shifted(dirty[currBuffer], currRow - newBaseRow)];
    }

    /** preamble_address_code */
    method PreambleAddressCode(c1: nat, c2: nat)
      requires Valid() && (mode == RollUp ==> windowRows <= ROWS)
      modifies this, buffer
      ensures Valid() && Abs() == PreambleAddress(old(Abs()), c1, c2)
    {
      hide S.MoveWindow, Screens;
      var row := PAC_ROW[c1 % 8 * 2 + c2 / 32 % 2];
      if row < 0 {
        return;
      }
      match mode {
        case Unknown =>
          return;
        case RollUp =>
          if windowRows > row + 1 {
            row := windowRows - 1;
          }
          MoveWindow(row);
          currRow := row;
        case PaintOn =>
          currRow := row;
        case PopOn =>
          currRow := row;
        case Text =>
      }
      if c2 / 16 % 2 == 1 {
        currColumn := 1 + c2 / 2 % 8 * 4;
      }
      lastPac := 0x1000 + c2;
    }

    /** One command. */
    method Do(op: Op)
      requires Valid() && Applicable(Abs(), op)
      modifies this, buffer
      ensures Valid() && Abs() == Apply(old(Abs()), op)
    {
      hide S.PutChar, S.CarriageReturn, PreambleAddress, DeleteToEnd, S.Backspace, S.RollUpCaption, S.EraseMemory,
        Screens;
      match op
      case Nothing =>
      case Put(c, displayable, backspace) => PutChar(c, displayable, backspace);
      case Tab(n) => TabOffset(n);
      case Eoc => EndOfCaption();
      case Cr => CarriageReturn();
      case Edm => EraseDisplayedMemory();
      case Enm => EraseMemory(1 - displayedBuffer);
      case Tr => TextRestart();
      case Rdc => ResumeDirectCaptioning();
      case Der => DeleteToEndOfRow();
      case Bs => Backspace();
      case Rcl => ResumeCaptionLoading();
      case Ru(rows) => RollUpCaption(rows);
      case Pac(c1, c2) => PreambleAddressCode(c1, c2);
    }
  }
}
