/** Rows of caption text as cells of a page: format_row of src/cc608_decoder.c. Of a cell only the
    character and whether it is a transparent space are modelled. */
module CaptionFormat {
  import opened CaptionScreen
  import opened CaptionState

  datatype Cell = Cell(unicode: nat, transparent: bool)

  const SPACE := 0x20

  /** vbi_caption_unicode: the Unicode value of a code, forced to upper case or not. */
  type Unicode = (nat, bool) -> nat

  /** What a cell of a row holds: nothing to see, a character, or an attribute shown as a space. */
  datatype Kind = Empty | Character | Attribute

  function KindOf(c: nat): Kind {
    if c == 0 || 0x1040 <= c < 0x1120 then Empty
    else if c < 0x1020 || 0x1130 <= c < 0x1428 then Character
    else Attribute
  }

  /** Beyond columns 1 to 32 there is nothing. */
  function KindAt(line: Row, i: int): Kind {
    if 1 <= i <= LAST_COLUMN && i < |line| then KindOf(line[i]) else Empty
  }

  /** Lower case letters of the standard set and the extended set stay as they are. */
  function Glyph(u: Unicode, c: nat, toUpper: bool): nat {
    if c < 0x1020 then u(c, toUpper && !('a' as nat <= c <= 'z' as nat || c == 0x7E))
    else u(c, toUpper && c < 0x1220)
  }

  function GlyphAt(u: Unicode, line: Row, toUpper: bool, i: int): nat {
    if KindAt(line, i) == Character then Glyph(u, line[i], toUpper) else SPACE
  }

  /** The cell for column i before its right neighbour is known: with padding a space after a
      visible character is not transparent. */
  function Pending(u: Unicode, line: Row, toUpper: bool, padding: bool, i: int): Cell {
    Cell(GlyphAt(u, line, toUpper, i),
         KindAt(line, i) == Empty && !(padding && GlyphAt(u, line, toUpper, i - 1) != SPACE))
  }

  /** With padding neither is a space before a character. */
  function Formatted(u: Unicode, line: Row, toUpper: bool, padding: bool, i: int): Cell {
    var c := Pending(u, line, toUpper, padding, i);
    if padding && KindAt(line, i + 1) == Character then c.(transparent := false) else c
  }

  function Width(padding: bool): nat {
    if padding then LAST_COLUMN + 2 else LAST_COLUMN
  }

  /** A whole row: columns 0 to 33 with padding, else 1 to 32. */
  function FormattedRow(u: Unicode, line: Row, toUpper: bool, padding: bool): (r: seq<Cell>)
    ensures |r| == Width(padding)
    ensures forall i :: 0 <= i < |r| ==> r[i] == Formatted(u, line, toUpper, padding, if padding then i else i + 1)
  {
    seq(Width(padding), i => Formatted(u, line, toUpper, padding, if padding then i else i + 1))
  }

  // ---- What a formatted row looks like ---------------------------------------------

  /** With padding a visible character is never beside a transparent space. */
  lemma PaddedText(u: Unicode, line: Row, toUpper: bool, i: nat)
    requires |line| == 33 && i < LAST_COLUMN + 1
    ensures var r := FormattedRow(u, line, toUpper, true);
            && (r[i].unicode != SPACE ==> !r[i].transparent && !r[i + 1].transparent)
            && (r[i + 1].unicode != SPACE ==> !r[i].transparent && !r[i + 1].transparent)
  {
    assert KindAt(line, i + 1) == Character || GlyphAt(u, line, toUpper, i + 1) == SPACE;
  }

  /** Padding only makes transparent spaces solid: a cell is transparent with padding if and only if
      its column has nothing to show, has no visible character before it and no character after
      it; without padding the first suffices. */
  lemma TransparentIff(u: Unicode, line: Row, toUpper: bool, i: nat)
    requires |line| == 33 && 1 <= i <= LAST_COLUMN
    ensures FormattedRow(u, line, toUpper, false)[i - 1].transparent <==> KindOf(line[i]) == Empty
    ensures FormattedRow(u, line, toUpper, true)[i].transparent
       <==> KindOf(line[i]) == Empty && GlyphAt(u, line, toUpper, i - 1) == SPACE && KindAt(line, i + 1) != Character
    ensures FormattedRow(u, line, toUpper, true)[i].unicode == FormattedRow(u, line, toUpper, false)[i - 1].unicode
  {}

  /** What each code looks like, without padding: nothing and preamble address codes are transparent spaces, other
      attributes solid ones. Letters of the standard set which have an upper case of their own, and the extended
      characters, stay as they are; the rest is forced to upper case if that is wanted. */
  lemma CellLooks(u: Unicode, line: Row, toUpper: bool, i: nat)
    requires |line| == 33 && 1 <= i <= LAST_COLUMN && CellOk(line[i])
    ensures var c, r := line[i], FormattedRow(u, line, toUpper, false)[i - 1];
      && (c == 0 || 0x1040 <= c < 0x1080 ==> r == Cell(SPACE, true))
      && (0x1020 <= c < 0x1030 || 0x1120 <= c < 0x1130 || c == 0x1428 || c >= 0x172D ==> r == Cell(SPACE, false))
      && ('a' as nat <= c <= 'z' as nat || c == 0x7E || 0x1220 <= c < 0x1340 ==> r == Cell(u(c, false), false))
      && ((0x20 <= c < 0x80 && !('a' as nat <= c <= 'z' as nat) && c != 0x7E) || 0x1130 <= c < 0x1140 ==>
            r == Cell(u(c, toUpper), false))
  {}

  /** A blank row is all transparent spaces: the short cut for rows which are not dirty shows what
      the row holds. */
  lemma BlankRowFormatted(u: Unicode, line: Row, toUpper: bool, padding: bool, i: nat)
    requires IsBlank(line) && |line| == 33 && i < Width(padding)
    ensures FormattedRow(u, line, toUpper, padding)[i] == Cell(SPACE, true)
  {}

  // ---- The loop --------------------------------------------------------------------

  /** The short cut for rows which are not dirty. */
  method FillRow(cells: array<Cell>, start: nat, end: nat)
    requires start <= end <= cells.Length
    modifies cells
    ensures forall j :: 0 <= j < cells.Length ==>
      cells[j] == if start <= j < end then Cell(SPACE, true) else old(cells[j])
  {
    var cp := start;
    while cp < end
      invariant start <= cp <= end
      invariant forall j :: 0 <= j < cells.Length ==>
        cells[j] == if start <= j < cp then Cell(SPACE, true) else old(cells[j])
    {
      cells[cp] := Cell(SPACE, true);
      cp := cp + 1;
    }
  }

  /** The cells of a row are written, up to the last one which awaits its right neighbour. */
  ghost predicate Partly(cells: seq<Cell>, from: nat, end: nat, u: Unicode, line: Row, toUpper: bool, padding: bool) {
    && from <= end <= |cells|
    && (forall j :: from <= j < end - 1 ==>
      cells[j] == Formatted(u, line, toUpper, padding, j - from + (if padding then 0 else 1)))
    && (from < end ==>
      cells[end - 1] == Pending(u, line, toUpper, padding, end - 1 - from + (if padding then 0 else 1)))
  }

  lemma PartlyLast(cells: seq<Cell>, from: nat, end: nat, u: Unicode, line: Row, toUpper: bool, padding: bool)
    requires Partly(cells, from, end, u, line, toUpper, padding)
    ensures from <= end <= |cells|
    ensures from < end ==>
      cells[end - 1] == Pending(u, line, toUpper, padding, end - 1 - from + (if padding then 0 else 1))
  {}

  /** One more cell is written, and the one before it has got its right neighbour. */
  lemma PartlyNext(a: seq<Cell>, c: seq<Cell>, from: nat, end: nat, u: Unicode, line: Row, toUpper: bool, padding: bool)
    requires |a| == |c| && end < |a| && Partly(a, from, end, u, line, toUpper, padding)
    requires forall j :: from <= j < end - 1 ==> c[j] == a[j]
    requires from < end ==>
      c[end - 1] == Formatted(u, line, toUpper, padding, end - 1 - from + (if padding then 0 else 1))
    requires c[end] == Pending(u, line, toUpper, padding, end - from + (if padding then 0 else 1))
    ensures Partly(c, from, end + 1, u, line, toUpper, padding)
  {
    hide Formatted, Pending;
  }

  lemma ColumnStep(u: Unicode, line: Row, toUpper: bool, padding: bool, i: nat)
    requires |line| == 33 && 1 <= i <= LAST_COLUMN
    ensures var before, c, kind := Pending(u, line, toUpper, padding, i - 1), Pending(u, line, toUpper, padding, i),
      KindOf(line[i]);
            && (before.transparent ==> before.unicode == SPACE)
            && Formatted(u, line, toUpper, padding, i - 1)
            == (if padding && kind == Character && before.transparent then Cell(SPACE, false) else before)
            && (kind == Empty ==> c == Cell(SPACE, !(padding && !before.transparent && before.unicode != SPACE)))
            && (kind == Character ==> c == Cell(Glyph(u, line[i], toUpper), false))
            && (kind == Attribute ==> c == Cell(SPACE, false))
  {
    hide KindOf, Glyph;
  }

  /** Column i of a row. */
  method FormatColumn(cells: array<Cell>, start: nat, cp: nat, u: Unicode, ghost line: Row, c: nat, toUpper: bool,
      padding: bool, i: nat)
    returns (next: nat)
    requires |line| == 33 && KindOf(line[0]) == Empty && i <= LAST_COLUMN && c == line[i] && cp < cells.Length
    requires cp == start + (if i == 0 then 1 else i) - (if padding then 0 else 1)
    requires Partly(cells[..], start, cp, u, line, toUpper, padding)
    modifies cells
    ensures next == start + i + (if padding then 1 else 0)
    ensures next <= cells.Length && Partly(cells[..], start, next, u, line, toUpper, padding)
    ensures forall j :: 0 <= j < cells.Length && !(start <= j < next) ==> cells[j] == old(cells[j])
  {
    hide KindOf, Glyph, Pending, Formatted, Partly;
    ghost var a := cells[..];
    PartlyLast(a, start, cp, u, line, toUpper, padding);
    if i > 0 {
      ColumnStep(u, line, toUpper, padding, i);
    } else if padding {
      PaddingColumns(u, line, toUpper);
    }
    next := cp;
    match KindOf(c) {
      case Empty =>
        if padding && !cells[cp - 1].transparent && cells[cp - 1].unicode != SPACE {
          cells[cp] := Cell(SPACE, false);
          next := cp + 1;
        } else if i > 0 {
          cells[cp] := Cell(SPACE, true);
          next := cp + 1;
        }
      case Character =>
        if padding && cells[cp - 1].transparent {
          cells[cp - 1] := Cell(SPACE, false);
        }
        cells[cp] := Cell(Glyph(u, c, toUpper), false);
        next := cp + 1;
      case Attribute =>
        cells[cp] := Cell(SPACE, false);
        next := cp + 1;
    }
    if next > cp { PartlyNext(a, cells[..], start, cp, u, line, toUpper, padding); }
  }

  /** format_row. The row of a reachable screen has nothing but a PAC in column zero, so that
      exactly 32 or 34 cells are written. */
  method FormatRow(cells: array<Cell>, start: nat, maxColumns: nat, u: Unicode, buffer: array<nat>, b: nat,
      dirty: set<nat>, row: nat, toUpper: bool, padding: bool)
    requires Width(padding) <= maxColumns && start + maxColumns <= cells.Length
    requires buffer.Length == CELLS && b < 2 && row < ROWS && Sound(Screens(buffer[..])[b], dirty)
      && CellsOk(Screens(buffer[..])[b])
    modifies cells
    ensures cells[..] == old(cells[..start]) + FormattedRow(u, Screens(buffer[..])[b][row], toUpper, padding)
                      + old(cells[start + Width(padding)..])
  {
    hide CellOk, IsPac, RowOk, IsBlank, KindOf, Pending, Formatted, Screens;
    ghost var s := Screens(buffer[..])[b];
    ghost var line := s[row];
    var cp, end := start, start + Width(padding);
    if row !in dirty {
      FillRow(cells, start, end);
      forall i | 0 <= i < Width(padding)
        ensures FormattedRow(u, line, toUpper, padding)[i] == Cell(SPACE, true)
      {
        BlankRowFormatted(u, line, toUpper, padding, i);
      }
      return;
    }
    if padding {
      cells[cp] := Cell(SPACE, true);
      cp := cp + 1;
      PaddingColumns(u, line, toUpper);
    }
    ColumnZero(line);
    var i := 0;
    while i <= LAST_COLUMN
      invariant 0 <= i <= LAST_COLUMN + 1
      invariant cp == start + (if i == 0 then 1 else i) - (if padding then 0 else 1)
      invariant forall j :: 0 <= j < cells.Length && !(start <= j < end) ==> cells[j] == old(cells[j])
      invariant Partly(cells[..], start, cp, u, line, toUpper, padding)
    {
      CellAt(buffer[..], b, row, i);
      cp := FormatColumn(cells, start, cp, u, line, buffer[At(b, row, i)], toUpper, padding, i);
      i := i + 1;
    }
    LastColumns(u, line, toUpper, padding);
    if padding {
      cells[cp] := Cell(SPACE, !(!cells[cp - 1].transparent && cells[cp - 1].unicode != SPACE));
      cp := cp + 1;
    }
    assert cp == end;
    assert forall j :: start <= j < end ==> cells[j] == FormattedRow(u, line, toUpper, padding)[j - start];
  }

  /** The columns on both sides of the row, which only padding shows. */
  lemma PaddingColumns(u: Unicode, line: Row, toUpper: bool)
    ensures Pending(u, line, toUpper, true, 0) == Cell(SPACE, true)
  {}

  lemma LastColumns(u: Unicode, line: Row, toUpper: bool, padding: bool)
    ensures var c, e := Pending(u, line, toUpper, padding, LAST_COLUMN),
      Formatted(u, line, toUpper, padding, LAST_COLUMN + 1);
            && Formatted(u, line, toUpper, padding, LAST_COLUMN) == c
            && (padding ==> e == Cell(SPACE, !(!c.transparent && c.unicode != SPACE)))
  {}

  lemma ColumnZero(line: Row)
    requires |line| == 33 && RowOk(line)
    ensures KindOf(line[0]) == Empty
  {}

  // ---- Pages -----------------------------------------------------------------------

  /** The first n rows of a page. */
  function FormattedPage(u: Unicode, s: Screen, toUpper: bool, padding: bool, n: nat): (r: seq<Cell>)
    requires FormedScreen(s) && n <= ROWS
    ensures |r| == if padding then 34 * n else 32 * n
  {
    if n == 0 then []
    else FormattedPage(u, s, toUpper, padding, n - 1) + FormattedRow(u, s[n - 1], toUpper, padding)
  }

  /** Cell i of row r on the page is that of the formatted row. */
  lemma {:induction false} PageCell(u: Unicode, s: Screen, toUpper: bool, padding: bool, n: nat, r: nat, i: nat)
    requires FormedScreen(s) && r < n <= ROWS && i < Width(padding)
    ensures var at := if padding then 34 * r + i else 32 * r + i;
      at < |FormattedPage(u, s, toUpper, padding, n)|
      && FormattedPage(u, s, toUpper, padding, n)[at] == FormattedRow(u, s[r], toUpper, padding)[i]
  {
    hide FormattedRow;
    if r < n - 1 { PageCell(u, s, toUpper, padding, n - 1, r, i); }
  }
}
