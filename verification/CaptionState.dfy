/** The EIA 608 caption decoder (src/cc608_decoder.c) as functions on its state: what every
    control code does to a channel, and which channel a byte pair is for. */
module CaptionState {
  import opened Common

  // A row has a column zero for the attributes of the first character, and columns 1 to 32.
  type Row = seq<nat>
  type Screen = seq<Row>

  const ROWS := 15
  const LAST_ROW := 14
  const LAST_COLUMN := 32
  const BLANK: Row := seq(33, i => 0)

  datatype Mode = Unknown | RollUp | PopOn | PaintOn | Text

  /** A channel: its two screens, for each of them the rows with their dirty bit set, which one
      is displayed, the cursor, the height of the roll-up window, the last PAC and the letters A
      to Z received in a row. */
  datatype Chan = Chan(screen: seq<Screen>, dirty: seq<set<nat>>, shown: nat, row: nat, column: nat,
                       window: nat, pac: nat, upper: nat, mode: Mode)

  predicate FormedScreen(s: Screen) {
    |s| == ROWS && forall r :: 0 <= r < ROWS ==> |s[r]| == 33
  }

  /** The cursor stays in rows 0 to 14 and columns 1 to 32. */
  predicate Formed(k: Chan) {
    && |k.screen| == 2 && FormedScreen(k.screen[0]) && FormedScreen(k.screen[1]) && |k.dirty| == 2
    && k.shown < 2 && k.row < ROWS && 1 <= k.column <= LAST_COLUMN
  }

  /** Columns 1 to 32 hold transparent spaces only. */
  predicate IsBlank(line: Row) {
    forall i :: 1 <= i < |line| ==> line[i] == 0
  }

  /** The screen which characters are written to. */
  function Active(k: Chan): nat {
    if k.mode == PopOn && k.shown < 2 then 1 - k.shown else k.shown
  }

  function Shown(k: Chan): Screen
    requires Formed(k)
  {
    k.screen[k.shown]
  }

  /** The rows of the roll-up window which are on the screen. */
  function WindowRows(k: Chan): nat {
    Min(k.row + 1, k.window)
  }

  // ---- Bit masks of rows -----------------------------------------------------------

  predicate HasBit(d: set<nat>, r: nat, n: int) {
    0 <= r + n && r + n in d
  }

  /** Every row takes the bit of the row n below it, or above it when n is less than zero. */
  function Shifted(d: set<nat>, n: int): set<nat> {
    set r: nat | r < ROWS && HasBit(d, r, n)
  }

  function RowsFrom(d: set<nat>, first: nat): set<nat> {
    set r | r in d && first <= r
  }

  function SetRow(k: Chan, b: nat, line: Row): Chan
    requires Formed(k) && b < 2
  {
    k.(screen := k.screen[b := k.screen[b][k.row := line]])
  }

  /** The dirty bit of the cursor row goes when the row is all transparent spaces. */
  function Settle(k: Chan, b: nat, line: Row): Chan
    requires Formed(k) && b < 2
  {
    var m := SetRow(k, b, line);
    if IsBlank(line) then m.(dirty := k.dirty[b := k.dirty[b] - {k.row}]) else m
  }

  // ---- Commands --------------------------------------------------------------------

  function Counted(upper: nat, c: nat): nat {
    if 'a' as nat <= c <= 'z' as nat then 0
    else if 'A' as nat <= c <= 'Z' as nat && upper < 0xFFFF_FFFF then upper + 1
    else upper
  }

  function PutColumn(k: Chan, backspace: bool): nat {
    if backspace && 1 < k.column then k.column - 1 else k.column
  }

  /** The PAC goes to the left of the column when that cell is free or is in column zero. */
  function Attached(line: Row, column: nat, pac: nat): Row
    requires 1 <= column < |line|
  {
    if column == 1 || line[column - 1] == 0 then line[column - 1 := pac] else line
  }

  /** The row after c was written, with the last PAC. */
  function Written(k: Chan, c: nat, backspace: bool): Row
    requires Formed(k)
  {
    var column := PutColumn(k, backspace);
    Attached(k.screen[Active(k)][k.row][column := c], column, k.pac)
  }

  /** put_char */
  function PutChar(k: Chan, c: nat, displayable: bool, backspace: bool): Chan
    requires Formed(k)
  {
    var b := Active(k);
    var m := if backspace then k else k.(column := Min(k.column + 1, LAST_COLUMN));
    if !displayable && c == 0 then
      Settle(m, b, k.screen[b][k.row][PutColumn(k, backspace) := 0])
    else
      SetRow(m, b, Written(k, c, backspace))
      .(dirty := k.dirty[b := k.dirty[b] + {k.row}], upper := if displayable then Counted(k.upper, c) else k.upper)
  }

  /** TO1, TO2, TO3 */
  function TabOffset(k: Chan, n: nat): Chan {
    k.(column := Min(k.column + n, LAST_COLUMN))
  }

  function EndOfCaption(k: Chan): Chan
    requires Formed(k)
  {
    if k.mode == Text then k else k.(shown := 1 - k.shown, mode := PopOn)
  }

  /** The row at first goes, the others down to row move up, and row becomes blank. */
  function Scrolled(s: Screen, first: nat, row: nat): Screen
    requires FormedScreen(s) && row < ROWS
  {
    seq(ROWS, r requires 0 <= r < ROWS => if first <= r < row then s[r + 1] else if r == row then BLANK else s[r])
  }

  function Scroll(k: Chan, rows: nat): Chan
    requires Formed(k) && 1 <= rows <= k.row + 1
  {
    k.(screen := k.screen[k.shown := Scrolled(k.screen[k.shown], k.row + 1 - rows, k.row)],
    dirty := k.dirty[k.shown := Shifted(k.dirty[k.shown], 1)])
  }

  function CarriageReturn(k: Chan): Chan
    requires Formed(k) && (k.mode == RollUp ==> 1 <= k.window)
  {
    var m := k.(column := 1, pac := 0);
    match k.mode
    case RollUp => if k.dirty[k.shown] == {} then m else Scroll(m, WindowRows(k))
    case Text =>
      if k.row != LAST_ROW then m.(row := k.row + 1)
      else if k.dirty[k.shown] == {} then m
      else Scroll(m, ROWS)
    case _ => k
  }

  function EraseMemory(k: Chan, b: nat): Chan
    requires Formed(k) && b < 2
  {
    if k.dirty[b] == {} then k
    else k.(screen := k.screen[b := seq(ROWS, r => BLANK)], dirty := k.dirty[b := {}])
  }

  function EraseDisplayed(k: Chan): Chan
    requires Formed(k)
  {
    if k.mode == Text then k else EraseMemory(k, k.shown)
  }

  function TextRestart(k: Chan): Chan
    requires Formed(k)
  {
    EraseMemory(k, k.shown).(row := 0, column := 1)
  }

  function ResumeDirect(k: Chan): Chan {
    if k.mode == Text then k else k.(mode := PaintOn)
  }

  function ResumeLoading(k: Chan): Chan {
    if k.mode == Text then k else k.(mode := PopOn)
  }

  /** The rows from first up to but not including end become blank. */
  function ClearedRows(s: Screen, first: nat, end: nat): Screen
    requires FormedScreen(s)
  {
    seq(ROWS, r requires 0 <= r < ROWS => if first <= r < end then BLANK else s[r])
  }

  function ResizeWindow(k: Chan, rows: nat): Chan
    requires Formed(k)
  {
    var s, d, before, after := k.screen[k.shown], k.dirty[k.shown], WindowRows(k), Min(rows, k.row + 1);
    if d == {} || after == 0 || before <= after then k
    else
      k.(screen := k.screen[k.shown := ClearedRows(s, k.row + 1 - before, k.row + 1 - after)],
      dirty := k.dirty[k.shown := RowsFrom(d, k.row + 1 - after)])
  }

  /** RU2, RU3, RU4 */
  function RollUpCaption(k: Chan, rows: nat): Chan
    requires Formed(k)
  {
    match k.mode
    case RollUp => ResizeWindow(k, rows).(window := rows)
    case Unknown => k.(mode := RollUp, window := rows)
    case Text => k
    case _ =>
      var m := k.(mode := RollUp, window := rows, row := LAST_ROW, column := 1);
      EraseMemory(EraseMemory(m, k.shown), 1 - k.shown)
  }

  function ClearedFrom(line: Row, column: nat): Row {
    seq(|line|, i requires 0 <= i < |line| => if column <= i then 0 else line[i])
  }

  function DeleteToEnd(k: Chan): Chan
    requires Formed(k)
  {
    var b := Active(k);
    if k.row !in k.dirty[b] then k
    else Settle(k, b, ClearedFrom(k.screen[b][k.row], k.column))
  }

  function Backspace(k: Chan): Chan
    requires Formed(k)
  {
    var b := Active(k);
    if k.column <= 1 then k
    else
      var m := k.(column := k.column - 1);
      if k.screen[b][k.row][m.column] == 0 then m
      else Settle(m, b, k.screen[b][k.row][m.column := 0])
  }

  /** The window of n rows above and including row moves to base; the rows it leaves become
      blank. */
  function Moved(s: Screen, row: nat, base: nat, n: nat): Screen
    requires FormedScreen(s) && row < ROWS && base < ROWS && n <= row + 1 && n <= base + 1
  {
    seq(ROWS, r requires 0 <= r < ROWS =>
      if base - n < r <= base then s[r - base + row]
      else if (if base < row then base < r <= row else row - n < r <= base - n) then BLANK
      else s[r])
  }

  function MoveWindow(k: Chan, base: nat): Chan
    requires Formed(k) && base < ROWS
  {
    var d := k.dirty[k.shown];
    if base == k.row || d == {} then k
    else
      k.(screen := k.screen[k.shown := Moved(k.screen[k.shown], k.row, base, Min(Min(k.row + 1, base + 1), k.window))],
      dirty := k.dirty[k.shown := Shifted(d, k.row - base)])
  }

  const PAC_ROW: seq<int> := [10, -1, 0, 1, 2, 3, 11, 12, 13, 14, 4, 5, 6, 7, 8, 9]

  /** The row in a preamble address code, less than zero if it has none. */
  function PacRow(c1: nat, c2: nat): (row: int)
    ensures -1 <= row < ROWS
  {
    PAC_ROW[c1 % 8 * 2 + c2 / 32 % 2]
  }

  function BaseRow(k: Chan, row: nat): nat {
    if k.window > row + 1 then k.window - 1 else row
  }

  function PreambleAddress(k: Chan, c1: nat, c2: nat): Chan
    requires Formed(k) && (k.mode == RollUp ==> k.window <= ROWS)
  {
    var row := PacRow(c1, c2);
    if row < 0 || k.mode == Unknown then k
    else
      var m := match k.mode
        case RollUp => MoveWindow(k, BaseRow(k, row)).(row := BaseRow(k, row))
        case PaintOn => k.(row := row)
        case PopOn => k.(row := row)
        case _ => k;
      m.(column := if c2 / 16 % 2 == 1 then 1 + c2 / 2 % 8 * 4 else k.column, pac := 0x1000 + c2)
  }

  // ---- One command for a channel ---------------------------------------------------

  datatype Op =
    | Nothing
    | Put(c: nat, displayable: bool, backspace: bool)
    | Tab(n: nat)
    | Eoc | Cr | Edm | Enm | Tr | Rdc | Der | Bs | Rcl
    | Ru(rows: nat)
    | Pac(c1: nat, c2: nat)

  predicate Applicable(k: Chan, op: Op) {
    && Formed(k) && (k.mode == RollUp ==> 2 <= k.window <= 4)
    && (op.Tr? ==> k.mode == Text) && (k.mode == Unknown ==> !op.Put? && !op.Tab? && !op.Der? && !op.Bs?)
  }

  function Apply(k: Chan, op: Op): Chan
    requires Applicable(k, op)
  {
    match op
    case Nothing => k
    case Put(c, displayable, backspace) => PutChar(k, c, displayable, backspace)
    case Tab(n) => TabOffset(k, n)
    case Eoc => EndOfCaption(k)
    case Cr => CarriageReturn(k)
    case Edm => EraseDisplayed(k)
    case Enm => EraseMemory(k, 1 - k.shown)
    case Tr => TextRestart(k)
    case Rdc => ResumeDirect(k)
    case Der => DeleteToEnd(k)
    case Bs => Backspace(k)
    case Rcl => ResumeLoading(k)
    case Ru(rows) => RollUpCaption(k, rows)
    case Pac(c1, c2) => PreambleAddress(k, c1, c2)
  }

  // ---- The invariant of a channel --------------------------------------------------

  /** A row with its dirty bit clear is blank. */
  ghost predicate Sound(s: Screen, d: set<nat>) {
    (forall r :: r in d ==> r < ROWS) && forall r :: 0 <= r < |s| && r !in d ==> IsBlank(s[r])
  }

  /** In roll-up mode the rows outside the window are blank, on a text channel those below the
      cursor. */
  ghost predicate Confined(k: Chan)
    requires Formed(k)
  {
    && (k.mode == RollUp ==>
          2 <= k.window <= 4
          && forall r :: 0 <= r < ROWS && !(k.row - k.window < r <= k.row) ==> IsBlank(k.screen[k.shown][r]))
    && (k.mode == Text ==> forall r :: k.row < r < ROWS ==> IsBlank(k.screen[k.shown][r]))
  }

  predicate IsPac(c: nat) {
    0x1040 <= c < 0x1080
  }

  /** A cell holds nothing, a character or an attribute, and never the code of the transparent
      space. */
  predicate CellOk(c: nat) {
    c == 0 || 0x20 <= c < 0x80 || 0x1020 <= c < 0x1030 || IsPac(c) || (0x1120 <= c < 0x1140 && c != 0x1139)
    || 0x1220 <= c < 0x1240 || 0x1320 <= c < 0x1340 || c == 0x1428 || 0x172D <= c <= 0x172F
  }

  predicate RowOk(line: Row) {
    (forall i :: 0 <= i < |line| ==> CellOk(line[i])) && (|line| > 0 ==> line[0] == 0 || IsPac(line[0]))
  }

  ghost predicate CellsOk(s: Screen) {
    forall r :: 0 <= r < |s| ==> RowOk(s[r])
  }

  ghost predicate Inv(k: Chan) {
    && Formed(k) && Sound(k.screen[0], k.dirty[0]) && Sound(k.screen[1], k.dirty[1]) && Confined(k)
    && (k.mode == Unknown ==> k.dirty[0] == {} && k.dirty[1] == {})
    && CellsOk(k.screen[0]) && CellsOk(k.screen[1]) && (k.pac == 0 || IsPac(k.pac))
  }

  // ---- The decoder -----------------------------------------------------------------

  /** The eight channels, and for each field the channel number, the control code which may be
      repeated and whether XDS data is received. */
  datatype Decoder = Decoder(channel: seq<Chan>, curr: seq<nat>, awaited: seq<(int, int)>, inXds: seq<bool>)

  /** What a control code says: the new channel number of the field and a command for a channel. */
  datatype Action = Action(curr: nat, channel: nat, op: Op)

  /** misc_control_code; ready means that the current channel is known and its mode too. */
  function MiscCode(curr: nat, n: nat, ready: bool, c2: nat): Action {
    match c2 % 16
    case 0 => Action(1 + n % 4, n % 4, Rcl)
    case 1 => Action(curr, n, if ready then Bs else Nothing)
    case 4 => Action(curr, n, if ready then Der else Nothing)
    case 5 => Action(1 + n % 4, n % 4, Ru(2))
    case 6 => Action(1 + n % 4, n % 4, Ru(3))
    case 7 => Action(1 + n % 4, n % 4, Ru(4))
    case 8 => Action(curr, n, if ready then Put(0x1428, false, false) else Nothing)
    case 9 => Action(1 + n % 4, n % 4, Rdc)
    case 10 => Action(5 + n % 4, 4 + n % 4, Tr)
    case 11 => Action(5 + n % 4, 4 + n % 4, Nothing)
    case 12 => Action(curr, n % 4, Edm)
    case 13 => Action(curr, n, if curr == 0 then Nothing else Cr)
    case 14 => Action(curr, n % 4, Enm)
    case 15 => Action(1 + n % 4, n % 4, Eoc)
    case _ => Action(curr, n, Nothing)
  }

  /** The channel which a control code of field f addresses. */
  function Addressed(curr: nat, f: nat, c1: nat): nat {
    (curr - 1) / 4 % 2 * 4 + f * 2 + c1 / 8 % 2
  }

  /** ext_control_code */
  function ExtCode(c2: nat): Op {
    if 0x21 <= c2 <= 0x23 then Tab(c2 % 4)
    else if 0x2D <= c2 <= 0x2F then Put(0x1700 + c2, false, true)
    else Nothing
  }

  /** control_code for channel n of a field with channel number curr. */
  function Code(curr: nat, n: nat, ready: bool, c1: nat, c2: nat): Action {
    if c2 >= 0x40 then Action(curr, n, if curr == 0 then Nothing else Pac(c1, c2))
    else match c1 % 8
      case 0 => Action(curr, n, if ready && c2 < 0x30 then Put(0x1000 + c2, false, true) else Nothing)
      case 1 =>
        Action(curr, n,
               if !ready then Nothing
               else if c2 < 0x30 then Put(0x1100 + c2, false, false)
               else if c2 == 0x39 then Put(0, false, false)
               else Put(0x1100 + c2, true, false))
      case 4 => if c2 < 0x30 then MiscCode(curr, n, ready, c2) else Action(curr, n, Nothing)
      case 5 => if c2 < 0x30 then MiscCode(curr, n, ready, c2) else Action(curr, n, Nothing)
      case 6 => Action(curr, n, Nothing)
      case 7 => Action(curr, n, if ready then ExtCode(c2) else Nothing)
      case _ => Action(curr, n, if ready then Put((c1 - c1 / 8 % 2 * 8) * 256 + c2, true, true) else Nothing)
  }

  /** The channel number of a field names one of its channels, and channels 4 to 7 are for text. */
  ghost predicate FormedDecoder(d: Decoder) {
    && |d.channel| == 8 && |d.curr| == 2 && |d.awaited| == 2 && |d.inXds| == 2
    && (forall i :: 0 <= i < 8 ==> Inv(d.channel[i]) && (d.channel[i].mode == Text <==> 4 <= i))
    && (forall f :: 0 <= f < 2 ==> d.curr[f] <= 8 && (d.curr[f] != 0 ==> (d.curr[f] - 1) / 2 % 2 == f))
  }

  function ActionOf(d: Decoder, f: nat, c1: nat, c2: nat): Action
    requires |d.channel| == 8 && |d.curr| == 2 && f < 2
  {
    var n := Addressed(d.curr[f], f, c1);
    Code(d.curr[f], n, d.curr[f] != 0 && d.channel[n].mode != Unknown, c1, c2)
  }

  function Acted(d: Decoder, i: nat, op: Op): Decoder
    requires i < |d.channel| && Applicable(d.channel[i], op)
  {
    d.(channel := d.channel[i := Apply(d.channel[i], op)])
  }

  function ControlCode(d: Decoder, f: nat, c1: nat, c2: nat): Decoder
    requires FormedDecoder(d) && f < 2 && 0x10 <= c1 < 0x20 && 0x20 <= c2 < 0x80
  {
    var a := ActionOf(d, f, c1, c2);
    ActionInRange(d, f, c1, c2);
    Acted(d, a.channel, a.op).(curr := d.curr[f := a.curr])
  }

  /** characters: the operation for c on a channel in the given mode. */
  function CharacterOp(mode: Mode, c: int): Op {
    if c == 0 || mode == Unknown || 0 < c < 0x20 then Nothing
    else if c < 0 then Put(0x7F, true, false)
    else Put(c, true, false)
  }

  /** The channel which the characters of field f are for. */
  function CharacterChannel(curr: nat, f: nat): nat {
    (curr - 1) / 4 % 2 * 4 + (curr - 1) % 2 + f * 2
  }

  function Characters(d: Decoder, f: nat, c: int): Decoder
    requires FormedDecoder(d) && f < 2 && -1 <= c < 0x80
  {
    var n := CharacterChannel(d.curr[f], f);
    Acted(d, n, CharacterOp(d.channel[n].mode, c))
  }

  lemma ActionInRange(d: Decoder, f: nat, c1: nat, c2: nat)
    requires FormedDecoder(d) && f < 2 && 0x10 <= c1 < 0x20 && 0x20 <= c2 < 0x80
    ensures ActionOf(d, f, c1, c2).channel < 8
    ensures Applicable(d.channel[ActionOf(d, f, c1, c2).channel], ActionOf(d, f, c1, c2).op)
  {
    var n := Addressed(d.curr[f], f, c1);
    assert n < 8;
    assert Inv(d.channel[n]);
    assert Inv(d.channel[n % 4]) && Inv(d.channel[4 + n % 4]);
  }
}
