/** What each byte pair does to the captions (47 CFR 15.119, EIA 608-B): the codes by their values, and
    how a pop-on caption comes to be displayed. */
module CaptionCodes {
  import opened CaptionProofs
  import opened CaptionRuns
  import opened CaptionState
  import opened Common

  /** The caption channel of a control code, counted from zero. */
  function CaptionOf(p: Pair): nat
    requires PairOk(p) && p.c1 >= 0
  {
    2 * p.field + p.c1 / 8 % 2
  }

  /** A miscellaneous control code which is not the expected repetition of the last one. */
  predicate IsMisc(d: Decoder, p: Pair)
    requires |d.awaited| == 2
  {
    PairOk(p) && p.c1 in {0x14, 0x15, 0x1C, 0x1D} && 0x20 <= p.c2 < 0x30 && (p.c1, p.c2) != d.awaited[p.field]
  }

  /** Of all channels only channel n may be different, and the channel number of the field is now curr. */
  predicate Changes(d: Decoder, m: Decoder, f: nat, n: nat, curr: nat)
    requires |d.curr| == 2
  {
    && |m.channel| == |d.channel| && (forall i :: 0 <= i < |d.channel| && i != n ==> m.channel[i] == d.channel[i])
    && f < 2 && m.curr == d.curr[f := curr]
  }

  /** Feeding p makes curr the channel number of its field and carries out op for channel n, no more. */
  predicate Does(d: Decoder, p: Pair, a: Action)
    requires FormedDecoder(d) && PairOk(p)
  {
    && a.channel < 8 && Applicable(d.channel[a.channel], a.op)
    && var m := Feed(d, p).0;
       && Changes(d, m, p.field, a.channel, a.curr) && m.channel[a.channel] == Apply(d.channel[a.channel], a.op)
  }

  /** Which channel a control code is for, and what it commands. */
  lemma CodeActs(d: Decoder, p: Pair)
    requires FormedDecoder(d) && PairOk(p) && IsControl(p) && (p.c1, p.c2) != d.awaited[p.field]
    ensures Does(d, p, ActionOf(d, p.field, p.c1, p.c2))
    ensures Feed(d, p).1 && Feed(d, p).0.awaited == d.awaited[p.field := (p.c1, p.c2)]
  {
    hide Inv, Apply, Code, Characters;
    ActionInRange(d, p.field, p.c1, p.c2);
  }

  lemma MiscActs(d: Decoder, p: Pair)
    requires FormedDecoder(d) && IsMisc(d, p)
    ensures var f := p.field;
      var n := Addressed(d.curr[f], f, p.c1);
      && n < 8 && n % 4 == CaptionOf(p)
      && Does(d, p, MiscCode(d.curr[f], n, d.curr[f] != 0 && d.channel[n].mode != Unknown, p.c2))
  {
    hide Inv, Does, MiscCode, Code, Addressed;
    CodeActs(d, p);
    var f := p.field;
    AddressOfField(d.curr[f], f, p.c1);
    var n := Addressed(d.curr[f], f, p.c1);
    MiscIs(p, d.curr[f], n, d.curr[f] != 0 && d.channel[n].mode != Unknown);
  }

  lemma MiscIs(p: Pair, curr: nat, n: nat, ready: bool)
    requires PairOk(p) && p.c1 in {0x14, 0x15, 0x1C, 0x1D} && 0x20 <= p.c2 < 0x30
    ensures Code(curr, n, ready, p.c1, p.c2) == MiscCode(curr, n, ready, p.c2)
  {
    hide MiscCode;
  }

  lemma ChannelInv(d: Decoder, i: nat)
    requires FormedDecoder(d) && i < 8
    ensures Inv(d.channel[i]) && Formed(d.channel[i]) && (d.channel[i].mode == Text <==> 4 <= i)
  {
    assert Inv(d.channel[i]);
  }

  /** The codes which are for caption channel k, or text channel 4 + k, whatever the current channel is. */
  function Command(p: Pair, curr: nat): Action
    requires PairOk(p) && p.c1 >= 0 && p.c2 >= 0
  {
    var k := CaptionOf(p);
    match p.c2
    case 0x20 => Action(1 + k, k, Rcl)
    case 0x29 => Action(1 + k, k, Rdc)
    case 0x2A => Action(5 + k, 4 + k, Tr)
    case 0x2B => Action(5 + k, 4 + k, Nothing)
    case 0x2C => Action(curr, k, Edm)
    case 0x2E => Action(curr, k, Enm)
    case 0x2F => Action(1 + k, k, Eoc)
    case _ => Action(1 + k, k, Ru(if p.c2 >= 0x23 then p.c2 - 0x23 else 0))
  }

  lemma CommandIs(p: Pair, curr: nat, n: nat, ready: bool)
    requires PairOk(p) && p.c1 >= 0 && n % 4 == CaptionOf(p)
    requires p.c2 in {0x20, 0x25, 0x26, 0x27, 0x29, 0x2A, 0x2B, 0x2C, 0x2E, 0x2F}
    ensures MiscCode(curr, n, ready, p.c2) == Command(p, curr)
  {}

  lemma CommandActs(d: Decoder, p: Pair)
    requires FormedDecoder(d) && IsMisc(d, p)
    requires p.c2 in {0x20, 0x25, 0x26, 0x27, 0x29, 0x2A, 0x2B, 0x2C, 0x2E, 0x2F}
    ensures var a := Command(p, d.curr[p.field]);
      && |d.channel| == 8 && a.channel < 8 && Inv(d.channel[a.channel]) && Formed(d.channel[a.channel])
      && (d.channel[a.channel].mode == Text <==> 4 <= a.channel)
      && Applicable(d.channel[a.channel], a.op) && Changes(d, Feed(d, p).0, p.field, a.channel, a.curr)
      && Feed(d, p).0.channel[a.channel] == Apply(d.channel[a.channel], a.op)
  {
    hide Feed, Inv, Apply, Applicable, Changes, MiscCode, Command;
    MiscActs(d, p);
    var f := p.field;
    var n := Addressed(d.curr[f], f, p.c1);
    CommandIs(p, d.curr[f], n, d.curr[f] != 0 && d.channel[n].mode != Unknown);
    ChannelInv(d, Command(p, d.curr[p.field]).channel);
  }

  // ---- Codes which select a channel and its mode ----------------------------------------------

  /** RCL: the caption channel is selected and loads its hidden screen. */
  lemma ResumeLoadingCode(d: Decoder, p: Pair)
    requires FormedDecoder(d) && IsMisc(d, p) && p.c2 == 0x20
    ensures var m, k := Feed(d, p).0, CaptionOf(p);
      Changes(d, m, p.field, k, 1 + k) && m.channel[k] == d.channel[k].(mode := PopOn)
  {
    hide Feed, Inv, FormedDecoder, Changes, Formed;
    CommandActs(d, p);
  }

  /** RDC: the caption channel is selected and writes to the displayed screen. */
  lemma ResumeDirectCode(d: Decoder, p: Pair)
    requires FormedDecoder(d) && IsMisc(d, p) && p.c2 == 0x29
    ensures var m, k := Feed(d, p).0, CaptionOf(p);
      Changes(d, m, p.field, k, 1 + k) && m.channel[k] == d.channel[k].(mode := PaintOn)
  {
    hide Feed, Inv, FormedDecoder, Changes, Formed;
    CommandActs(d, p);
  }

  /** The screens of a channel change places, and it is in pop-on mode. */
  predicate Flips(was: Chan, now: Chan) {
    && Formed(was) && Formed(now) && now == was.(shown := now.shown, mode := PopOn)
    && Shown(now) == was.screen[1 - was.shown] && now.screen[1 - now.shown] == Shown(was)
  }

  lemma Flipped(k: Chan)
    requires Formed(k) && k.mode != Text
    ensures Flips(k, EndOfCaption(k))
  {
    assert k.shown == 0 || k.shown == 1;
  }

  /** EOC: the caption channel is selected, displays the screen which was hidden, and hides the other one. */
  lemma EndOfCaptionCode(d: Decoder, p: Pair)
    requires FormedDecoder(d) && IsMisc(d, p) && p.c2 == 0x2F
    ensures var m, k := Feed(d, p).0, CaptionOf(p);
      Changes(d, m, p.field, k, 1 + k) && Flips(d.channel[k], m.channel[k])
  {
    hide Feed, Inv, FormedDecoder, Changes, Formed, Flips, EndOfCaption;
    CommandActs(d, p);
    Flipped(d.channel[CaptionOf(p)]);
  }

  /** A channel starts to roll up, from a pop-on or paint-on caption with blank screens and the cursor at the
      bottom left. When it rolls up already, what is in the new window stays and all else is blank. */
  ghost predicate RollsUp(was: Chan, now: Chan, rows: nat) {
    && Formed(was) && Formed(now) && now.mode == RollUp && now.window == rows && now.shown == was.shown
    && (was.mode == PopOn || was.mode == PaintOn ==>
          now.row == LAST_ROW && now.column == 1
          && forall b, r :: 0 <= b < 2 && 0 <= r < ROWS ==> IsBlank(now.screen[b][r]))
    && (was.mode == RollUp || was.mode == Unknown ==>
          && now.row == was.row && now.column == was.column
          && forall r :: 0 <= r < ROWS ==>
            if was.row - rows < r <= was.row then SameCells(Shown(now)[r], Shown(was)[r]) else IsBlank(Shown(now)[r]))
  }

  lemma RollingUp(k: Chan, rows: nat)
    requires Inv(k) && 2 <= rows <= 4 && k.mode != Text
    ensures RollsUp(k, RollUpCaption(k, rows), rows)
  {
    hide RollUpCaption, IsBlank, SameCells, Sound, CellsOk, Confined;
    if k.mode == PopOn || k.mode == PaintOn {
      StartRollUp(k, rows);
      StartPlace(k, rows);
    } else {
      WindowResized(k, rows);
    }
  }

  lemma StartPlace(k: Chan, rows: nat)
    requires Inv(k) && 2 <= rows <= 4 && (k.mode == PopOn || k.mode == PaintOn)
    ensures var m := RollUpCaption(k, rows);
      m.mode == RollUp && m.window == rows && m.row == LAST_ROW && m.column == 1 && m.shown == k.shown && Formed(m)
  {
    StartRollUp(k, rows);
    hide Sound, CellsOk, Confined;
  }

  lemma WindowResized(k: Chan, rows: nat)
    requires Inv(k) && 2 <= rows <= 4 && (k.mode == RollUp || k.mode == Unknown)
    ensures Formed(RollUpCaption(k, rows))
    ensures var m := RollUpCaption(k, rows);
      && m.mode == RollUp && m.window == rows && m.row == k.row && m.column == k.column && m.shown == k.shown
      && forall r :: 0 <= r < ROWS ==>
        if k.row - rows < r <= k.row then SameCells(Shown(m)[r], Shown(k)[r]) else IsBlank(Shown(m)[r])
  {
    hide CellsOk;
    RollUpKeeps(k, rows);
    var m := RollUpCaption(k, rows);
    forall r | 0 <= r < ROWS
      ensures if k.row - rows < r <= k.row then SameCells(Shown(m)[r], Shown(k)[r]) else IsBlank(Shown(m)[r])
    {
      assert Sound(m.screen[m.shown], m.dirty[m.shown]);
      SameRow(Shown(k)[r]);
    }
  }

  /** RU2, RU3, RU4: the caption channel is selected and rolls up two, three or four rows. */
  lemma RollUpCode(d: Decoder, p: Pair)
    requires FormedDecoder(d) && IsMisc(d, p) && 0x25 <= p.c2 <= 0x27
    ensures var m, k := Feed(d, p).0, CaptionOf(p);
      Changes(d, m, p.field, k, 1 + k) && RollsUp(d.channel[k], m.channel[k], p.c2 - 0x23)
  {
    hide Feed, Inv, FormedDecoder, Changes, Formed, RollUpCaption, RollsUp;
    CommandActs(d, p);
    RollingUp(d.channel[CaptionOf(p)], p.c2 - 0x23);
  }

  ghost predicate BlankRows(s: Screen) {
    |s| == ROWS && forall r :: 0 <= r < ROWS ==> IsBlank(s[r])
  }

  /** Screen b of a channel is erased, and nothing else of it changes. */
  ghost predicate Erases(was: Chan, now: Chan, b: nat) {
    && Formed(was) && Formed(now) && now == was.(screen := now.screen, dirty := now.dirty)
    && b < 2 && BlankRows(now.screen[b]) && now.screen[1 - b] == was.screen[1 - b]
  }

  lemma Erasing(k: Chan, b: nat)
    requires Inv(k) && b < 2
    ensures Erases(k, EraseMemory(k, b), b)
  {
    hide IsBlank;
    EraseKeeps(k, b);
    hide Sound, CellsOk, Confined;
  }

  /** TR: the text channel is selected, blank, with the cursor at the top left. */
  lemma TextRestartCode(d: Decoder, p: Pair)
    requires FormedDecoder(d) && IsMisc(d, p) && p.c2 == 0x2A
    ensures var m, t := Feed(d, p).0, 4 + CaptionOf(p);
      && Changes(d, m, p.field, t, 1 + t) && m.channel[t].row == 0 && m.channel[t].column == 1
      && m.channel[t].mode == Text && Formed(m.channel[t]) && BlankRows(Shown(m.channel[t]))
  {
    hide Feed, Inv, FormedDecoder, Changes, EraseMemory, BlankRows;
    CommandActs(d, p);
    Erasing(d.channel[4 + CaptionOf(p)], d.channel[4 + CaptionOf(p)].shown);
  }

  /** RTD: the text channel is selected. No channel is different. */
  lemma ResumeTextCode(d: Decoder, p: Pair)
    requires FormedDecoder(d) && IsMisc(d, p) && p.c2 == 0x2B
    ensures var m, t := Feed(d, p).0, 4 + CaptionOf(p);
      Changes(d, m, p.field, t, 1 + t) && m.channel[t] == d.channel[t]
  {
    hide Feed, Inv, FormedDecoder, Changes, Formed;
    CommandActs(d, p);
  }

  /** EDM, also while text is received: the displayed screen of the caption channel is blank. */
  lemma EraseDisplayedCode(d: Decoder, p: Pair)
    requires FormedDecoder(d) && IsMisc(d, p) && p.c2 == 0x2C
    ensures var m, k := Feed(d, p).0, CaptionOf(p);
      Changes(d, m, p.field, k, d.curr[p.field]) && Erases(d.channel[k], m.channel[k], d.channel[k].shown)
  {
    hide Feed, Inv, FormedDecoder, Changes, EraseMemory, Erases;
    CommandActs(d, p);
    Erasing(d.channel[CaptionOf(p)], d.channel[CaptionOf(p)].shown);
  }

  /** ENM, also while text is received: the hidden screen of the caption channel is blank. */
  lemma EraseHiddenCode(d: Decoder, p: Pair)
    requires FormedDecoder(d) && IsMisc(d, p) && p.c2 == 0x2E
    ensures var m, k := Feed(d, p).0, CaptionOf(p);
      && Changes(d, m, p.field, k, d.curr[p.field]) && d.channel[k].shown < 2
      && Erases(d.channel[k], m.channel[k], 1 - d.channel[k].shown)
  {
    hide Feed, Inv, FormedDecoder, Changes, EraseMemory, Erases;
    CommandActs(d, p);
    Erasing(d.channel[CaptionOf(p)], 1 - d.channel[CaptionOf(p)].shown);
  }

  // ---- Codes for the current channel ----------------------------------------------------------

  /** A control code which is not the expected repetition of the last one, and the field has a channel. */
  predicate IsCurrent(d: Decoder, p: Pair)
    requires |d.awaited| == 2 && |d.curr| == 2
  {
    && PairOk(p) && 0x10 <= p.c1 < 0x20 && 0x20 <= p.c2 && (p.c1, p.c2) != d.awaited[p.field]
    && d.curr[p.field] != 0
  }

  /** Such a code is for a text channel while that is received, else for a caption channel. */
  function Target(d: Decoder, p: Pair): nat
    requires |d.curr| == 2 && PairOk(p) && p.c1 >= 0
  {
    if d.curr[p.field] > 4 then 4 + CaptionOf(p) else CaptionOf(p)
  }

  lemma TargetIs(d: Decoder, p: Pair)
    requires FormedDecoder(d) && IsCurrent(d, p)
    ensures Target(d, p) == Addressed(d.curr[p.field], p.field, p.c1) < 8
  {
    hide Inv;
  }

  /** The code commands op for the current channel. */
  lemma EditActs(d: Decoder, p: Pair, op: Op)
    requires FormedDecoder(d) && IsCurrent(d, p)
    requires var curr, n := d.curr[p.field], Target(d, p);
      n < 8 && Code(curr, n, d.channel[n].mode != Unknown, p.c1, p.c2) == Action(curr, n, op)
    ensures var n := Target(d, p);
      && |d.channel| == 8 && n < 8 && Inv(d.channel[n]) && Formed(d.channel[n])
      && Applicable(d.channel[n], op) && Changes(d, Feed(d, p).0, p.field, n, d.curr[p.field])
      && Feed(d, p).0.channel[n] == Apply(d.channel[n], op)
  {
    hide Feed, Inv, Apply, Applicable, Changes, Code, Formed;
    TargetIs(d, p);
    CodeActs(d, p);
    ChannelInv(d, Target(d, p));
  }

  /** The cursor row becomes line, and no other row changes. */
  predicate EditsRow(was: Chan, now: Chan, line: Row) {
    && Formed(was) && Formed(now)
    && now == was.(screen := now.screen, dirty := now.dirty, column := now.column, upper := now.upper)
    && now.screen[Active(was)] == was.screen[Active(was)][was.row := line]
    && now.screen[1 - Active(was)] == was.screen[1 - Active(was)]
  }

  /** The cell to the left of the cursor is cleared, and the cursor goes there. */
  predicate StepsBack(was: Chan, now: Chan) {
    if Formed(was) && was.column > 1 then
      EditsRow(was, now, LineOf(was)[was.column - 1 := 0]) && now.column == was.column - 1
    else now == was
  }

  lemma SameLine(k: Chan, column: nat)
    requires Formed(k) && 1 <= column <= LAST_COLUMN
    ensures EditsRow(k, k.(column := column), LineOf(k))
  {}

  lemma SettlesRow(k: Chan, m: Chan, b: nat, line: Row)
    requires Formed(k) && Formed(m) && b == Active(k) && |line| == 33
    requires m == k.(column := m.column, upper := m.upper)
    ensures EditsRow(k, Settle(m, b, line), line)
    ensures Settle(m, b, line).column == m.column && Settle(m, b, line).upper == m.upper
  {
    hide IsBlank;
    assert b == 0 || b == 1;
  }

  lemma SteppingBack(k: Chan)
    requires Formed(k)
    ensures StepsBack(k, Backspace(k))
  {
    hide Settle, EditsRow;
    if 1 < k.column {
      var b, m, line := Active(k), k.(column := k.column - 1), LineOf(k);
      assert line == k.screen[b][k.row];
      if line[m.column] == 0 {
        assert line[m.column := 0] == line;
        SameLine(k, m.column);
      } else {
        SettlesRow(k, m, b, line[m.column := 0]);
      }
    }
  }

  lemma EditIs(p: Pair, curr: nat, n: nat, ready: bool)
    requires PairOk(p) && p.c1 in {0x14, 0x15, 0x1C, 0x1D} && p.c2 in {0x21, 0x24, 0x2D}
    ensures Code(curr, n, ready, p.c1, p.c2)
      == Action(curr, n, if p.c2 == 0x2D then if curr == 0 then Nothing else Cr
                         else if !ready then Nothing else if p.c2 == 0x21 then Bs else Der)
  {}

  /** BS */
  lemma BackspaceCode(d: Decoder, p: Pair)
    requires FormedDecoder(d) && IsCurrent(d, p) && IsMisc(d, p) && p.c2 == 0x21
    ensures var m, n := Feed(d, p).0, Target(d, p);
      && Changes(d, m, p.field, n, d.curr[p.field]) && n < 8
      && if d.channel[n].mode == Unknown then m.channel[n] == d.channel[n] else StepsBack(d.channel[n], m.channel[n])
  {
    TargetIs(d, p);
    var n := Target(d, p);
    var k := d.channel[n];
    hide Feed, Inv, FormedDecoder, Changes, Backspace, StepsBack, Code;
    EditIs(p, d.curr[p.field], n, k.mode != Unknown);
    EditActs(d, p, if k.mode == Unknown then Nothing else Bs);
    SteppingBack(k);
  }

  /** From the cursor on the row is blank. */
  predicate BlanksRest(was: Chan, now: Chan) {
    && Formed(was) && Formed(now) && now.column == was.column && now.upper == was.upper
    && EditsRow(was, now, LineOf(now))
    && forall i :: 0 <= i < 33 ==> LineOf(now)[i] == if was.column <= i then 0 else LineOf(was)[i]
  }

  lemma BlankingRest(k: Chan)
    requires Inv(k)
    ensures BlanksRest(k, DeleteToEnd(k))
  {
    hide Settle, EditsRow, CellsOk, Confined, IsBlank, Sound;
    var b, line := Active(k), LineOf(k);
    if k.row in k.dirty[b] {
      SettlesRow(k, k, b, ClearedFrom(line, k.column));
      LineEdited(k, DeleteToEnd(k), ClearedFrom(line, k.column));
    } else {
      SameLine(k, k.column);
      assert DeleteToEnd(k) == k && k.(column := k.column) == k;
      CleanRow(k.screen[b], k.dirty[b], k.row);
      BlankCells(line);
    }
  }

  lemma LineEdited(k: Chan, m: Chan, line: Row)
    requires Formed(k) && EditsRow(k, m, line)
    ensures Formed(m) && LineOf(m) == line
  {}

  lemma BlankCells(line: Row)
    requires IsBlank(line)
    ensures forall i :: 1 <= i < |line| ==> line[i] == 0
  {}

  /** DER */
  lemma DeleteToEndCode(d: Decoder, p: Pair)
    requires FormedDecoder(d) && IsCurrent(d, p) && IsMisc(d, p) && p.c2 == 0x24
    ensures var m, n := Feed(d, p).0, Target(d, p);
      && Changes(d, m, p.field, n, d.curr[p.field]) && n < 8
      && if d.channel[n].mode == Unknown then m.channel[n] == d.channel[n] else BlanksRest(d.channel[n], m.channel[n])
  {
    TargetIs(d, p);
    var n := Target(d, p);
    var k := d.channel[n];
    hide Feed, Inv, FormedDecoder, Changes, DeleteToEnd, BlanksRest, Code;
    EditIs(p, d.curr[p.field], n, k.mode != Unknown);
    EditActs(d, p, if k.mode == Unknown then Nothing else Der);
    BlankingRest(k);
  }

  /** A roll-up or text channel begins a new line: with rolling up, the rows of the window move up and the base
      row is blank; a text channel goes down a row, or when it is on the last one all rows move up. A pop-on or
      paint-on channel stays as it is. */
  ghost predicate BeginsLine(was: Chan, now: Chan) {
    && Formed(was) && Formed(now)
    && match was.mode
       case RollUp =>
         && now.row == was.row && now.column == 1 && now.pac == 0 && now.shown == was.shown
         && forall r :: 0 <= r < ROWS ==>
           if was.row - WindowRows(was) < r < was.row then SameCells(Shown(now)[r], Shown(was)[r + 1])
           else IsBlank(Shown(now)[r])
       case Text =>
         && now.column == 1 && now.pac == 0 && now.shown == was.shown
         && (was.row < LAST_ROW ==> now.row == was.row + 1 && Shown(now) == Shown(was))
         && (was.row == LAST_ROW ==>
               now.row == LAST_ROW && IsBlank(Shown(now)[LAST_ROW])
               && forall r :: 0 <= r < LAST_ROW ==> SameCells(Shown(now)[r], Shown(was)[r + 1]))
       case _ => now == was
  }

  lemma BeginningLine(k: Chan)
    requires Inv(k)
    ensures BeginsLine(k, CarriageReturn(k))
  {
    hide SameCells, IsBlank;
    if k.mode == RollUp {
      CarriageReturnRolls(k);
    } else if k.mode == Text {
      CarriageReturnInText(k);
    }
  }

  /** CR */
  lemma CarriageReturnCode(d: Decoder, p: Pair)
    requires FormedDecoder(d) && IsCurrent(d, p) && IsMisc(d, p) && p.c2 == 0x2D
    ensures var m, n := Feed(d, p).0, Target(d, p);
      Changes(d, m, p.field, n, d.curr[p.field]) && n < 8 && BeginsLine(d.channel[n], m.channel[n])
  {
    TargetIs(d, p);
    var n := Target(d, p);
    var k := d.channel[n];
    hide Feed, Inv, FormedDecoder, Changes, CarriageReturn, BeginsLine, Code;
    EditIs(p, d.curr[p.field], n, k.mode != Unknown);
    EditActs(d, p, Cr);
    BeginningLine(k);
  }

  // ---- Codes which write a cell -----------------------------------------------------------------

  /** One cell of the cursor row becomes c: at the cursor, which advances, or to its left, and the cursor stays.
      A character or attribute takes the last PAC along, into the cell to its left if that is free. */
  predicate Writes(was: Chan, now: Chan, c: nat, left: bool) {
    && Formed(was) && Formed(now) && EditsRow(was, now, LineOf(now))
    && now.column == (if left then was.column else Min(was.column + 1, LAST_COLUMN))
    && var column := if left && was.column > 1 then was.column - 1 else was.column;
       forall i :: 0 <= i < 33 ==>
         LineOf(now)[i] == if i == column then c
                           else if i == column - 1 && c != 0 && (i == 0 || LineOf(was)[i] == 0) then was.pac
                           else LineOf(was)[i]
  }

  lemma Writing(k: Chan, c: nat, displayable: bool, left: bool)
    requires Formed(k) && (displayable ==> c != 0)
    ensures Writes(k, PutChar(k, c, displayable, left), c, left)
    ensures PutChar(k, c, displayable, left).upper == if displayable then Counted(k.upper, c) else k.upper
  {
    hide Settle, EditsRow, Counted;
    var m, line := PutChar(k, c, displayable, left), LineOf(k);
    var column := PutColumn(k, left);
    if c == 0 {
      var moved := if left then k else k.(column := Min(k.column + 1, LAST_COLUMN));
      SettlesRow(k, moved, Active(k), line[column := 0]);
      LineEdited(k, m, line[column := 0]);
    } else {
      WrittenRow(k, c, displayable, left);
      LineEdited(k, m, Written(k, c, left));
    }
  }

  lemma WrittenRow(k: Chan, c: nat, displayable: bool, left: bool)
    requires Formed(k) && c != 0
    ensures EditsRow(k, PutChar(k, c, displayable, left), Written(k, c, left))
  {
    assert Active(k) == 0 || Active(k) == 1;
  }

  /** The codes of background attributes, mid-row codes and special characters, extended characters, FON, and
      of the attributes of the extended control codes. */
  predicate IsWriting(c1: nat, c2: nat) {
    match c1 % 8
    case 0 => c2 < 0x30
    case 1 => c2 < 0x40
    case 2 => c2 < 0x40
    case 3 => c2 < 0x40
    case 6 => false
    case 7 => 0x2D <= c2 <= 0x2F
    case _ => c2 == 0x28
  }

  /** The cell holds the code as it is on the first channel of the first field; the transparent space is no
      character at all. */
  function CellFor(c1: nat, c2: nat): nat {
    if c1 % 8 == 1 && c2 == 0x39 then 0 else if c1 % 8 == 5 then 0x1428 else 0x1000 + 0x100 * (c1 % 8) + c2
  }

  /** Special and extended characters count as text. */
  predicate IsCharacter(c1: nat, c2: nat) {
    (c1 % 8 == 1 && c2 >= 0x30 && c2 != 0x39) || c1 % 8 == 2 || c1 % 8 == 3
  }

  predicate GoesLeft(c1: nat) {
    c1 % 8 in {0, 2, 3, 7}
  }

  lemma WritingIs(p: Pair, curr: nat, n: nat, ready: bool)
    requires PairOk(p) && 0x10 <= p.c1 < 0x20 && 0x20 <= p.c2 && IsWriting(p.c1, p.c2)
    ensures Code(curr, n, ready, p.c1, p.c2)
      == Action(curr, n, if ready then Put(CellFor(p.c1, p.c2), IsCharacter(p.c1, p.c2), GoesLeft(p.c1))
                         else Nothing)
  {
    assert p.c1 - p.c1 / 8 % 2 * 8 == 0x10 + p.c1 % 8;
  }

  /** The background attributes, the extended characters and the attributes of the extended control codes replace
      the cell before the cursor, the other codes fill the one at the cursor. */
  lemma WritingCode(d: Decoder, p: Pair)
    requires FormedDecoder(d) && IsCurrent(d, p) && IsWriting(p.c1, p.c2)
    ensures var m, n := Feed(d, p).0, Target(d, p);
      && Changes(d, m, p.field, n, d.curr[p.field]) && n < 8
      && if d.channel[n].mode == Unknown then m.channel[n] == d.channel[n]
         else Writes(d.channel[n], m.channel[n], CellFor(p.c1, p.c2), GoesLeft(p.c1))
  {
    TargetIs(d, p);
    var n := Target(d, p);
    var k, c, shown, left := d.channel[n], CellFor(p.c1, p.c2), IsCharacter(p.c1, p.c2), GoesLeft(p.c1);
    if shown { CharacterCell(p); }
    hide Feed, Inv, FormedDecoder, Changes, PutChar, Writes, Code, CellFor, IsWriting, IsCharacter, GoesLeft, Formed,
      Applicable, Target;
    WritingIs(p, d.curr[p.field], n, k.mode != Unknown);
    if k.mode == Unknown {
      EditActs(d, p, Nothing);
    } else {
      EditActs(d, p, Put(c, shown, left));
      Writing(k, c, shown, left);
    }
  }

  lemma CharacterCell(p: Pair)
    requires PairOk(p) && p.c1 >= 0 && p.c2 >= 0 && IsCharacter(p.c1, p.c2)
    ensures CellFor(p.c1, p.c2) != 0
  {}

  /** TO1, TO2, TO3: the cursor goes one, two or three columns to the right, at most to the last one. */
  lemma TabCode(d: Decoder, p: Pair)
    requires FormedDecoder(d) && IsCurrent(d, p) && p.c1 in {0x17, 0x1F} && 0x21 <= p.c2 <= 0x23
    ensures var m, n := Feed(d, p).0, Target(d, p);
      && Changes(d, m, p.field, n, d.curr[p.field]) && n < 8
      && var was := d.channel[n];
         m.channel[n] == if was.mode == Unknown then was
                         else was.(column := if was.column + (p.c2 - 0x20) < 32 then was.column + (p.c2 - 0x20) else 32)
  {
    TargetIs(d, p);
    var n := Target(d, p);
    var k := d.channel[n];
    hide Feed, Inv, FormedDecoder, Changes, Code, Formed;
    TabIs(p, d.curr[p.field], n, k.mode != Unknown);
    EditActs(d, p, if k.mode == Unknown then Nothing else Tab(p.c2 - 0x20));
  }

  lemma TabIs(p: Pair, curr: nat, n: nat, ready: bool)
    requires PairOk(p) && p.c1 in {0x17, 0x1F} && 0x21 <= p.c2 <= 0x23
    ensures Code(curr, n, ready, p.c1, p.c2) == Action(curr, n, if ready then Tab(p.c2 - 0x20) else Nothing)
  {}

  /** All other codes below 40 hexadecimal but the miscellaneous ones above have no meaning. */
  lemma IgnoredCode(d: Decoder, p: Pair)
    requires FormedDecoder(d) && IsCurrent(d, p) && p.c2 < 0x40 && !IsWriting(p.c1, p.c2)
    requires p.c1 % 8 != 7 || !(0x21 <= p.c2 <= 0x23)
    requires (p.c1 % 8 == 4 || p.c1 % 8 == 5) && p.c2 < 0x30 ==> p.c2 in {0x22, 0x23}
    ensures var m := Feed(d, p).0; m.channel == d.channel && m.curr == d.curr
  {
    TargetIs(d, p);
    var n := Target(d, p);
    hide Feed, Inv, FormedDecoder, Code, Formed, IsWriting;
    IgnoredIs(p, d.curr[p.field], n, d.channel[n].mode != Unknown);
    EditActs(d, p, Nothing);
  }

  lemma IgnoredIs(p: Pair, curr: nat, n: nat, ready: bool)
    requires PairOk(p) && 0x10 <= p.c1 < 0x20 && 0x20 <= p.c2 < 0x40 && !IsWriting(p.c1, p.c2)
    requires p.c1 % 8 != 7 || !(0x21 <= p.c2 <= 0x23)
    requires (p.c1 % 8 == 4 || p.c1 % 8 == 5) && p.c2 < 0x30 ==> p.c2 in {0x22, 0x23}
    ensures Code(curr, n, ready, p.c1, p.c2) == Action(curr, n, Nothing)
  {}

  // ---- Preamble address codes ---------------------------------------------------------------------

  /** The row, counted from zero, which a preamble address code names: 11 (the first code of which has no partner),
      1 to 4, 12 to 15 and 5 to 10, two for each first byte. */
  function RowNamed(c1: nat, c2: nat): (row: int)
    ensures -1 <= row < ROWS
  {
    var i, second := c1 % 8, c2 / 32 % 2;
    if i == 0 then if second == 1 then -1 else 10
    else if i <= 2 then 2 * (i - 1) + second
    else if i <= 4 then 11 + 2 * (i - 3) + second
    else 4 + 2 * (i - 5) + second
  }

  lemma RowNamedIs(c1: nat, c2: nat)
    ensures RowNamed(c1, c2) == PacRow(c1, c2)
  {}

  /** Every row has an address. */
  lemma RowHasAddress(row: nat) returns (c1: nat, c2: nat)
    requires row < ROWS
    ensures 0x10 <= c1 < 0x18 && (c2 == 0x40 || c2 == 0x60) && RowNamed(c1, c2) == row
  {
    c1 := [0x11, 0x11, 0x12, 0x12, 0x15, 0x15, 0x16, 0x16, 0x17, 0x17, 0x10, 0x13, 0x13, 0x14, 0x14][row];
    c2 := if row in {1, 3, 5, 7, 9, 12, 14} then 0x60 else 0x40;
  }

  /** No two addresses name the same row. */
  lemma OneAddress(c1: nat, c2: nat, e1: nat, e2: nat)
    requires RowNamed(c1, c2) == RowNamed(e1, e2) >= 0
    ensures c1 % 8 == e1 % 8 && c2 / 32 % 2 == e2 / 32 % 2
  {}

  /** Where a channel goes on after a preamble address code. In roll-up mode the window moves as a unit, to the row
      or to the first one where all of it is on the screen. */
  ghost predicate GoesTo(was: Chan, now: Chan, c1: nat, c2: nat) {
    && Formed(was) && Formed(now) && now.mode == was.mode && now.shown == was.shown
    && var row := RowNamed(c1, c2);
       if row < 0 || was.mode == Unknown then now == was
       else
         && now.pac == 0x1000 + c2 && now.window == was.window
         && now.column == (if c2 / 16 % 2 == 1 then 1 + 4 * (c2 / 2 % 8) else was.column)
         && (was.mode == PopOn || was.mode == PaintOn ==> now.row == row && now.screen == was.screen)
         && (was.mode == Text ==> now.row == was.row && now.screen == was.screen)
         && (was.mode == RollUp ==>
               && now.row == (if was.window <= row + 1 then row else was.window - 1)
               && MovedAsUnit(Shown(was), was.row, Shown(now), now.row, WindowRows(was)))
  }

  lemma Going(k: Chan, c1: nat, c2: nat)
    requires Inv(k) && 0x40 <= c2 < 0x80
    ensures GoesTo(k, PreambleAddress(k, c1, c2), c1, c2)
  {
    hide MovedAsUnit, Sound, CellsOk;
    RowNamedIs(c1, c2);
    if k.mode == RollUp && PacRow(c1, c2) >= 0 { PacMovesWindow(k, c1, c2); }
    hide Confined;
  }

  /** PAC */
  lemma PreambleCode(d: Decoder, p: Pair)
    requires FormedDecoder(d) && IsCurrent(d, p) && 0x40 <= p.c2
    ensures var m, n := Feed(d, p).0, Target(d, p);
      Changes(d, m, p.field, n, d.curr[p.field]) && n < 8 && GoesTo(d.channel[n], m.channel[n], p.c1, p.c2)
  {
    TargetIs(d, p);
    var n := Target(d, p);
    var k := d.channel[n];
    hide Feed, Inv, FormedDecoder, Changes, PreambleAddress, GoesTo, Formed;
    EditActs(d, p, Pac(p.c1, p.c2));
    Going(k, p.c1, p.c2);
  }

  // ---- Text ---------------------------------------------------------------------------------------------

  /** What a byte adds to the text: nothing, a character, or a solid block for a parity error. */
  function Letter(c: int): seq<nat> {
    if c < 0 then [0x7F] else if c < 0x20 then [] else [c]
  }

  lemma TextChannel(d: Decoder, f: nat)
    requires FormedDecoder(d) && f < 2 && d.curr[f] != 0
    ensures CharacterChannel(d.curr[f], f) == d.curr[f] - 1 < 8
  {
    hide Inv;
  }

  lemma CharacterTyped(d: Decoder, f: nat, c: int)
    requires FormedDecoder(d) && f < 2 && -1 <= c < 0x80 && d.curr[f] != 0
    ensures var m, n := Characters(d, f, c), d.curr[f] - 1;
      && n < 8 && |d.channel| == 8 && Formed(d.channel[n]) && Changes(d, m, f, n, d.curr[f])
      && m.channel[n] == (if d.channel[n].mode == Unknown then d.channel[n] else Typed(d.channel[n], Letter(c)))
      && m.awaited == d.awaited && m.curr == d.curr
  {
    hide Inv, PutChar;
    TextChannel(d, f);
    ChannelInv(d, d.curr[f] - 1);
    OneTyped(d.channel[d.curr[f] - 1], c);
  }

  lemma OneTyped(k: Chan, c: int)
    requires Formed(k)
    ensures Typed(k, Letter(c)) == if c < 0 then PutChar(k, 0x7F, true, false)
                                   else if c < 0x20 then k else PutChar(k, c, true, false)
  {
    hide PutChar;
    assert Letter(c) != [] ==> Letter(c)[1..] == [];
  }

  lemma {:induction false} TypedAppend(k: Chan, v: seq<nat>, w: seq<nat>)
    requires Formed(k)
    ensures Typed(Typed(k, v), w) == Typed(k, v + w)
    decreases |v|
  {
    hide PutChar, Formed;
    if v == [] {
      assert v + w == w;
    } else {
      PutFormed(k, v[0]);
      TypedAppend(PutChar(k, v[0], true, false), v[1..], w);
      assert (v + w)[1..] == v[1..] + w;
    }
  }

  lemma PutFormed(k: Chan, c: nat)
    requires Formed(k)
    ensures Formed(PutChar(k, c, true, false))
  {
    hide IsBlank;
  }

  /** Text is for the channel of the field which was selected last. */
  lemma TextCode(d: Decoder, p: Pair)
    requires FormedDecoder(d) && PairOk(p) && IsText(d, p) && (p.c1, p.c2) != d.awaited[p.field]
    ensures var m, n := Feed(d, p).0, d.curr[p.field] - 1;
      && n < 8 && Formed(d.channel[n]) && Changes(d, m, p.field, n, d.curr[p.field])
      && (if d.channel[n].mode == Unknown then m.channel[n] == d.channel[n]
          else m.channel[n] == Typed(d.channel[n], Letter(p.c1) + Letter(p.c2)))
      && m.awaited[p.field] == (-1, d.awaited[p.field].1)
    ensures Feed(d, p).1 <==> p.c2 == 0 || p.c2 >= 0x20
  {
    hide Inv, Characters, Feed, Typed, Formed;
    FeedText(d, p);
    var f := p.field;
    var m, c := Forget(d, f), if p.c1 < 0x10 then 0 else p.c1;
    CharacterTyped(m, f, c);
    var x := Characters(m, f, c);
    CharacterTyped(x, f, p.c2);

    TypedAppend(m.channel[d.curr[f] - 1], Letter(c), Letter(p.c2));

  }

  // ---- Upper case text ------------------------------------------------------------------------------------

  /** The capitals of a text. */
  function Capitals(w: seq<nat>): nat {
    if w == [] then 0 else (if 'A' as nat <= w[0] <= 'Z' as nat then 1 else 0) + Capitals(w[1..])
  }

  predicate NoSmallLetters(w: seq<nat>) {
    forall i :: 0 <= i < |w| ==> !('a' as nat <= w[i] <= 'z' as nat)
  }

  const MANY := 0xFFFF_FFFF

  /** The capitals of text without small letters are counted, as far as the counter goes. */
  lemma {:induction false} CapitalsCounted(k: Chan, w: seq<nat>)
    requires Formed(k) && k.upper <= MANY && NoSmallLetters(w) && forall i :: 0 <= i < |w| ==> w[i] != 0
    ensures Typed(k, w).upper == Min(k.upper + Capitals(w), MANY)
    decreases |w|
  {
    hide Formed;
    if w != [] {
      var m := PutChar(k, w[0], true, false);
      PutFormed(k, w[0]);
      assert m.upper == Min(k.upper + if 'A' as nat <= w[0] <= 'Z' as nat then 1 else 0, MANY);
      hide PutChar;
      CapitalsCounted(m, w[1..]);
    }
  }

  /** A small letter starts the count anew. */
  lemma SmallLetterCounted(k: Chan, v: seq<nat>, small: nat, w: seq<nat>)
    requires Formed(k) && k.upper <= MANY && NoSmallLetters(w) && forall i :: 0 <= i < |w| ==> w[i] != 0
    requires 'a' as nat <= small <= 'z' as nat
    ensures Typed(k, v + [small] + w).upper == Min(Capitals(w), MANY)
  {
    hide Formed, NoSmallLetters, Capitals;
    var m := Typed(k, v);
    assert v + [small] + w == v + ([small] + w);
    TypedAppend(k, v, [small] + w);
    PutFormed(m, small);
    SmallFirst(m, small, w);
    CapitalsCounted(PutChar(m, small, true, false), w);
  }

  lemma SmallFirst(k: Chan, small: nat, w: seq<nat>)
    requires Formed(k) && 'a' as nat <= small <= 'z' as nat
    ensures Formed(PutChar(k, small, true, false)) && PutChar(k, small, true, false).upper == 0
    ensures Typed(k, [small] + w) == Typed(PutChar(k, small, true, false), w)
  {
    assert ([small] + w)[1..] == w;
    PutFormed(k, small);
  }

  // ---- The first codes ------------------------------------------------------------------------------------

  /** A new decoder starts to roll up at the bottom left of a blank screen. */
  lemma FirstRollUp(p: Pair)
    requires FormedDecoder(NewDecoder()) && IsMisc(NewDecoder(), p) && 0x25 <= p.c2 <= 0x27
    ensures var m := Feed(NewDecoder(), p).0.channel[CaptionOf(p)];
      && Formed(m) && m.mode == RollUp && m.window == p.c2 - 0x23 && m.row == LAST_ROW && m.column == 1
      && BlankRows(Shown(m))
  {
    hide Feed, Inv, FormedDecoder;
    RollUpCode(NewDecoder(), p);
    var k := NewDecoder().channel[CaptionOf(p)];
    assert k == NewChannel(CaptionOf(p));
    assert forall r :: 0 <= r < ROWS ==> IsBlank(Shown(k)[r]);
  }

  /** Its text channels start at the top left, and until a channel is selected text is ignored. */
  lemma FirstText(p: Pair)
    requires FormedDecoder(NewDecoder()) && PairOk(p)
    ensures IsMisc(NewDecoder(), p) && p.c2 == 0x2B ==>
      var m := Feed(NewDecoder(), p).0.channel[4 + CaptionOf(p)];
      Formed(m) && m.mode == Text && m.row == 0 && m.column == 1 && BlankRows(Shown(m))
    ensures !IsControl(p) ==> Feed(NewDecoder(), p).0.channel == NewDecoder().channel
  {
    hide Inv;
    if IsMisc(NewDecoder(), p) && p.c2 == 0x2B { ResumeTextCode(NewDecoder(), p); }
  }
}
