/** Byte pairs fed to the caption decoder: what holds after every run, that the two fields do not
    disturb each other, that a repeated control code is acted upon once, and that only three
    control codes change what a pop-on channel displays. */
module CaptionRuns {
  import opened CaptionProofs
  import opened CaptionState

  /** A byte pair of a field; a byte with a parity error is -1. */
  datatype Pair = Pair(field: nat, c1: int, c2: int)

  predicate PairOk(p: Pair) {
    p.field < 2 && -1 <= p.c1 < 0x80 && -1 <= p.c2 < 0x80
  }

  predicate IsControl(p: Pair) {
    0x10 <= p.c1 < 0x20 && 0x20 <= p.c2
  }

  lemma CodeOk(curr: nat, n: nat, ready: bool, c1: nat, c2: nat)
    requires 0x10 <= c1 < 0x20 && 0x20 <= c2 < 0x80
    ensures OpOk(Code(curr, n, ready, c1, c2).op)
  {
    assert c1 - c1 / 8 % 2 * 8 == 0x10 + c1 % 8;
  }

  lemma AddressOfField(curr: nat, f: nat, c1: nat)
    requires f < 2 && curr <= 8 && 0x10 <= c1 < 0x20
    ensures var n := Addressed(curr, f, c1); n < 8 && n / 2 % 2 == f && n % 4 == f * 2 + c1 / 8 % 2
    ensures var n := Addressed(curr, f, c1) % 4; n / 2 % 2 == f && (4 + n) / 2 % 2 == f && n < 4
  {}

  /** The channel number of the field and the channel acted upon belong to the field. */
  lemma CodeOfField(d: Decoder, f: nat, c1: nat, c2: nat)
    requires FormedDecoder(d) && f < 2 && 0x10 <= c1 < 0x20 && 0x20 <= c2 < 0x80
    ensures var a := ActionOf(d, f, c1, c2);
            && a.channel / 2 % 2 == f && a.curr <= 8 && (a.curr != 0 ==> (a.curr - 1) / 2 % 2 == f)
  {
    hide Inv, Addressed, ExtCode;
    AddressOfField(d.curr[f], f, c1);
  }

  lemma ActedKeeps(d: Decoder, i: nat, op: Op)
    requires FormedDecoder(d) && i < 8 && Applicable(d.channel[i], op) && OpOk(op)
    ensures FormedDecoder(Acted(d, i, op))
  {
    hide Inv, Apply;
    ApplyKeeps(d.channel[i], op);
  }

  lemma ControlCodeKeeps(d: Decoder, f: nat, c1: nat, c2: nat)
    requires FormedDecoder(d) && f < 2 && 0x10 <= c1 < 0x20 && 0x20 <= c2 < 0x80
    ensures FormedDecoder(ControlCode(d, f, c1, c2))
  {
    hide Inv, Apply, Code;
    var a := ActionOf(d, f, c1, c2);
    ActionInRange(d, f, c1, c2);
    CodeOfField(d, f, c1, c2);
    CodeOk(d.curr[f], Addressed(d.curr[f], f, c1), d.curr[f] != 0
      && d.channel[Addressed(d.curr[f], f, c1)].mode != Unknown, c1, c2);
    ActedKeeps(d, a.channel, a.op);
  }

  lemma CharactersKeep(d: Decoder, f: nat, c: int)
    requires FormedDecoder(d) && f < 2 && -1 <= c < 0x80
    ensures FormedDecoder(Characters(d, f, c))
  {
    hide Apply;
    var n := CharacterChannel(d.curr[f], f);
    ActedKeeps(d, n, CharacterOp(d.channel[n].mode, c));
  }

  /** No control code is expected to repeat. */
  function Forget(d: Decoder, f: nat): Decoder
    requires f < |d.awaited|
  {
    d.(awaited := d.awaited[f := (-1, d.awaited[f].1)])
  }

  predicate CharacterOk(c: int) {
    c == 0 || 0x20 <= c
  }

  /** _vbi_cc608_decoder_feed, with its result. */
  function Feed(d: Decoder, p: Pair): (Decoder, bool)
    requires FormedDecoder(d) && PairOk(p)
  {
    var f, m := p.field, Forget(d, p.field);
    if p.c1 < 0 then (m, false)
    else if (p.c1, p.c2) == d.awaited[f] then (m, true)
    else if 0x10 <= p.c1 < 0x20 then
      var x := d.(inXds := d.inXds[f := false]);
      if p.c2 < 0x20 then (Forget(x, f), false)
      else (ControlCode(x, f, p.c1, p.c2).(awaited := d.awaited[f := (p.c1, p.c2)]), true)
    else if 1 <= p.c1 < 0x10 && f == 1 then
      (m.(inXds := m.inXds[1 := p.c1 != 0x0F]), true)
    else if d.curr[f] == 0 then (m, true)
    else
      var c := if p.c1 < 0x10 then 0 else p.c1;
      CharactersKeep(m, f, c);
      (Characters(Characters(m, f, c), f, p.c2), CharacterOk(c) && CharacterOk(p.c2))
  }

  lemma FeedKeeps(d: Decoder, p: Pair)
    requires FormedDecoder(d) && PairOk(p)
    ensures FormedDecoder(Feed(d, p).0)
  {
    hide Inv, ControlCode, Characters;
    var f, m := p.field, Forget(d, p.field);
    if p.c1 >= 0 && (p.c1, p.c2) != d.awaited[f] {
      if IsControl(p) {
        ControlCodeKeeps(d.(inXds := d.inXds[f := false]), f, p.c1, p.c2);
      } else {
        var c := if p.c1 < 0x10 then 0 else p.c1;
        CharactersKeep(m, f, c);
        CharactersKeep(Characters(m, f, c), f, p.c2);
      }
    }
  }

  // ---- Runs ------------------------------------------------------------------------

  predicate PairsOk(ps: seq<Pair>) {
    forall i :: 0 <= i < |ps| ==> PairOk(ps[i])
  }

  /** Every run keeps the invariant of all channels. */
  function Run(d: Decoder, ps: seq<Pair>): (r: Decoder)
    requires FormedDecoder(d) && PairsOk(ps)
    ensures FormedDecoder(r)
    decreases |ps|
  {
    if ps == [] then d
    else
      FeedKeeps(d, ps[0]);
      Run(Feed(d, ps[0]).0, ps[1..])
  }

  /** _vbi_cc608_decoder_reset on a new decoder. */
  function NewChannel(i: nat): Chan {
    var s: Screen := seq(ROWS, r => BLANK);
    if i < 4 then Chan([s, s], [{}, {}], 0, LAST_ROW, 1, 4, 0, 0, Unknown)
    else Chan([s, s], [{}, {}], 0, 0, 1, 0, 0, 0, Text)
  }

  function NewDecoder(): Decoder {
    Decoder(seq(8, i requires 0 <= i < 8 => NewChannel(i)), [0, 0], [(-1, -1), (-1, -1)], [false, false])
  }

  lemma NewIsFormed()
    ensures FormedDecoder(NewDecoder())
  {
    forall i | 0 <= i < 8
      ensures Inv(NewChannel(i))
    {}
  }

  /** In every reachable state, a row whose dirty bit is clear is blank, roll-up channels are blank
      outside their window, text channels below the cursor, channels in an unknown mode
      everywhere, and the cursor is on the screen. */
  lemma Reachable(ps: seq<Pair>, i: nat, b: nat, r: nat)
    requires PairsOk(ps) && i < 8 && b < 2 && r < ROWS
    ensures FormedDecoder(NewDecoder()) && Formed(Run(NewDecoder(), ps).channel[i])
    ensures var k := Run(NewDecoder(), ps).channel[i];
            && (r !in k.dirty[b] || k.mode == Unknown ==> IsBlank(k.screen[b][r]))
            && (b == k.shown && k.mode == RollUp && !(k.row - WindowRows(k) < r <= k.row) ==> IsBlank(k.screen[b][r]))
            && (b == k.shown && k.mode == Text && k.row < r ==> IsBlank(k.screen[b][r]))
            && (k.mode == Text <==> 4 <= i)
            && RowOk(k.screen[b][r])
  {
    hide Run, IsBlank, RowOk, NewDecoder;
    NewIsFormed();
    var k := Run(NewDecoder(), ps).channel[i];
    assert Inv(k);
    assert Sound(k.screen[b], k.dirty[b]) && CellsOk(k.screen[b]);
  }

  // ---- The fields do not disturb each other ----------------------------------------

  /** Two decoders are in the same state as far as field f is concerned. */
  ghost predicate Agree(d: Decoder, e: Decoder, f: nat)
    requires f < 2 && FormedDecoder(d) && FormedDecoder(e)
  {
    && d.curr[f] == e.curr[f] && d.awaited[f] == e.awaited[f] && d.inXds[f] == e.inXds[f]
    && forall i :: 0 <= i < 8 && i / 2 % 2 == f ==> d.channel[i] == e.channel[i]
  }

  /** A control code is about the channels of its field, and depends on them alone. */
  lemma ControlCodeLocal(d: Decoder, e: Decoder, f: nat, c1: nat, c2: nat)
    requires FormedDecoder(d) && FormedDecoder(e) && f < 2 && 0x10 <= c1 < 0x20 && 0x20 <= c2 < 0x80
    requires forall i :: 0 <= i < 8 && i / 2 % 2 == f ==> d.channel[i] == e.channel[i]
    requires d.curr[f] == e.curr[f]
    ensures var x, y := ControlCode(d, f, c1, c2), ControlCode(e, f, c1, c2);
            && x.curr[f] == y.curr[f] && x.curr[1 - f] == d.curr[1 - f] && x.awaited == d.awaited && x.inXds == d.inXds
            && (forall i :: 0 <= i < 8 && i / 2 % 2 == f ==> x.channel[i] == y.channel[i])
            && (forall i :: 0 <= i < 8 && i / 2 % 2 != f ==> x.channel[i] == d.channel[i])
  {
    hide Inv, Apply, Code;
    CodeOfField(d, f, c1, c2);
    ActionInRange(d, f, c1, c2);
    var n := Addressed(d.curr[f], f, c1);
    assert n / 2 % 2 == f;
  }

  lemma CharactersLocal(d: Decoder, e: Decoder, f: nat, c: int)
    requires FormedDecoder(d) && FormedDecoder(e) && f < 2 && -1 <= c < 0x80 && d.curr[f] != 0
    requires forall i :: 0 <= i < 8 && i / 2 % 2 == f ==> d.channel[i] == e.channel[i]
    requires d.curr[f] == e.curr[f]
    ensures var x, y := Characters(d, f, c), Characters(e, f, c);
            && x.curr == d.curr && x.awaited == d.awaited && x.inXds == d.inXds
            && (forall i :: 0 <= i < 8 && i / 2 % 2 == f ==> x.channel[i] == y.channel[i])
            && (forall i :: 0 <= i < 8 && i / 2 % 2 != f ==> x.channel[i] == d.channel[i])
  {
    hide Inv, Apply;
    assert CharacterChannel(d.curr[f], f) / 2 % 2 == f;
  }

  lemma TwoCharactersLocal(d: Decoder, e: Decoder, f: nat, c1: int, c2: int)
    requires FormedDecoder(d) && FormedDecoder(e) && f < 2 && -1 <= c1 < 0x80 && -1 <= c2 < 0x80 && d.curr[f] != 0
    requires Agree(d, e, f)
    ensures FormedDecoder(Characters(d, f, c1)) && FormedDecoder(Characters(e, f, c1))
    ensures FormedDecoder(Characters(Characters(d, f, c1), f, c2))
      && FormedDecoder(Characters(Characters(e, f, c1), f, c2))
    ensures Agree(Characters(Characters(d, f, c1), f, c2), Characters(Characters(e, f, c1), f, c2), f)
    ensures Agree(Characters(Characters(d, f, c1), f, c2), d, 1 - f)
  {
    hide Inv, Characters;
    CharactersLocal(d, e, f, c1);
    CharactersLocal(e, e, f, c1);
    CharactersKeep(d, f, c1);
    CharactersKeep(e, f, c1);
    var x, y := Characters(d, f, c1), Characters(e, f, c1);
    CharactersKeep(x, f, c2);
    CharactersKeep(y, f, c2);
    CharactersLocal(x, y, f, c2);
    CharactersLocal(y, y, f, c2);
  }

  /** The pair is written as characters. */
  predicate IsText(d: Decoder, p: Pair)
    requires FormedDecoder(d) && PairOk(p)
  {
    d.curr[p.field] != 0 && p.c1 >= 0 && !(0x10 <= p.c1 < 0x20) && !(1 <= p.c1 < 0x10 && p.field == 1)
  }

  /** The pair is a control code which is not a repetition. */
  predicate IsNewControl(d: Decoder, p: Pair)
    requires FormedDecoder(d) && PairOk(p)
  {
    IsControl(p) && (p.c1, p.c2) != d.awaited[p.field]
  }

  lemma FeedText(d: Decoder, p: Pair)
    requires FormedDecoder(d) && PairOk(p) && IsText(d, p) && (p.c1, p.c2) != d.awaited[p.field]
    ensures FormedDecoder(Forget(d, p.field))
    ensures var m, c := Forget(d, p.field), if p.c1 < 0x10 then 0 else p.c1;
            && FormedDecoder(Characters(m, p.field, c))
            && Feed(d, p) == (Characters(Characters(m, p.field, c), p.field, p.c2), CharacterOk(c) && CharacterOk(p.c2))
  {
    hide Inv, Characters;
    CharactersKeep(Forget(d, p.field), p.field, if p.c1 < 0x10 then 0 else p.c1);
  }

  lemma FeedPlain(d: Decoder, p: Pair)
    requires FormedDecoder(d) && PairOk(p) && !IsNewControl(d, p)
      && ((p.c1, p.c2) == d.awaited[p.field] || !IsText(d, p))
    ensures var m, f := Feed(d, p).0, p.field;
            && m.channel == d.channel && m.curr == d.curr && |m.awaited| == |m.inXds| == 2
            && m.awaited[1 - f] == d.awaited[1 - f] && m.inXds[1 - f] == d.inXds[1 - f]
            && m.awaited[f] == (-1, d.awaited[f].1)
            && m.inXds[f] == (if p.c1 < 0 || (p.c1, p.c2) == d.awaited[f] then d.inXds[f]
                              else if 0x10 <= p.c1 < 0x20 then false
                              else if 1 <= p.c1 < 0x10 && f == 1 then p.c1 != 0x0F
                              else d.inXds[f])
            && (Feed(d, p).1 <==> p.c1 >= 0 && ((p.c1, p.c2) == d.awaited[f] || !(0x10 <= p.c1 < 0x20)))
  {
    hide Inv, Characters, ControlCode;
  }

  lemma NewControlLocal(d: Decoder, e: Decoder, p: Pair)
    requires FormedDecoder(d) && FormedDecoder(e) && PairOk(p) && Agree(d, e, p.field) && IsNewControl(d, p)
    ensures FormedDecoder(Feed(d, p).0) && FormedDecoder(Feed(e, p).0)
    ensures Agree(Feed(d, p).0, Feed(e, p).0, p.field) && Feed(d, p).1 == Feed(e, p).1
    ensures Agree(Feed(d, p).0, d, 1 - p.field)
  {
    hide Inv, ControlCode, Characters;
    FeedKeeps(d, p);
    FeedKeeps(e, p);
    var f := p.field;
    var x, y := d.(inXds := d.inXds[f := false]), e.(inXds := e.inXds[f := false]);
    ControlCodeLocal(x, y, f, p.c1, p.c2);
    ControlCodeLocal(y, y, f, p.c1, p.c2);
  }

  lemma TextLocal(d: Decoder, e: Decoder, p: Pair)
    requires FormedDecoder(d) && FormedDecoder(e) && PairOk(p) && Agree(d, e, p.field)
    requires IsText(d, p) && (p.c1, p.c2) != d.awaited[p.field]
    ensures FormedDecoder(Feed(d, p).0) && FormedDecoder(Feed(e, p).0)
    ensures Agree(Feed(d, p).0, Feed(e, p).0, p.field) && Feed(d, p).1 == Feed(e, p).1
    ensures Agree(Feed(d, p).0, d, 1 - p.field)
  {
    hide Inv, Feed, Characters;
    FeedKeeps(d, p);
    FeedKeeps(e, p);
    FeedText(d, p);
    FeedText(e, p);
    TwoCharactersLocal(Forget(d, p.field), Forget(e, p.field), p.field, if p.c1 < 0x10 then 0 else p.c1, p.c2);
  }

  /** A byte pair changes nothing of the other field, and what it does depends on its field. */
  lemma FeedLocal(d: Decoder, e: Decoder, p: Pair)
    requires FormedDecoder(d) && FormedDecoder(e) && PairOk(p) && Agree(d, e, p.field)
    ensures FormedDecoder(Feed(d, p).0) && FormedDecoder(Feed(e, p).0)
    ensures Agree(Feed(d, p).0, Feed(e, p).0, p.field) && Feed(d, p).1 == Feed(e, p).1
    ensures Agree(Feed(d, p).0, d, 1 - p.field)
  {
    hide Inv, Feed;
    if IsNewControl(d, p) {
      NewControlLocal(d, e, p);
    } else if IsText(d, p) && (p.c1, p.c2) != d.awaited[p.field] {
      TextLocal(d, e, p);
    } else {
      FeedKeeps(d, p);
      FeedKeeps(e, p);
      FeedPlain(d, p);
      FeedPlain(e, p);
    }
  }

  /** The pairs of field f. */
  function Only(ps: seq<Pair>, f: nat): seq<Pair> {
    if ps == [] then []
    else (if ps[0].field == f then [ps[0]] else []) + Only(ps[1..], f)
  }

  lemma {:induction false} OnlyOk(ps: seq<Pair>, f: nat)
    requires PairsOk(ps)
    ensures PairsOk(Only(ps, f))
  {
    if ps != [] {
      OnlyOk(ps[1..], f);
    }
  }

  lemma AgreeSelf(d: Decoder, f: nat)
    requires f < 2 && FormedDecoder(d)
    ensures Agree(d, d, f)
  {}

  /** However the pairs of the two fields are interleaved, the channels of a field end up as if its
      own pairs had been received alone. */
  lemma {:induction false} RunSeparates(d: Decoder, e: Decoder, ps: seq<Pair>, f: nat)
    requires FormedDecoder(d) && FormedDecoder(e) && PairsOk(ps) && f < 2 && Agree(d, e, f)
    ensures PairsOk(Only(ps, f)) && Agree(Run(d, ps), Run(e, Only(ps, f)), f)
    decreases |ps|
  {
    hide Inv, Feed;
    OnlyOk(ps, f);
    if ps != [] {
      var p, rest := ps[0], Only(ps[1..], f);
      OnlyOk(ps[1..], f);
      FeedKeeps(d, p);
      FeedKeeps(e, p);
      if p.field == f {
        FeedLocal(d, e, p);
        RunSeparates(Feed(d, p).0, Feed(e, p).0, ps[1..], f);
        assert Only(ps, f) == [p] + rest && ([p] + rest)[1..] == rest;
      } else {
        AgreeSelf(d, p.field);
        FeedLocal(d, d, p);
        RunSeparates(Feed(d, p).0, e, ps[1..], f);
        assert Only(ps, f) == rest;
      }
    }
  }

  // ---- Repeated control codes ------------------------------------------------------

  predicate OfField(ps: seq<Pair>, f: nat) {
    forall i :: 0 <= i < |ps| ==> ps[i].field == f
  }

  lemma {:induction false} RunOther(d: Decoder, ps: seq<Pair>, f: nat)
    requires FormedDecoder(d) && PairsOk(ps) && f < 2 && OfField(ps, 1 - f)
    ensures Agree(Run(d, ps), d, f)
    decreases |ps|
  {
    hide Inv, Feed;
    if ps != [] {
      FeedLocal(d, d, ps[0]);
      RunOther(Feed(d, ps[0]).0, ps[1..], f);
    }
  }

  /** A control code which is received twice in a row on its field, with anything between on the
      other, is acted upon once: the second time it only ceases to be expected. */
  lemma RepeatIgnored(d: Decoder, p: Pair, between: seq<Pair>)
    requires FormedDecoder(d) && PairOk(p) && IsControl(p) && (p.c1, p.c2) != d.awaited[p.field]
    requires PairsOk(between) && OfField(between, 1 - p.field)
    ensures FormedDecoder(Feed(d, p).0)
    ensures var e := Run(Feed(d, p).0, between);
            Feed(e, p) == (Forget(e, p.field), true) && Forget(e, p.field).channel == e.channel
              && Forget(e, p.field).curr == e.curr
  {
    hide Inv;
    FeedKeeps(d, p);
    RunOther(Feed(d, p).0, between, p.field);
    FeedAwaits(d, p);
  }

  lemma FeedAwaits(d: Decoder, p: Pair)
    requires FormedDecoder(d) && PairOk(p) && IsControl(p) && (p.c1, p.c2) != d.awaited[p.field]
    ensures Feed(d, p).0.awaited[p.field] == (p.c1, p.c2)
  {
    hide Inv, ControlCode;
  }

  // ---- Pop-on channels -------------------------------------------------------------

  /** The pair is RUx, RDC, EDM or EOC for caption channel k. */
  predicate Switches(p: Pair, k: nat) {
    && p.field == k / 2 && p.c1 / 8 % 2 == k % 2 && p.c1 in {0x14, 0x15, 0x1C, 0x1D}
    && p.c2 in {0x25, 0x26, 0x27, 0x29, 0x2C, 0x2F}
  }

  lemma SwitchCodes(curr: nat, n: nat, ready: bool, c1: nat, c2: nat)
    requires 0x10 <= c1 < 0x20 && 0x20 <= c2 < 0x80
    ensures var op := Code(curr, n, ready, c1, c2).op;
            (Displays(op) || op == Rdc ==>
               c1 in {0x14, 0x15, 0x1C, 0x1D} && c2 in {0x25, 0x26, 0x27, 0x29, 0x2C, 0x2F}
               && Code(curr, n, ready, c1, c2).channel == n % 4)
  {}

  /** No other pair changes what a pop-on channel displays or ends the mode. */
  lemma FeedPopOn(d: Decoder, p: Pair, k: nat)
    requires FormedDecoder(d) && PairOk(p) && k < 4 && d.channel[k].mode == PopOn && !Switches(p, k)
    ensures FormedDecoder(Feed(d, p).0)
    ensures var m := Feed(d, p).0.channel[k]; DisplaysSame(d.channel[k], m) && m.mode == PopOn
  {
    hide Inv, ControlCode, Characters, DisplaysSame, Switches;
    FeedKeeps(d, p);
    var f, a := p.field, d.channel[k];
    DisplaysSelf(a);
    if p.c1 >= 0 && (p.c1, p.c2) != d.awaited[f] {
      if IsControl(p) {
        CodePopOn(d.(inXds := d.inXds[f := false]), p, k);
      } else if IsText(d, p) {
        var c, m := if p.c1 < 0x10 then 0 else p.c1, Forget(d, f);
        CharactersPopOn(m, f, c, k);
        CharactersKeep(m, f, c);
        CharactersPopOn(Characters(m, f, c), f, p.c2, k);
        DisplaysStill(a, Characters(m, f, c).channel[k], Characters(Characters(m, f, c), f, p.c2).channel[k]);
      }
    }
  }

  lemma DisplaysSelf(k: Chan)
    requires Inv(k)
    ensures Formed(k) && DisplaysSame(k, k)
  {}

  lemma DisplaysStill(k: Chan, m: Chan, n: Chan)
    requires Inv(k) && Inv(m) && DisplaysSame(k, m) && DisplaysSame(m, n)
    ensures DisplaysSame(k, n)
  {}

  lemma CodePopOn(d: Decoder, p: Pair, k: nat)
    requires FormedDecoder(d) && PairOk(p) && IsControl(p) && k < 4 && d.channel[k].mode == PopOn && !Switches(p, k)
    ensures var m := ControlCode(d, p.field, p.c1, p.c2).channel[k]; DisplaysSame(d.channel[k], m) && m.mode == PopOn
  {
    hide Inv, Apply, DisplaysSame, Code;
    var f, n := p.field, Addressed(d.curr[p.field], p.field, p.c1);
    var a := ActionOf(d, f, p.c1, p.c2);
    ActionInRange(d, f, p.c1, p.c2);
    DisplaysSelf(d.channel[k]);
    AddressOfField(d.curr[f], f, p.c1);
    SwitchCodes(d.curr[f], n, d.curr[f] != 0 && d.channel[n].mode != Unknown, p.c1, p.c2);
    if a.channel == k {
      PopOnIsolates(d.channel[k], a.op);
    }
  }

  lemma CharactersPopOn(d: Decoder, f: nat, c: int, k: nat)
    requires FormedDecoder(d) && f < 2 && -1 <= c < 0x80 && k < 4 && d.channel[k].mode == PopOn
    ensures var m := Characters(d, f, c).channel[k]; DisplaysSame(d.channel[k], m) && m.mode == PopOn
  {
    hide Inv, Apply, DisplaysSame;
    DisplaysSelf(d.channel[k]);
    var n := CharacterChannel(d.curr[f], f);
    if n == k {
      PopOnIsolates(d.channel[k], CharacterOp(d.channel[n].mode, c));
    }
  }

  /** Over a whole run without these codes for it, a pop-on channel displays one screen. */
  lemma {:induction false} RunPopOn(d: Decoder, ps: seq<Pair>, k: nat)
    requires FormedDecoder(d) && PairsOk(ps) && k < 4 && d.channel[k].mode == PopOn
    requires forall i :: 0 <= i < |ps| ==> !Switches(ps[i], k)
    ensures DisplaysSame(d.channel[k], Run(d, ps).channel[k]) && Run(d, ps).channel[k].mode == PopOn
    decreases |ps|
  {
    hide Inv, Feed, Switches, DisplaysSame;
    if ps == [] {
      DisplaysSelf(d.channel[k]);
    } else {
      var e := Feed(d, ps[0]).0;
      FeedPopOn(d, ps[0], k);
      RunPopOn(e, ps[1..], k);
      DisplaysStill(d.channel[k], e.channel[k], Run(e, ps[1..]).channel[k]);
    }
  }
}
