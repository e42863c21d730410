/** A pop-on caption from its codes to the screen: it is loaded while another one is displayed, and EOC displays
    it. What the other field carries in the meantime does not matter, nor whether codes are sent twice. */
module CaptionLoading {
  import opened CaptionCodes
  import opened CaptionProofs
  import opened CaptionRuns
  import opened CaptionState

  lemma {:induction false} RunAppend(d: Decoder, ps: seq<Pair>, qs: seq<Pair>)
    requires FormedDecoder(d) && PairsOk(ps) && PairsOk(qs)
    ensures PairsOk(ps + qs) && Run(d, ps + qs) == Run(Run(d, ps), qs)
    decreases |ps|
  {
    hide Inv, Feed;
    if ps == [] {
      assert ps + qs == qs;
    } else {
      FeedKeeps(d, ps[0]);
      RunAppend(Feed(d, ps[0]).0, ps[1..], qs);
      assert (ps + qs)[1..] == ps[1..] + qs;
    }
  }

  lemma RunOne(d: Decoder, p: Pair)
    requires FormedDecoder(d) && PairOk(p)
    ensures Run(d, [p]) == Feed(d, p).0
  {
    hide Inv, Feed;
    FeedKeeps(d, p);
    assert [p][1..] == [];
  }

  /** A control code is usually sent twice. */
  function Sent(p: Pair, twice: bool): seq<Pair> {
    if twice then [p, p] else [p]
  }

  /** Nothing is expected on field f but perhaps the code (c1, c2). */
  predicate Expects(d: Decoder, f: nat, c1: int, c2: int)
    requires f < |d.awaited|
  {
    d.awaited[f].0 == -1 || d.awaited[f] == (c1, c2)
  }

  /** The channels of two decoders and the channel numbers are the same. */
  predicate SameChannels(d: Decoder, e: Decoder) {
    d.channel == e.channel && d.curr == e.curr
  }

  /** Twice or not, a code is acted upon once. */
  lemma SentOnce(d: Decoder, p: Pair, twice: bool)
    requires FormedDecoder(d) && PairOk(p) && IsControl(p) && (p.c1, p.c2) != d.awaited[p.field]
    ensures PairsOk(Sent(p, twice))
    ensures var m := Run(d, Sent(p, twice));
      && SameChannels(m, Feed(d, p).0) && |m.awaited| == 2 && Expects(m, p.field, p.c1, p.c2)
  {
    hide Inv, Feed;
    FeedKeeps(d, p);
    RunOne(d, p);
    FeedAwaits(d, p);
    if twice {
      RunAppend(d, [p], [p]);
      assert [p] + [p] == [p, p];
      RunOne(Feed(d, p).0, p);
      RepeatIgnored(d, p, []);
      assert Run(Feed(d, p).0, []) == Feed(d, p).0;
    }
  }

  // ---- A word -------------------------------------------------------------------------------------------

  predicate IsWord(w: seq<nat>) {
    forall i :: 0 <= i < |w| ==> 0x20 <= w[i] < 0x80
  }

  /** The pairs which carry a word. The last one is filled up with a null byte. */
  function TextPairs(f: nat, w: seq<nat>): seq<Pair> {
    if w == [] then []
    else if |w| == 1 then [Pair(f, w[0], 0)]
    else [Pair(f, w[0], w[1])] + TextPairs(f, w[2..])
  }

  lemma {:induction false} TextPairsOk(f: nat, w: seq<nat>)
    requires f < 2 && IsWord(w)
    ensures PairsOk(TextPairs(f, w)) && OfField(TextPairs(f, w), f)
  {
    if |w| > 1 { TextPairsOk(f, w[2..]); }
  }

  /** A word is typed on the channel selected last. */
  lemma {:induction false} TextRun(d: Decoder, f: nat, w: seq<nat>)
    requires FormedDecoder(d) && f < 2 && IsWord(w) && d.curr[f] != 0 && d.awaited[f].0 < 0x20
    requires d.channel[d.curr[f] - 1].mode != Unknown
    ensures PairsOk(TextPairs(f, w)) && Formed(d.channel[d.curr[f] - 1])
    ensures var m, n := Run(d, TextPairs(f, w)), d.curr[f] - 1;
      && m.channel[n] == Typed(d.channel[n], w) && m.curr == d.curr
      && m.awaited[f] == (if w == [] then d.awaited[f] else (-1, d.awaited[f].1))
    decreases |w|
  {
    hide Inv, Feed, Typed, Formed;
    TextPairsOk(f, w);
    ChannelInv(d, d.curr[f] - 1);
    var k := d.channel[d.curr[f] - 1];
    if w == [] {
      TypedNone(k);
    } else {
      var p := TextPairs(f, w)[0];
      TextCode(d, p);
      FeedKeeps(d, p);
      var e := Feed(d, p).0;
      if |w| == 1 {
        RunOne(d, p);
        assert Letter(w[0]) + Letter(0) == w;
      } else {
        assert Letter(w[0]) + Letter(w[1]) + w[2..] == w;
        TypedAppend(k, Letter(w[0]) + Letter(w[1]), w[2..]);
        TextRun(e, f, w[2..]);
      }
    }
  }

  lemma TypedNone(k: Chan)
    requires Formed(k)
    ensures Typed(k, []) == k
  {}

  // ---- The codes of a caption ---------------------------------------------------------------------------

  /** A miscellaneous control code for caption channel k. */
  function Misc(k: nat, c2: nat): Pair {
    Pair(k / 2, 0x14 + 8 * (k % 2), c2)
  }

  predicate PairFor(p: Pair, k: nat) {
    PairOk(p) && 0x10 <= p.c1 < 0x20 && CaptionOf(p) == k
  }

  /** Field k / 2 has caption channel k, in pop-on mode, and expects at most the code p again. */
  predicate Loading(d: Decoder, k: nat, p: Pair)
    requires FormedDecoder(d) && k < 4
  {
    d.curr[k / 2] == 1 + k && d.channel[k].mode == PopOn && Expects(d, k / 2, p.c1, p.c2)
  }

  lemma MiscFor(k: nat, c2: nat)
    requires k < 4 && 0x20 <= c2 < 0x30
    ensures var p := Misc(k, c2);
      && PairOk(p) && IsControl(p) && p.c1 in {0x14, 0x15, 0x1C, 0x1D} && p.c2 == c2 && p.field == k / 2
      && p.c1 == 0x14 + 8 * (k % 2) && CaptionOf(p) == k
  {}

  lemma StartLoading(d: Decoder, k: nat, twice: bool)
    requires FormedDecoder(d) && k < 4 && (0x14 + 8 * (k % 2), 0x20) != d.awaited[k / 2]
    ensures PairsOk(Sent(Misc(k, 0x20), twice))
    ensures var m := Run(d, Sent(Misc(k, 0x20), twice));
      Loading(m, k, Misc(k, 0x20)) && m.channel[k] == d.channel[k].(mode := PopOn)
  {
    hide Inv, Feed, Run, Sent, Misc, CaptionOf;
    MiscFor(k, 0x20);
    var p := Misc(k, 0x20);
    ResumeLoadingCode(d, p);
    SentOnce(d, p, twice);
  }

  /** A code which the channel does not expect. */
  lemma NotExpected(d: Decoder, k: nat, q: Pair, c2: nat)
    requires FormedDecoder(d) && k < 4 && Loading(d, k, q) && 0x20 <= c2 < 0x30 && c2 != q.c2
    ensures IsMisc(d, Misc(k, c2)) && d.curr[k / 2] == 1 + k && d.channel[k].mode == PopOn
  {
    hide Inv;
  }

  lemma EraseLoading(d: Decoder, k: nat, twice: bool)
    requires FormedDecoder(d) && k < 4 && Loading(d, k, Misc(k, 0x20))
    ensures PairsOk(Sent(Misc(k, 0x2E), twice))
    ensures var m := Run(d, Sent(Misc(k, 0x2E), twice));
      Loading(m, k, Misc(k, 0x2E)) && d.channel[k].shown < 2
        && Erases(d.channel[k], m.channel[k], 1 - d.channel[k].shown)
  {
    hide Inv, Feed, Erases, Run, Sent, Misc, CaptionOf, IsMisc;
    MiscFor(k, 0x20);
    MiscFor(k, 0x2E);
    var p := Misc(k, 0x2E);
    NotExpected(d, k, Misc(k, 0x20), 0x2E);
    EraseHiddenCode(d, p);
    StillLoading(d.channel[k], Feed(d, p).0.channel[k]);
    assert (p.c1, p.c2) != d.awaited[k / 2] by { NewMisc(d, p); }
    SentOnce(d, p, twice);
  }

  lemma NewMisc(d: Decoder, p: Pair)
    requires |d.awaited| == 2 && IsMisc(d, p)
    ensures (p.c1, p.c2) != d.awaited[p.field]
  {}

  lemma StillLoading(k: Chan, m: Chan)
    requires k.shown < 2 && Erases(k, m, 1 - k.shown)
    ensures m.mode == k.mode
  {
    hide BlankRows;
  }

  lemma PlaceCursor(d: Decoder, k: nat, p: Pair, twice: bool)
    requires FormedDecoder(d) && k < 4 && Loading(d, k, Misc(k, 0x2E)) && PairFor(p, k) && 0x40 <= p.c2
    ensures PairsOk(Sent(p, twice))
    ensures var m := Run(d, Sent(p, twice)); Loading(m, k, p) && GoesTo(d.channel[k], m.channel[k], p.c1, p.c2)
  {
    hide Inv, Feed, MovedAsUnit, RowNamed;
    PreambleCode(d, p);
    SentOnce(d, p, twice);
  }

  lemma LoadWord(d: Decoder, k: nat, p: Pair, w: seq<nat>)
    requires FormedDecoder(d) && k < 4 && Loading(d, k, p) && PairFor(p, k) && IsWord(w)
    ensures PairsOk(TextPairs(k / 2, w)) && Formed(d.channel[k])
    ensures var m := Run(d, TextPairs(k / 2, w));
      Loading(m, k, p) && m.channel[k] == Typed(d.channel[k], w)
  {
    hide Inv, Feed, IsWord, TextPairs, PutChar;
    TextRun(d, k / 2, w);
  }

  lemma Display(d: Decoder, k: nat, p: Pair, twice: bool)
    requires FormedDecoder(d) && k < 4 && Loading(d, k, p) && PairFor(p, k) && 0x40 <= p.c2
    ensures PairsOk(Sent(Misc(k, 0x2F), twice))
    ensures var m := Run(d, Sent(Misc(k, 0x2F), twice)); Flips(d.channel[k], m.channel[k])
  {
    hide Inv, Feed, Flips, Run, Sent, Misc, CaptionOf, IsMisc;
    MiscFor(k, 0x2F);
    var e := Misc(k, 0x2F);
    NotExpected(d, k, p, 0x2F);
    EndOfCaptionCode(d, e);
    assert (e.c1, e.c2) != d.awaited[k / 2] by { NewMisc(d, e); }
    SentOnce(d, e, twice);
  }

  /** The codes of a caption of one word: RCL, ENM, a preamble address code p, the word, EOC. */
  function CaptionPairs(k: nat, p: Pair, w: seq<nat>, twice: bool): seq<Pair> {
    Sent(Misc(k, 0x20), twice) + (Sent(Misc(k, 0x2E), twice) + (Sent(p, twice)
      + (TextPairs(k / 2, w) + Sent(Misc(k, 0x2F), twice))))
  }

  /** Of columns 1 to 32 the screen shows only word w, which begins at the column of the row, and before it the PAC. */
  ghost predicate ShowsWord(s: Screen, row: nat, column: nat, pac: nat, w: seq<nat>) {
    && FormedScreen(s) && row < ROWS && 1 <= column && column + |w| <= 33
    && (forall r, i :: 0 <= r < ROWS && 1 <= i < 33 ==>
          s[r][i] == if r == row && column <= i < column + |w| then w[i - column]
                     else if r == row && i == column - 1 && w != [] then pac else 0)
    && (w != [] && column == 1 ==> s[row][0] == pac)
  }

  lemma TypedOnBlank(k: Chan, w: seq<nat>)
    requires Formed(k) && k.mode == PopOn && BlankRows(k.screen[1 - k.shown])
    requires IsWord(w) && k.column + |w| <= LAST_COLUMN + 1
    ensures Formed(Typed(k, w)) && Typed(k, w).shown == k.shown && Typed(k, w).screen[k.shown] == Shown(k)
    ensures ShowsWord(Typed(k, w).screen[1 - k.shown], k.row, k.column, k.pac, w)
  {
    hide HasWord, Typed, PutChar, IsWord, IsBlank;
    TypedShows(k, w) by { Letters(w); }
    TypedElsewhere(k, w);
    var m := Typed(k, w);
    assert LineOf(m) == m.screen[1 - k.shown][k.row] && LineOf(k) == k.screen[1 - k.shown][k.row];
    WordCells(LineOf(m), LineOf(k), k.column, w, k.pac);
    WordOnScreen(k.screen[1 - k.shown], m.screen[1 - k.shown], k.row, k.column, k.pac, w);
  }

  lemma Letters(w: seq<nat>)
    requires IsWord(w)
    ensures forall i :: 0 <= i < |w| ==> w[i] != 0
  {}

  lemma WordOnScreen(s: Screen, t: Screen, row: nat, column: nat, pac: nat, w: seq<nat>)
    requires BlankRows(s) && FormedScreen(s) && FormedScreen(t) && row < ROWS && 1 <= column && column + |w| <= 33
    requires forall r :: 0 <= r < ROWS && r != row ==> t[r] == s[r]
    requires forall i :: 1 <= i < 33 ==>
      t[row][i] == if column <= i < column + |w| then w[i - column] else if i == column - 1 && w != [] then pac else 0
    requires w != [] && column == 1 ==> t[row][0] == pac
    ensures ShowsWord(t, row, column, pac, w)
  {
    forall r, i | 0 <= r < ROWS && r != row && 1 <= i < 33 ensures t[r][i] == 0 { assert IsBlank(s[r]); }
  }

  /** Only the cursor row of the hidden screen is written. */
  lemma {:induction false} TypedElsewhere(k: Chan, w: seq<nat>)
    requires Formed(k) && k.mode == PopOn && IsWord(w)
    ensures Typed(k, w).screen[k.shown] == Shown(k)
    ensures var s, t := k.screen[1 - k.shown], Typed(k, w).screen[1 - k.shown];
      forall r :: 0 <= r < ROWS && r != k.row ==> t[r] == s[r]
    decreases |w|
  {
    if w != [] {
      PutHidden(k, w[0], true, false);
      TypedElsewhere(PutChar(k, w[0], true, false), w[1..]);
    }
  }

  lemma WordCells(line: Row, was: Row, column: nat, w: seq<nat>, pac: nat)
    requires |line| == |was| == 33 && 1 <= column && column + |w| <= 33 && HasWord(line, was, column, w, pac)
    requires IsBlank(was)
    ensures forall i :: 1 <= i < 33 ==>
      line[i] == if column <= i < column + |w| then w[i - column] else if i == column - 1 && w != [] then pac else 0
    ensures w != [] && column == 1 ==> line[0] == pac
  {
    var n := |w|;
    forall i | 1 <= i < 33
      ensures line[i] == if column <= i < column + n then w[i - column]
        else if i == column - 1 && w != [] then pac else 0
    {
      if i < column - 1 {
        assert line[..column - 1][i] == was[..column - 1][i];
      } else if column <= i < column + n {
        assert line[column..column + n][i - column] == w[i - column];
      } else if i == column - 1 {
        assert was[i] == 0;
      } else {
        assert line[column + n..][i - column - n] == was[column + n..][i - column - n];
      }
    }
  }

  // ---- The whole caption ----------------------------------------------------------------------------------

  /** After the codes of a caption the channel displays its word, where the preamble address code says, and nothing
      else. What it displayed before is hidden. */
  lemma CaptionDisplayed(d: Decoder, k: nat, p: Pair, w: seq<nat>, twice: bool)
    requires FormedDecoder(d) && k < 4 && (0x14 + 8 * (k % 2), 0x20) != d.awaited[k / 2]
    requires PairFor(p, k) && 0x40 <= p.c2 && RowNamed(p.c1, p.c2) >= 0 && IsWord(w)
    requires ColumnFor(d.channel[k], p) + |w| <= LAST_COLUMN + 1
    ensures PairsOk(CaptionPairs(k, p, w, twice))
    ensures Displayed(d.channel[k], Run(d, CaptionPairs(k, p, w, twice)).channel[k], p, w)
  {
    hide Inv, Feed, IsWord, TextPairs, PutChar, Run, Erases, GoesTo, Flips, Typed, RowNamed, Loading, Sent,
      Displayed, PairsOk;
    StartLoading(d, k, twice);
    var d1 := Run(d, Sent(Misc(k, 0x20), twice));
    EraseLoading(d1, k, twice);
    var d2 := Run(d1, Sent(Misc(k, 0x2E), twice));
    PlaceCursor(d2, k, p, twice);
    var d3 := Run(d2, Sent(p, twice));
    LoadWord(d3, k, p, w);
    var d4 := Run(d3, TextPairs(k / 2, w));
    Display(d4, k, p, twice);
    RunAppend(d3, TextPairs(k / 2, w), Sent(Misc(k, 0x2F), twice));
    RunAppend(d2, Sent(p, twice), TextPairs(k / 2, w) + Sent(Misc(k, 0x2F), twice));
    RunAppend(d1, Sent(Misc(k, 0x2E), twice), Sent(p, twice) + (TextPairs(k / 2, w) + Sent(Misc(k, 0x2F), twice)));
    RunAppend(d, Sent(Misc(k, 0x20), twice), Sent(Misc(k, 0x2E), twice) + (Sent(p, twice)
      + (TextPairs(k / 2, w) + Sent(Misc(k, 0x2F), twice))));
    LoadedAndShown(d.channel[k], d1.channel[k], d2.channel[k], d3.channel[k],
      Run(d4, Sent(Misc(k, 0x2F), twice)).channel[k], p, w);
  }

  /** The column where a channel goes on after preamble address code p. */
  function ColumnFor(k: Chan, p: Pair): nat
    requires p.c2 >= 0
  {
    if p.c2 / 16 % 2 == 1 then 1 + 4 * (p.c2 / 2 % 8) else k.column
  }

  /** Word w is all what the channel displays, in the row which p names. */
  ghost predicate Displayed(was: Chan, now: Chan, p: Pair, w: seq<nat>) {
    && Formed(was) && Formed(now) && now.mode == PopOn && p.c1 >= 0 && p.c2 >= 0 && RowNamed(p.c1, p.c2) >= 0
    && ShowsWord(Shown(now), RowNamed(p.c1, p.c2), ColumnFor(was, p), 0x1000 + p.c2, w)
    && now.screen[1 - now.shown] == Shown(was)
  }

  lemma LoadedAndShown(k: Chan, k1: Chan, k2: Chan, k3: Chan, m: Chan, p: Pair, w: seq<nat>)
    requires k1 == k.(mode := PopOn) && k1.shown < 2 && Erases(k1, k2, 1 - k1.shown)
    requires p.c1 >= 0 && p.c2 >= 0 && GoesTo(k2, k3, p.c1, p.c2) && RowNamed(p.c1, p.c2) >= 0 && IsWord(w)
    requires ColumnFor(k, p) + |w| <= LAST_COLUMN + 1
    requires Formed(k3) && Flips(Typed(k3, w), m)
    ensures Displayed(k, m, p, w)
  {
    hide BlankRows, ShowsWord, Typed, IsWord;
    TypedOnBlank(k3, w);
  }

  /** This holds whatever the other field carries in the meantime. */
  lemma CaptionShown(d: Decoder, ps: seq<Pair>, k: nat, p: Pair, w: seq<nat>, twice: bool)
    requires FormedDecoder(d) && k < 4 && (0x14 + 8 * (k % 2), 0x20) != d.awaited[k / 2]
    requires PairFor(p, k) && 0x40 <= p.c2 && RowNamed(p.c1, p.c2) >= 0 && IsWord(w)
    requires ColumnFor(d.channel[k], p) + |w| <= LAST_COLUMN + 1
    requires PairsOk(ps) && Only(ps, k / 2) == CaptionPairs(k, p, w, twice)
    ensures Displayed(d.channel[k], Run(d, ps).channel[k], p, w)
  {
    hide Inv, Run, Displayed, CaptionPairs, RowNamed, Only, IsWord;
    CaptionDisplayed(d, k, p, w, twice);
    AgreeSelf(d, k / 2);
    RunSeparates(d, d, ps, k / 2);
  }
}
