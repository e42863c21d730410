/** The caption decoder, updated in place (src/cc608_decoder.c): the byte pairs it is fed and the
    pages it formats. */
module Caption {
  import opened Bits
  import opened CaptionChannel
  import opened CaptionProofs
  import opened CaptionRuns
  import opened CaptionScreen
  import opened CaptionState
  import F = CaptionFormat
  import S = CaptionState
  import R = CaptionRuns

  /** The parity of the bits of a byte. */
  function Ones(b: nat): nat {
    if b == 0 then 0 else b % 2 + Ones(b / 2)
  }

  /** vbi_unpar8: a byte of odd parity without its parity bit. */
  function Unpar8(b: nat): (c: int)
    ensures -1 <= c < 0x80
    ensures c >= 0 <==> Ones(b) % 2 == 1
  {
    if Ones(b) % 2 == 1 then b % 0x80 else -1
  }

  lemma {:induction false} OnesAbove(x: nat, i: nat, p: nat)
    requires p == Pow2(i) && x < p
    ensures Ones(x + p) == Ones(x) + 1
  {
    if i > 0 {
      assert (x + p) / 2 == x / 2 + p / 2 && (x + p) % 2 == x % 2;
      OnesAbove(x / 2, i - 1, p / 2);
    } else {
      assert Ones(1) == 1 && Ones(0) == 0;
    }
  }

  lemma SevenBits()
    ensures Pow2(7) == 0x80
  {
    assert Pow2(3) == 8;
  }

  /** Of the two bytes with the same seven low bits one is these bits with odd parity, the other has a parity error. */
  lemma ParityDecodes(x: nat)
    requires x < 0x80
    ensures Unpar8(x) + Unpar8(x + 0x80) == x - 1
    ensures Unpar8(x) == x || Unpar8(x + 0x80) == x
  {
    hide Ones, Pow2;
    SevenBits();
    OnesAbove(x, 7, 0x80);
    assert (x + 0x80) % 0x80 == x && x % 0x80 == x;
  }

  /** Nothing to do, and the same channel number. */
  lemma CurrentChannel(d: S.Decoder, f: nat, n: nat)
    requires FormedDecoder(d) && f < 2 && n < 8
    ensures Applicable(d.channel[n], Nothing) && Acted(d, n, Nothing) == d && d.curr[f := d.curr[f]] == d.curr
      && |d.curr| == |d.awaited| == |d.inXds| == 2
    ensures FormedDecoder(d.(curr := d.curr[f := d.curr[f]]))
  {
    assert Inv(d.channel[n]);
    assert d.channel[n := d.channel[n]] == d.channel;
  }

  class Decoder {
    const channel: seq<Channel>
    ghost const buffers: set<array<nat>>
    var currChNum: seq<nat>
    var expectCtrl: seq<(int, int)>
    var inXds: seq<bool>

    ghost predicate Apart()
      reads channel
    {
      && |channel| == 8
      && (forall i :: 0 <= i < 8 ==> channel[i].buffer.Length == CELLS && channel[i].buffer in buffers)
      && (forall i, j :: 0 <= i < j < 8 ==> channel[i] != channel[j])
      && (forall i, j :: 0 <= i < j < 8 ==> channel[i].buffer != channel[j].buffer)
    }

    ghost function Chans(): seq<Chan>
      requires Apart()
      reads channel, buffers
    {
      seq(8, i requires 0 <= i < 8 reads channel, buffers => channel[i].Abs())
    }

    ghost function Abs(): S.Decoder
      requires Apart()
      reads this, channel, buffers
    {
      S.Decoder(Chans(), currChNum, expectCtrl, inXds)
    }

    ghost predicate Valid()
      reads this, channel, buffers
    {
      Apart() && FormedDecoder(Abs())
    }

    lemma ChannelOf(i: nat)
      requires Valid() && i < 8
      ensures channel[i].Valid() && Abs().channel[i] == channel[i].Abs() && Inv(channel[i].Abs())
    {
      assert Inv(Abs().channel[i]);
    }

    /** _vbi_cc608_decoder_init */
    constructor ()
      ensures Valid() && Abs() == NewDecoder()
      ensures fresh(channel) && fresh(buffers)
    {
      var chans: seq<Channel> := [];
      ghost var bufs: set<array<nat>> := {};
      while |chans| < 8
        invariant |chans| <= 8 && fresh(chans) && fresh(bufs)
        invariant forall i :: 0 <= i < |chans| ==> chans[i].buffer.Length == CELLS && chans[i].buffer in bufs
        invariant forall i :: 0 <= i < |chans| ==> chans[i].Abs() == NewChannel(i)
        invariant forall i, j :: 0 <= i < j < |chans| ==> chans[i] != chans[j]
        invariant forall i, j :: 0 <= i < j < |chans| ==> chans[i].buffer != chans[j].buffer
      {
        var c := new Channel(|chans| >= 4);
        bufs := bufs + {c.buffer};
        chans := chans + [c];
      }
      channel, buffers := chans, bufs;
      currChNum, expectCtrl, inXds := [0, 0], [(-1, -1), (-1, -1)], [false, false];
      new;
      hide Inv, NewChannel;
      assert Apart();
      assert Chans() == NewDecoder().channel;
      NewIsFormed();
    }

    /** One command for channel i; the other channels stay as they are. */
    method Do(i: nat, op: Op)
      requires Valid() && i < 8 && Applicable(Abs().channel[i], op) && OpOk(op)
      modifies channel, buffers
      ensures Valid() && Abs() == Acted(old(Abs()), i, op)
    {
      hide FormedDecoder, Applicable, Apply, OpOk;
      ghost var d := Abs();
      ChannelAt(i, op);
      channel[i].Do(op);
      assert Chans() == d.channel[i := Apply(d.channel[i], op)];
      ActedKeeps(d, i, op);
    }

    lemma ChannelAt(i: nat, op: Op)
      requires Valid() && i < 8 && Applicable(Abs().channel[i], op)
      ensures channel[i].Valid() && Applicable(channel[i].Abs(), op)
    {
      ChannelOf(i);
    }

    /** Command a of a control code for field f can be carried out. */
    ghost predicate Allowed(d: S.Decoder, f: nat, a: Action)
      requires FormedDecoder(d)
    {
      && f < 2 && a.channel < 8 && Applicable(d.channel[a.channel], a.op) && OpOk(a.op)
      && a.curr <= 8 && (a.curr != 0 ==> (a.curr - 1) / 2 % 2 == f)
    }

    /** switch_channel */
    method SwitchChannel(f: nat, newChNum: nat)
      requires Valid() && f < 2 && 1 <= newChNum <= 8 && (newChNum - 1) / 2 % 2 == f
      modifies `currChNum
      ensures Valid() && Abs() == old(Abs()).(curr := old(Abs()).curr[f := newChNum])
    {
      hide Inv;
      currChNum := currChNum[f := newChNum];
      assert Chans() == old(Chans());
    }

    method SwitchAndDo(f: nat, newChNum: nat, i: nat, op: Op)
      requires Valid() && f < 2 && 1 <= newChNum <= 8 && (newChNum - 1) / 2 % 2 == f
      requires i < 8 && Applicable(Abs().channel[i], op) && OpOk(op)
      modifies this, channel, buffers
      ensures Valid() && Abs() == Acted(old(Abs()), i, op).(curr := old(Abs()).curr[f := newChNum])
    {
      hide FormedDecoder, Apply, Applicable, OpOk;
      SwitchChannel(f, newChNum);
      Do(i, op);
    }

    /** Whether the current channel of field f is known, and the mode of channel n. */
    method IsReady(f: nat, n: nat) returns (ready: bool)
      requires Valid() && f < 2 && n < 8
      ensures ready <==> currChNum[f] != 0 && Abs().channel[n].mode != Unknown
    {
      ready := currChNum[f] != 0 && channel[n].mode != Unknown;
    }

    /** The codes of misc_control_code which edit the current channel: BS, DER, FON and CR. */
    method EditCode(n: nat, code: nat, f: nat, ghost a: Action)
      requires Valid() && f < 2 && n < 8 && code in {1, 4, 8, 13} && Allowed(Abs(), f, a)
      requires a == MiscCode(currChNum[f], n, currChNum[f] != 0 && Abs().channel[n].mode != Unknown, code)
      modifies channel, buffers
      ensures Valid() && Abs() == Acted(old(Abs()), a.channel, a.op)
    {
      hide FormedDecoder, Apply, Applicable, OpOk, Inv;
      CurrentChannel(Abs(), f, n);
      var ready := IsReady(f, n);
      if code == 13 {
        if currChNum[f] != 0 {
          Do(n, Cr);
        }
      } else if ready {
        Do(n, if code == 1 then Bs else if code == 4 then Der else Put(0x1428, false, false));
      }
    }

    /** The codes which select a caption or a text channel and change its mode. */
    method SwitchCode(n: nat, code: nat, f: nat, ghost a: Action)
      requires Valid() && f < 2 && n < 8 && code in {0, 5, 6, 7, 9, 10, 15} && Allowed(Abs(), f, a)
      requires a == MiscCode(currChNum[f], n, currChNum[f] != 0 && Abs().channel[n].mode != Unknown, code)
      modifies this, channel, buffers
      ensures Valid() && Abs() == Acted(old(Abs()), a.channel, a.op).(curr := old(Abs()).curr[f := a.curr])
    {
      hide FormedDecoder, Acted, Applicable, OpOk, Inv;
      if code == 10 {
        SwitchAndDo(f, 5 + n % 4, 4 + n % 4, Tr);
      } else {
        var op := match code
          case 0 => Rcl
          case 9 => Rdc
          case 15 => Eoc
          case _ => Ru(code - 3);
        SwitchAndDo(f, 1 + n % 4, n % 4, op);
      }
    }

    /** misc_control_code, which carries out command a. */
    method MiscControlCode(n: nat, c2: nat, f: nat, ghost a: Action)
      requires Valid() && f < 2 && n < 8 && Allowed(Abs(), f, a)
      requires a == MiscCode(currChNum[f], n, currChNum[f] != 0 && Abs().channel[n].mode != Unknown, c2)
      modifies this, channel, buffers
      ensures Valid() && Abs() == Acted(old(Abs()), a.channel, a.op).(curr := old(Abs()).curr[f := a.curr])
    {
      hide FormedDecoder, Acted, Applicable, OpOk, Inv;
      ghost var d := Abs();
      CurrentChannel(d, f, n);
      var code := c2 % 16;
      if code in {1, 4, 8, 13} {
        EditCode(n, code, f, a);
      } else if code in {0, 5, 6, 7, 9, 10, 15} {
        SwitchCode(n, code, f, a);
      } else if code == 11 {
        CurrentChannel(d, f, 4 + n % 4);
        SwitchChannel(f, 5 + n % 4);
      } else if code == 12 {
        Do(n % 4, Edm);
      } else if code == 14 {
        Do(n % 4, Enm);
      }
    }

    /** control_code */
    method ControlCode(c1: nat, c2: nat, f: nat)
      requires Valid() && f < 2 && 0x10 <= c1 < 0x20 && 0x20 <= c2 < 0x80
      modifies this, channel, buffers
      ensures Valid() && Abs() == S.ControlCode(old(Abs()), f, c1, c2)
    {
      hide FormedDecoder, Apply, Applicable, OpOk, Inv, MiscCode, ExtCode;
      ghost var d := Abs();
      CurrentChannel(d, f, 0);
      CodeAllowed(d, f, c1, c2);
      var n := Addressed(currChNum[f], f, c1);
      CurrentChannel(d, f, n);
      var ready := IsReady(f, n);
      if c2 >= 0x40 {
        if currChNum[f] != 0 {
          Do(n, Pac(c1, c2));
        }
        return;
      }
      var code := c1 % 8;
      if code == 0 {
        if ready && c2 < 0x30 {
          Do(n, Put(0x1000 + c2, false, true));
        }
      } else if code == 1 {
        if ready {
          if c2 < 0x30 {
            Do(n, Put(0x1100 + c2, false, false));
          } else if c2 == 0x39 {
            Do(n, Put(0, false, false));
          } else {
            Do(n, Put(0x1100 + c2, true, false));
          }
        }
      } else if code == 2 || code == 3 {
        if ready {
          Do(n, Put((c1 - c1 / 8 % 2 * 8) * 256 + c2, true, true));
        }
      } else if code == 4 || code == 5 {
        if c2 < 0x30 {
          MiscControlCode(n, c2, f, ActionOf(d, f, c1, c2));
        }
      } else if code == 7 {
        if ready {
          Do(n, ExtCode(c2));
        }
      }
    }

    lemma CodeAllowed(d: S.Decoder, f: nat, c1: nat, c2: nat)
      requires FormedDecoder(d) && f < 2 && 0x10 <= c1 < 0x20 && 0x20 <= c2 < 0x80
      ensures Allowed(d, f, ActionOf(d, f, c1, c2)) && Addressed(d.curr[f], f, c1) < 8
    {
      hide Inv, Code;
      ActionInRange(d, f, c1, c2);
      CodeOfField(d, f, c1, c2);
      var n := Addressed(d.curr[f], f, c1);
      CodeOk(d.curr[f], n, d.curr[f] != 0 && d.channel[n].mode != Unknown, c1, c2);
    }

    /** characters */
    method Characters(f: nat, c: int) returns (ok: bool)
      requires Valid() && f < 2 && -1 <= c < 0x80
      modifies channel, buffers
      ensures Valid() && Abs() == S.Characters(old(Abs()), f, c) && ok == CharacterOk(c)
    {
      hide Apply, Inv;
      ghost var d := Abs();
      var n := CharacterChannel(currChNum[f], f);
      CurrentChannel(d, f, n);
      if c == 0 {
        return true;
      }
      if c < 0x20 {
        if c < 0 && channel[n].mode != Unknown {
          Do(n, Put(0x7F, true, false));
        }
        return false;
      }
      if channel[n].mode != Unknown {
        Do(n, Put(c, true, false));
      }
      return true;
    }

    /** No control code is expected to be repeated on field f. */
    method DropExpected(f: nat)
      requires Valid() && f < 2
      modifies `expectCtrl
      ensures Valid() && Abs() == Forget(old(Abs()), f)
    {
      hide Inv;
      expectCtrl := expectCtrl[f := (-1, expectCtrl[f].1)];
      assert Chans() == old(Chans());
    }

    method SetXds(f: nat, xds: bool)
      requires Valid() && f < 2
      modifies `inXds
      ensures Valid() && Abs() == old(Abs()).(inXds := old(Abs()).inXds[f := xds])
    {
      hide Inv;
      inXds := inXds[f := xds];
      assert Chans() == old(Chans());
    }

    /** _vbi_cc608_decoder_feed: a byte pair of a line. */
    method Feed(b1: nat, b2: nat, line: nat) returns (ok: bool)
      requires Valid() && b1 < 0x100 && b2 < 0x100
      modifies this, channel, buffers
      ensures Valid()
      ensures line !in {21, 22, 284} ==> !ok && Abs() == old(Abs())
      ensures line in {21, 22, 284} ==>
        (Abs(), ok) == R.Feed(old(Abs()), Pair(if line == 284 then 1 else 0, Unpar8(b1), Unpar8(b2)))
    {
      var f := 0;
      if line == 284 {
        f := 1;
      } else if line != 21 && line != 22 {
        return false;
      }
      ok := FeedField(Unpar8(b1), Unpar8(b2), f);
    }

    method FeedField(b1: int, b2: int, f: nat) returns (ok: bool)
      requires Valid() && -1 <= b1 < 0x80 && -1 <= b2 < 0x80 && f < 2
      modifies this, channel, buffers
      ensures Valid() && (Abs(), ok) == R.Feed(old(Abs()), Pair(f, b1, b2))
    {
      hide FormedDecoder, Inv, S.ControlCode, S.Characters;
      var c1, c2 := b1, b2;
      CurrentChannel(Abs(), f, 0);
      if c1 < 0 {
        DropExpected(f);
        return false;
      } else if (c1, c2) == expectCtrl[f] {
        DropExpected(f);
        return true;
      }
      if 0x10 <= c1 < 0x20 {
        SetXds(f, false);
        if c2 < 0x20 {
          DropExpected(f);
          return false;
        }
        ControlCodeExpects(Abs(), c1, c2, f);
        ControlCode(c1, c2, f);
        Expect(c1, c2, f);
        return true;
      }
      DropExpected(f);
      if c1 < 0x10 {
        if f == 0 {
          c1 := 0;
        } else if c1 == 0x0F {
          SetXds(1, false);
          return true;
        } else if c1 >= 0x01 {
          SetXds(1, true);
          return true;
        }
      }
      if currChNum[f] == 0 {
        return true;
      }
      ok := Characters(f, c1);
      var ok2 := Characters(f, c2);
      ok := ok && ok2;
    }

    lemma ControlCodeExpects(d: S.Decoder, c1: nat, c2: nat, f: nat)
      requires FormedDecoder(d) && f < 2 && 0x10 <= c1 < 0x20 && 0x20 <= c2 < 0x80
      ensures S.ControlCode(d, f, c1, c2).awaited == d.awaited
    {
      hide Inv, Code, Apply;
      ActionInRange(d, f, c1, c2);
    }

    method Expect(c1: int, c2: int, f: nat)
      requires Valid() && f < 2
      modifies `expectCtrl
      ensures Valid() && Abs() == old(Abs()).(awaited := old(Abs()).awaited[f := (c1, c2)])
    {
      hide Inv;
      expectCtrl := expectCtrl[f := (c1, c2)];
      assert Chans() == old(Chans());
    }

    /** _vbi_cc608_decoder_get_page: all rows of the displayed screen. */
    method GetPage(cells: array<F.Cell>, channelNumber: nat, u: F.Unicode, padding: bool) returns (ok: bool)
      requires Valid() && cells.Length >= 34 * ROWS
      modifies cells
      ensures ok <==> 1 <= channelNumber <= 8
      ensures ok ==>
                var k := Abs().channel[channelNumber - 1];
                && Formed(k)
                && cells[..F.Width(padding) * ROWS] == F.FormattedPage(u, Shown(k), k.upper > 3, padding, ROWS)
    {
      hide FormedDecoder, Inv, Formed, Sound, CellsOk, Screens;
      if channelNumber < 1 || channelNumber > 8 {
        return false;
      }
      var ch := channel[channelNumber - 1];
      ChannelOf(channelNumber - 1);
      ghost var k := ch.Abs();
      DisplayedOk(k);
      var cp, row, toUpper := 0, 0, ch.uppercasePredictor > 3;
      while row < ROWS
        invariant 0 <= row <= ROWS && cp == if padding then 34 * row else 32 * row
        invariant cells[..cp] == F.FormattedPage(u, Shown(k), toUpper, padding, row)
      {
        F.FormatRow(cells, cp, F.Width(padding), u, ch.buffer, ch.displayedBuffer, ch.dirty[ch.displayedBuffer], row,
          toUpper, padding);
        NextRow(cells[..], F.FormattedPage(u, Shown(k), toUpper, padding, row),
          F.FormattedRow(u, Shown(k)[row], toUpper, padding));
        cp := cp + F.Width(padding);
        row := row + 1;
      }
      return true;
    }

    lemma NextRow(cells: seq<F.Cell>, before: seq<F.Cell>, line: seq<F.Cell>)
      requires before + line <= cells
      ensures cells[..|before| + |line|] == before + line
    {}

    lemma DisplayedOk(k: Chan)
      requires Inv(k)
      ensures Formed(k) && FormedScreen(Shown(k)) && Sound(Shown(k), k.dirty[k.shown]) && CellsOk(Shown(k))
    {
      assert k.shown == 0 || k.shown == 1;
    }
  }
}
