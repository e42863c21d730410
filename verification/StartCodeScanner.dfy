/** The search for MPEG start codes (video_es_decoder in contrib/atsc-cc.c): fed with
    a stream in any pieces, it decodes the blocks of the whole stream. */
module StartCodeScanner {

  type Byte = b: nat | b < 0x100

  /** A start code and the bytes up to the next one, including the start code itself. */
  datatype Block = Block(code: Byte, data: seq<Byte>)

  const NONE := -1

  predicate StartCodeAt(h: seq<Byte>, p: nat) {
    p + 3 < |h| && h[p] == 0 && h[p + 1] == 0 && h[p + 2] == 1
  }

  /** The blocks found from position p on, one byte after the other. q is the position of
      the last start code. A start code at the very end of the data waits for one more byte. */
  ghost function Scan(h: seq<Byte>, p: nat, q: nat, last: int): seq<Block>
    requires q <= p && last < 0x100
    decreases |h| - p
  {
    if p + 4 >= |h| then []
    else if StartCodeAt(h, p) then
      (if last >= 0 then [Block(last, h[q..p])] else []) + Scan(h, p + 4, p, h[p + 3])
    else Scan(h, p + 1, q, last)
  }

  /** The position of the last start code which the search finds, or q. */
  ghost function LastFound(h: seq<Byte>, p: nat, q: nat): (e: nat)
    requires q <= p
    ensures q <= e && (q <= |h| ==> e <= |h|)
    decreases |h| - p
  {
    if p + 4 >= |h| then q
    else if StartCodeAt(h, p) then LastFound(h, p + 4, p)
    else LastFound(h, p + 1, q)
  }

  /** The bytes which wait for the next start code. */
  ghost function Unread(h: seq<Byte>): nat {
    |h| - LastFound(h, 0, 0)
  }

  /** It is q when there is no start code from p on, and else the position of a start code after
      whose four bytes no other one begins. */
  lemma {:induction false} LastFoundIs(h: seq<Byte>, p: nat, q: nat)
    requires q <= p
    ensures var e := LastFound(h, p, q);
      || (e == q && forall i :: p <= i && i + 4 < |h| ==> !StartCodeAt(h, i))
      || (p <= e && StartCodeAt(h, e) && forall i :: e + 4 <= i && i + 4 < |h| ==> !StartCodeAt(h, i))
    decreases |h| - p
  {
    if p + 4 < |h| {
      if StartCodeAt(h, p) {
        LastFoundIs(h, p + 4, p);
      } else {
        LastFoundIs(h, p + 1, q);
      }
    }
  }

  /** With n bytes known no start code can begin at p, whatever follows. */
  predicate RuledOut(h: seq<Byte>, p: nat) {
    || (p < |h| && h[p] != 0)
    || (p + 1 < |h| && h[p + 1] != 0)
    || (p + 2 < |h| && h[p + 2] != 1)
  }

  lemma ScanSkips(h: seq<Byte>, t: seq<Byte>, p: nat, q: nat, last: int)
    requires RuledOut(h, p) && q <= p && last < 0x100
    ensures Scan(h + t, p, q, last) == Scan(h + t, p + 1, q, last)
    ensures LastFound(h + t, p, q) == LastFound(h + t, p + 1, q)
  {}

  /** Whatever follows the bytes h: the blocks of the log, and then those found from p on,
      are the blocks of the whole stream, and its last start code is found from p on, or is at q. */
  ghost predicate Follows(h: seq<Byte>, p: nat, q: nat, last: int, log: seq<Block>)
    requires q <= p && last < 0x100
  {
    forall t: seq<Byte> :: FollowsWith(h + t, p, q, last, log)
  }

  ghost predicate FollowsWith(h: seq<Byte>, p: nat, q: nat, last: int, log: seq<Block>)
    requires q <= p && last < 0x100
  {
    Scan(h, 0, 0, NONE) == log + Scan(h, p, q, last) && LastFound(h, 0, 0) == LastFound(h, p, q)
  }

  lemma FollowsSkips(h: seq<Byte>, p: nat, q: nat, last: int, log: seq<Block>)
    requires q <= p && last < 0x100 && Follows(h, p, q, last, log) && RuledOut(h, p)
    ensures Follows(h, p + 1, q, last, log)
  {
    forall t: seq<Byte> ensures FollowsWith(h + t, p + 1, q, last, log) {
      assert FollowsWith(h + t, p, q, last, log);
      ScanSkips(h, t, p, q, last);
    }
  }

  /** Three positions are skipped when the third byte is neither 0 nor 1. */
  lemma FollowsSkipsThree(h: seq<Byte>, p: nat, q: nat, last: int, log: seq<Block>)
    requires q <= p && last < 0x100 && Follows(h, p, q, last, log) && p + 2 < |h| && h[p + 2] > 1
    ensures Follows(h, p + 3, q, last, log)
  {
    hide Follows;
    FollowsSkips(h, p, q, last, log);
    FollowsSkips(h, p + 1, q, last, log);
    FollowsSkips(h, p + 2, q, last, log);
  }

  lemma ScanFinds(h: seq<Byte>, t: seq<Byte>, p: nat, q: nat, last: int)
    requires q <= p && last < 0x100 && StartCodeAt(h, p) && p + 4 < |h|
    ensures var found := if last >= 0 then [Block(last, h[q..p])] else [];
      Scan(h + t, p, q, last) == found + Scan(h + t, p + 4, p, h[p + 3])
    ensures LastFound(h + t, p, q) == LastFound(h + t, p + 4, p)
  {
    assert StartCodeAt(h + t, p) && (h + t)[q..p] == h[q..p] && (h + t)[p + 3] == h[p + 3];
  }

  lemma FollowsFinds(h: seq<Byte>, p: nat, q: nat, last: int, log: seq<Block>)
    requires q <= p && last < 0x100 && Follows(h, p, q, last, log) && StartCodeAt(h, p) && p + 4 < |h|
    ensures Follows(h, p + 4, p, h[p + 3], log + if last >= 0 then [Block(last, h[q..p])] else [])
  {
    hide Scan, LastFound;
    var found := if last >= 0 then [Block(last, h[q..p])] else [];
    forall t: seq<Byte> ensures FollowsWith(h + t, p + 4, p, h[p + 3], log + found) {
      assert FollowsWith(h + t, p, q, last, log);
      ScanFinds(h, t, p, q, last);
      var rest := Scan(h + t, p + 4, p, h[p + 3]);
      assert log + (found + rest) == (log + found) + rest;
    }
  }

  lemma FollowsMore(h: seq<Byte>, more: seq<Byte>, p: nat, q: nat, last: int, log: seq<Block>)
    requires q <= p && last < 0x100 && Follows(h, p, q, last, log)
    ensures Follows(h + more, p, q, last, log)
  {
    forall t: seq<Byte> ensures FollowsWith((h + more) + t, p, q, last, log) {
      assert (h + more) + t == h + (more + t) && FollowsWith(h + (more + t), p, q, last, log);
    }
  }

  lemma FollowsNothing(h: seq<Byte>, p: nat, q: nat, last: int, log: seq<Block>)
    requires q <= p && last < 0x100 && Follows(h, p, q, last, log) && p + 4 >= |h|
    ensures log == Scan(h, 0, 0, NONE) && q == LastFound(h, 0, 0)
  {
    assert h + [] == h && FollowsWith(h + [], p, q, last, log);
  }

  lemma FollowsStart()
    ensures Follows([], 0, 0, NONE, [])
  {
    forall t: seq<Byte> ensures FollowsWith([] + t, 0, 0, NONE, []) {}
  }

  lemma DropTwice(h: seq<Byte>, m: nat, n: nat)
    requires m + n <= |h|
    ensures h[m..][n..] == h[m + n..]
  {}

  class Scanner {
    const base: array<Byte>
    // Where the next data will be stored, and where the first will be removed.
    var bufIn: nat
    var bufOut: nat
    // The bytes after bufOut which have already been scanned.
    var skip: nat
    // The last start code, if it is not negative the one at bufOut.
    var lastStartCode: int

    // All bytes so far, the number of them which have left the buffer, and the blocks decoded.
    ghost var received: seq<Byte>
    ghost var gone: nat
    ghost var decoded: seq<Block>

    /** The search has come to place s of the buffer. */
    ghost predicate Searching(s: nat)
      reads `bufIn, `bufOut, `lastStartCode, `received, `gone, `decoded, base
    {
      && bufOut <= s <= bufIn <= base.Length && gone + bufIn == |received| && base[..bufIn] == received[gone..]
      && lastStartCode < 0x100 && Follows(received, gone + s, gone + bufOut, lastStartCode, decoded)
    }

    ghost predicate Valid()
      reads this, base
    {
      Searching(bufOut + skip) && bufOut + skip + 4 >= bufIn
    }

    constructor (capacity: nat)
      ensures Valid() && base.Length == capacity && received == [] && decoded == [] && fresh(base)
      ensures decoded == Scan(received, 0, 0, NONE)
    {
      base := new Byte[capacity](_ => 0);
      bufIn, bufOut, skip, lastStartCode := 0, 0, 0, NONE;
      received, gone, decoded := [], 0, [];
      new;
      FollowsStart();
    }

    /** vesd_make_room. Returns false if the buffer overflows. */
    method MakeRoom(required: nat) returns (ok: bool)
      requires Valid()
      modifies this`bufIn, this`bufOut, this`gone, base
      ensures Valid() && ok == (required <= base.Length - (old(bufIn) - old(bufOut)))
      ensures ok ==> bufIn + required <= base.Length
      ensures bufIn - bufOut == old(bufIn) - old(bufOut)
    {
      hide Valid;
      BufferBounds();
      ok := true;
      if bufIn + required > base.Length {
        var consumed := bufOut;
        var unconsumed := bufIn - consumed;
        if required > base.Length - unconsumed {
          return false;
        }
        Compact(consumed, unconsumed);
      }
    }

    lemma BufferBounds()
      requires Valid()
      ensures bufOut <= bufIn <= base.Length
    {}

    /** The unread bytes go to the begin of the buffer. */
    method Compact(consumed: nat, unconsumed: nat)
      requires Valid() && consumed == bufOut && consumed + unconsumed == bufIn
      modifies this`bufIn, this`bufOut, this`gone, base
      ensures Valid() && bufIn == unconsumed && bufOut == 0
    {
      hide Follows, Scan;
      ghost var p, was := gone + consumed + skip, base[..bufIn];
      assert Follows(received, p, gone + consumed, lastStartCode, decoded) && was == received[gone..];
      MoveDown(consumed, unconsumed);
      assert base[..unconsumed] == received[gone + consumed..] by { DropTwice(received, gone, consumed); }
      bufIn := unconsumed;
      bufOut := 0;
      gone := gone + consumed;
    }

    /** memmove to the begin of the buffer. */
    method MoveDown(from: nat, n: nat)
      requires from + n <= base.Length
      modifies base
      ensures base[..n] == old(base[..from + n])[from..]
    {
      forall i | 0 <= i < n { base[i] := base[from + i]; }
    }

    /** memcpy. */
    method Append(buf: seq<Byte>)
      requires Valid() && bufIn + |buf| <= base.Length
      modifies this`bufIn, this`received, base
      ensures received == old(received) + buf && bufIn == old(bufIn) + |buf| && Searching(bufOut + skip)
    {
      hide Follows;
      FollowsMore(received, buf, gone + bufOut + skip, gone + bufOut, lastStartCode, decoded);
      forall i | 0 <= i < |buf| { base[bufIn + i] := buf[i]; }
      bufIn := bufIn + |buf|;
      received := received + buf;
      assert base[..bufIn] == old(base[..bufIn]) + buf;
    }

    /** One step of the search. */
    method Advance(s: nat) returns (t: nat)
      requires Searching(s) && s + 4 < bufIn
      modifies this`bufOut, this`lastStartCode, this`decoded
      ensures Searching(t) && s < t && old(decoded) <= decoded
    {
      hide Follows, Scan;
      ghost var p := gone + s;
      KnownBytes(s);
      if base[s + 2] > 1 {
        // A byte above one is no part of a start code, so none begins in these three places.
        FollowsSkipsThree(received, p, gone + bufOut, lastStartCode, decoded);
        t := s + 3;
      } else if base[s] != 0 || base[s + 1] != 0 || base[s + 2] != 1 {
        FollowsSkips(received, p, gone + bufOut, lastStartCode, decoded);
        t := s + 1;
      } else {
        FollowsFinds(received, p, gone + bufOut, lastStartCode, decoded);
        if lastStartCode >= 0 {
          decoded := decoded + [Block(lastStartCode, base[bufOut..s])];
        } else {
          assert decoded + [] == decoded;
        }
        // The block is decoded; the next one begins behind its start code.
        bufOut := s;
        lastStartCode := base[s + 3];
        t := s + 4;
      }
    }

    lemma KnownBytes(s: nat)
      requires Searching(s) && s + 4 < bufIn
      ensures base[s] == received[gone + s] && base[s + 1] == received[gone + s + 1]
      ensures base[s + 2] == received[gone + s + 2] && base[s + 3] == received[gone + s + 3]
      ensures base[bufOut..s] == received[gone + bufOut..gone + s]
    {
      hide Follows;
      forall i: nat | i < bufIn ensures base[i] == received[gone + i] {
        assert base[..bufIn][i] == received[gone..][i];
      }
    }

    /** video_es_decoder without lost data: blocks come out as if the whole stream had been
        scanned byte by byte. */
    method Decode(buf: seq<Byte>) returns (ok: bool)
      requires Valid()
      modifies this, base
      ensures Valid() && ok == (|buf| + Unread(old(received)) <= base.Length)
      ensures received == if ok then old(received) + buf else old(received)
      ensures decoded == Scan(received, 0, 0, NONE) && old(decoded) <= decoded
    {
      hide Follows, Searching, LastFound, Scan;
      Exhausted(bufOut + skip);
      ok := MakeRoom(|buf|);
      if !ok {
        return;
      }
      Append(buf);
      var s: nat := bufOut + skip;
      while s + 4 < bufIn
        invariant Searching(s) && received == old(received) + buf && old(decoded) <= decoded
        decreases bufIn - s
      {
        s := Advance(s);
      }
      Exhausted(s);
      skip := s - bufOut;
      assert bufOut + skip == s;
    }

    /** At the end of the data all its blocks have been found. */
    lemma Exhausted(s: nat)
      requires Searching(s) && s + 4 >= bufIn
      ensures decoded == Scan(received, 0, 0, NONE) && bufOut <= s && bufIn - bufOut == Unread(received)
    {
      hide Follows;
      FollowsNothing(received, gone + s, gone + bufOut, lastStartCode, decoded);
    }
  }

  function Concat(chunks: seq<seq<Byte>>): seq<Byte> {
    if chunks == [] then [] else Concat(chunks[..|chunks| - 1]) + chunks[|chunks| - 1]
  }

  /** Chunk i fits the buffer together with the bytes which wait when it comes. */
  ghost predicate Fits(chunks: seq<seq<Byte>>, capacity: nat, i: nat)
    requires i < |chunks|
  {
    |chunks[i]| + Unread(Concat(chunks[..i])) <= capacity
  }

  /** However a stream is divided, the same blocks come out. The buffer overflows unless every chunk
      fits together with the bytes from the last start code on. */
  method DecodeStream(chunks: seq<seq<Byte>>, capacity: nat) returns (ok: bool, ghost blocks: seq<Block>)
    ensures ok <==> forall i :: 0 <= i < |chunks| ==> Fits(chunks, capacity, i)
    ensures ok ==> blocks == Scan(Concat(chunks), 0, 0, NONE)
  {
    hide Concat, Fits, Scan, LastFound, Unread, Scanner.Valid;
    var scanner := new Scanner(capacity);
    ok := true;
    NoChunks(chunks);
    for i := 0 to |chunks|
      invariant scanner.Valid() && scanner.base.Length == capacity && fresh(scanner) && fresh(scanner.base)
      invariant ok ==> scanner.received == Concat(chunks[..i]) && scanner.decoded == Scan(scanner.received, 0, 0, NONE)
      invariant ok <==> forall j :: 0 <= j < i ==> Fits(chunks, capacity, j)
    {
      NextChunk(chunks, capacity, i);
      if ok {
        ok := scanner.Decode(chunks[i]);
      }
    }
    assert chunks[..|chunks|] == chunks;
    blocks := scanner.decoded;
  }

  lemma NoChunks(chunks: seq<seq<Byte>>)
    ensures Concat(chunks[..0]) == []
  {}

  lemma NextChunk(chunks: seq<seq<Byte>>, capacity: nat, i: nat)
    requires i < |chunks|
    ensures Concat(chunks[..i + 1]) == Concat(chunks[..i]) + chunks[i]
    ensures Fits(chunks, capacity, i) <==> |chunks[i]| + Unread(Concat(chunks[..i])) <= capacity
  {
    assert chunks[..i + 1][..i] == chunks[..i];
  }

  /** A stream which fits the buffer as a whole does so in any chunks. */
  lemma StreamFits(chunks: seq<seq<Byte>>, capacity: nat, i: nat)
    requires |Concat(chunks)| <= capacity && i < |chunks|
    ensures Fits(chunks, capacity, i)
  {
    assert chunks[..i + 1][..i] == chunks[..i];
    ConcatLength(chunks, i + 1);
  }

  lemma {:induction false} ConcatLength(chunks: seq<seq<Byte>>, i: nat)
    requires i <= |chunks|
    ensures |Concat(chunks[..i])| <= |Concat(chunks)|
    decreases |chunks| - i
  {
    if i < |chunks| {
      assert chunks[..i + 1][..i] == chunks[..i];
      ConcatLength(chunks, i + 1);
    } else {
      assert chunks[..i] == chunks;
    }
  }

  // ---- What the blocks are -----------------------------------------------------------

  function Bytes(blocks: seq<Block>): seq<Byte> {
    if blocks == [] then [] else blocks[0].data + Bytes(blocks[1..])
  }

  /** A block of a stream: it begins with its start code, and no other start code begins in it. */
  ghost predicate IsBlock(b: Block) {
    && |b.data| >= 4 && b.data[..4] == [0, 0, 1, b.code]
    && forall i :: 4 <= i ==> !StartCodeAt(b.data, i)
  }

  /** The blocks are the stream from its first start code to its last, without a gap, and are
      divided at every start code. */
  lemma {:induction false} ScanDivides(h: seq<Byte>, p: nat, q: nat, last: int) returns (e: nat)
    requires q + 4 <= p && 0 <= last < 0x100 && q + 4 <= |h| && h[q..q + 4] == [0, 0, 1, last]
    requires forall i :: q + 4 <= i < p ==> !StartCodeAt(h, i)
    ensures q <= e <= |h| && Bytes(Scan(h, p, q, last)) == h[q..e]
    ensures e == q || StartCodeAt(h, e)
    ensures forall i :: e + 4 <= i && i + 4 < |h| ==> !StartCodeAt(h, i)
    ensures forall b :: b in Scan(h, p, q, last) ==> IsBlock(b)
    decreases |h| - p
  {
    if p + 4 >= |h| {
      e := q;
    } else if StartCodeAt(h, p) {
      assert h[p..p + 4] == [0, 0, 1, h[p + 3]];
      e := ScanDivides(h, p + 4, p, h[p + 3]);
      BlockIs(h, q, p, last);
      hide StartCodeAt, IsBlock;
      var b, rest := Block(last, h[q..p]), Scan(h, p + 4, p, h[p + 3]);
      assert ([b] + rest)[1..] == rest;
      assert h[q..p] + h[p..e] == h[q..e];
    } else {
      e := ScanDivides(h, p + 1, q, last);
    }
  }

  lemma BlockIs(h: seq<Byte>, q: nat, p: nat, code: Byte)
    requires q + 4 <= p <= |h| && h[q..q + 4] == [0, 0, 1, code]
    requires forall i :: q + 4 <= i < p ==> !StartCodeAt(h, i)
    ensures IsBlock(Block(code, h[q..p]))
  {
    var d := h[q..p];
    assert d[..4] == h[q..q + 4];
    forall i | 4 <= i ensures !StartCodeAt(d, i) {
      if StartCodeAt(d, i) { assert StartCodeAt(h, q + i); }
    }
  }
}
