/** The queue of transport stream packets between the capture and the demultiplexer
    thread (ct_filter and demux_thread in contrib/atsc-cc.c). There are no locks: each
    thread takes one step at a time, in any interleaving with the other. */
module PacketRing {

  type Byte = b: nat | b < 0x100

  const PACKET_SIZE := 188

  type Packet = p: seq<Byte> | |p| == PACKET_SIZE witness seq(PACKET_SIZE, _ => 0)

  /** What happens to a packet: it is stored, lost because the ring is full, or not of interest. */
  datatype Event = Stored(packet: Packet) | Lost(packet: Packet) | Ignored(packet: Packet)

  function HasErrorBit(p: Packet): bool {
    p[1] >= 0x80
  }

  function WithErrorBit(p: Packet): Packet {
    var b: nat := p[1];
    if HasErrorBit(p) then p else p[1 := b + 0x80]
  }

  function Pid(p: Packet): nat {
    var high: nat, low: nat := p[1], p[2];
    (high * 256 + low) % 0x2000
  }

  /** The header of a transport packet (ISO 13818-1, section 2.4.3.2): the error indicator is the highest bit of
      the second byte, two other flags follow, and the rest and the third byte are the PID. Setting the indicator
      changes nothing else. */
  lemma HeaderFields(p: Packet, error: bool, flags: nat, pid: nat)
    requires flags < 4 && pid < 0x2000
    requires p[1] == (if error then 0x80 else 0) + 0x20 * flags + pid / 0x100 && p[2] == pid % 0x100
    ensures HasErrorBit(p) == error && Pid(p) == pid
    ensures var q := WithErrorBit(p);
      && q[1] == 0x80 + 0x20 * flags + pid / 0x100 && HasErrorBit(q) && Pid(q) == pid
      && forall i :: 0 <= i < PACKET_SIZE && i != 1 ==> q[i] == p[i]
  {
    var high: nat, low: nat := p[1], p[2];
    assert (high * 256 + low) == ((if error then 0x80 else 0) + 0x20 * flags) * 256 + pid;
    var q := WithErrorBit(p);
    var marked: nat := q[1];
    assert marked * 256 + low == (0x80 + 0x20 * flags) * 256 + pid;
  }

  // ---- What the consumer shall receive --------------------------------------------

  /** The last packet of interest was lost. */
  predicate LostLast(h: seq<Event>) {
    h != [] && match h[|h| - 1] {
      case Stored(_) => false
      case Lost(_) => true
      case Ignored(_) => LostLast(h[..|h| - 1])
    }
  }

  /** The packets which were stored, in order. A packet has its error bit set when at
      least one packet was lost immediately before. */
  function Accepted(h: seq<Event>): seq<Packet> {
    if h == [] then []
    else
      var front, e := h[..|h| - 1], h[|h| - 1];
      if e.Stored? then Accepted(front) + [AsStored(front, e.packet)] else Accepted(front)
  }

  function AsStored(h: seq<Event>, p: Packet): Packet {
    if LostLast(h) then WithErrorBit(p) else p
  }

  // ---- The two threads ----------------------------------------------------------------

  datatype Producer = Idle | Copying(packet: Packet, n: nat) | Marked(packet: Packet)

  datatype Consumer = Waiting | Reading(bytes: seq<Byte>) | Decoded

  /** The thread which takes the next step: ct_filter, or demux_thread. */
  datatype Thread = Capture | Demux

  /** The packets of a history. */
  function Packets(h: seq<Event>): seq<Packet> {
    seq(|h|, i requires 0 <= i < |h| => h[i].packet)
  }

  function Wrap(slot: nat, slots: nat): nat {
    if slot >= slots then slot - slots else slot
  }

  class Ring {
    const buffer: array<Byte>
    const wanted: set<nat>
    const keepAll: bool
    // The indices which the threads share.
    var tsIn: nat
    var tsOut: nat
    var tsError: nat
    var producer: Producer
    var consumer: Consumer
    // All packets given to the decoder.
    ghost var delivered: seq<Packet>

    ghost var history: seq<Event>
    ghost var slots: nat
    ghost var outSlot: nat
    // The packets whose slots were given back, and those in the ring.
    ghost var done: seq<Packet>
    ghost var pending: seq<Packet>

    ghost function Slot(i: nat): nat
      reads `slots, `outSlot
    {
      Wrap(outSlot + i, slots)
    }

    /** Where the threads are. */
    ghost predicate Indices()
      reads `slots, `outSlot, `pending, `tsIn, `tsOut, `producer, `consumer
    {
      && slots > 0 && buffer.Length == PACKET_SIZE * slots
      && outSlot < slots && |pending| < slots
      && tsOut == PACKET_SIZE * outSlot && tsIn == PACKET_SIZE * Slot(|pending|)
      && (producer.Idle? || |pending| + 1 < slots)
      && (consumer.Waiting? || pending != [])
    }

    /** The bytes of slot w. */
    ghost function Bytes(w: nat): (b: seq<Byte>)
      requires PACKET_SIZE * (w + 1) <= buffer.Length
      ensures |b| == PACKET_SIZE
      reads buffer
    {
      buffer[PACKET_SIZE * w..PACKET_SIZE * (w + 1)]
    }

    /** What is in the ring. */
    ghost predicate InRing()
      requires slots > 0 && buffer.Length == PACKET_SIZE * slots && outSlot < slots && |pending| < slots
      reads `slots, `outSlot, `pending, buffer
    {
      forall i :: 0 <= i < |pending| ==> Bytes(Slot(i)) == pending[i]
    }

    /** What the producer has done so far. */
    ghost predicate Produced()
      requires Indices()
      reads `slots, `outSlot, `pending, `tsIn, `tsOut, `producer, `consumer, `history, `tsError, buffer
    {
      && (tsError == 0 || tsError == 0x80)
      && match producer
         case Idle => tsError == 0x80 <==> LostLast(history)
         case Copying(p, n) => (tsError == 0x80 <==> LostLast(history)) && n <= PACKET_SIZE
           && Bytes(Slot(|pending|))[..n] == p[..n]
         case Marked(p) => tsError == 0 && Bytes(Slot(|pending|)) == AsStored(history, p)
    }

    /** What the consumer has seen so far. */
    ghost predicate Consumed()
      reads `consumer, `pending, `delivered, `done
    {
      && (consumer.Reading? ==> pending != [] && consumer.bytes <= pending[0])
      && (consumer.Decoded? ==> pending != [])
      && delivered == done + if consumer.Decoded? then [pending[0]] else []
    }

    ghost predicate Valid()
      reads this, buffer
    {
      Indices() && InRing() && Produced() && Consumed() && Accepted(history) == done + pending
    }

    constructor (slots: nat, wanted: set<nat>, keepAll: bool)
      requires slots > 0
      ensures Valid() && history == [] && delivered == [] && fresh(buffer) && this.slots == slots
    {
      buffer := new Byte[PACKET_SIZE * slots](_ => 0xFF);
      this.wanted, this.keepAll, this.slots := wanted, keepAll, slots;
      tsIn, tsOut, tsError, producer, consumer := 0, 0, 0, Idle, Waiting;
      history, delivered, outSlot, done, pending := [], [], 0, [], [];
    }

    /** The packet is of no interest. */
    predicate Unwanted(p: Packet) {
      !HasErrorBit(p) && Pid(p) !in wanted && !keepAll
    }

    /** ct_filter, up to the decision about the packet. */
    method DoOffer(p: Packet)
      requires Valid() && producer.Idle?
      modifies this`tsError, this`producer, this`history
      ensures Valid()
      ensures history == old(history)
        + (if Unwanted(p) then [Ignored(p)] else if |pending| + 1 >= slots then [Lost(p)] else [])
      ensures producer == if Unwanted(p) || |pending| + 1 >= slots then Idle else Copying(p, 0)
    {
      hide InRing, Consumed, Accepted, AsStored, LostLast, Bytes, Pid, HasErrorBit;
      SlotBelow(|pending|);
      assert tsIn < buffer.Length && tsOut < buffer.Length;
      NotStored(history, Ignored(p));
      NotStored(history, Lost(p));
      if !HasErrorBit(p) {
        if Pid(p) !in wanted {
          if !keepAll {
            history := history + [Ignored(p)];
            return;
          }
        }
      }
      var free := if tsOut <= tsIn then tsOut - tsIn + buffer.Length else tsOut - tsIn;
      assert free == PACKET_SIZE * (slots - |pending|);
      if free <= PACKET_SIZE {
        tsError := 0x80;
        history := history + [Lost(p)];
        return;
      }
      producer := Copying(p, 0);
    }

    lemma SlotBelow(i: nat)
      requires slots > 0 && outSlot < slots && i < slots
      ensures Slot(i) < slots
      ensures forall j: nat :: j < i ==> Slot(j) != Slot(i)
    {}

    /** One byte of memcpy. */
    method DoCopy()
      requires Valid() && producer.Copying? && producer.n < PACKET_SIZE
      modifies this`producer, buffer
      ensures Valid() && producer == Copying(old(producer).packet, old(producer).n + 1)
    {
      hide Consumed, InRing, Accepted, AsStored, LostLast;
      SlotBelow(|pending|);
      var p, n := producer.packet, producer.n;
      WriteByte(Slot(|pending|), n, p[n]);
      producer := Copying(p, n + 1);
      KeptSlots(n);
    }

    /** Writes byte n of the slot which begins at tsIn. */
    method WriteByte(ghost w: nat, n: nat, x: Byte)
      requires n < PACKET_SIZE && tsIn == PACKET_SIZE * w && PACKET_SIZE * (w + 1) <= buffer.Length
      modifies buffer
      ensures Bytes(w) == old(Bytes(w))[n := x]
      ensures forall k :: 0 <= k < buffer.Length && k != PACKET_SIZE * w + n ==> buffer[k] == old(buffer[k])
    {
      buffer[tsIn + n] := x;
    }

    /** A write into the free slot leaves the others alone. */
    twostate lemma KeptSlots(n: nat)
      requires slots > 0 && buffer.Length == PACKET_SIZE * slots && outSlot < slots && |pending| < slots
        && n < PACKET_SIZE
      requires unchanged(`slots, `outSlot, `pending) && old(InRing())
      requires forall k :: 0 <= k < buffer.Length && k != PACKET_SIZE * Slot(|pending|) + n ==>
        buffer[k] == old(buffer[k])
      ensures InRing()
    {
      SlotBelow(|pending|);
      ghost var was := old(buffer[..]);
      forall i | 0 <= i < |pending| ensures Bytes(Slot(i)) == pending[i] {
        SlotBelow(i);
        var w := Slot(i);
        assert w < slots && PACKET_SIZE * (w + 1) <= buffer.Length;
        assert old(Bytes(Slot(i)) == pending[i]);
        SliceKept(was, buffer[..], w, Slot(|pending|), n);
      }
    }

    /** The error bit. */
    method DoMark()
      requires Valid() && producer.Copying? && producer.n == PACKET_SIZE
      modifies this`producer, this`tsError, buffer
      ensures Valid() && producer == Marked(old(producer).packet)
    {
      hide Consumed, InRing, Accepted, LostLast;
      SlotBelow(|pending|);
      var p := producer.packet;
      var b: nat := buffer[tsIn + 1];
      ghost var w := Slot(|pending|);
      assert Bytes(w) == p by { assert Bytes(w)[..PACKET_SIZE] == Bytes(w) && p[..PACKET_SIZE] == p; }
      if tsError == 0x80 && b < 0x80 {
        WriteByte(w, 1, b + 0x80);
      }
      tsError := 0;
      producer := Marked(p);
      KeptSlots(1);
    }

    /** The new packet becomes visible. */
    method DoPublish()
      requires Valid() && producer.Marked?
      modifies this`tsIn, this`producer, this`history, this`pending
      ensures Valid() && producer == Idle && history == old(history) + [Stored(old(producer).packet)]
      ensures pending == old(pending) + [AsStored(old(history), old(producer).packet)]
    {
      hide InRing, Accepted, AsStored, LostLast, Bytes, Pid, HasErrorBit;
      SlotBelow(|pending|);
      var next := tsIn + PACKET_SIZE;
      if next >= buffer.Length {
        next := 0;
      }
      var p := producer.packet;
      IsStored(history, p);
      pending := pending + [AsStored(history, p)];
      history := history + [Stored(p)];
      producer := Idle;
      tsIn := next;
      OneMore();
    }

    /** The packet in the free slot is now in the ring. */
    twostate lemma OneMore()
      requires old(Indices()) && old(InRing()) && unchanged(`slots, `outSlot, buffer) && |old(pending)| + 1 < slots
      requires exists p: Packet :: pending == old(pending) + [p] && Bytes(Slot(|old(pending)|)) == p
      ensures InRing()
    {
      hide Wrap, Bytes;
      forall i | 0 <= i < |pending| ensures Slot(i) < slots { SlotBelow(i); }
      forall i | 0 <= i < |pending| ensures Bytes(Slot(i)) == pending[i] {
        var w := Slot(i);
        assert w == old(Slot(i)) && PACKET_SIZE * (w + 1) <= buffer.Length;
        if i < |old(pending)| { assert old(Bytes(Slot(i)) == pending[i]); }
      }
    }

    /** demux_thread looks for a packet. */
    method DoLook()
      requires Valid() && consumer.Waiting?
      modifies this`consumer
      ensures Valid() && consumer == if pending == [] then Waiting else Reading([])
    {
      hide InRing;
      SlotBelow(|pending|);
      var avail := if tsIn < tsOut then tsIn - tsOut + buffer.Length else tsIn - tsOut;
      assert avail == PACKET_SIZE * |pending|;
      if avail > 0 {
        consumer := Reading([]);
      }
    }

    /** The decoder reads one byte. */
    method DoRead()
      requires Valid() && consumer.Reading?
      modifies this`consumer, this`delivered
      ensures Valid() && pending != []
      ensures var n := |old(consumer).bytes|;
        if n < PACKET_SIZE then consumer == Reading(pending[0][..n + 1]) && delivered == old(delivered)
        else consumer == Decoded && delivered == old(delivered) + [pending[0]]
    {
      hide InRing, Accepted, AsStored, LostLast, Bytes, Slot, Wrap;
      FirstInRing();
      var bytes := consumer.bytes;
      if |bytes| < PACKET_SIZE {
        consumer := Reading(bytes + [buffer[tsOut + |bytes|]]);
      } else {
        assert bytes == pending[0];
        delivered := delivered + [bytes];
        consumer := Decoded;
      }
    }

    /** The oldest packet is where the consumer reads. */
    lemma FirstInRing()
      requires Valid() && pending != []
      ensures tsOut + PACKET_SIZE <= buffer.Length
      ensures forall k :: 0 <= k < PACKET_SIZE ==> buffer[tsOut + k] == pending[0][k]
    {
      hide Produced, Consumed, Accepted;
      assert Slot(0) == outSlot && Bytes(outSlot) == pending[0];
      forall k | 0 <= k < PACKET_SIZE ensures buffer[tsOut + k] == pending[0][k] {
        assert Bytes(outSlot)[k] == buffer[PACKET_SIZE * outSlot + k];
      }
    }

    /** The slot is given back. */
    method DoRelease()
      requires Valid() && consumer.Decoded?
      modifies this`tsOut, this`consumer, this`pending, this`done, this`outSlot
      ensures Valid() && consumer == Waiting && old(pending) == [done[|done| - 1]] + pending
    {
      hide InRing, Accepted, AsStored, LostLast, Bytes, Pid, HasErrorBit;
      SlotBelow(|pending|);
      var out := tsOut + PACKET_SIZE;
      if out >= buffer.Length {
        out := 0;
      }
      ghost var was := pending;
      done := done + [pending[0]];
      pending := pending[1..];
      outSlot := Wrap(outSlot + 1, slots);
      tsOut := out;
      consumer := Waiting;
      OneLess();
    }

    /** The first packet is no longer in the ring. */
    twostate lemma OneLess()
      requires old(Indices()) && old(InRing()) && unchanged(`slots, buffer) && old(pending) != []
      requires outSlot == Wrap(old(outSlot) + 1, slots) && pending == old(pending)[1..]
      ensures outSlot < slots && InRing()
      ensures Slot(|pending|) == old(Slot(|pending|))
    {
      hide Wrap, Bytes;
      forall i | 0 <= i <= |pending| ensures Slot(i) == old(Slot(i + 1)) < slots { WrapNext(old(outSlot), i, slots); }
      WrapNext(old(outSlot), 0, slots);
      forall i | 0 <= i < |pending| ensures Bytes(Slot(i)) == pending[i] {
        var w := Slot(i);
        assert w == old(Slot(i + 1)) && PACKET_SIZE * (w + 1) <= buffer.Length;
        assert old(Bytes(Slot(i + 1)) == pending[i + 1]);
      }
    }

    /** The packet which the producer is about to store. */
    function InHand(): seq<Packet>
      reads `producer
    {
      if producer.Idle? then [] else [producer.packet]
    }

    /** The packets which the producer left out are those without interest. */
    ghost predicate Judged()
      reads `history, `producer
    {
      && (forall i :: 0 <= i < |history| ==> (history[i].Ignored? <==> Unwanted(history[i].packet)))
      && (!producer.Idle? ==> !Unwanted(producer.packet))
    }

    /** The next step of the producer, which takes the next packet of the stream when it is idle. */
    method Produce(packets: seq<Packet>, n: nat) returns (m: nat)
      requires Valid() && n <= |packets| && Judged() && Packets(history) + InHand() == packets[..n]
      modifies this`tsIn, this`tsError, this`producer, this`history, this`pending, buffer
      ensures Valid() && m <= |packets| && Judged() && Packets(history) + InHand() == packets[..m]
      ensures m == if old(producer).Idle? && n < |packets| then n + 1 else n
    {
      hide Valid, Indices, InRing, Produced, Consumed, Accepted, AsStored, Unwanted;
      m := n;
      match producer {
        case Idle =>
          if n < |packets| {
            DoOffer(packets[n]);
            m := n + 1;
            assert packets[..m] == packets[..n] + [packets[n]];
          }
        case Copying(_, k) =>
          CopyBounds();
          if k < PACKET_SIZE { DoCopy(); } else { DoMark(); }
        case Marked(_) => DoPublish();
      }
    }

    lemma CopyBounds()
      requires Valid() && producer.Copying?
      ensures producer.n <= PACKET_SIZE
    {}

    /** The next step of the consumer. */
    method Consume()
      requires Valid()
      modifies this`tsOut, this`consumer, this`delivered, this`pending, this`done, this`outSlot
      ensures Valid()
    {
      match consumer
      case Waiting => DoLook();
      case Reading(_) => DoRead();
      case Decoded => DoRelease();
    }

    /** Any interleaving of the two threads. The first n packets of the stream were taken, in order, and
        the last of them may be on its way into the ring. What the decoder received are the accepted
        packets, except the last ones, which are still in the ring. */
    method Run(schedule: seq<Thread>, packets: seq<Packet>) returns (n: nat)
      requires Valid() && history == [] && producer.Idle?
      modifies this, buffer
      ensures Valid() && n <= |packets| && Packets(history) + InHand() == packets[..n] && Judged()
      ensures delivered <= Accepted(history) && |Accepted(history)| - |delivered| < slots
      ensures Accepted(history) == delivered + if consumer.Decoded? then pending[1..] else pending
    {
      hide Valid, Judged;
      n := 0;
      NothingYet();
      for i := 0 to |schedule|
        invariant Valid() && n <= |packets| && Judged() && Packets(history) + InHand() == packets[..n]
      {
        if schedule[i] == Capture {
          n := Produce(packets, n);
        } else {
          Consume();
        }
      }
      InTheRing();
    }

    lemma NothingYet()
      requires history == [] && producer.Idle?
      ensures Judged() && Packets(history) + InHand() == []
    {}

    /** What was accepted and not delivered is in the ring. */
    lemma InTheRing()
      requires Valid()
      ensures consumer.Decoded? ==> pending != []
      ensures delivered <= Accepted(history) && |Accepted(history)| - |delivered| < slots
      ensures Accepted(history) == delivered + if consumer.Decoded? then pending[1..] else pending
    {
      hide InRing, Produced, Accepted;
      assert consumer.Decoded? ==> pending == [pending[0]] + pending[1..];
    }
  }

  /** A write into one slot leaves another alone. */
  lemma SliceKept(a: seq<Byte>, c: seq<Byte>, w: nat, free: nat, n: nat)
    requires |a| == |c| && w != free && n < PACKET_SIZE && PACKET_SIZE * (w + 1) <= |a|
    requires forall k :: 0 <= k < |a| && k != PACKET_SIZE * free + n ==> c[k] == a[k]
    ensures c[PACKET_SIZE * w..PACKET_SIZE * (w + 1)] == a[PACKET_SIZE * w..PACKET_SIZE * (w + 1)]
  {
    forall k | PACKET_SIZE * w <= k < PACKET_SIZE * (w + 1) ensures c[k] == a[k] {
      assert k != PACKET_SIZE * free + n;
    }
  }

  /** The slots after the first one, counted from the second one. */
  lemma WrapNext(slot: nat, i: nat, slots: nat)
    requires slot < slots && i + 1 < slots
    ensures Wrap(slot + 1, slots) < slots
    ensures Wrap(Wrap(slot + 1, slots) + i, slots) == Wrap(slot + (i + 1), slots) < slots
  {}

  lemma FrontOf(h: seq<Event>, e: Event)
    ensures (h + [e])[..|h|] == h && (h + [e])[|h|] == e
  {}

  lemma IsStored(h: seq<Event>, p: Packet)
    ensures Accepted(h + [Stored(p)]) == Accepted(h) + [AsStored(h, p)] && !LostLast(h + [Stored(p)])
  {
    FrontOf(h, Stored(p));
  }

  lemma NotStored(h: seq<Event>, e: Event)
    requires !e.Stored?
    ensures Accepted(h + [e]) == Accepted(h) && LostLast(h + [e]) == (e.Lost? || LostLast(h))
  {
    FrontOf(h, e);
  }

  /** A packet is marked exactly if a packet was lost before it, with only packets of no
      interest in between. */
  lemma {:induction false} LostLastIff(h: seq<Event>)
    ensures LostLast(h) <==> exists j :: 0 <= j < |h| && h[j].Lost? && forall k :: j < k < |h| ==> h[k].Ignored?
  {
    if h != [] {
      var front := h[..|h| - 1];
      LostLastIff(front);
      if LostLast(front) && h[|h| - 1].Ignored? {
        var j :| 0 <= j < |front| && front[j].Lost? && forall k :: j < k < |front| ==> front[k].Ignored?;
        assert h[j].Lost? && forall k :: j < k < |h| ==> h[k].Ignored?;
      }
      if j :| 0 <= j < |h| && h[j].Lost? && forall k :: j < k < |h| ==> h[k].Ignored? {
        if j < |front| {
          assert front[j].Lost? && forall k :: j < k < |front| ==> front[k].Ignored?;
        }
      }
    }
  }
}
