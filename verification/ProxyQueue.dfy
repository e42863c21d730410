/** The linked queues of the VBI proxy daemon (daemon/proxyd.c), for one device. */
module ProxyQueue {
  import opened Common
  import opened ProxyQueueState
  import opened Seqs

  /** Node i of a list is one of the buffers bs, and is followed by the next node. */
  ghost predicate LinkAt(s: seq<Buffer>, i: nat, bs: set<Buffer>)
    requires i < |s|
    reads bs
  {
    s[i] in bs && s[i].next == if i + 1 < |s| then s[i + 1] else null
  }

  /** A linked list of some of the buffers bs. */
  ghost predicate Linked(h: Buffer?, s: seq<Buffer>, bs: set<Buffer>)
    reads bs
  {
    h == (if s == [] then null else s[0]) && forall i :: 0 <= i < |s| ==> LinkAt(s, i, bs)
  }

  datatype ReadResult = Data | Nothing

  /** vbi_proxyd_forward_data. */
  ghost function Forward(q: Queue, clients: seq<Client>, r: ReadResult): Queue {
    var t := if q.unused == [] && q.queue != [] then ForceRelease(q, clients) else q;
    var u := GetFree(t);
    if u.tmp == [] then t else if r.Data? then Append(u) else PutBack(u)
  }

  class Device {
    var sliced: Buffer?
    var free: Buffer?
    var tmpBuf: Buffer?
    var clients: seq<Client>
    // What the links mean, and the buffers which are allocated.
    ghost var q: Queue
    ghost var buffers: set<Buffer>

    ghost function Frame(i: nat): (b: Buffer)
      requires i < |q.queue|
      reads `q
    {
      q.queue[i].buffer
    }

    /** A reference count is the number of clients which have still to be sent the buffer. */
    ghost predicate Counts()
      reads `q, `buffers, buffers
    {
      forall i :: 0 <= i < |q.queue| ==> Counted(i)
    }

    ghost predicate Counted(i: nat)
      requires i < |q.queue|
      reads `q, `buffers, buffers
    {
      Frame(i) in buffers && Frame(i).frame == q.queue[i].frame && Frame(i).refCount == |Holders(q, i)|
    }

    /** The count of a buffer and its holders are as before. */
    twostate lemma CountedStill(i: nat)
      requires i < |old(q).queue| && q.queue == old(q).queue && old(buffers) <= buffers
      requires old(Counted(i)) && Holders(q, i) == Holders(old(q), i)
      requires Frame(i).refCount == old(Frame(i).refCount) && Frame(i).frame == old(Frame(i).frame)
      ensures Counted(i)
    {
      hide Holders;
    }

    /** Every client points to the first frame it has not been sent. */
    ghost predicate PointsAt(c: Client)
      requires c in q.pos
      reads `q, c
    {
      && (c.eligible <==> c in q.eligible)
      && c.sliced == if q.pos[c] < |q.queue| then Frame(q.pos[c]) else null
    }

    ghost predicate ClientLinks()
      reads `q, `clients, clients
    {
      && Distinct(clients)
      && (forall c :: c in q.pos ==> c in clients)
      && (forall c :: c in clients ==> c in q.pos && PointsAt(c))
    }

    ghost predicate Links()
      reads `q, `buffers, `clients, `sliced, `free, buffers, clients
    {
      Linked(sliced, BuffersOf(q.queue), buffers) && Linked(free, q.unused, buffers) && Counts() && ClientLinks()
    }

    ghost predicate InHand()
      reads `q, `buffers, `tmpBuf
    {
      q.tmp == (if tmpBuf == null then [] else [tmpBuf]) && (tmpBuf != null ==> tmpBuf in buffers)
    }

    ghost predicate Valid()
      reads this, buffers, clients
    {
      WellFormed(q) && Links() && InHand()
    }

    constructor ()
      ensures Valid() && q == Queue([], [], [], map[], {}, map[], 0) && clients == []
    {
      sliced, free, tmpBuf, clients := null, null, null, [];
      q, buffers := Queue([], [], [], map[], {}, map[], 0), {};
    }

    lemma Pointer(c: Client)
      requires Valid() && c in clients
      ensures c in q.pos && PointsAt(c) && (c.sliced != null <==> q.pos[c] < |q.queue|)
      ensures c.sliced != null ==> c in q.eligible && c.sliced in buffers && c.sliced.refCount == |Holders(q, q.pos[c])|
      ensures c.sliced != null ==> c.sliced.next == if q.pos[c] + 1 < |q.queue| then Frame(q.pos[c] + 1) else null
      ensures c.sliced != null ==> (sliced == c.sliced <==> q.pos[c] == 0)
    {
      hide Holders, InOrder;
      if c.sliced != null {
        var i := q.pos[c];
        PendingEligible(q, c);
        DistinctFrames(q);
        Chain(i);
        assert Counted(i);
      }
    }

    /** The links along the queue. */
    lemma Chain(i: nat)
      requires Links() && i < |q.queue|
      ensures Frame(i) in buffers && Frame(i).next == if i + 1 < |q.queue| then Frame(i + 1) else null
      ensures sliced == Frame(0)
    {
      hide Holders;
      var bs := BuffersOf(q.queue);
      assert Frame(i) == bs[i] && Frame(0) == bs[0];
      assert LinkAt(bs, i, buffers);
      if i + 1 < |q.queue| { assert Frame(i + 1) == bs[i + 1]; }
    }

    /** The place of client c was i; now it is the next one. */
    ghost predicate MovedOn(was: Queue, c: Client)
      reads `q
    {
      c in was.pos && was.pos[c] < |was.queue| && q == was.(pos := was.pos[c := was.pos[c] + 1])
    }

    /** Only client c and its buffer have changed. */
    twostate predicate Untouched(c: Client)
      reads `buffers, `clients, buffers, clients
    {
      && unchanged(`buffers, `clients) && (forall b :: b in buffers && b != old(c.sliced) ==> unchanged(b))
      && (forall d :: d in clients && d != c ==> unchanged(d))
    }

    /** The references after client c is done with its buffer, which stays in the queue. */
    twostate lemma StaysCounts(c: Client)
      requires old(Counts()) && Positions(old(q)) && Distinct(All(old(q))) && MovedOn(old(q), c)
      requires Untouched(c) && old(c.sliced) == old(q).queue[old(q).pos[c]].buffer
      requires var p := old(c.sliced); p.refCount + 1 == old(p.refCount) && p.frame == old(p.frame)
      ensures Counts()
    {
      hide Holders, InOrder, Positions, All;
      ReleasedCounts(old(q), c);
      DistinctFrames(old(q));
      var at := old(q).pos[c];
      forall i | 0 <= i < |q.queue| ensures Counted(i) {
        assert old(Counted(i)) && Frame(i) == old(Frame(i)) && Frame(i) in buffers;
        assert |Holders(q, i)| == |Holders(old(q), i)| - if i == at then 1 else 0;
        if i != at {
          assert Frame(i) != old(c.sliced) && Frame(i).refCount == old(Frame(i).refCount);
        }
      }
    }

    twostate lemma StaysClients(c: Client)
      requires old(ClientLinks()) && MovedOn(old(q), c) && Untouched(c) && c.eligible == old(c.eligible)
      requires c.sliced == if old(q).pos[c] + 1 < |q.queue| then Frame(old(q).pos[c] + 1) else null
      ensures ClientLinks()
    {
      forall d | d in clients ensures d in q.pos && PointsAt(d) { assert old(PointsAt(d)); }
    }

    /** All links after client c is done with its buffer, which stays in the queue. */
    twostate lemma Stayed(c: Client)
      requires old(Links()) && Positions(old(q)) && Distinct(All(old(q))) && MovedOn(old(q), c) && Untouched(c)
      requires old(c.sliced) == old(q).queue[old(q).pos[c]].buffer && c.eligible == old(c.eligible)
      requires var p := old(c.sliced);
        p.refCount + 1 == old(p.refCount) && p.frame == old(p.frame) && p.next == old(p.next)
      requires c.sliced == if old(q).pos[c] + 1 < |q.queue| then Frame(old(q).pos[c] + 1) else null
      requires unchanged(`sliced, `free)
      ensures Links()
    {
      hide Holders, InOrder, Counts, ClientLinks, All, Positions;
      StaysCounts(c);
      StaysClients(c);
      var s, u := BuffersOf(q.queue), q.unused;
      forall i | 0 <= i < |s| ensures LinkAt(s, i, buffers) { assert old(LinkAt(s, i, buffers)); }
      forall i | 0 <= i < |u| ensures LinkAt(u, i, buffers) { assert old(LinkAt(u, i, buffers)); }
    }

    /** The buffer of client c was the first, and leaves the queue. */
    ghost predicate LastLeft(was: Queue, c: Client)
      reads `q
    {
      && c in was.pos && was.pos[c] < |was.queue|
      && Holders(was.(pos := was.pos[c := was.pos[c] + 1]), was.pos[c]) == {}
      && q == Release(was, c)
    }

    /** The references after client c is done with the first buffer, which leaves the queue. */
    twostate lemma LeavesCounts(c: Client)
      requires old(Counts()) && Positions(old(q)) && Distinct(All(old(q))) && LastLeft(old(q), c)
      requires Untouched(c) && old(c.sliced) == old(q).queue[0].buffer
      ensures Counts()
    {
      hide Holders, InOrder, Positions, All;
      DistinctFrames(old(q));
      ReleaseLeaves(old(q), c);
      LeftCounts(old(q), c);
      hide Release;
      forall k: nat | k < |q.queue| ensures Counted(k) {
        assert old(Counted(k + 1)) && Frame(k) == old(Frame(k + 1)) && Frame(k) in buffers;
        assert Frame(k) != old(c.sliced) && Frame(k).refCount == old(Frame(k + 1).refCount);
        assert |Holders(q, k)| == |Holders(old(q), k + 1)|;
      }
    }

    twostate lemma LeavesClients(c: Client)
      requires old(ClientLinks()) && Positions(old(q)) && LastLeft(old(q), c) && Untouched(c)
        && c.eligible == old(c.eligible)
      requires c.sliced == if |old(q).queue| > 1 then old(q).queue[1].buffer else null
      ensures ClientLinks()
    {
      hide Holders, InOrder;
      ReleaseLeaves(old(q), c);
      forall d | d in clients ensures d in q.pos && PointsAt(d) { assert old(PointsAt(d)); }
    }

    /** The first buffer of the queue becomes the first unused one. */
    twostate lemma LeavesLists(c: Client)
      requires old(Links()) && Distinct(All(old(q))) && Untouched(c) && |old(q).queue| > 0
      requires q.queue == old(q).queue[1..] && old(c.sliced) == old(q).queue[0].buffer
      requires q.unused == [old(q).queue[0].buffer] + old(q).unused
      requires var p := old(c.sliced); sliced == old(p.next) && free == p && p.next == old(free)
      ensures Linked(sliced, BuffersOf(q.queue), buffers) && Linked(free, q.unused, buffers)
    {
      hide Holders, InOrder, Counts, ClientLinks, All;
      FirstApart(old(q));
      var s, u, p := BuffersOf(old(q).queue), old(q).unused, old(c.sliced);
      var t, v := BuffersOf(q.queue), q.unused;
      assert old(LinkAt(s, 0, buffers));
      forall i | 0 <= i < |t| ensures LinkAt(t, i, buffers) {
        assert t[i] == s[i + 1] && old(LinkAt(s, i + 1, buffers));
      }
      forall i | 0 <= i < |v| ensures LinkAt(v, i, buffers) {
        if i > 0 { assert v[i] == u[i - 1] && old(LinkAt(u, i - 1, buffers)); }
      }
    }

    /** All links after client c is done with the first buffer, which leaves the queue. */
    twostate lemma Left(c: Client)
      requires old(Links()) && Positions(old(q)) && Distinct(All(old(q))) && LastLeft(old(q), c) && Untouched(c)
      requires old(c.sliced) == old(q).queue[0].buffer && c.eligible == old(c.eligible)
      requires c.sliced == if |old(q).queue| > 1 then old(q).queue[1].buffer else null
      requires var p := old(c.sliced); sliced == old(p.next) && free == p && p.next == old(free)
      ensures Links()
    {
      hide Holders, InOrder, Counts, ClientLinks, All, Positions, Linked;
      LeavesCounts(c);
      LeavesClients(c);
      ReleaseLeaves(old(q), c);
      LeavesLists(c);
    }

    lemma Parts()
      requires Valid()
      ensures WellFormed(q) && Positions(q) && Distinct(All(q)) && Links()
      ensures forall c :: c in clients ==> c in q.pos && PointsAt(c)
    {}

    /** Where client c and its buffer are, and the queue when the client is done with the buffer. */
    lemma ReleaseFacts(c: Client)
      requires Valid() && c in clients && c.sliced != null
      ensures c in q.pos && q.pos[c] < |q.queue| && Positions(q) && Distinct(All(q)) && Links()
      ensures var i, p := q.pos[c], c.sliced;
        p == Frame(i) && p in buffers && p.refCount > 0 && p.next == if i + 1 < |q.queue| then Frame(i + 1) else null
      ensures WellFormed(Release(q, c)) && Release(q, c).tmp == q.tmp
      ensures if c.sliced.refCount == 1 then q.pos[c] == 0 && sliced == c.sliced && LastLeftBy(c)
              else Release(q, c) == q.(pos := q.pos[c := q.pos[c] + 1])
    {
      hide Holders, All, WellFormed, Release, Positions;
      Pointer(c);
      Parts();
      var i := q.pos[c];
      PendingEligible(q, c);
      ReleaseHolders(q, c, i);
      IsHolder(q, c, i);
      DropKeeps(q, c);
      ReleaseSame(q, c);
      assert |Holders(q.(pos := q.pos[c := i + 1]), i)| == |Holders(q, i)| - 1;
      if c.sliced.refCount == 1 { ReleaseLeaves(q, c); } else { ReleaseStays(q, c); }
    }

    /** Nobody but client c has still to be sent its buffer. */
    ghost predicate LastLeftBy(c: Client)
      requires c in q.pos && q.pos[c] < |q.queue|
      reads `q
    {
      Holders(q.(pos := q.pos[c := q.pos[c] + 1]), q.pos[c]) == {}
    }

    /** vbi_proxy_queue_release_sliced. The assertion is that of the daemon: the last reference
        goes only from the first buffer. */
    method ReleaseSliced(c: Client)
      requires Valid() && c in clients && c.sliced != null
      modifies `sliced, `free, `q, buffers, c`sliced
      ensures c in old(q).pos && old(q).pos[c] < |old(q).queue| && Valid() && q == Release(old(q), c)
    {
      hide Holders, Links, All, WellFormed, Release, Positions, Distinct;
      ReleaseFacts(c);
      var p := c.sliced;
      c.sliced := p.next;
      if p.refCount > 0 {
        p.refCount := p.refCount - 1;
      }
      if p.refCount == 0 {
        assert sliced == p;
        sliced := p.next;
        p.next := free;
        free := p;
        q := Release(q, c);
        Left(c);
      } else {
        q := Release(q, c);
        Stayed(c);
      }
    }

    /** Only what has been received has changed. */
    twostate lemma LogOnly()
      requires old(Links()) && q == old(q).(log := q.log) && unchanged(`buffers, `clients, `sliced, `free)
      requires (forall b :: b in buffers ==> unchanged(b)) && forall c :: c in clients ==> unchanged(c)
      ensures Links()
    {
      hide InOrder, All;
      assert forall i: nat :: Holders(q, i) == Holders(old(q), i);
      forall i | 0 <= i < |q.queue| ensures Counted(i) { CountedStill(i); }
      forall c | c in clients ensures c in q.pos && PointsAt(c) { assert old(PointsAt(c)); }
      var s, u := BuffersOf(q.queue), q.unused;
      forall i | 0 <= i < |s| ensures LinkAt(s, i, buffers) { assert old(LinkAt(s, i, buffers)); }
      forall i | 0 <= i < |u| ensures LinkAt(u, i, buffers) { assert old(LinkAt(u, i, buffers)); }
    }

    /** A frame was sent to client c. */
    method SendSliced(c: Client) returns (frame: nat)
      requires Valid() && c in clients && c.sliced != null
      modifies `sliced, `free, `q, buffers, c`sliced
      ensures Valid() && c in old(q).pos && c in old(q).log && old(q).pos[c] < |old(q).queue|
      ensures q == Send(old(q), c) && frame == old(q).queue[old(q).pos[c]].frame
    {
      hide Holders, Links, All, WellFormed, Release, Positions, Pending;
      Pointer(c);
      Parts();
      SendFacts(q, c);
      CountedAt(q.pos[c]);
      frame := c.sliced.frame;
      ReleaseSliced(c);
      label released:
      q := q.(log := q.log[c := q.log[c] + [frame]]);
      LogOnly@released();
    }

    lemma CountedAt(i: nat)
      requires Links() && i < |q.queue|
      ensures Counted(i)
    {}

    /** vbi_proxy_queue_force_free. With an empty queue a client without frames would compare equal to
        its head. */
    method ForceFree()
      requires Valid() && sliced != null && !ForceFails(q, clients, {})
      modifies `sliced, `free, `q, buffers, clients
      ensures Valid() && q == ForceRelease(old(q), clients)
    {
      hide Holders, Links, All, WellFormed, Release, Positions, Pending, ForceRelease;
      ghost var was := q;
      ForceNone(q, clients);
      AllListed();
      for i := 0 to |clients|
        invariant Valid() && q == ForceRelease(was, clients[..i]) && forall c :: c in clients ==> c in was.pos
      {
        var c := clients[i];
        ForceNext(was, clients, i);
        HeadIs(c);
        if c.sliced == sliced {
          ReleaseSliced(c);
        }
      }
      assert clients[..|clients|] == clients;
    }

    lemma AllListed()
      requires Valid()
      ensures forall c :: c in clients ==> c in q.pos
    {}

    /** Whether a client holds the first buffer. */
    lemma HeadIs(c: Client)
      requires Valid() && c in clients && q.queue != []
      ensures c in q.pos && (c.sliced == sliced <==> q.pos[c] == 0) && sliced != null
    {
      hide Holders, InOrder;
      Pointer(c);
      Chain(0);
    }

    /** vbi_proxy_queue_get_free. */
    method GetFreeBuffer() returns (p: Buffer?)
      requires Valid() && tmpBuf == null
      modifies `free, `tmpBuf, `q, buffers
      ensures Valid() && q == GetFree(old(q)) && tmpBuf == p
      ensures p != null ==> p.refCount == 0 && p.next == null
    {
      hide Holders, Counts, ClientLinks, All, WellFormed, Positions, Linked;
      Parts();
      GetFreeKeeps(q);
      UnusedHead();
      p := free;
      if p != null {
        tmpBuf := p;
        free := p.next;
        p.next := null;
        p.refCount := 0;
        q := GetFree(q);
        Taken();
      }
    }

    lemma UnusedHead()
      requires Links()
      ensures free == if q.unused == [] then null else q.unused[0]
      ensures free != null ==> free in buffers && free.next == if |q.unused| > 1 then q.unused[1] else null
    {
      if q.unused != [] { assert LinkAt(q.unused, 0, buffers); }
    }

    /** The first unused buffer was taken. */
    twostate lemma Taken()
      requires old(Links()) && Distinct(All(old(q))) && old(q).unused != [] && q == GetFree(old(q))
      requires unchanged(`buffers, `clients, `sliced)
        && free == (if |old(q).unused| > 1 then old(q).unused[1] else null)
      requires (forall b :: b in buffers && b != old(q).unused[0] ==> unchanged(b))
        && forall c :: c in clients ==> unchanged(c)
      ensures Links()
    {
      hide InOrder, All;
      UnusedApart(old(q));
      assert forall i: nat :: Holders(q, i) == Holders(old(q), i);
      forall i | 0 <= i < |q.queue| ensures Counted(i) { CountedStill(i); }
      forall c | c in clients ensures c in q.pos && PointsAt(c) { assert old(PointsAt(c)); }
      var s, u := BuffersOf(q.queue), q.unused;
      forall i | 0 <= i < |s| ensures LinkAt(s, i, buffers) { assert old(LinkAt(s, i, buffers)); }
      forall i | 0 <= i < |u| ensures LinkAt(u, i, buffers) {
        assert u[i] == old(q).unused[i + 1] && old(LinkAt(q.unused, i + 1, buffers));
      }
    }

    /** A client gets a reference to the new frame, and points to it if it waits for data. */
    method Offer(c: Client, p: Buffer)
      modifies p`refCount, c`sliced
      ensures p.refCount == old(p.refCount) + if c.eligible then 1 else 0
      ensures c.sliced == if c.eligible && old(c.sliced) == null then p else old(c.sliced)
    {
      if c.eligible {
        p.refCount := p.refCount + 1;
        if c.sliced == null {
          c.sliced := p;
        }
      }
    }

    /** Every eligible client gets a reference to the new frame. */
    method Distribute(p: Buffer)
      requires p.refCount == 0 && Distinct(clients) && Among(q.eligible, clients) == q.eligible
      requires forall c :: c in clients ==> (c.eligible <==> c in q.eligible)
      modifies p`refCount, clients`sliced
      ensures p.refCount == |q.eligible|
      ensures forall c :: c in clients ==> c.sliced == if c.eligible && old(c.sliced) == null then p else old(c.sliced)
    {
      hide Among;
      AmongNone(q.eligible, clients);
      for i := 0 to |clients|
        invariant forall j :: i <= j < |clients| ==> clients[j].sliced == old(clients[j].sliced)
        invariant forall j :: 0 <= j < i ==>
          clients[j].sliced == if clients[j].eligible && old(clients[j].sliced) == null then p
            else old(clients[j].sliced)
        invariant p.refCount == |Among(q.eligible, clients[..i])|
      {
        AmongStep(q.eligible, clients, i);
        Offer(clients[i], p);
      }
      assert clients[..|clients|] == clients;
    }

    lemma Eligibles()
      requires Valid()
      ensures Distinct(clients) && Among(q.eligible, clients) == q.eligible
      ensures forall c :: c in clients ==> (c.eligible <==> c in q.eligible)
    {
      hide InOrder;
      assert forall c :: c in clients ==> PointsAt(c);
    }

    /** vbi_proxy_queue_add_tail, which walks to the end of the queue. */
    method AddTail(p: Buffer, ghost s: seq<Buffer>)
      requires Linked(sliced, s, buffers) && Distinct(s) && p !in s && p in buffers
      modifies `sliced, p`next, buffers`next
      ensures Linked(sliced, s + [p], buffers)
        && forall b :: b in buffers && b !in s && b != p ==> b.next == old(b.next)
    {
      ghost var t := s + [p];
      p.next := null;
      forall j | 0 <= j < |s| ensures LinkAt(s, j, buffers) { assert old(LinkAt(s, j, buffers)); }
      if sliced != null {
        assert sliced != p;
        var last := sliced;
        ghost var i := 0;
        assert LinkAt(s, 0, buffers);
        while last.next != null
          invariant 0 <= i < |s| && last == s[i] && forall j :: 0 <= j < |s| ==> LinkAt(s, j, buffers)
          decreases |s| - i
        {
          assert LinkAt(s, i, buffers);
          last := last.next;
          i := i + 1;
          assert LinkAt(s, i, buffers);
        }
        assert LinkAt(s, i, buffers);
        last.next := p;
        assert old(LinkAt(s, i, buffers)) && i == |s| - 1;
        forall j | 0 <= j < |t| ensures LinkAt(t, j, buffers) {
          if j < |s| - 1 { assert old(LinkAt(s, j, buffers)) && t[j + 1] == s[j + 1]; }
        }
      } else {
        assert s == [];
        sliced := p;
        assert LinkAt(t, 0, buffers);
      }
    }

    /** vbi_proxy_queue_add_free. */
    method AddFree(p: Buffer, ghost u: seq<Buffer>)
      requires Linked(free, u, buffers) && p !in u && p in buffers
      modifies `free, p`next
      ensures free == p && Linked(free, [p] + u, buffers)
    {
      p.next := free;
      free := p;
      ghost var v := [p] + u;
      forall j | 0 <= j < |v| ensures LinkAt(v, j, buffers) {
        if j > 0 { assert old(LinkAt(u, j - 1, buffers)) && v[j] == u[j - 1]; }
      }
    }

    /** The new frame is in the queue. */
    twostate lemma Appended()
      requires old(Links()) && WellFormed(old(q)) && old(q).tmp != [] && old(q).eligible != {} && q == Append(old(q))
      requires unchanged(`buffers, `clients, `free)
      requires Linked(sliced, BuffersOf(old(q).queue) + old(q).tmp, buffers) && Linked(free, q.unused, buffers)
      requires var p := old(q).tmp[0]; p in buffers && p.refCount == |q.eligible| && p.frame == old(q).captured
      requires forall b :: b in buffers && b != old(q).tmp[0] ==>
        b.refCount == old(b.refCount) && b.frame == old(b.frame)
      requires forall c :: c in clients ==> c.eligible == old(c.eligible)
      requires forall c :: c in clients ==>
        c.sliced == if c.eligible && old(c.sliced) == null then old(q).tmp[0] else old(c.sliced)
      ensures Links()
    {
      hide InOrder, All, Ordered;
      TmpApart(old(q));
      assert old(q).tmp == [old(q).tmp[0]];
      var n := |old(q).queue|;
      assert BuffersOf(q.queue) == BuffersOf(old(q).queue) + old(q).tmp;
      forall i | 0 <= i < |q.queue| ensures Counted(i) {
        AppendHolders(old(q), i);
        if i < n { assert old(Counted(i)) && Frame(i) == old(Frame(i)); }
      }
      forall c | c in clients ensures c in q.pos && PointsAt(c) { assert old(PointsAt(c)); }
    }

    /** A buffer in hand was put back. */
    twostate lemma PutFree()
      requires old(Links()) && WellFormed(old(q)) && old(q).tmp != []
      requires q == PutBack(old(q)) || (old(q).eligible == {} && q == Append(old(q)))
      requires unchanged(`buffers, `clients, `sliced) && Linked(free, q.unused, buffers)
      requires forall b :: b in buffers && b != old(q).tmp[0] ==> unchanged(b)
      requires forall c :: c in clients ==> unchanged(c)
      ensures Links()
    {
      hide InOrder, All, Ordered;
      TmpApart(old(q));
      assert forall i: nat :: Holders(q, i) == Holders(old(q), i);
      forall i | 0 <= i < |q.queue| ensures Counted(i) { CountedStill(i); }
      forall c | c in clients ensures c in q.pos && PointsAt(c) { assert old(PointsAt(c)); }
      var s := BuffersOf(q.queue);
      forall i | 0 <= i < |s| ensures LinkAt(s, i, buffers) { assert old(LinkAt(s, i, buffers)); }
    }

    /** vbi_proxyd_forward_data: a frame is captured, or not, and goes to every eligible client. When
        all buffers are in use the first of the queue is freed by force. */
    method ForwardData(r: ReadResult, frame: nat)
      requires Valid() && tmpBuf == null && frame == q.captured
      requires free == null && sliced != null ==> !ForceFails(q, clients, {})
      modifies `sliced, `free, `tmpBuf, `q, buffers, clients
      ensures Valid() && tmpBuf == null && q == Forward(old(q), clients, r)
    {
      hide Holders, Links, All, WellFormed, Positions, Release, ForceRelease, Append, ForceFails;
      Empty();
      var p := GetFreeBuffer();
      if p == null && sliced != null {
        ForceSame(q, clients);
        ForceFree();
        Empty();
        p := GetFreeBuffer();
      }
      Empty();
      if p == null {
        return;
      }
      Deliver(p, r, frame);
    }

    /** Whether there are queued and unused buffers. */
    lemma Empty()
      requires Valid()
      ensures (sliced == null <==> q.queue == []) && (free == null <==> q.unused == [])
        && (tmpBuf == null <==> q.tmp == [])
    {
      hide Holders, InOrder;
    }

    /** The second half of vbi_proxyd_forward_data. */
    method Deliver(p: Buffer, r: ReadResult, frame: nat)
      requires Valid() && tmpBuf == p && p.refCount == 0 && frame == q.captured
      modifies `sliced, `free, `tmpBuf, `q, buffers, clients
      ensures Valid() && tmpBuf == null
      ensures old(q).tmp != [] && q == if r.Data? then Append(old(q)) else PutBack(old(q))
    {
      hide Holders, All, WellFormed, Positions, Links, InHand;
      DeliverFacts();
      if r.Data? {
        p.frame := frame;
        Distribute(p);
      }
      tmpBuf := null;
      LinkedKept();
      if p.refCount > 0 {
        Enqueue(p);
        Appended();
      } else {
        AddFree(p, q.unused);
        q := if r.Data? then Append(q) else PutBack(q);
        PutFree();
      }
      HandEmpty();
    }

    lemma DeliverFacts()
      requires Valid() && tmpBuf != null
      ensures Links() && WellFormed(q) && q.tmp == [tmpBuf] && tmpBuf in buffers && tmpBuf !in q.unused
        && Distinct(All(q))
      ensures Distinct(clients) && Among(q.eligible, clients) == q.eligible
      ensures forall c :: c in clients ==> (c.eligible <==> c in q.eligible)
      ensures WellFormed(Append(q)) && WellFormed(PutBack(q)) && Append(q).tmp == [] && PutBack(q).tmp == []
      ensures q.eligible == {} ==> Append(q).unused == q.tmp + q.unused
      ensures q.eligible != {} ==> Append(q).unused == q.unused && Append(q).queue[..|q.queue|] == q.queue
    {
      hide Holders, InOrder;
      Parts();
      TmpApart(q);
      Eligibles();
      AppendKeeps(q);
      AppendBuffers(q);
      PutBackKeeps(q);
    }

    lemma HandEmpty()
      requires q.tmp == [] && tmpBuf == null
      ensures InHand()
    {}

    /** The buffer in hand goes to the end of the queue. */
    method Enqueue(p: Buffer)
      requires Distinct(All(q)) && q.tmp == [p] && q.eligible != {} && p in buffers
      requires Linked(sliced, BuffersOf(q.queue), buffers) && Linked(free, q.unused, buffers)
      modifies `sliced, `q, p`next, buffers`next
      ensures q == Append(old(q)) && free == old(free)
      ensures Linked(sliced, BuffersOf(old(q).queue) + [p], buffers) && Linked(free, q.unused, buffers)
    {
      hide All;
      TmpApart(q);
      AddTail(p, BuffersOf(q.queue));
      forall i | 0 <= i < |q.unused| ensures LinkAt(q.unused, i, buffers) {
        assert old(LinkAt(q.unused, i, buffers)) && q.unused[i] in q.unused;
      }
      q := Append(q);
    }

    /** The lists depend only on their links. */
    twostate lemma LinkedKept()
      requires old(Links()) && unchanged(`buffers, `free, `sliced, `q)
        && forall b :: b in buffers ==> b.next == old(b.next)
      ensures Linked(sliced, BuffersOf(q.queue), buffers) && Linked(free, q.unused, buffers)
    {
      var s, u := BuffersOf(q.queue), q.unused;
      forall i | 0 <= i < |s| ensures LinkAt(s, i, buffers) { assert old(LinkAt(s, i, buffers)); }
      forall i | 0 <= i < |u| ensures LinkAt(u, i, buffers) { assert old(LinkAt(u, i, buffers)); }
    }

    // ---- Clients come and go --------------------------------------------------------------------

    /** All frames of a client are dropped, before it is closed or its services change. */
    method Flush(c: Client)
      requires Valid() && c in clients
      modifies `sliced, `free, `q, buffers, c`sliced
      ensures Valid() && c.sliced == null && c in q.pos && WellFormed(old(q)) && q == Flushed(old(q), c)
    {
      hide Holders, Links, All, WellFormed, Positions, Release, Pending, Flushed;
      Parts();
      Pointer(c);
      while c.sliced != null
        invariant Valid() && c in q.pos && WellFormed(q) && WellFormed(old(q))
          && (c.sliced != null <==> q.pos[c] < |q.queue|)
        invariant Flushed(q, c) == Flushed(old(q), c)
        decreases |q.queue| - q.pos[c]
      {
        Parts();
        ReleaseNearer(q, c);
        FlushedOnce(q, c);
        ReleaseSliced(c);
        Parts();
        Pointer(c);
      }
      FlushedOnce(q, c);
    }

    /** A client which has no frames pending becomes eligible for data, or is no longer: it was connected,
        its services were changed, or it was closed. */
    method SetEligible(c: Client, eligible: bool)
      requires Valid() && c in clients && c.sliced == null
      modifies `q, c`eligible
      ensures Valid() && c.sliced == null && q == Eligible(old(q), c, eligible)
    {
      hide Holders, InOrder, All, Ordered;
      Pointer(c);
      c.eligible := eligible;
      ghost var was := q;
      q := Eligible(q, c, eligible);
      OtherEligible(was, q, c);
      Recounted(c);
    }

    /** The eligibility of a client without frames does not matter for the queue. */
    twostate lemma Recounted(c: Client)
      requires old(Links()) && c in clients && unchanged(`buffers, `clients, `sliced, `free)
      requires (forall b :: b in buffers ==> unchanged(b)) && (forall d :: d in clients && d != c ==> unchanged(d))
      requires c in old(q).pos && old(q).pos[c] == |old(q).queue| && c.sliced == old(c.sliced)
      requires q == old(q).(eligible := q.eligible) && q.eligible - {c} == old(q).eligible - {c}
        && (c.eligible <==> c in q.eligible)
      requires forall i: nat :: i < |q.queue| ==> Holders(q, i) == Holders(old(q), i)
      ensures Links()
    {
      hide InOrder, All, Holders;
      forall i | 0 <= i < |q.queue| ensures Counted(i) { CountedStill(i); }
      forall d | d in clients ensures d in q.pos ensures PointsAt(d) {
        assert old(PointsAt(d));
        if d != c {
          assert d in q.eligible - {c} <==> d in old(q).eligible - {c};
        }
      }
      var s, u := BuffersOf(q.queue), q.unused;
      forall i | 0 <= i < |s| ensures LinkAt(s, i, buffers) { assert old(LinkAt(s, i, buffers)); }
      forall i | 0 <= i < |u| ensures LinkAt(u, i, buffers) { assert old(LinkAt(u, i, buffers)); }
    }

    /** vbi_proxyd_close. */
    method Close(c: Client)
      requires Valid() && c in clients
      modifies `sliced, `free, `q, buffers, c
      ensures Valid() && c.sliced == null && !c.eligible && c in old(q).pos && WellFormed(old(q))
      ensures q == Eligible(Flushed(old(q), c), c, false)
    {
      hide Holders, Links, All, WellFormed, Positions, Release, Pending, Flushed;
      Pointer(c);
      Flush(c);
      SetEligible(c, false);
      Pointer(c);
    }

    /** A client joins the list. */
    method AddClient() returns (c: Client)
      requires Valid()
      modifies `clients, `q
      ensures Valid() && fresh(c) && clients == old(clients) + [c]
      ensures q == Joined(old(q), c)
    {
      hide Holders, InOrder, All, Ordered;
      c := new Client();
      ghost var was := q;
      clients := clients + [c];
      q := Joined(q, c);
      JoinKeeps(was, c);
      JoinedLinks(c);
    }

    twostate lemma JoinedLinks(new c: Client)
      requires old(Links()) && c !in old(clients) && clients == old(clients) + [c]
        && unchanged(`buffers, `sliced, `free)
      requires (forall b :: b in buffers ==> unchanged(b)) && (forall d :: d in old(clients) ==> unchanged(d))
      requires c !in old(q).pos && c.sliced == null && !c.eligible && c !in old(q).eligible
      requires q == old(q).(pos := old(q).pos[c := |old(q).queue|], log := q.log)
      requires forall i: nat :: i < |q.queue| ==> Holders(q, i) == Holders(old(q), i)
      ensures Links()
    {
      hide InOrder, All, Holders;
      forall i | 0 <= i < |q.queue| ensures Counted(i) { CountedStill(i); }
      forall d | d in clients ensures d in q.pos ensures PointsAt(d) {
        if d == c {
          assert q.pos[c] == |q.queue|;
        } else {
          assert d in old(clients) && old(PointsAt(d));
          assert q.pos[d] == old(q).pos[d] && d.sliced == old(d.sliced) && d.eligible == old(d.eligible);
        }
      }
      var s, u := BuffersOf(q.queue), q.unused;
      forall i | 0 <= i < |s| ensures LinkAt(s, i, buffers) { assert old(LinkAt(s, i, buffers)); }
      forall i | 0 <= i < |u| ensures LinkAt(u, i, buffers) { assert old(LinkAt(u, i, buffers)); }
    }

    /** One more buffer of vbi_proxy_queue_allocate. */
    method AddBuffer() returns (p: Buffer)
      requires Valid()
      modifies `free, `q, `buffers
      ensures Valid() && fresh(p) && q == old(q).(unused := [p] + old(q).unused) && buffers == old(buffers) + {p}
    {
      hide Holders, InOrder, All, Ordered;
      p := new Buffer();
      ghost var was := q;
      AllBuffers();
      NewBuffer(q, p);
      p.next := free;
      free := p;
      buffers := buffers + {p};
      q := q.(unused := [p] + q.unused);
      Allocated(p);
    }

    /** vbi_proxy_queue_free_all, for the unused buffers. */
    method FreeUnused()
      requires Valid()
      modifies `free, `q, `buffers
      ensures Valid() && q == old(q).(unused := []) && buffers == old(buffers) - (set b | b in old(q).unused)
    {
      hide Holders, WellFormed, All, Links, InHand;
      Parts();
      ghost var s, k := q.unused, 0;
      FreeLinks();
      while free != null
        invariant k <= |s| && Linked(free, s[k..], buffers) && q == old(q) && buffers == old(buffers)
        decreases |s| - k
      {
        assert LinkAt(s[k..], 0, buffers) && s[k..][0] == s[k];
        var next := free.next;
        LinkedRest(free, s[k..], buffers);
        assert s[k..][1..] == s[k + 1..];
        free := next;
        k := k + 1;
      }
      FewerKeeps(q);
      buffers := buffers - (set b | b in s);
      q := q.(unused := []);
      Freed();
    }

    lemma FreeLinks()
      requires Links()
      ensures Linked(sliced, BuffersOf(q.queue), buffers) && Linked(free, q.unused, buffers)
    {
      hide Counted;
    }

    /** The buffers which were freed were not in use. */
    twostate lemma Freed()
      requires old(Valid()) && q == old(q).(unused := []) && free == null && unchanged(`clients, `sliced, `tmpBuf)
      requires buffers == old(buffers) - (set b | b in old(q).unused) && WellFormed(q)
      requires (forall b :: b in old(buffers) ==> unchanged(b)) && forall c :: c in clients ==> unchanged(c)
      ensures Valid()
    {
      hide InOrder, Ordered, Holders, Distinct, All, Counts, ClientLinks;
      StillInUse();
      FreedCounts();
      FreedClients();
      var s := BuffersOf(q.queue);
      assert s == BuffersOf(old(q).queue);
      forall i | 0 <= i < |s| ensures LinkAt(s, i, buffers) { assert old(LinkAt(s, i, buffers)) && s[i] in s; }
    }

    /** Queued buffers, and the one in hand, are not among those which were freed. */
    twostate lemma StillInUse()
      requires old(Valid()) && q == old(q).(unused := []) && buffers == old(buffers) - (set b | b in old(q).unused)
      ensures forall b :: b in BuffersOf(old(q).queue) && b in old(buffers) ==> b in buffers
      ensures forall b :: b in old(q).tmp && b in old(buffers) ==> b in buffers
    {
      hide InOrder, Ordered, Holders, Links;
      QueueNotFree(old(q));
      if old(q).tmp != [] { TmpApart(old(q)); }
    }

    twostate lemma FreedCounts()
      requires old(Counts()) && q == old(q).(unused := []) && buffers <= old(buffers)
      requires forall b :: b in BuffersOf(old(q).queue) && b in old(buffers) ==> b in buffers
      requires forall b :: b in old(buffers) ==> unchanged(b)
      ensures Counts()
    {
      assert forall i: nat :: Holders(q, i) == Holders(old(q), i);
      hide Holders;
      var s := BuffersOf(old(q).queue);
      forall i | 0 <= i < |q.queue| ensures Counted(i) {
        assert old(Counted(i)) && Frame(i) == s[i] && s[i] in s;
      }
    }

    twostate lemma FreedClients()
      requires old(ClientLinks()) && q == old(q).(unused := []) && unchanged(`clients)
      requires forall c :: c in clients ==> unchanged(c)
      ensures ClientLinks()
    {
      forall c | c in clients ensures c in q.pos && PointsAt(c) { assert old(PointsAt(c)); }
    }

    /** vbi_proxy_queue_allocate: requested has the number of buffers each client wants, and memory
        says for how many buffers there is memory. Queued frames are never touched. */
    method Allocate(minimum: nat, requested: seq<nat>, memory: nat) returns (enough: bool)
      requires Valid() && |requested| == |clients|
      modifies `free, `q, `buffers
      ensures Valid() && q == old(q).(unused := q.unused)
      ensures var wanted, n := Largest(minimum, requested) + |requested|, |old(q).queue| + |old(q).unused|;
        var kept := if n > wanted then [] else old(q).unused;
        var have, added := |old(q).queue| + |kept|, |q.unused| - |kept|;
        && added == (if wanted <= have then 0 else Min(wanted - have, memory))
        && q.unused[added..] == kept && (forall i :: 0 <= i < added ==> fresh(q.unused[i]))
        && (enough <==> have + added >= minimum + |clients|)
    {
      hide Valid, Largest, Linked, WellFormed, Positions, Links, Distinct, All;
      Parts();
      FreeLinks();
      var count := CountNeeded(minimum, requested);
      var used := Length(sliced, BuffersOf(q.queue));
      var unused := Length(free, q.unused);
      if unused + used > count {
        FreeUnused();
        unused := 0;
      }
      var added := Refill(unused + used, count, memory);
      enough := unused + used + added >= minimum + |clients|;
    }

    /** New buffers until there are count, or there is no more memory. */
    method Refill(have: nat, count: nat, memory: nat) returns (added: nat)
      requires Valid()
      modifies `free, `q, `buffers
      ensures Valid() && added == if count <= have then 0 else Min(count - have, memory)
      ensures q == old(q).(unused := q.unused) && |q.unused| == added + |old(q).unused|
      ensures q.unused[added..] == old(q).unused && forall i :: 0 <= i < added ==> fresh(q.unused[i])
    {
      hide Valid;
      added := 0;
      while have + added < count && added < memory
        invariant Valid() && added <= memory && (added == 0 || have + added <= count)
        invariant q == old(q).(unused := q.unused) && |q.unused| == added + |old(q).unused|
        invariant q.unused[added..] == old(q).unused && forall i :: 0 <= i < added ==> fresh(q.unused[i])
      {
        ghost var u := q.unused;
        var p := AddBuffer();
        added := added + 1;
        assert ([p] + u)[added..] == u[added - 1..];
        assert forall i :: 0 < i < |u| + 1 ==> ([p] + u)[i] == u[i - 1];
      }
    }

    /** The number of buffers for all clients: the largest request and a spare one for each. */
    method CountNeeded(minimum: nat, requested: seq<nat>) returns (count: nat)
      requires |requested| == |clients|
      ensures count == Largest(minimum, requested) + |clients|
    {
      count := minimum;
      for i := 0 to |clients|
        invariant count == Largest(minimum, requested[..i])
      {
        LargestStep(minimum, requested, i);
        if count < requested[i] {
          count := requested[i];
        }
      }
      assert requested[..|clients|] == requested;
      count := count + |clients|;
    }

    method Length(h: Buffer?, ghost s: seq<Buffer>) returns (n: nat)
      requires Linked(h, s, buffers)
      ensures n == |s|
    {
      var p := h;
      n := 0;
      assert s[0..] == s;
      while p != null
        invariant n <= |s| && Linked(p, s[n..], buffers)
        decreases |s| - n
      {
        LinkedRest(p, s[n..], buffers);
        assert s[n..][1..] == s[n + 1..];
        p := p.next;
        n := n + 1;
      }
    }

    lemma AllBuffers()
      requires Valid()
      ensures forall b :: b in All(q) ==> b in buffers
    {
      hide Holders, InOrder;
      var s, u := BuffersOf(q.queue), q.unused;
      forall b | b in All(q) ensures b in buffers {
        if b in s {
          var i :| 0 <= i < |s| && s[i] == b;
          assert LinkAt(s, i, buffers);
        } else if b in u {
          var i :| 0 <= i < |u| && u[i] == b;
          assert LinkAt(u, i, buffers);
        }
      }
    }

    twostate lemma Allocated(new p: Buffer)
      requires old(Links()) && p !in old(buffers) && buffers == old(buffers) + {p} && unchanged(`clients, `sliced)
      requires (forall b :: b in old(buffers) ==> unchanged(b)) && (forall d :: d in clients ==> unchanged(d))
      requires q == old(q).(unused := [p] + old(q).unused) && p.next == old(free) && free == p
      ensures Links()
    {
      hide InOrder, All;
      assert forall i: nat :: Holders(q, i) == Holders(old(q), i);
      forall i | 0 <= i < |q.queue| ensures Counted(i) { CountedStill(i); }
      forall d | d in clients ensures d in q.pos ensures PointsAt(d) { assert old(PointsAt(d)); }
      var s, u, v := BuffersOf(q.queue), old(q).unused, q.unused;
      forall i | 0 <= i < |s| ensures LinkAt(s, i, buffers) { assert old(LinkAt(s, i, buffers)); }
      forall i | 0 <= i < |v| ensures LinkAt(v, i, buffers) {
        if i > 0 { assert v[i] == u[i - 1] && old(LinkAt(u, i - 1, buffers)); }
      }
    }

    // ---- The end of acquisition -----------------------------------------------------------------

    /** The loop of vbi_proxy_queue_release_all over the queue. */
    method FreeAll(ghost s: seq<Buffer>, ghost u: seq<Buffer>)
      requires Linked(sliced, s, buffers) && Linked(free, u, buffers) && Distinct(s) && forall b :: b in s ==> b !in u
      modifies `sliced, `free, buffers`next
      ensures sliced == null && Linked(free, Reversed(s) + u, buffers)
    {
      ghost var k := 0;
      assert s[0..] == s && Reversed(s[..0]) + u == u;
      while sliced != null
        invariant k <= |s| && Linked(sliced, s[k..], buffers) && Linked(free, Reversed(s[..k]) + u, buffers)
        decreases |s| - k
      {
        assert LinkAt(s[k..], 0, buffers) && s[k..][0] == s[k];
        NotYetFree(s, u, k);
        MoveFirst(s[k..], Reversed(s[..k]) + u);
        assert s[k..][1..] == s[k + 1..];
        assert s[..k + 1] == s[..k] + [s[k]];
        assert [s[k]] + (Reversed(s[..k]) + u) == Reversed(s[..k + 1]) + u;
        k := k + 1;
      }
      assert s[..k] == s;
    }

    method MoveFirst(ghost s: seq<Buffer>, ghost u: seq<Buffer>)
      requires sliced != null && Linked(sliced, s, buffers) && Linked(free, u, buffers) && Distinct(s) && s != []
        && s[0] !in u
      modifies `sliced, `free, buffers`next
      ensures Linked(sliced, s[1..], buffers) && Linked(free, [s[0]] + u, buffers)
    {
      assert LinkAt(s, 0, buffers);
      ghost var t := s[1..];
      var next := sliced.next;
      AddFree(sliced, u);
      sliced := next;
      forall i | 0 <= i < |t| ensures LinkAt(t, i, buffers) {
        assert t[i] == s[i + 1] && old(LinkAt(s, i + 1, buffers));
      }
    }

    method DetachClients()
      modifies clients`sliced
      ensures forall c :: c in clients ==> c.sliced == null
    {
      for i := 0 to |clients|
        invariant forall j :: 0 <= j < i ==> clients[j].sliced == null
      {
        clients[i].sliced := null;
      }
    }

    /** vbi_proxy_queue_release_all. */
    method ReleaseAll()
      requires Valid()
      modifies `sliced, `free, `q, buffers`next, clients`sliced
      ensures Valid() && q == Cleared(old(q))
    {
      hide Holders, WellFormed, All, Links, InOrder, Linked, Positions, Distinct, Reversed;
      Parts();
      Eligibles();
      ClearKeeps(q);
      QueueNotFree(q);
      UnlinkedQueue();
      FreeAll(BuffersOf(q.queue), q.unused);
      DetachClients();
      q := Cleared(q);
      Detached();
    }

    lemma UnlinkedQueue()
      requires Valid()
      ensures Linked(sliced, BuffersOf(q.queue), buffers) && Linked(free, q.unused, buffers)
      ensures forall c :: c in q.pos ==> c in clients
    {}

    lemma Detached()
      requires q.queue == [] && sliced == null && Linked(free, q.unused, buffers)
      requires Distinct(clients) && (forall c :: c in q.pos ==> c in clients)
      requires forall c :: c in clients ==> c in q.pos && c.sliced == null && (c.eligible <==> c in q.eligible)
      ensures Links()
    {}
  }

  /** A client which has nothing pending joins. */
  lemma JoinKeeps(q: Queue, c: Client)
    requires WellFormed(q) && c !in q.pos
    ensures WellFormed(Joined(q, c)) && c !in q.eligible
    ensures forall i: nat :: i < |q.queue| ==> Holders(Joined(q, c), i) == Holders(q, i)
    ensures forall d :: d in Joined(q, c).pos ==> Pending(Joined(q, c), d) == if d == c then [] else Pending(q, d)
  {
    hide Distinct, All, Ordered, Pending, Holders, Positions, Joined;
    JoinPositions(q, c);
    var t := Joined(q, c);
    forall d | d in t.pos
      ensures Pending(t, d) == if d == c then [] else Pending(q, d)
      ensures Ordered(t.log[d] + Pending(t, d), t.captured)
    {
      JoinPending(q, c, d);
      if d == c { NothingOrdered(t.captured); }
    }
    SameParts(q, t);
  }

  lemma NothingOrdered(n: nat)
    ensures Ordered([] + [], n)
  {}

  lemma JoinPositions(q: Queue, c: Client)
    requires Positions(q) && c !in q.pos
    ensures var t := Joined(q, c);
      && Positions(t) && c !in q.eligible && t.queue == q.queue && t.unused == q.unused && t.tmp == q.tmp
      && t.captured == q.captured
      && (forall i: nat :: i < |q.queue| ==> Holders(t, i) == Holders(q, i))
      && (forall d :: d in t.pos ==> t.pos[d] <= |t.queue|)
      && (forall d :: d in t.pos && d != c ==> d in q.pos && q.pos[d] <= |q.queue|)
  {
    var t := Joined(q, c);
    forall i: nat | i < |q.queue| ensures Holders(t, i) == Holders(q, i) {}
  }

  lemma JoinPending(q: Queue, c: Client, d: Client)
    requires Positions(q) && Positions(Joined(q, c)) && c !in q.pos && d in Joined(q, c).pos
    ensures Pending(Joined(q, c), d) == if d == c then [] else Pending(q, d)
    ensures Joined(q, c).log[d] == if d == c then [] else q.log[d]
  {
    hide Holders;
  }

  lemma SameParts(q: Queue, t: Queue)
    requires t.queue == q.queue && t.unused == q.unused && t.tmp == q.tmp
    ensures All(t) == All(q)
  {
    var a, b := BuffersOf(q.queue), BuffersOf(t.queue);
    assert forall i :: 0 <= i < |a| ==> b[i] == a[i];
    assert a == b && a + q.unused == b + t.unused;
    assert (a + q.unused) + q.tmp == (b + t.unused) + t.tmp;
  }

  lemma NewBuffer(q: Queue, p: Buffer)
    requires WellFormed(q) && p !in All(q)
    ensures WellFormed(q.(unused := [p] + q.unused))
  {
    hide Holders, InOrder;
    var t := q.(unused := [p] + q.unused);
    SameQueue(q, t);
    var r, n := BuffersOf(q.queue), |q.queue|;
    assert All(q) == r + (q.unused + q.tmp) && All(t) == r + [p] + (q.unused + q.tmp);
    assert forall i :: 0 <= i < |All(q)| ==> All(q)[i] in All(q);
    forall i, j | 0 <= i < j < |All(t)| ensures All(t)[i] != All(t)[j] {
      assert i != n ==> All(t)[i] == All(q)[if i < n then i else i - 1];
      assert j != n ==> All(t)[j] == All(q)[if j < n then j else j - 1];
    }
  }

  lemma LinkedRest(h: Buffer?, s: seq<Buffer>, bs: set<Buffer>)
    requires Linked(h, s, bs) && h != null
    ensures s != [] && h == s[0] && h in bs && Linked(h.next, s[1..], bs)
  {
    assert LinkAt(s, 0, bs);
    forall i | 0 <= i < |s| - 1 ensures LinkAt(s[1..], i, bs) { assert LinkAt(s, i + 1, bs); }
  }

  lemma FewerKeeps(q: Queue)
    requires WellFormed(q)
    ensures WellFormed(q.(unused := []))
  {
    hide Holders, InOrder;
    var t := q.(unused := []);
    SameQueue(q, t);
    var n, m := |q.queue|, |q.unused|;
    assert All(t) == BuffersOf(q.queue) + q.tmp;
    forall i, j | 0 <= i < j < |All(t)| ensures All(t)[i] != All(t)[j] {
      assert All(t)[i] == All(q)[if i < n then i else i + m] && All(t)[j] == All(q)[if j < n then j else j + m];
    }
  }

  function Largest(least: nat, requested: seq<nat>): nat {
    if requested == [] then least
    else
      var n, r := Largest(least, requested[..|requested| - 1]), requested[|requested| - 1];
      if n < r then r else n
  }

  lemma LargestStep(least: nat, requested: seq<nat>, i: nat)
    requires i < |requested|
    ensures var n := Largest(least, requested[..i]);
      Largest(least, requested[..i + 1]) == if n < requested[i] then requested[i] else n
  {
    assert requested[..i + 1][..i] == requested[..i];
  }

  /** The largest request, or the minimum. */
  lemma {:induction false} LargestIs(least: nat, requested: seq<nat>)
    ensures Largest(least, requested) >= least && forall n :: n in requested ==> n <= Largest(least, requested)
    ensures Largest(least, requested) == least || Largest(least, requested) in requested
  {
    if requested != [] {
      LargestIs(least, requested[..|requested| - 1]);
      assert requested == requested[..|requested| - 1] + [requested[|requested| - 1]];
    }
  }

  function Reversed(s: seq<Buffer>): seq<Buffer> {
    if s == [] then [] else [s[|s| - 1]] + Reversed(s[..|s| - 1])
  }

  lemma {:induction false} ReversedIs(s: seq<Buffer>)
    ensures multiset(Reversed(s)) == multiset(s) && |Reversed(s)| == |s|
    ensures forall b :: b in Reversed(s) ==> b in s
  {
    if s != [] {
      ReversedIs(s[..|s| - 1]);
      assert s == s[..|s| - 1] + [s[|s| - 1]];
    }
  }

  /** Acquisition ends: all queued buffers are unused, and no client has frames pending. */
  function Cleared(q: Queue): Queue {
    q.(queue := [], unused := Reversed(BuffersOf(q.queue)) + q.unused, pos := map c | c in q.pos :: 0)
  }

  lemma {:induction false} Once(a: seq<Buffer>, x: Buffer)
    requires Distinct(a)
    ensures multiset(a)[x] <= 1
  {
    if a != [] {
      var front, last := a[..|a| - 1], a[|a| - 1];
      Once(front, x);
      assert a == front + [last];
    }
  }

  lemma DistinctMultiset(a: seq<Buffer>, b: seq<Buffer>)
    requires Distinct(a) && multiset(a) == multiset(b)
    ensures Distinct(b)
  {
    forall i, j | 0 <= i < j < |b| ensures b[i] != b[j] {
      Once(a, b[j]);
      if b[i] == b[j] { Twice(b, i, j); }
    }
  }

  lemma Twice(b: seq<Buffer>, i: nat, j: nat)
    requires i < j < |b| && b[i] == b[j]
    ensures multiset(b)[b[j]] >= 2
  {
    var x := b[j];
    assert b == b[..j] + b[j..] && b[j..][0] == x && b[..j][i] == x;
    assert x in multiset(b[..j]) && x in multiset(b[j..]);
  }

  lemma ClearKeeps(q: Queue)
    requires WellFormed(q)
    ensures WellFormed(Cleared(q)) && multiset(All(Cleared(q))) == multiset(All(q))
    ensures forall c :: c in q.pos ==> Pending(Cleared(q), c) == []
  {
    hide Holders, Ordered;
    var t, bs := Cleared(q), BuffersOf(q.queue);
    ReversedIs(bs);
    assert BuffersOf(t.queue) == [];
    assert All(t) == Reversed(bs) + (q.unused + q.tmp) && All(q) == bs + (q.unused + q.tmp);
    DistinctMultiset(All(q), All(t));
    forall c | c in t.pos ensures Ordered(t.log[c] + Pending(t, c), t.captured) {
      assert Pending(t, c) == [] && t.log[c] + [] == q.log[c];
      Prefix(q.log[c], Pending(q, c), q.captured);
    }
  }

  lemma Prefix(a: seq<nat>, b: seq<nat>, n: nat)
    requires Ordered(a + b, n)
    ensures Ordered(a, n)
  {
    assert forall i :: 0 <= i < |a| ==> (a + b)[i] == a[i];
    forall f | f in a ensures f < n { assert f in a + b; }
  }

  lemma QueueNotFree(q: Queue)
    requires Distinct(All(q))
    ensures Distinct(BuffersOf(q.queue)) && forall b :: b in BuffersOf(q.queue) ==> b !in q.unused
  {
    var bs, n := BuffersOf(q.queue), |q.queue|;
    assert forall i :: 0 <= i < n ==> All(q)[i] == bs[i];
    assert forall i :: 0 <= i < |q.unused| ==> All(q)[n + i] == q.unused[i];
  }

  lemma NotYetFree(s: seq<Buffer>, u: seq<Buffer>, k: nat)
    requires Distinct(s) && (forall b :: b in s ==> b !in u) && k < |s|
    ensures Distinct(s[k..]) && s[k] !in Reversed(s[..k]) + u
  {
    ReversedIs(s[..k]);
    assert s[k] !in s[..k];
  }

  lemma OtherEligible(q: Queue, t: Queue, c: Client)
    requires WellFormed(q) && c in q.pos && q.pos[c] == |q.queue|
    requires t == q.(eligible := t.eligible) && t.eligible - {c} == q.eligible - {c}
    ensures WellFormed(t) && forall i: nat :: i < |q.queue| ==> Holders(t, i) == Holders(q, i)
  {
    hide Ordered, Distinct, All;
    forall i: nat | i < |q.queue| ensures Holders(t, i) == Holders(q, i) {
      forall d ensures d in Holders(t, i) <==> d in Holders(q, i) {
        assert d != c ==> (d in t.eligible - {c} <==> d in t.eligible);
        assert d != c ==> (d in q.eligible - {c} <==> d in q.eligible);
      }
    }
    forall d | d in t.pos && d !in t.eligible ensures t.pos[d] == |t.queue| {
      assert d != c ==> (d in q.eligible - {c} <==> d in q.eligible);
    }
    forall d | d in t.eligible ensures d in t.pos { assert d != c ==> d in q.eligible - {c}; }
    forall d | d in t.pos ensures Ordered(t.log[d] + Pending(t, d), t.captured) {
      assert Ordered(q.log[d] + Pending(q, d), q.captured);
      assert t.log[d] + Pending(t, d) == q.log[d] + Pending(q, d);
    }
    assert All(t) == All(q) by { SameParts(q, t); }
  }

  lemma ForceSame(q: Queue, cs: seq<Client>)
    requires WellFormed(q)
    ensures ForceRelease(q, cs).captured == q.captured && ForceRelease(q, cs).tmp == q.tmp
  {
    hide WellFormed, ForceRelease;
    ForceKeeps(q, cs);
  }

  /** Those of the clients cs which are in e. */
  ghost function Among(e: set<Client>, cs: seq<Client>): set<Client> {
    set c | c in cs && c in e
  }

  lemma AmongNone(e: set<Client>, cs: seq<Client>)
    ensures |Among(e, cs[..0])| == 0
  {
    assert Among(e, cs[..0]) == {};
  }

  lemma AmongStep(e: set<Client>, cs: seq<Client>, i: nat)
    requires i < |cs| && Distinct(cs)
    ensures |Among(e, cs[..i + 1])| == |Among(e, cs[..i])| + if cs[i] in e then 1 else 0
  {
    var a, b := Among(e, cs[..i]), Among(e, cs[..i + 1]);
    NotBefore(cs, i);
    if cs[i] in e {
      assert b == a + {cs[i]} && cs[i] !in a;
    } else {
      assert b == a;
    }
  }

  lemma NotBefore(cs: seq<Client>, i: nat)
    requires i < |cs| && Distinct(cs)
    ensures cs[i] !in cs[..i] && forall c :: c in cs[..i + 1] <==> c in cs[..i] || c == cs[i]
  {
    assert cs[..i + 1] == cs[..i] + [cs[i]];
    forall j | 0 <= j < i ensures cs[..i][j] != cs[i] {}
  }

  /** The buffer in hand is neither queued nor unused. */
  lemma TmpApart(q: Queue)
    requires Distinct(All(q)) && q.tmp != []
    ensures Distinct(BuffersOf(q.queue)) && q.tmp[0] !in BuffersOf(q.queue) && q.tmp[0] !in q.unused
    ensures forall i :: 0 <= i < |q.queue| ==> q.queue[i].buffer != q.tmp[0]
    ensures forall b :: b in q.unused ==> b !in BuffersOf(q.queue)
  {
    var bs, n, m := BuffersOf(q.queue), |q.queue|, |q.unused|;
    assert forall i :: 0 <= i < n ==> All(q)[i] == bs[i] == q.queue[i].buffer;
    assert forall i :: 0 <= i < m ==> All(q)[n + i] == q.unused[i];
    assert All(q)[n + m] == q.tmp[0];
  }

  lemma AppendHolders(q: Queue, i: nat)
    requires Positions(q) && q.tmp != [] && q.eligible != {} && i <= |q.queue|
    ensures Holders(Append(q), i) == if i < |q.queue| then Holders(q, i) else q.eligible
  {}

  lemma UnusedApart(q: Queue)
    requires Distinct(All(q)) && q.unused != []
    ensures forall i :: 0 <= i < |q.queue| ==> q.queue[i].buffer != q.unused[0] && BuffersOf(q.queue)[i] != q.unused[0]
    ensures forall i :: 0 < i < |q.unused| ==> q.unused[i] != q.unused[0]
    ensures forall b :: b in q.tmp ==> b != q.unused[0]
  {
    var n, m := |q.queue|, |q.unused|;
    assert forall i :: 0 <= i < n ==> All(q)[i] == q.queue[i].buffer;
    assert forall i :: 0 <= i < m ==> All(q)[n + i] == q.unused[i];
    assert forall i :: 0 <= i < |q.tmp| ==> All(q)[n + m + i] == q.tmp[i];
  }

  lemma SendFacts(q: Queue, c: Client)
    requires WellFormed(q) && c in q.pos && q.pos[c] < |q.queue|
    ensures c in q.log && c in Release(q, c).log && Release(q, c).log == q.log
    ensures Send(q, c) == Release(q, c).(log := q.log[c := q.log[c] + [q.queue[q.pos[c]].frame]])
    ensures WellFormed(Send(q, c)) && Send(q, c).tmp == q.tmp
  {
    hide Holders, InOrder;
    SendKeeps(q, c);
    ReleaseSame(q, c);
    var p := q.(log := q.log[c := q.log[c] + [q.queue[q.pos[c]].frame]]);
    ReleaseLog(q, p, c);
  }

  lemma ForceNone(q: Queue, cs: seq<Client>)
    ensures ForceRelease(q, cs[..0]) == q
  {}

  /** The loop reaches client i with a buffer in the queue. */
  lemma ForceNext(q: Queue, cs: seq<Client>, i: nat)
    requires i < |cs| && cs[i] in q.pos && !ForceFails(q, cs, {})
    ensures var t := ForceRelease(q, cs[..i]);
      t.queue != [] && ForceRelease(q, cs[..i + 1]) == if cs[i] in t.pos && t.pos[cs[i]] == 0
        then Release(t, cs[i]) else t
  {
    hide Release;
    ForcePrefix(q, cs[..i + 1], i);
    assert cs[..i + 1][..i] == cs[..i] && cs[..i + 1][i..] == [cs[i]];
    var t := ForceRelease(q, cs[..i]);
    assert ForceRelease(t, [cs[i]]) == ForceRelease(ForceStep(t, cs[i]), [cs[i]][1..]);
    assert [cs[i]][1..] == [];
  }

  lemma FirstApart(q: Queue)
    requires Distinct(All(q)) && q.queue != []
    ensures q.queue[0].buffer == BuffersOf(q.queue)[0] && BuffersOf(q.queue[1..]) == BuffersOf(q.queue)[1..]
    ensures q.queue[0].buffer !in BuffersOf(q.queue)[1..] && q.queue[0].buffer !in q.unused
  {
    var bs := BuffersOf(q.queue);
    assert forall i :: 0 <= i < |bs| ==> All(q)[i] == bs[i];
    assert forall i :: 0 <= i < |q.unused| ==> All(q)[|bs| + i] == q.unused[i];
  }

  lemma LeftCounts(q: Queue, c: Client)
    requires Positions(q) && c in q.pos && q.pos[c] < |q.queue|
    requires Holders(q.(pos := q.pos[c := q.pos[c] + 1]), q.pos[c]) == {}
    ensures |Release(q, c).queue| + 1 == |q.queue|
    ensures forall k :: 0 <= k < |q.queue| - 1 ==> |Holders(Release(q, c), k)| == |Holders(q, k + 1)|
  {
    hide Holders;
    PendingEligible(q, c);
    ReleaseLeaves(q, c);
    ReleasedCounts(q, c);
    forall k: nat | k < |q.queue| - 1 ensures |Holders(Release(q, c), k)| == |Holders(q, k + 1)| {
      LeftHolders(q, c, k);
    }
  }

  lemma DistinctFrames(q: Queue)
    requires Distinct(All(q))
    ensures forall i, j :: 0 <= i < j < |q.queue| ==> q.queue[i].buffer != q.queue[j].buffer
  {
    assert forall i :: 0 <= i < |q.queue| ==> All(q)[i] == q.queue[i].buffer;
  }

  lemma ReleasedCounts(q: Queue, c: Client)
    requires Positions(q) && c in q.pos && q.pos[c] < |q.queue|
    ensures var t := q.(pos := q.pos[c := q.pos[c] + 1]);
      forall k :: 0 <= k < |q.queue| ==> |Holders(t, k)| == |Holders(q, k)| - if k == q.pos[c] then 1 else 0
  {
    hide Holders;
    PendingEligible(q, c);
    IsHolder(q, c, q.pos[c]);
    var t := q.(pos := q.pos[c := q.pos[c] + 1]);
    forall k: nat | k < |q.queue| ensures |Holders(t, k)| == |Holders(q, k)| - if k == q.pos[c] then 1 else 0 {
      ReleaseHolders(q, c, k);
    }
  }
}
