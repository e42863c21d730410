/** The frame queue of the VBI proxy daemon (daemon/proxyd.c) as a value. All clients of
    a device share one queue, and still each of them has a queue of its own. */
module ProxyQueueState {
  import opened Seqs

  class Buffer {
    var next: Buffer?
    var refCount: nat
    var frame: nat

    constructor ()
      ensures next == null && refCount == 0
    {
      next, refCount, frame := null, 0, 0;
    }
  }

  /** A client of the device. It is eligible for data while it is connected and has services. */
  class Client {
    var sliced: Buffer?
    var eligible: bool

    constructor ()
      ensures sliced == null && !eligible
    {
      sliced, eligible := null, false;
    }
  }

  datatype Item = Item(buffer: Buffer, frame: nat)

  /** pos is the place in the queue of the first frame which a client has not been sent,
      log holds the frames it was sent, and captured counts all frames. */
  datatype Queue = Queue(
    queue: seq<Item>,
    unused: seq<Buffer>,
    tmp: seq<Buffer>,
    pos: map<Client, nat>,
    eligible: set<Client>,
    log: map<Client, seq<nat>>,
    captured: nat)

  function BuffersOf(items: seq<Item>): seq<Buffer> {
    seq(|items|, i requires 0 <= i < |items| => items[i].buffer)
  }

  function FramesOf(items: seq<Item>): seq<nat> {
    seq(|items|, i requires 0 <= i < |items| => items[i].frame)
  }

  predicate Increasing(q: seq<nat>) {
    forall i, j :: 0 <= i < j < |q| ==> q[i] < q[j]
  }

  /** The clients which have still to be sent buffer i. */
  ghost function Holders(q: Queue, i: nat): set<Client> {
    set c | c in q.eligible && c in q.pos && q.pos[c] <= i
  }

  /** The queue of one client. */
  ghost function Pending(q: Queue, c: Client): seq<nat>
    requires c in q.pos && q.pos[c] <= |q.queue|
  {
    FramesOf(q.queue[q.pos[c]..])
  }

  ghost predicate Positions(q: Queue) {
    && q.eligible <= q.pos.Keys && q.log.Keys == q.pos.Keys
    && (forall c :: c in q.pos ==> q.pos[c] <= |q.queue|)
    && (forall c :: c in q.pos && c !in q.eligible ==> q.pos[c] == |q.queue|)
    && (forall i :: 0 <= i < |q.queue| ==> Holders(q, i) != {})
  }

  predicate Ordered(frames: seq<nat>, captured: nat) {
    Increasing(frames) && forall f :: f in frames ==> f < captured
  }

  /** Every client receives frames in the order of their capture, none of them twice. */
  ghost predicate InOrder(q: Queue)
    requires Positions(q)
  {
    forall c :: c in q.pos ==> Ordered(q.log[c] + Pending(q, c), q.captured)
  }

  ghost function All(q: Queue): seq<Buffer> {
    BuffersOf(q.queue) + q.unused + q.tmp
  }

  ghost predicate WellFormed(q: Queue) {
    Positions(q) && InOrder(q) && Distinct(All(q)) && |q.tmp| <= 1
  }

  // ---- Steps ---------------------------------------------------------------------------

  function Shifted(pos: map<Client, nat>): map<Client, nat> {
    map c | c in pos :: if pos[c] > 0 then pos[c] - 1 else 0
  }

  /** vbi_proxy_queue_release_sliced: client c is done with a buffer. */
  ghost function Release(q: Queue, c: Client): Queue
    requires c in q.pos && q.pos[c] < |q.queue|
  {
    var t := q.(pos := q.pos[c := q.pos[c] + 1]);
    if Holders(t, q.pos[c]) != {} then t
    else t.(queue := t.queue[1..], pos := Shifted(t.pos), unused := [q.queue[0].buffer] + t.unused)
  }

  /** The next frame is sent to client c. */
  ghost function Send(q: Queue, c: Client): Queue
    requires c in q.pos && q.pos[c] < |q.queue| && c in q.log
  {
    Release(q.(log := q.log[c := q.log[c] + [q.queue[q.pos[c]].frame]]), c)
  }

  /** vbi_proxy_queue_get_free. */
  function GetFree(q: Queue): Queue {
    if q.unused == [] then q else q.(unused := q.unused[1..], tmp := [q.unused[0]])
  }

  /** The loop of vbi_proxy_queue_force_free over the clients cs. */
  ghost function ForceRelease(q: Queue, cs: seq<Client>): Queue
    decreases |cs|
  {
    if cs == [] then q
    else ForceRelease(ForceStep(q, cs[0]), cs[1..])
  }

  /** A client of the loop which holds the first buffer. */
  ghost function ForceStep(q: Queue, c: Client): Queue {
    if c in q.pos && q.queue != [] && q.pos[c] == 0 then Release(q, c) else q
  }

  /** A frame was captured into the buffer in hand. */
  ghost function Append(q: Queue): Queue
    requires q.tmp != []
  {
    var n := |q.queue| + 1;
    if q.eligible == {} then q.(unused := q.tmp + q.unused, tmp := [], captured := q.captured + 1)
    else q.(queue := q.queue + [Item(q.tmp[0], q.captured)], tmp := [], captured := q.captured + 1,
            pos := map c | c in q.pos :: if c in q.eligible then q.pos[c] else n)
  }

  /** Nothing was captured. */
  function PutBack(q: Queue): Queue {
    q.(unused := q.tmp + q.unused, tmp := [])
  }

  // ---- Releasing a buffer --------------------------------------------------------------

  lemma ReleaseHolders(q: Queue, c: Client, i: nat)
    requires Positions(q) && c in q.eligible && q.pos[c] < |q.queue|
    ensures var t := q.(pos := q.pos[c := q.pos[c] + 1]);
      Holders(t, i) == if i == q.pos[c] then Holders(q, i) - {c} else Holders(q, i)
  {}

  /** Only a client with frames pending has a place before the end of the queue. */
  lemma PendingEligible(q: Queue, c: Client)
    requires Positions(q) && c in q.pos && q.pos[c] < |q.queue|
    ensures c in q.eligible
  {}

  /** The assertion when the last reference to a buffer goes: it is the first of the queue,
      since no buffer has more references than the next one. */
  lemma LastReferenceAtHead(q: Queue, c: Client)
    requires Positions(q) && c in q.pos && q.pos[c] < |q.queue|
    requires Holders(q, q.pos[c]) == {c}
    ensures q.pos[c] == 0 && forall d :: d in q.pos && d != c ==> q.pos[d] > 0
  {
    var i := q.pos[c];
    if i > 0 {
      var d :| d in Holders(q, i - 1);
      IsHolder(q, d, i);
    }
    forall d | d in q.pos && d != c ensures q.pos[d] > 0 {
      IsHolder(q, d, i);
    }
  }

  lemma IsHolder(q: Queue, c: Client, i: nat)
    ensures c in Holders(q, i) <==> c in q.eligible && c in q.pos && q.pos[c] <= i
  {}

  /** The reference counts never decrease along the queue. */
  lemma CountsGrow(q: Queue, i: nat, j: nat)
    requires i <= j
    ensures |Holders(q, i)| <= |Holders(q, j)|
  {
    Subset(Holders(q, i), Holders(q, j));
  }

  lemma {:induction false} Subset(a: set<Client>, b: set<Client>)
    requires a <= b
    ensures |a| <= |b|
  {
    if a != {} {
      var x :| x in a;
      Subset(a - {x}, b - {x});
    }
  }

  /** The buffer stays in the queue for other clients. */
  lemma ReleaseStays(q: Queue, c: Client)
    requires Positions(q) && c in q.pos && q.pos[c] < |q.queue|
    requires Holders(q.(pos := q.pos[c := q.pos[c] + 1]), q.pos[c]) != {}
    ensures Release(q, c) == q.(pos := q.pos[c := q.pos[c] + 1]) && Positions(Release(q, c))
  {
    hide Holders;
    PendingEligible(q, c);
    var t := q.(pos := q.pos[c := q.pos[c] + 1]);
    forall k: nat | k < |q.queue| ensures Holders(t, k) != {} { ReleaseHolders(q, c, k); }
  }

  /** The buffer leaves the queue. */
  lemma ReleaseLeaves(q: Queue, c: Client)
    requires Positions(q) && c in q.pos && q.pos[c] < |q.queue|
    requires Holders(q.(pos := q.pos[c := q.pos[c] + 1]), q.pos[c]) == {}
    ensures q.pos[c] == 0 && Positions(Release(q, c))
    ensures Release(q, c).queue == q.queue[1..] && Release(q, c).pos[c] == 0
    ensures forall d :: d in q.pos && d != c ==> d in Release(q, c).pos && q.pos[d] == Release(q, c).pos[d] + 1
  {
    hide Holders;
    PendingEligible(q, c);
    var i := q.pos[c];
    var t, u := q.(pos := q.pos[c := i + 1]), Release(q, c);
    ReleaseHolders(q, c, i);
    IsHolder(q, c, i);
    assert Holders(q, i) == {c};
    LastReferenceAtHead(q, c);
    forall k: nat | k < |u.queue| ensures Holders(u, k) != {} {
      ReleaseHolders(q, c, k + 1);
      LeftHolders(q, c, k);
    }
  }

  lemma LeftHolders(q: Queue, c: Client, k: nat)
    requires Positions(q) && c in q.eligible && q.pos[c] == 0 && q.queue != []
      && forall d :: d in q.pos && d != c ==> q.pos[d] > 0
    ensures var t := q.(pos := q.pos[c := 1]);
      Holders(t.(queue := t.queue[1..], pos := Shifted(t.pos), unused := [q.queue[0].buffer] + t.unused), k)
        == Holders(t, k + 1)
  {}

  /** A client which is done with a buffer loses the first frame of its queue. The queues of
      all others stay as they are, also when the buffer leaves the shared queue. */
  lemma ReleaseKeeps(q: Queue, c: Client)
    requires Positions(q) && c in q.pos && q.pos[c] < |q.queue|
    ensures Positions(Release(q, c)) && Release(q, c).pos.Keys == q.pos.Keys
    ensures Pending(Release(q, c), c) == Pending(q, c)[1..]
    ensures forall d :: d in q.pos && d != c ==> Pending(Release(q, c), d) == Pending(q, d)
  {
    hide Holders;
    var i, t := q.pos[c], Release(q, c);
    if Holders(q.(pos := q.pos[c := i + 1]), i) != {} {
      ReleaseStays(q, c);
    } else {
      ReleaseLeaves(q, c);
      forall d | d in q.pos && d != c ensures t.queue[t.pos[d]..] == q.queue[q.pos[d]..] {}
    }
  }

  lemma ReleaseBuffers(q: Queue, c: Client)
    requires WellFormed(q) && c in q.pos && q.pos[c] < |q.queue|
    ensures Distinct(All(Release(q, c))) && Release(q, c).tmp == q.tmp
    ensures multiset(All(Release(q, c))) == multiset(All(q))
  {
    var t := Release(q, c);
    if t.queue != q.queue {
      var b, rest := q.queue[0].buffer, BuffersOf(q.queue[1..]);
      assert BuffersOf(q.queue) == [b] + rest;
      assert All(q) == [b] + (rest + q.unused + q.tmp);
      assert All(t) == rest + [b] + (q.unused + q.tmp);
      DistinctMoved(rest, b, q.unused + q.tmp);
      assert [b] + (rest + (q.unused + q.tmp)) == All(q);
    }
  }

  lemma DistinctMoved(r: seq<Buffer>, b: Buffer, s: seq<Buffer>)
    ensures multiset([b] + (r + s)) == multiset(r + [b] + s)
    ensures Distinct([b] + (r + s)) ==> Distinct(r + [b] + s)
  {
    var x, y := [b] + (r + s), r + [b] + s;
    forall i, j | Distinct(x) && 0 <= i < j < |y| ensures y[i] != y[j] {
      var k := if i < |r| then i + 1 else if i == |r| then 0 else i;
      var l := if j < |r| then j + 1 else if j == |r| then 0 else j;
      assert x[k] == y[i] && x[l] == y[j] && k != l;
    }
  }

  /** Sending a frame moves it from the queue of the client to what it has received. */
  lemma SendKeeps(q: Queue, c: Client)
    requires WellFormed(q) && c in q.pos && q.pos[c] < |q.queue|
    ensures WellFormed(Send(q, c)) && Send(q, c).log == q.log[c := q.log[c] + [Pending(q, c)[0]]]
    ensures Pending(Send(q, c), c) == Pending(q, c)[1..]
    ensures forall d :: d in q.pos && d != c ==> Pending(Send(q, c), d) == Pending(q, d)
    ensures multiset(All(Send(q, c))) == multiset(All(q))
  {
    hide Holders, Release, All, Ordered;
    var p := q.(log := q.log[c := q.log[c] + [q.queue[q.pos[c]].frame]]);
    SamePositions(q, p);
    ReleaseKeeps(p, c);
    SendBuffers(q, p, c);
    ReleaseSame(p, c);
    SendOrder(q, c, Send(q, c));
  }

  lemma SendOrder(q: Queue, c: Client, t: Queue)
    requires Positions(q) && InOrder(q) && Positions(t) && c in q.pos && q.pos[c] < |q.queue|
    requires t.pos.Keys == q.pos.Keys && t.captured == q.captured && t.log == q.log[c := q.log[c] + [Pending(q, c)[0]]]
    requires Pending(t, c) == Pending(q, c)[1..] && forall d :: d in q.pos && d != c ==> Pending(t, d) == Pending(q, d)
    ensures InOrder(t)
  {
    hide Holders, Pending, Ordered;
    forall d | d in t.pos ensures Ordered(t.log[d] + Pending(t, d), t.captured) {
      assert Ordered(q.log[d] + Pending(q, d), q.captured);
      if d == c {
        PendingLength(q, c);
        FirstMoves(q.log[c], Pending(q, c));
      }
    }
  }

  lemma PendingLength(q: Queue, c: Client)
    requires Positions(q) && c in q.pos
    ensures |Pending(q, c)| == |q.queue| - q.pos[c]
  {}

  lemma FirstMoves(a: seq<nat>, b: seq<nat>)
    requires b != []
    ensures (a + [b[0]]) + b[1..] == a + b
  {}

  lemma SamePositions(q: Queue, p: Queue)
    requires Positions(q) && p == q.(log := p.log) && p.log.Keys == q.log.Keys
    ensures Positions(p) && forall d :: d in q.pos ==> Pending(p, d) == Pending(q, d)
  {
    assert forall i: nat :: Holders(p, i) == Holders(q, i);
  }

  lemma ReleaseSame(q: Queue, c: Client)
    requires c in q.pos && q.pos[c] < |q.queue|
    ensures var t := Release(q, c);
      t.log == q.log && t.eligible == q.eligible && t.captured == q.captured && t.tmp == q.tmp
        && t.pos.Keys == q.pos.Keys
  {}

  lemma SendBuffers(q: Queue, p: Queue, c: Client)
    requires WellFormed(q) && p == q.(log := p.log) && Positions(p) && c in q.pos && q.pos[c] < |q.queue|
    ensures Distinct(All(Release(p, c))) && multiset(All(Release(p, c))) == multiset(All(q))
  {
    hide Holders;
    ReleaseBuffers(q, c);
    assert Release(p, c) == Release(q, c).(log := p.log) by { ReleaseLog(q, p, c); }
  }

  lemma ReleaseLog(q: Queue, p: Queue, c: Client)
    requires p == q.(log := p.log) && c in q.pos && q.pos[c] < |q.queue|
    ensures Release(p, c) == Release(q, c).(log := p.log)
  {
    var t, u := q.(pos := q.pos[c := q.pos[c] + 1]), p.(pos := p.pos[c := p.pos[c] + 1]);
    assert Holders(t, q.pos[c]) == Holders(u, q.pos[c]);
  }

  /** A client which is done with a frame without being sent it. */
  lemma DropKeeps(q: Queue, c: Client)
    requires WellFormed(q) && c in q.pos && q.pos[c] < |q.queue|
    ensures WellFormed(Release(q, c)) && multiset(All(Release(q, c))) == multiset(All(q))
  {
    hide Holders;
    ReleaseKeeps(q, c);
    ReleaseBuffers(q, c);
    ReleaseSame(q, c);
    var t := Release(q, c);
    forall d | d in t.pos
      ensures Ordered(t.log[d] + Pending(t, d), t.captured)
    {
      if d == c { Shorter(q.log[c], Pending(q, c)); }
    }
  }

  lemma Shorter(a: seq<nat>, b: seq<nat>)
    requires Increasing(a + b) && b != []
    ensures Increasing(a + b[1..]) && forall f :: f in a + b[1..] ==> f in a + b
  {
    var x, y := a + b, a + b[1..];
    forall i | 0 <= i < |y| ensures y[i] == x[if i < |a| then i else i + 1] {}
    forall i, j | 0 <= i < j < |y| ensures y[i] < y[j] {
      var k, l := if i < |a| then i else i + 1, if j < |a| then j else j + 1;
      assert x[k] < x[l];
    }
  }

  // ---- Freeing a buffer by force --------------------------------------------------------

  /** Client c comes in the list of clients after all those which hold the first buffer. */
  ghost predicate AfterHolders(q: Queue, cs: seq<Client>, c: Client) {
    exists i :: 0 <= i < |cs| && cs[i] == c && forall j :: i <= j < |cs| ==> cs[j] !in Holders(q, 0)
  }

  /** Who loses a frame when the first buffer is freed by force. */
  ghost predicate Loses(q: Queue, cs: seq<Client>, c: Client)
    requires c in q.pos
  {
    q.pos[c] == 0 || (q.pos[c] == 1 && AfterHolders(q, cs, c))
  }

  lemma ForceStepKeeps(q: Queue, c: Client)
    requires WellFormed(q)
    ensures WellFormed(ForceStep(q, c)) && multiset(All(ForceStep(q, c))) == multiset(All(q))
    ensures ForceStep(q, c).pos.Keys == q.pos.Keys
  {
    hide WellFormed, All, Release;
    if c in q.pos && q.queue != [] && q.pos[c] == 0 {
      DropKeeps(q, c);
      ReleaseSame(q, c);
    }
  }

  /** Some client which is not in the list any more holds the first buffer, so that it stays. */
  lemma RestDistinct(cs: seq<Client>)
    requires cs != [] && Distinct(cs)
    ensures Distinct(cs[1..]) && cs[0] !in cs[1..] && forall d :: d in cs <==> d == cs[0] || d in cs[1..]
  {}

  lemma {:induction false} ForceStays(q: Queue, cs: seq<Client>, keeper: Client)
    requires Positions(q) && Distinct(cs) && keeper !in cs && keeper in Holders(q, 0) && q.queue != []
    ensures var t := ForceRelease(q, cs);
      && t.pos.Keys == q.pos.Keys && t.queue == q.queue && t.unused == q.unused
      && forall c :: c in q.pos ==> t.pos[c] == if c in cs && q.pos[c] == 0 then 1 else q.pos[c]
    decreases |cs|
  {
    hide Holders, Positions, Release, Distinct;
    if cs != [] {
      var c, rest := cs[0], cs[1..];
      RestDistinct(cs);
      if c in q.pos && q.pos[c] == 0 {
        var t := q.(pos := q.pos[c := 1]);
        IsHolder(q, keeper, 0);
        IsHolder(t, keeper, 0);
        ReleaseStays(q, c);
        ForceStays(t, rest, keeper);
      } else {
        ForceStays(q, rest, keeper);
      }
    }
  }

  /** The first client of the list is not concerned. */
  lemma AfterSkip(q: Queue, cs: seq<Client>, d: Client, x: Client)
    requires cs != [] && cs[0] !in Holders(q, 0) && d in cs && d in Holders(q, 0)
    ensures AfterHolders(q, cs, x) <==> AfterHolders(q, cs[1..], x)
  {
    hide Holders;
    if i :| 0 <= i < |cs[1..]| && cs[1..][i] == x && forall j :: i <= j < |cs[1..]| ==> cs[1..][j] !in Holders(q, 0) {
      assert forall j :: i + 1 <= j < |cs| ==> cs[j] == cs[1..][j - 1];
      assert cs[i + 1] == x;
    }
    if i :| 0 <= i < |cs| && cs[i] == x && forall j :: i <= j < |cs| ==> cs[j] !in Holders(q, 0) {
      assert i > 0;
      assert cs[1..][i - 1] == x && forall j :: i - 1 <= j < |cs[1..]| ==> cs[1..][j] == cs[j + 1];
    }
  }

  /** The first client of the list is done with the first buffer, but not the last to be so. */
  lemma AfterRelease(q: Queue, t: Queue, cs: seq<Client>, x: Client)
    requires cs != [] && cs[0] in Holders(q, 0) && Distinct(cs) && Holders(t, 0) == Holders(q, 0) - {cs[0]}
    ensures AfterHolders(q, cs, x) <==> AfterHolders(t, cs[1..], x)
  {
    hide Holders;
    if i :| 0 <= i < |cs[1..]| && cs[1..][i] == x && forall j :: i <= j < |cs[1..]| ==> cs[1..][j] !in Holders(t, 0) {
      assert forall j :: i + 1 <= j < |cs| ==> cs[j] == cs[1..][j - 1] && cs[j] != cs[0];
      assert cs[i + 1] == x;
    }
    if i :| 0 <= i < |cs| && cs[i] == x && forall j :: i <= j < |cs| ==> cs[j] !in Holders(q, 0) {
      assert i > 0;
      assert cs[1..][i - 1] == x && forall j :: i - 1 <= j < |cs[1..]| ==> cs[1..][j] == cs[j + 1];
    }
  }

  /** The first client of the list was the last to hold the first buffer. */
  lemma AfterLast(q: Queue, cs: seq<Client>, x: Client)
    requires cs != [] && Holders(q, 0) == {cs[0]} && Distinct(cs)
    ensures AfterHolders(q, cs, x) <==> x in cs[1..]
  {
    hide Holders;
    if x in cs[1..] {
      var i :| 0 <= i < |cs[1..]| && cs[1..][i] == x;
      assert cs[i + 1] == x && forall j :: i + 1 <= j < |cs| ==> cs[j] != cs[0];
    }
    if i :| 0 <= i < |cs| && cs[i] == x && forall j :: i <= j < |cs| ==> cs[j] !in Holders(q, 0) {
      assert cs[1..][i - 1] == x;
    }
  }

  /** What the loop does to the places of the clients. */
  lemma {:induction false} ForceMoves(q: Queue, cs: seq<Client>)
    requires Positions(q) && Distinct(cs) && |q.queue| > 1 && forall c :: c in Holders(q, 0) ==> c in cs
    ensures var t := ForceRelease(q, cs);
      && t.pos.Keys == q.pos.Keys && t.queue == q.queue[1..] && t.unused == [q.queue[0].buffer] + q.unused
      && (forall c :: c in q.pos && q.pos[c] == 0 ==> t.pos[c] == 0)
      && (forall c :: c in q.pos && q.pos[c] > 0 ==> t.pos[c] == if Loses(q, cs, c) then 1 else q.pos[c] - 1)
    decreases |cs|
  {
    hide Holders, AfterHolders, Release, Positions;
    HeadHeld(q);
    var d :| d in Holders(q, 0);
    var c, rest := cs[0], cs[1..];
    assert cs == [c] + rest;
    assert forall x :: x in cs ==> x == c || x in rest;
    IsHolder(q, c, 0);
    if c in q.pos && q.pos[c] == 0 {
      ForceTakes(q, cs);
    } else {
      ForceMoves(q, rest);
      forall x | x in q.pos ensures Loses(q, cs, x) <==> Loses(q, rest, x) { AfterSkip(q, cs, d, x); }
    }
  }

  lemma HeadHeld(q: Queue)
    requires Positions(q) && q.queue != []
    ensures Holders(q, 0) != {}
  {}

  lemma {:induction false} ForceTakes(q: Queue, cs: seq<Client>)
    requires Positions(q) && Distinct(cs) && |q.queue| > 1 && (forall c :: c in Holders(q, 0) ==> c in cs)
    requires cs != [] && cs[0] in q.pos && q.pos[cs[0]] == 0
    ensures var t := ForceRelease(q, cs);
      && t.pos.Keys == q.pos.Keys && t.queue == q.queue[1..] && t.unused == [q.queue[0].buffer] + q.unused
      && (forall c :: c in q.pos && q.pos[c] == 0 ==> t.pos[c] == 0)
      && (forall c :: c in q.pos && q.pos[c] > 0 ==> t.pos[c] == if Loses(q, cs, c) then 1 else q.pos[c] - 1)
    decreases |cs|, 0
  {
    hide Holders, AfterHolders, Positions;
    var c, rest := cs[0], cs[1..];
    var t := Release(q, c);
    PendingEligible(q, c);
    IsHolder(q, c, 0);
    assert forall x :: x in cs ==> x == c || x in rest;
    ReleaseHolders(q, c, 0);
    if Holders(q.(pos := q.pos[c := 1]), 0) != {} {
      ReleaseStays(q, c);
      hide Release;
      ForceMoves(t, rest);
      forall x | x in q.pos ensures AfterHolders(q, cs, x) <==> AfterHolders(t, rest, x) { AfterRelease(q, t, cs, x); }
      assert !AfterHolders(q, cs, c) by { NotAfter(q, cs); }
    } else {
      ReleaseLeaves(q, c);
      ReleaseSame(q, c);
      hide Release;
      IsHolder(t, c, 0);
      ForceStays(t, rest, c);
      assert Holders(q, 0) == {c};
      forall x | x in q.pos ensures AfterHolders(q, cs, x) <==> x in rest { AfterLast(q, cs, x); }
    }
  }

  lemma NotAfter(q: Queue, cs: seq<Client>)
    requires cs != [] && cs[0] in Holders(q, 0) && Distinct(cs)
    ensures !AfterHolders(q, cs, cs[0])
  {
    hide Holders;
  }

  lemma {:induction false} ForceKeeps(q: Queue, cs: seq<Client>)
    requires WellFormed(q)
    ensures WellFormed(ForceRelease(q, cs)) && multiset(All(ForceRelease(q, cs))) == multiset(All(q))
    ensures ForceRelease(q, cs).log == q.log && ForceRelease(q, cs).captured == q.captured
      && ForceRelease(q, cs).tmp == q.tmp
    ensures ForceRelease(q, cs).eligible == q.eligible
    decreases |cs|
  {
    hide WellFormed, All, Release;
    if cs != [] {
      ForceStepKeeps(q, cs[0]);
      if cs[0] in q.pos && q.queue != [] && q.pos[cs[0]] == 0 { ReleaseSame(q, cs[0]); }
      ForceKeeps(ForceStep(q, cs[0]), cs[1..]);
    }
  }

  function Rest(frames: seq<nat>): seq<nat> {
    if frames == [] then [] else frames[1..]
  }

  /** With two buffers in the queue the first one is freed. Its holders lose that frame, and so do,
      of the next frame, the clients which wait for it and come after the last holder in the list.
      Nobody else loses anything. */
  lemma ForceFreeLoses(q: Queue, cs: seq<Client>)
    requires WellFormed(q) && Distinct(cs) && |q.queue| > 1 && forall c :: c in q.pos ==> c in cs
    ensures var t := ForceRelease(q, cs);
      && WellFormed(t) && t.pos.Keys == q.pos.Keys && t.unused == [q.queue[0].buffer] + q.unused
      && t.queue == q.queue[1..]
      && (forall c :: c in q.pos ==> Pending(t, c) == if Loses(q, cs, c) then Rest(Pending(q, c)) else Pending(q, c))
  {
    hide Loses, Holders, All, ForceRelease, Pending, InOrder;
    ForceKeeps(q, cs);
    HoldersListed(q, cs);
    ForceMoves(q, cs);
    var t := ForceRelease(q, cs);
    forall c | c in q.pos ensures Pending(t, c) == if Loses(q, cs, c) then Rest(Pending(q, c)) else Pending(q, c) {
      LosesWhere(q, cs, c);
      ForcePending(q, t, c, Loses(q, cs, c));
    }
  }

  lemma ForcePending(q: Queue, t: Queue, c: Client, loses: bool)
    requires Positions(q) && Positions(t) && c in q.pos && c in t.pos && q.queue != [] && t.queue == q.queue[1..]
    requires if loses then t.pos[c] == q.pos[c] < |q.queue| else t.pos[c] + 1 == q.pos[c]
    ensures Pending(t, c) == if loses then Rest(Pending(q, c)) else Pending(q, c)
  {
    hide Holders;
    assert t.queue[t.pos[c]..] == q.queue[t.pos[c] + 1..];
  }

  lemma HoldersListed(q: Queue, cs: seq<Client>)
    requires forall c :: c in q.pos ==> c in cs
    ensures forall c :: c in Holders(q, 0) ==> c in cs
  {}

  lemma LosesWhere(q: Queue, cs: seq<Client>, c: Client)
    requires c in q.pos
    ensures q.pos[c] == 0 ==> Loses(q, cs, c)
    ensures Loses(q, cs, c) ==> q.pos[c] <= 1
  {}

  /** The list cs has the clients of all devices; those of other devices are in idle when they have no
      frames pending. With the queue empty, the next client of this device or of idle compares equal to
      its head, null with null, and the daemon fails. */
  ghost predicate ForceFails(q: Queue, cs: seq<Client>, idle: set<Client>) {
    exists i :: 0 <= i < |cs| && (cs[i] in q.pos || cs[i] in idle) && ForceRelease(q, cs[..i]).queue == []
  }

  lemma {:induction false} ForcePrefix(q: Queue, cs: seq<Client>, i: nat)
    requires i <= |cs|
    ensures ForceRelease(q, cs) == ForceRelease(ForceRelease(q, cs[..i]), cs[i..])
    decreases i
  {
    hide Release;
    if i > 0 {
      ForcePrefix(ForceStep(q, cs[0]), cs[1..], i - 1);
      assert cs[..i][1..] == cs[1..][..i - 1] && cs[1..][i - 1..] == cs[i..];
    }
  }

  lemma {:induction false} ForceShrinks(q: Queue, cs: seq<Client>)
    ensures |ForceRelease(q, cs).queue| <= |q.queue|
    decreases |cs|
  {
    if cs != [] { ForceShrinks(ForceStep(q, cs[0]), cs[1..]); }
  }

  /** The loop is safe when there are at least two buffers in the queue. With a single one it fails
      exactly if a client of this device, or an idle one of another, comes after all its holders. */
  lemma ForceFailsIff(q: Queue, cs: seq<Client>, idle: set<Client>)
    requires Positions(q) && Distinct(cs) && q.queue != [] && forall c :: c in q.pos ==> c in cs
    ensures ForceFails(q, cs, idle)
       <==> |q.queue| == 1 && exists c :: c in cs && (c in q.pos || c in idle) && AfterHolders(q, cs, c)
  {
    hide Holders, Positions, ForceRelease;
    HoldersListed(q, cs);
    if |q.queue| > 1 {
      ForceMoves(q, cs);
      forall i | 0 <= i < |cs| ensures ForceRelease(q, cs[..i]).queue != [] {
        ForcePrefix(q, cs, i);
        ForceShrinks(ForceRelease(q, cs[..i]), cs[i..]);
      }
    } else {
      forall i | 0 <= i < |cs|
        ensures ForceRelease(q, cs[..i]).queue == [] <==> forall j :: i <= j < |cs| ==> cs[j] !in Holders(q, 0)
      {
        EmptyAfter(q, cs, i);
      }
    }
  }

  /** The only buffer has left the queue when its holders have been visited. */
  lemma EmptyAfter(q: Queue, cs: seq<Client>, i: nat)
    requires Positions(q) && Distinct(cs) && |q.queue| == 1 && (forall c :: c in Holders(q, 0) ==> c in cs) && i < |cs|
    ensures ForceRelease(q, cs[..i]).queue == [] <==> forall j :: i <= j < |cs| ==> cs[j] !in Holders(q, 0)
  {
    hide Holders, Positions, ForceRelease;
    if j :| i <= j < |cs| && cs[j] in Holders(q, 0) {
      assert cs[j] !in cs[..i];
      ForceLeavesOthers(q, cs[..i], cs[j]);
    } else {
      assert forall c :: c in cs ==> c in cs[..i] || c in cs[i..];
      assert forall c :: c in cs[i..] ==> c !in Holders(q, 0);
      ForceEmpties(q, cs[..i]);
    }
  }

  /** A holder which has not been visited keeps its buffer in the queue. */
  lemma {:induction false} ForceLeavesOthers(q: Queue, cs: seq<Client>, c: Client)
    requires Positions(q) && q.queue != [] && c in Holders(q, 0) && c !in cs
    ensures ForceRelease(q, cs).queue != [] && c in Holders(ForceRelease(q, cs), 0) && Positions(ForceRelease(q, cs))
    decreases |cs|
  {
    hide Holders, Positions;
    if cs != [] {
      var d := cs[0];
      if d in q.pos && q.pos[d] == 0 {
        PendingEligible(q, d);
        IsHolder(q, d, 0);
        ReleaseHolders(q, d, 0);
        assert c in Holders(q, 0) - {d};
        ReleaseStays(q, d);
      }
      assert forall x :: x in cs[1..] ==> x in cs;
      ForceLeavesOthers(ForceStep(q, d), cs[1..], c);
    }
  }

  lemma {:induction false} ForceEmpties(q: Queue, cs: seq<Client>)
    requires Positions(q) && |q.queue| == 1 && (forall c :: c in Holders(q, 0) ==> c in cs)
    ensures ForceRelease(q, cs).queue == []
    decreases |cs|
  {
    hide Holders, Positions;
    HeadHeld(q);
    var d :| d in Holders(q, 0);
    var c, rest := cs[0], cs[1..];
    assert forall x :: x in cs ==> x == c || x in rest;
    IsHolder(q, c, 0);
    if c in q.pos && q.pos[c] == 0 {
      PendingEligible(q, c);
      ReleaseHolders(q, c, 0);
      if Holders(q.(pos := q.pos[c := 1]), 0) != {} {
        ReleaseStays(q, c);
        ForceEmpties(Release(q, c), rest);
      } else {
        ReleaseLeaves(q, c);
        ForceShrinks(Release(q, c), rest);
      }
    } else {
      ForceEmpties(q, rest);
    }
  }

  // ---- Frames and clients come and go ---------------------------------------------------------

  /** A frame is appended to the queue of every eligible client, and of no other. */
  lemma AppendKeeps(q: Queue)
    requires WellFormed(q) && q.tmp != []
    ensures WellFormed(Append(q)) && multiset(All(Append(q))) == multiset(All(q)) && Append(q).pos.Keys == q.pos.Keys
    ensures forall c :: c in q.pos ==>
      Pending(Append(q), c) == Pending(q, c) + if c in q.eligible then [q.captured] else []
  {
    hide Holders, Ordered, All;
    AppendBuffers(q);
    AppendPositions(q);
    var t := Append(q);
    forall c | c in q.pos
      ensures Pending(t, c) == Pending(q, c) + if c in q.eligible then [q.captured] else []
      ensures Ordered(t.log[c] + Pending(t, c), t.captured)
    {
      AppendPending(q, c);
      AppendOrder(q.log[c] + Pending(q, c), q.captured);
      assert q.log[c] + (Pending(q, c) + [q.captured]) == (q.log[c] + Pending(q, c)) + [q.captured];
      assert Pending(q, c) + [] == Pending(q, c);
    }
  }

  lemma AppendPositions(q: Queue)
    requires Positions(q) && q.tmp != []
    ensures Positions(Append(q))
  {
    var t := Append(q);
    if q.eligible == {} {
      assert forall i: nat :: Holders(t, i) == Holders(q, i);
    } else {
      var c :| c in q.eligible;
      forall i | 0 <= i < |t.queue| ensures Holders(t, i) != {} {
        if i < |q.queue| {
          assert Holders(q, i) != {};
          var d :| d in Holders(q, i);
          assert d in Holders(t, i);
        } else {
          assert c in Holders(t, i);
        }
      }
    }
  }

  lemma AppendPending(q: Queue, c: Client)
    requires q.tmp != [] && Positions(q) && Positions(Append(q)) && c in q.pos
    ensures Pending(Append(q), c) == Pending(q, c) + if c in q.eligible then [q.captured] else []
  {}

  lemma AppendOrder(a: seq<nat>, n: nat)
    requires Ordered(a, n)
    ensures Ordered(a, n + 1) && Ordered(a + [n], n + 1)
  {
    assert forall i :: 0 <= i < |a| ==> a[i] in a;
  }

  lemma AppendBuffers(q: Queue)
    requires Distinct(All(q)) && |q.tmp| == 1
    ensures Distinct(All(Append(q))) && multiset(All(Append(q))) == multiset(All(q)) && Append(q).tmp == []
  {
    var b, r, u := q.tmp[0], BuffersOf(q.queue), q.unused;
    assert q.tmp == [b] && All(q) == r + u + [b];
    if q.eligible == {} {
      assert All(Append(q)) == r + ([b] + u);
      DistinctTail(r, u, b);
    } else {
      assert BuffersOf(q.queue + [Item(b, q.captured)]) == r + [b];
      assert All(Append(q)) == r + ([b] + u);
      DistinctTail(r, u, b);
    }
  }

  lemma DistinctTail(r: seq<Buffer>, u: seq<Buffer>, b: Buffer)
    ensures multiset(r + u + [b]) == multiset(r + ([b] + u))
    ensures Distinct(r + u + [b]) ==> Distinct(r + ([b] + u))
  {
    var x, y := r + u + [b], r + ([b] + u);
    forall i, j | Distinct(x) && 0 <= i < j < |y| ensures y[i] != y[j] {
      var k := if i < |r| then i else if i == |r| then |x| - 1 else i - 1;
      var l := if j < |r| then j else if j == |r| then |x| - 1 else j - 1;
      assert x[k] == y[i] && x[l] == y[j] && k != l;
    }
  }

  lemma SameQueue(q: Queue, t: Queue)
    requires Positions(q) && InOrder(q) && t.queue == q.queue && t.pos == q.pos && t.eligible == q.eligible
    requires t.log == q.log && t.captured == q.captured
    ensures Positions(t) && InOrder(t) && forall c :: c in q.pos ==> Pending(t, c) == Pending(q, c)
  {
    hide Ordered;
    assert forall i: nat :: Holders(t, i) == Holders(q, i);
  }

  /** The services of a client without frames change. */
  ghost function Eligible(q: Queue, c: Client, on: bool): Queue {
    q.(eligible := if on then q.eligible + {c} else q.eligible - {c})
  }

  ghost function Joined(q: Queue, c: Client): Queue {
    q.(pos := q.pos[c := |q.queue|], log := q.log[c := []])
  }

  /** All frames of client c dropped. */
  ghost function Flushed(q: Queue, c: Client): Queue
    requires WellFormed(q)
    decreases if c in q.pos then |q.queue| - q.pos[c] else 0
  {
    if c !in q.pos || q.pos[c] == |q.queue| then q
    else
      DropKeeps(q, c);
      ReleaseNearer(q, c);
      Flushed(Release(q, c), c)
  }

  lemma FlushedOnce(q: Queue, c: Client)
    requires WellFormed(q) && c in q.pos
    ensures q.pos[c] >= |q.queue| ==> Flushed(q, c) == q
    ensures q.pos[c] < |q.queue| ==> WellFormed(Release(q, c)) && Flushed(q, c) == Flushed(Release(q, c), c)
  {
    hide Holders, InOrder, Distinct;
    if q.pos[c] < |q.queue| { DropKeeps(q, c); }
  }

  /** Client c has no frames left, and nobody else loses anything. */
  lemma {:induction false} FlushedKeeps(q: Queue, c: Client)
    requires WellFormed(q) && c in q.pos
    ensures var t := Flushed(q, c);
      && WellFormed(t) && multiset(All(t)) == multiset(All(q)) && t.pos.Keys == q.pos.Keys && t.pos[c] == |t.queue|
      && t.log == q.log && t.eligible == q.eligible && t.captured == q.captured && t.tmp == q.tmp
      && forall d :: d in q.pos ==> Pending(t, d) == if d == c then [] else Pending(q, d)
    decreases if c in q.pos then |q.queue| - q.pos[c] else 0
  {
    hide Holders, All, Release, InOrder;
    if q.pos[c] < |q.queue| {
      DropKeeps(q, c);
      ReleaseNearer(q, c);
      ReleaseKeeps(q, c);
      ReleaseSame(q, c);
      FlushedKeeps(Release(q, c), c);
    } else {
      NoFrames(q, c);
    }
  }

  lemma NoFrames(q: Queue, c: Client)
    requires c in q.pos && q.pos[c] == |q.queue|
    ensures Pending(q, c) == []
  {}

  lemma ReleaseNearer(q: Queue, c: Client)
    requires Positions(q) && c in q.pos && q.pos[c] < |q.queue|
    ensures var t := Release(q, c); c in t.pos && |t.queue| - t.pos[c] < |q.queue| - q.pos[c]
  {
    hide Holders;
    if Holders(q.(pos := q.pos[c := q.pos[c] + 1]), q.pos[c]) == {} {
      ReleaseLeaves(q, c);
    } else {
      ReleaseStays(q, c);
    }
  }

  lemma AllGetFree(q: Queue)
    requires q.unused != [] && q.tmp == []
    ensures All(q) == BuffersOf(q.queue) + ([q.unused[0]] + q.unused[1..])
    ensures All(GetFree(q)) == BuffersOf(q.queue) + q.unused[1..] + [q.unused[0]]
  {
    assert q.unused == [q.unused[0]] + q.unused[1..];
  }

  /** A buffer is taken from the unused ones. */
  lemma GetFreeKeeps(q: Queue)
    requires WellFormed(q) && q.tmp == []
    ensures WellFormed(GetFree(q)) && multiset(All(GetFree(q))) == multiset(All(q))
    ensures forall c :: c in q.pos ==> Pending(GetFree(q), c) == Pending(q, c)
  {
    hide InOrder, Holders, Distinct, Pending, Positions, All;
    SameQueue(q, GetFree(q));
    if q.unused != [] {
      AllGetFree(q);
      DistinctHead(BuffersOf(q.queue), q.unused[1..], q.unused[0]);
    }
  }

  lemma AllPutBack(q: Queue)
    requires |q.tmp| == 1
    ensures All(q) == BuffersOf(q.queue) + q.unused + [q.tmp[0]]
    ensures All(PutBack(q)) == BuffersOf(q.queue) + ([q.tmp[0]] + q.unused)
  {
    assert q.tmp == [q.tmp[0]];
  }

  /** The buffer in hand is put back. */
  lemma PutBackKeeps(q: Queue)
    requires WellFormed(q)
    ensures WellFormed(PutBack(q)) && multiset(All(PutBack(q))) == multiset(All(q))
    ensures forall c :: c in q.pos ==> Pending(PutBack(q), c) == Pending(q, c)
  {
    hide InOrder, Holders, Distinct, Pending, Positions, All;
    SameQueue(q, PutBack(q));
    if q.tmp != [] {
      AllPutBack(q);
      DistinctTail(BuffersOf(q.queue), q.unused, q.tmp[0]);
    } else {
      assert PutBack(q) == q;
    }
  }

  lemma DistinctHead(r: seq<Buffer>, u: seq<Buffer>, b: Buffer)
    ensures multiset(r + u + [b]) == multiset(r + ([b] + u))
    ensures Distinct(r + ([b] + u)) ==> Distinct(r + u + [b])
  {
    var y, x := r + u + [b], r + ([b] + u);
    forall i, j | Distinct(x) && 0 <= i < j < |y| ensures y[i] != y[j] {
      var k := if i < |r| then i else if i == |y| - 1 then |r| else i + 1;
      var l := if j < |r| then j else if j == |y| - 1 then |r| else j + 1;
      assert x[k] == y[i] && x[l] == y[j] && k != l;
    }
  }
}
