/** Whole runs of the frame queue of the VBI proxy daemon (daemon/proxyd.c): the queue which all
    clients share does what a queue of its own for every client would do. */
module ProxyQueueRuns {
  import opened ProxyQueue
  import opened ProxyQueueState
  import opened Seqs

  /** All clients of the device are listed once. */
  predicate Listed(q: Queue, cs: seq<Client>) {
    Distinct(cs) && (forall c :: c in q.pos ==> c in cs) && (forall c :: c in cs ==> c in q.pos)
  }

  // ---- Capturing a frame -----------------------------------------------------------

  /** Releasing the first buffer by force, which leaves a buffer unused. */
  lemma ForcedKeeps(q: Queue, cs: seq<Client>)
    requires WellFormed(q) && Listed(q, cs) && q.unused == [] && q.queue != []
    ensures var t := ForceRelease(q, cs);
      && WellFormed(t) && multiset(All(t)) == multiset(All(q)) && t.pos.Keys == q.pos.Keys && t.unused != []
      && t.log == q.log && t.captured == q.captured && t.tmp == q.tmp && t.eligible == q.eligible
      && forall c :: c in q.pos ==> Pending(t, c) == if Loses(q, cs, c) then Rest(Pending(q, c)) else Pending(q, c)
  {
    hide ForceRelease, Holders, InOrder, Loses;
    ForceKeeps(q, cs);
    var t := ForceRelease(q, cs);
    if |q.queue| > 1 {
      ForceFreeLoses(q, cs);
    } else {
      HoldersListed(q, cs);
      ForceEmpties(q, cs);
      SameSize(q, t);
      SameClients(q, cs);
      forall c | c in q.pos
        ensures Pending(t, c) == [] && Pending(t, c) == if Loses(q, cs, c) then Rest(Pending(q, c)) else Pending(q, c)
      {
        OneBuffer(q, t, cs, c);
      }
    }
  }

  lemma SameSize(q: Queue, t: Queue)
    requires multiset(All(t)) == multiset(All(q)) && t.tmp == q.tmp && t.queue == [] && q.queue != []
    ensures t.unused != []
  {
    assert |multiset(All(t))| == |All(t)| && |multiset(All(q))| == |All(q)|;
  }

  lemma {:induction false} SameClients(q: Queue, cs: seq<Client>)
    requires WellFormed(q)
    ensures ForceRelease(q, cs).pos.Keys == q.pos.Keys
    decreases |cs|
  {
    hide WellFormed, ForceStep;
    if cs != [] {
      ForceStepKeeps(q, cs[0]);
      SameClients(ForceStep(q, cs[0]), cs[1..]);
    }
  }

  lemma OneBuffer(q: Queue, t: Queue, cs: seq<Client>, c: Client)
    requires Positions(q) && Positions(t) && |q.queue| == 1 && t.queue == [] && c in q.pos && c in t.pos
    ensures Pending(t, c) == [] && Pending(t, c) == if Loses(q, cs, c) then Rest(Pending(q, c)) else Pending(q, c)
  {}

  /** A client loses a frame only when all buffers are in use. */
  ghost predicate Overtaken(q: Queue, cs: seq<Client>, c: Client)
    requires c in q.pos
  {
    q.unused == [] && Loses(q, cs, c)
  }

  /** The daemon has a buffer to capture into, and there is a frame. */
  ghost predicate Captures(q: Queue, r: ReadResult) {
    r.Data? && All(q) != []
  }

  /** A captured frame goes to the end of the queue of every eligible client, and of no other. Nobody
      loses anything unless all buffers are in use, and then exactly the clients which lose a frame by
      the forced release of the first one. */
  lemma ForwardKeeps(q: Queue, cs: seq<Client>, r: ReadResult)
    requires WellFormed(q) && Listed(q, cs) && q.tmp == []
    ensures var t := Forward(q, cs, r);
      && WellFormed(t) && t.tmp == [] && multiset(All(t)) == multiset(All(q)) && t.pos.Keys == q.pos.Keys
      && t.log == q.log && t.eligible == q.eligible && t.captured == q.captured + (if Captures(q, r) then 1 else 0)
      && forall c :: c in q.pos ==>
           Pending(t, c) == (if Overtaken(q, cs, c) then Rest(Pending(q, c)) else Pending(q, c))
                          + if Captures(q, r) && c in q.eligible then [q.captured] else []
  {
    hide ForceRelease, WellFormed, All, Loses, Append, PutBack, Pending, Positions;
    Parts(q);
    var t := if q.unused == [] && q.queue != [] then ForceRelease(q, cs) else q;
    if q.unused == [] && q.queue != [] { ForcedKeeps(q, cs); }
    Parts(t);
    if q.queue == [] { NothingPending(q); }
    assert All(q) == [] <==> t.unused == [] by { AllEmpty(q); AllEmpty(t); }
    GetFreeKeeps(t);
    var u := GetFree(t);
    if u.tmp != [] {
      Parts(u);
      if r.Data? {
        AppendKeeps(u);
        AppendFields(u);
      } else {
        PutBackKeeps(u);
        PutBackFields(u);
      }
    }
  }

  lemma Parts(q: Queue)
    requires WellFormed(q)
    ensures Positions(q)
  {}

  lemma AllEmpty(q: Queue)
    ensures All(q) == [] <==> q.queue == [] && q.unused == [] && q.tmp == []
  {
    assert |All(q)| == |q.queue| + |q.unused| + |q.tmp|;
  }

  lemma NothingPending(q: Queue)
    requires Positions(q) && q.queue == []
    ensures forall c :: c in q.pos ==> Pending(q, c) == []
  {}

  lemma AppendFields(q: Queue)
    requires q.tmp != []
    ensures var t := Append(q);
      t.log == q.log && t.eligible == q.eligible && t.captured == q.captured + 1 && t.tmp == []
  {}

  lemma PutBackFields(q: Queue)
    ensures var t := PutBack(q);
      t.log == q.log && t.eligible == q.eligible && t.captured == q.captured && t.tmp == [] && t.pos == q.pos
  {}

  // ---- When the loop of the forced release is safe ---------------------------------

  /** With at least two buffers the daemon never compares with the head of an emptied queue, whatever
      the clients of other devices do. */
  lemma TwoBuffersSuffice(q: Queue, cs: seq<Client>, idle: set<Client>)
    requires WellFormed(q) && Distinct(cs) && (forall c :: c in q.pos ==> c in cs)
    requires q.tmp == [] && q.unused == [] && |All(q)| > 1
    ensures !ForceFails(q, cs, idle)
  {
    hide Holders, ForceRelease, ForceFails;
    assert |All(q)| == |q.queue|;
    ForceFailsIff(q, cs, idle);
  }

  /** A device with a single buffer, which client a has not seen. Client b has, or it is of another device. */
  ghost function OneBuffered(a: Client, b: Client, x: Buffer, own: bool): Queue {
    if own then Queue([Item(x, 0)], [], [], map[a := 0, b := 1], {a, b}, map[a := [], b := [0]], 1)
    else Queue([Item(x, 0)], [], [], map[a := 0], {a}, map[a := []], 1)
  }

  lemma OneBufferedPositions(a: Client, b: Client, x: Buffer, own: bool)
    requires a != b
    ensures var q := OneBuffered(a, b, x, own);
      && Positions(q) && Holders(q, 0) == {a} && Pending(q, a) == [0] && (own ==> Pending(q, b) == [])
  {
    var q := OneBuffered(a, b, x, own);
    assert Holders(q, 0) == {a};
    assert Pending(q, a) == [0] && (own ==> Pending(q, b) == []);
  }

  lemma OneBufferedKeeps(a: Client, b: Client, x: Buffer, own: bool)
    requires a != b
    ensures WellFormed(OneBuffered(a, b, x, own)) && |All(OneBuffered(a, b, x, own))| == 1
  {
    hide Holders, Pending, Positions;
    OneBufferedPositions(a, b, x, own);
    assert [] + [0] == [0] && [0] + [] == [0];
    assert Ordered([0], 1);
  }

  /** Then the daemon does so when b is listed after a, and is idle if it is of another device. */
  lemma OneBufferFails(a: Client, b: Client, x: Buffer, own: bool)
    requires a != b
    ensures var q := OneBuffered(a, b, x, own);
      WellFormed(q) && |All(q)| == 1 && ForceFails(q, [a, b], if own then {} else {b})
  {
    hide ForceFails, Holders, Positions, WellFormed, All;
    var q := OneBuffered(a, b, x, own);
    OneBufferedPositions(a, b, x, own);
    OneBufferedKeeps(a, b, x, own);
    assert AfterHolders(q, [a, b], b) by { assert [a, b][1] == b; }
    ForceFailsIff(q, [a, b], if own then {} else {b});
  }

  /** Two buffers, both in use: client a has seen neither frame, client b the first one. */
  ghost function BehindBy(a: Client, b: Client, x: Buffer, y: Buffer): Queue {
    Queue([Item(x, 0), Item(y, 1)], [], [], map[a := 0, b := 1], {a, b}, map[a := [], b := [0]], 2)
  }

  lemma BehindPending(a: Client, b: Client, x: Buffer, y: Buffer)
    requires a != b && x != y
    ensures var q := BehindBy(a, b, x, y);
      && Positions(q) && Holders(q, 0) == {a} && a in Holders(q, 1)
      && Pending(q, a) == [0, 1] && Pending(q, b) == [1]
  {
    var q := BehindBy(a, b, x, y);
    assert Holders(q, 0) == {a} && Holders(q, 1) == {a, b};
    assert Positions(q);
    assert Pending(q, a) == [0, 1] && Pending(q, b) == [1];
  }

  lemma BehindKeeps(a: Client, b: Client, x: Buffer, y: Buffer)
    requires a != b && x != y
    ensures WellFormed(BehindBy(a, b, x, y)) && Listed(BehindBy(a, b, x, y), [a, b])
  {
    hide Holders, Pending, Positions;
    var q := BehindBy(a, b, x, y);
    BehindPending(a, b, x, y);
    assert [] + [0, 1] == [0, 1] && [0] + [1] == [0, 1];
    assert Ordered([0, 1], 2);
    assert BuffersOf(q.queue) == [x, y];
  }

  /** The forced release for a takes the second frame from b, too, though one buffer would do. */
  lemma SecondFrameLost(a: Client, b: Client, x: Buffer, y: Buffer)
    requires a != b && x != y
    ensures var q := BehindBy(a, b, x, y);
      && WellFormed(q) && Listed(q, [a, b]) && Pending(q, a) == [0, 1] && Pending(q, b) == [1]
      && var t := ForceRelease(q, [a, b]);
         Positions(t) && a in t.pos && b in t.pos && Pending(t, a) == [1] && Pending(t, b) == []
  {
    hide ForceRelease, WellFormed, Holders, Pending;
    var q := BehindBy(a, b, x, y);
    BehindPending(a, b, x, y);
    BehindKeeps(a, b, x, y);
    assert AfterHolders(q, [a, b], b) by { assert [a, b][1] == b; }
    ForceFreeLoses(q, [a, b]);
    SameClients(q, [a, b]);
    Parts(ForceRelease(q, [a, b]));
  }

  // ---- Runs --------------------------------------------------------------------------

  datatype Daemon = Daemon(q: Queue, clients: seq<Client>)

  datatype Operation =
    | Capture(r: ReadResult)
    | Deliver(c: Client)
    | Serve(c: Client, services: bool)
    | Close(c: Client)
    | Join(c: Client)
    | Stop

  ghost predicate Good(d: Daemon) {
    WellFormed(d.q) && Listed(d.q, d.clients) && d.q.tmp == []
  }

  /** A frame can be sent to a client which has one pending; services change for a client of the list,
      and a client which joins is a new one. */
  ghost predicate Allowed(d: Daemon, op: Operation)
    requires Good(d)
  {
    match op
    case Capture(_) => true
    case Deliver(c) => c in d.q.pos && d.q.pos[c] < |d.q.queue|
    case Serve(c, _) => c in d.q.pos
    case Close(c) => c in d.q.pos
    case Join(c) => c !in d.q.pos
    case Stop => true
  }

  /** A capture, the sending of one frame, a change of services, which drops the frames of the client,
      a client which leaves or joins, and the end of acquisition. */
  ghost function Apply(d: Daemon, op: Operation): Daemon
    requires Good(d) && Allowed(d, op)
  {
    match op
    case Capture(r) => d.(q := Forward(d.q, d.clients, r))
    case Deliver(c) => d.(q := Send(d.q, c))
    case Serve(c, services) => d.(q := Eligible(Flushed(d.q, c), c, services))
    case Close(c) => d.(q := Eligible(Flushed(d.q, c), c, false))
    case Join(c) => d.(q := Joined(d.q, c), clients := d.clients + [c])
    case Stop => d.(q := Cleared(d.q))
  }

  // ---- A queue for every client --------------------------------------------------------

  /** What every client has still to be sent, and was sent. */
  datatype Private = Private(pending: map<Client, seq<nat>>, log: map<Client, seq<nat>>, eligible: set<Client>,
    captured: nat)

  ghost function View(q: Queue): Private
    requires Positions(q)
  {
    Private(map c | c in q.pos :: Pending(q, c), q.log, q.eligible, q.captured)
  }

  /** The same operations on private queues. With a capture the clients lost are overtaken: each loses
      its first frame. */
  ghost function PrivateApply(v: Private, op: Operation, captures: bool, lost: set<Client>): Private
    requires op.Deliver? ==> op.c in v.pending && op.c in v.log && v.pending[op.c] != []
  {
    match op
    case Capture(_) =>
      v.(pending := map c | c in v.pending ::
           (if c in lost then Rest(v.pending[c]) else v.pending[c]) + if captures && c in v.eligible then [v.captured]
             else [],
         captured := v.captured + if captures then 1 else 0)
    case Deliver(c) => v.(pending := v.pending[c := v.pending[c][1..]], log := v.log[c := v.log[c] + [v.pending[c][0]]])
    case Serve(c, services) =>
      v.(pending := v.pending[c := []], eligible := if services then v.eligible + {c} else v.eligible - {c})
    case Close(c) => v.(pending := v.pending[c := []], eligible := v.eligible - {c})
    case Join(c) => v.(pending := v.pending[c := []], log := v.log[c := []])
    case Stop => v.(pending := map c | c in v.pending :: [])
  }

  /** Whether a capture finds a frame and a buffer, and which clients it overtakes. */
  ghost function Caught(d: Daemon, op: Operation): bool {
    op.Capture? && Captures(d.q, op.r)
  }

  ghost function Lost(d: Daemon, op: Operation): set<Client> {
    if op.Capture? then set c | c in d.q.pos && Overtaken(d.q, d.clients, c) else {}
  }

  /** One step does on the shared queue what it does on private ones, and loses no buffer. */
  ghost predicate Refines(d: Daemon, op: Operation, e: Daemon)
    requires Good(d) && Allowed(d, op)
  {
    && Good(e) && multiset(All(e.q)) == multiset(All(d.q))
    && (op.Deliver? ==> op.c in View(d.q).pending && op.c in View(d.q).log && View(d.q).pending[op.c] != [])
    && View(e.q) == PrivateApply(View(d.q), op, Caught(d, op), Lost(d, op))
  }

  lemma CaptureRefines(d: Daemon, r: ReadResult)
    requires Good(d)
    ensures Refines(d, Capture(r), Apply(d, Capture(r)))
  {
    hide WellFormed, All, Pending, Forward, Loses, Captures, Overtaken;
    Parts(d.q);
    ForwardKeeps(d.q, d.clients, r);
    Parts(Forward(d.q, d.clients, r));
  }

  lemma DeliverRefines(d: Daemon, c: Client)
    requires Good(d) && c in d.q.pos && d.q.pos[c] < |d.q.queue|
    ensures Refines(d, Deliver(c), Apply(d, Deliver(c)))
  {
    hide WellFormed, All, Release, Pending, Send;
    Parts(d.q);
    HasFrames(d.q, c);
    SendKeeps(d.q, c);
    SendFields(d.q, c);
    Parts(Send(d.q, c));
  }

  lemma HasFrames(q: Queue, c: Client)
    requires Positions(q) && c in q.pos && q.pos[c] < |q.queue|
    ensures Pending(q, c) != []
  {}

  lemma SendFields(q: Queue, c: Client)
    requires WellFormed(q) && c in q.pos && q.pos[c] < |q.queue|
    ensures c in q.log && var t := Send(q, c);
      t.pos.Keys == q.pos.Keys && t.eligible == q.eligible && t.captured == q.captured && t.tmp == q.tmp
  {
    hide Holders, InOrder, All, Release;
    SendFacts(q, c);
    ReleaseSame(q, c);
    ReleaseKeeps(q, c);
  }

  lemma ServeKeeps(q: Queue, c: Client, on: bool)
    requires WellFormed(q) && c in q.pos && q.pos[c] == |q.queue|
    ensures WellFormed(Eligible(q, c, on)) && All(Eligible(q, c, on)) == All(q)
    ensures forall d :: d in q.pos ==> Pending(Eligible(q, c, on), d) == Pending(q, d)
  {
    hide Holders, InOrder, Ordered;
    OtherEligible(q, Eligible(q, c, on), c);
    SameParts(q, Eligible(q, c, on));
  }

  lemma ServeRefines(d: Daemon, c: Client, on: bool)
    requires Good(d) && c in d.q.pos
    ensures Refines(d, Serve(c, on), Apply(d, Serve(c, on))) && (!on ==> Refines(d, Close(c), Apply(d, Close(c))))
  {
    hide WellFormed, All, Flushed, Pending, Positions;
    Parts(d.q);
    FlushedKeeps(d.q, c);
    var t := Flushed(d.q, c);
    Parts(t);
    ServeKeeps(t, c, on);
    Parts(Eligible(t, c, on));
  }

  lemma JoinRefines(d: Daemon, c: Client)
    requires Good(d) && c !in d.q.pos
    ensures Refines(d, Join(c), Apply(d, Join(c)))
  {
    hide WellFormed, All, Pending, Holders, Positions;
    Parts(d.q);
    var t := Joined(d.q, c);
    JoinKeeps(d.q, c);
    SameParts(d.q, t);
    Parts(t);
    ListedOneMore(d.q, d.clients, c);
    assert View(t) == PrivateApply(View(d.q), Join(c), false, {}) by { JoinView(d.q, c); }
  }

  lemma JoinView(q: Queue, c: Client)
    requires Positions(q) && Positions(Joined(q, c))
    requires forall d :: d in Joined(q, c).pos ==> Pending(Joined(q, c), d) == if d == c then [] else Pending(q, d)
    ensures View(Joined(q, c)) == PrivateApply(View(q), Join(c), false, {})
  {
    hide Pending, Holders;
  }

  lemma ListedOneMore(q: Queue, cs: seq<Client>, c: Client)
    requires Listed(q, cs) && c !in q.pos
    ensures Listed(Joined(q, c), cs + [c])
  {
    assert forall x :: x in cs + [c] ==> x == c || x in cs;
  }

  lemma StopRefines(d: Daemon)
    requires Good(d)
    ensures Refines(d, Stop, Apply(d, Stop))
  {
    hide WellFormed, All, Pending;
    Parts(d.q);
    ClearKeeps(d.q);
    Parts(Cleared(d.q));
  }

  lemma ApplyRefines(d: Daemon, op: Operation)
    requires Good(d) && Allowed(d, op)
    ensures Refines(d, op, Apply(d, op))
  {
    hide Good, Refines, Apply;
    match op
    case Capture(r) => CaptureRefines(d, r);
    case Deliver(c) => DeliverRefines(d, c);
    case Serve(c, services) => ServeRefines(d, c, services);
    case Close(c) => ServeRefines(d, c, false);
    case Join(c) => JoinRefines(d, c);
    case Stop => StopRefines(d);
  }

  ghost predicate AllAllowed(d: Daemon, ops: seq<Operation>)
    requires Good(d)
    decreases |ops|
  {
    ops != [] ==>
      && Allowed(d, ops[0])
      && (ApplyRefines(d, ops[0]); AllAllowed(Apply(d, ops[0]), ops[1..]))
  }

  ghost function Run(d: Daemon, ops: seq<Operation>): Daemon
    requires Good(d) && AllAllowed(d, ops)
    decreases |ops|
  {
    if ops == [] then d
    else
      ApplyRefines(d, ops[0]);
      Run(Apply(d, ops[0]), ops[1..])
  }

  /** A run on private queues; losses has for every operation whether it captures and whom it overtakes. */
  ghost predicate PrivateRun(v: Private, ops: seq<Operation>, losses: seq<(bool, set<Client>)>, w: Private)
    requires |losses| == |ops|
    decreases |ops|
  {
    if ops == [] then w == v
    else
      && (ops[0].Deliver? ==> ops[0].c in v.pending && ops[0].c in v.log && v.pending[ops[0].c] != [])
      && PrivateRun(PrivateApply(v, ops[0], losses[0].0, losses[0].1), ops[1..], losses[1..], w)
  }

  ghost function Losses(d: Daemon, ops: seq<Operation>): (l: seq<(bool, set<Client>)>)
    requires Good(d) && AllAllowed(d, ops)
    ensures |l| == |ops|
    decreases |ops|
  {
    if ops == [] then []
    else
      ApplyRefines(d, ops[0]);
      [(Caught(d, ops[0]), Lost(d, ops[0]))] + Losses(Apply(d, ops[0]), ops[1..])
  }

  /** Over any run the shared queue is as good as one queue for every client; every client gets frames
      in the order of their capture, none of them twice; and no buffer is lost. */
  lemma {:induction false} RunRefines(d: Daemon, ops: seq<Operation>)
    requires Good(d) && AllAllowed(d, ops)
    ensures var e := Run(d, ops);
      && Good(e) && multiset(All(e.q)) == multiset(All(d.q))
      && PrivateRun(View(d.q), ops, Losses(d, ops), View(e.q))
    decreases |ops|
  {
    hide WellFormed, Listed, Apply, Allowed, PrivateApply, Caught, Lost, All;
    Parts(d.q);
    if ops != [] {
      ApplyRefines(d, ops[0]);
      var e := Apply(d, ops[0]);
      RunRefines(e, ops[1..]);
      Parts(Run(e, ops[1..]).q);
      assert ([(Caught(d, ops[0]), Lost(d, ops[0]))] + Losses(e, ops[1..]))[1..] == Losses(e, ops[1..]);
    } else {
      Parts(Run(d, ops).q);
    }
  }

  /** In a run of a device with at least two buffers no forced release fails. */
  ghost predicate NeverFails(d: Daemon, ops: seq<Operation>)
    requires Good(d) && AllAllowed(d, ops)
    decreases |ops|
  {
    ops != [] ==>
      && (ops[0].Capture? && d.q.unused == [] && d.q.queue != [] ==> !ForceFails(d.q, d.clients, {}))
      && (ApplyRefines(d, ops[0]); NeverFails(Apply(d, ops[0]), ops[1..]))
  }

  lemma IsListed(q: Queue, cs: seq<Client>)
    requires Listed(q, cs)
    ensures Distinct(cs) && forall c :: c in q.pos ==> c in cs
  {}

  lemma {:induction false} RunSafe(d: Daemon, ops: seq<Operation>)
    requires Good(d) && AllAllowed(d, ops) && |All(d.q)| > 1
    ensures NeverFails(d, ops)
    decreases |ops|
  {
    hide WellFormed, Listed, Apply, Allowed, All, ForceFails, PrivateApply;
    if ops != [] {
      ApplyRefines(d, ops[0]);
      var e := Apply(d, ops[0]);
      assert |multiset(All(e.q))| == |All(e.q)| && |multiset(All(d.q))| == |All(d.q)|;
      if d.q.unused == [] {
        IsListed(d.q, d.clients);
        TwoBuffersSuffice(d.q, d.clients, {});
      }
      RunSafe(e, ops[1..]);
    }
  }
}
