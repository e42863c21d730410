/** The channel token of the VBI proxy daemon (daemon/proxyd.c): who may switch the channel
    of a device. */
module ProxyTokenState {
  import opened Common
  import opened Seqs

  datatype Token = NoToken | Reclaim | Release | Grant | Granted | Returned

  const BACKGROUND := 1
  const DEFAULT_PRIO := 2

  class Client {
    var token: Token
    var prio: nat
    var profileValid: bool
    // The client was told that it has the token and has not given it back.
    ghost var holds: bool

    constructor ()
      ensures token == NoToken && prio == DEFAULT_PRIO && !profileValid && !holds
    {
      token, prio, profileValid, holds := NoToken, DEFAULT_PRIO, false, false;
    }
  }

  /** The clients of a device, in the order of the list. */
  datatype State = State(clients: seq<Client>, token: map<Client, Token>, prio: map<Client, nat>, valid: set<Client>,
    holds: set<Client>)

  ghost predicate Formed(s: State) {
    && Distinct(s.clients) && s.prio.Keys == s.token.Keys
    && (forall c :: c in s.clients ==> c in s.token)
    && (forall c :: c in s.token ==> c in s.clients)
  }

  function TokenOf(s: State, c: Client): Token {
    if c in s.token then s.token[c] else NoToken
  }

  function WithToken(s: State, c: Client, t: Token): State {
    s.(token := s.token[c := t])
  }

  /** REQ_CONTROLS_CHN. */
  predicate Controls(t: Token) {
    t == Granted || t == Returned
  }

  /** Only one client has a token state at all. */
  ghost predicate AtMostOne(s: State) {
    forall c, d :: c in s.token && d in s.token && s.token[c] != NoToken && s.token[d] != NoToken ==> c == d
  }

  /** A client which holds the token is the one the daemon knows of. */
  ghost predicate HoldersKnown(s: State) {
    forall c :: c in s.holds ==> c in s.token && s.token[c] in {Reclaim, Release, Grant, Granted}
  }

  // ---- Steps -----------------------------------------------------------------------

  /** vbi_proxyd_get_token_owner, among the clients cs. */
  ghost function Owner(s: State, cs: seq<Client>): (o: Option<Client>)
    ensures o.Some? ==> o.value in cs && TokenOf(s, o.value) != NoToken
    ensures o.None? ==> forall c :: c in cs ==> TokenOf(s, c) == NoToken
  {
    if cs == [] then None
    else if TokenOf(s, cs[0]) != NoToken then Some(cs[0])
    else Owner(s, cs[1..])
  }

  /** vbi_proxyd_token_grant: a grant whose message was not sent yet passes to the new client, a
      token which was returned does too, and any other is reclaimed. */
  ghost function GrantTo(s: State, c: Client): State {
    match TokenOf(s, c)
    case NoToken =>
      var o := Owner(s, s.clients);
      if o.None? then WithToken(s, c, Grant)
      else match TokenOf(s, o.value) {
        case Grant | Returned => WithToken(WithToken(s, c, Grant), o.value, NoToken)
        case Release => s
        case _ => WithToken(s, o.value, Reclaim)
      }
    case Grant => s
    case Reclaim => WithToken(s, c, Granted)
    case Release => WithToken(s, c, Grant)
    case Granted | Returned => s
  }

  /** vbi_proxyd_channel_stopped. */
  function Stop(s: State, c: Client): State {
    WithToken(s, c, if TokenOf(s, c) == Granted then Reclaim else NoToken)
  }

  /** vbi_proxyd_channel_stopped for all clients of cs which control the channel. */
  function StopAll(s: State, cs: seq<Client>): State
    decreases |cs|
  {
    if cs == [] then s else StopAll(if Controls(TokenOf(s, cs[0])) then Stop(s, cs[0]) else s, cs[1..])
  }

  function MaxPrio(s: State, cs: seq<Client>): nat {
    if cs == [] then BACKGROUND
    else
      var m, c := MaxPrio(s, cs[..|cs| - 1]), cs[|cs| - 1];
      if c in s.prio && s.prio[c] > m then s.prio[c] else m
  }

  /** A client which the scheduler may pick. */
  predicate Schedulable(s: State, c: Client) {
    c in s.clients && c in s.valid && c in s.prio && s.prio[c] == BACKGROUND
  }

  /** The client the scheduler finds active, the last of cs. */
  function Active(s: State, cs: seq<Client>): (o: Option<Client>)
    ensures o.Some? ==> o.value in cs && Controls(TokenOf(s, o.value))
  {
    if cs == [] then None
    else
      var c := cs[|cs| - 1];
      if Schedulable(s, c) && Controls(TokenOf(s, c)) then Some(c) else Active(s, cs[..|cs| - 1])
  }

  /** vbi_proxyd_channel_schedule. Which client it picks is not modelled, it may be any. */
  function Schedule(s: State, pick: Option<Client>): State {
    var a := Active(s, s.clients);
    if a.Some? && a != pick then Stop(s, a.value) else s
  }

  /** vbi_proxyd_channel_update, up to the decision about the token. */
  function Prepared(s: State, forced: bool, pick: Option<Client>): State {
    var m := MaxPrio(s, s.clients);
    var t := if m > BACKGROUND || forced then StopAll(s, s.clients) else s;
    if m == BACKGROUND then Schedule(t, pick) else t
  }

  /** vbi_proxyd_channel_update. The token is granted only among background clients. */
  ghost function Update(s: State, forced: bool, pick: Option<Client>): State {
    var t := Prepared(s, forced, pick);
    if MaxPrio(s, s.clients) == BACKGROUND && pick.Some? && !Controls(TokenOf(t, pick.value))
      then GrantTo(t, pick.value) else t
  }

  /** A client asks for the token: what it had is forgotten. */
  function Asked(s: State, c: Client, prio: nat, profileValid: bool): State {
    WithToken(s, c, NoToken).(prio := s.prio[c := prio], valid := if profileValid then s.valid + {c} else s.valid - {c},
                              holds := s.holds - {c})
  }

  /** A client is told that it has the token. */
  function Told(s: State, c: Client): State {
    WithToken(s, c, Granted).(holds := s.holds + {c})
  }

  datatype Message =
    | TokenReq(prio: nat, profileValid: bool)
    | Notify(flush: bool, release: bool, token: bool)
    | ReclaimCnf

  /** The client gives the token back, or up. */
  function GivenBack(s: State, c: Client, m: Message): State {
    match m
    case TokenReq(prio, profileValid) => Asked(s, c, prio, profileValid)
    case Notify(flush, release, token) =>
      if release then WithToken(s, c, NoToken).(valid := s.valid - {c}, holds := s.holds - {c})
      else if token then WithToken(s, c, Returned).(holds := s.holds - {c})
      else s
    case ReclaimCnf =>
      if TokenOf(s, c) == Release then WithToken(s, c, NoToken).(holds := s.holds - {c}) else s.(holds := s.holds - {c})
  }

  /** The message changes the channel, and by force. */
  predicate Updates(s: State, c: Client, m: Message) {
    match m
    case TokenReq(_, _) => true
    case Notify(flush, release, token) => flush || (release && TokenOf(s, c) != NoToken) || (!release && token)
    case ReclaimCnf => TokenOf(s, c) == Release
  }

  predicate Forces(s: State, c: Client, m: Message) {
    m.Notify? && m.flush && !Controls(TokenOf(s, c))
  }

  /** vbi_proxyd_take_message. */
  ghost function Take(s: State, c: Client, m: Message, pick: Option<Client>): State {
    var t := GivenBack(s, c, m);
    var u := if Updates(s, c, m) then Update(t, Forces(s, c, m), pick) else t;
    if m.TokenReq? && TokenOf(u, c) == Grant then Told(u, c) else u
  }

  /** The messages which the daemon sends when a client is idle. */
  function SendTo(s: State, c: Client): State {
    match TokenOf(s, c)
    case Reclaim => WithToken(s, c, Release)
    case Grant => Told(s, c)
    case _ => s
  }

  function Without(cs: seq<Client>, c: Client): seq<Client> {
    if cs == [] then [] else if cs[0] == c then Without(cs[1..], c) else [cs[0]] + Without(cs[1..], c)
  }

  /** A new client is at the end of the list. */
  function Joined(s: State, c: Client): State {
    s.(clients := s.clients + [c], token := s.token[c := NoToken], prio := s.prio[c := DEFAULT_PRIO])
  }

  /** The connection to a client is closed. */
  function Gone(s: State, c: Client): State {
    State(Without(s.clients, c), s.token - {c}, s.prio - {c}, s.valid - {c}, s.holds - {c})
  }

  // ---- One token -------------------------------------------------------------------------

  lemma OwnerIs(s: State, c: Client)
    requires Formed(s) && AtMostOne(s) && c in s.token && s.token[c] != NoToken
    ensures Owner(s, s.clients) == Some(c)
  {}

  /** A grant never makes two clients have a token. */
  lemma GrantKeeps(s: State, c: Client)
    requires Formed(s) && AtMostOne(s) && c in s.clients
    ensures Formed(GrantTo(s, c)) && AtMostOne(GrantTo(s, c))
    ensures GrantTo(s, c).clients == s.clients && GrantTo(s, c).holds == s.holds && GrantTo(s, c).prio == s.prio
  {
    hide Owner, Formed, AtMostOne;
    if TokenOf(s, c) == NoToken {
      hide GrantTo;
      NewGrantKeeps(s, c);
    } else {
      InFormed(s, c);
      var t := GrantTo(s, c);
      if t != s { OneTokenKeeps(s, t, c); }
    }
  }

  lemma InFormed(s: State, c: Client)
    requires Formed(s) && c in s.clients
    ensures c in s.token && c in s.prio
  {
    hide Distinct;
  }

  lemma NewGrantKeeps(s: State, c: Client)
    requires Formed(s) && AtMostOne(s) && c in s.clients && TokenOf(s, c) == NoToken
    ensures Formed(GrantTo(s, c)) && AtMostOne(GrantTo(s, c))
    ensures GrantTo(s, c).clients == s.clients && GrantTo(s, c).holds == s.holds && GrantTo(s, c).prio == s.prio
  {
    hide Owner, Distinct;
    var o := Owner(s, s.clients);
    if o.Some? {
      OwnerIs(s, o.value);
      OthersNone(s, o.value);
    }
  }

  lemma OthersNone(s: State, c: Client)
    requires AtMostOne(s) && TokenOf(s, c) != NoToken
    ensures forall d :: d in s.token && d != c ==> s.token[d] == NoToken
  {}

  /** The token passes to client c although the client which was granted it before still holds it. */
  ghost predicate TakesOver(s: State, c: Client) {
    TokenOf(s, c) == NoToken && exists d :: d in s.holds && d in s.token && s.token[d] == Grant
  }

  /** A grant leaves every holder known to the daemon unless it takes a grant away from a client
      which has not confirmed the reclaim before that grant. */
  lemma GrantHoldersIff(s: State, c: Client)
    requires Formed(s) && AtMostOne(s) && HoldersKnown(s) && c in s.clients
    ensures HoldersKnown(GrantTo(s, c)) <==> !TakesOver(s, c)
  {
    hide Owner;
    var t, o := GrantTo(s, c), Owner(s, s.clients);
    if TokenOf(s, c) == NoToken {
      if o.Some? {
        OwnerIs(s, o.value);
        var d := o.value;
        if TokenOf(s, d) == Grant && d in s.holds {
          assert t.token[d] == NoToken;
        }
      }
      if e :| e in s.holds && e in s.token && s.token[e] == Grant { OwnerIs(s, e); }
    }
  }

  lemma StopKeeps(s: State, c: Client)
    requires Formed(s) && AtMostOne(s) && c in s.clients && Controls(TokenOf(s, c))
    ensures Formed(Stop(s, c)) && AtMostOne(Stop(s, c)) && (HoldersKnown(s) ==> HoldersKnown(Stop(s, c)))
    ensures forall d :: d in s.token && s.token[d] == NoToken ==> Stop(s, c).token[d] == NoToken
  {}

  lemma {:induction false} StopAllKeeps(s: State, cs: seq<Client>)
    requires Formed(s) && AtMostOne(s) && forall c :: c in cs ==> c in s.clients
    ensures var t := StopAll(s, cs);
      && Formed(t) && AtMostOne(t) && (HoldersKnown(s) ==> HoldersKnown(t)) && t == s.(token := t.token)
    decreases |cs|
  {
    if cs != [] {
      if Controls(TokenOf(s, cs[0])) { StopKeeps(s, cs[0]); }
      StopAllKeeps(if Controls(TokenOf(s, cs[0])) then Stop(s, cs[0]) else s, cs[1..]);
    }
  }

  lemma ScheduleKeeps(s: State, pick: Option<Client>)
    requires Formed(s) && AtMostOne(s)
    ensures var t := Schedule(s, pick);
      Formed(t) && AtMostOne(t) && (HoldersKnown(s) ==> HoldersKnown(t)) && t == s.(token := t.token)
  {
    hide Active, HoldersKnown, Distinct;
    var a := Active(s, s.clients);
    if a.Some? { StopKeeps(s, a.value); }
  }

  lemma PreparedKeeps(s: State, forced: bool, pick: Option<Client>)
    requires Formed(s) && AtMostOne(s)
    ensures var t := Prepared(s, forced, pick);
      Formed(t) && AtMostOne(t) && (HoldersKnown(s) ==> HoldersKnown(t)) && t == s.(token := t.token)
  {
    hide StopAll, HoldersKnown, Formed, AtMostOne, Schedule, MaxPrio;
    StopAllKeeps(s, s.clients);
    ScheduleKeeps(if MaxPrio(s, s.clients) > BACKGROUND || forced then StopAll(s, s.clients) else s, pick);
  }

  /** The update would take the token over from a holder. */
  ghost predicate UpdateTakesOver(s: State, forced: bool, pick: Option<Client>) {
    MaxPrio(s, s.clients) == BACKGROUND && pick.Some? && TakesOver(Prepared(s, forced, pick), pick.value)
  }

  lemma UpdateKeeps(s: State, forced: bool, pick: Option<Client>)
    requires Formed(s) && AtMostOne(s) && (pick.Some? ==> pick.value in s.clients)
    ensures Formed(Update(s, forced, pick)) && AtMostOne(Update(s, forced, pick))
      && Update(s, forced, pick).clients == s.clients
    ensures Update(s, forced, pick).holds == s.holds
    ensures HoldersKnown(s) ==> (HoldersKnown(Update(s, forced, pick)) <==> !UpdateTakesOver(s, forced, pick))
  {
    hide Prepared, GrantTo, MaxPrio, HoldersKnown;
    PreparedKeeps(s, forced, pick);
    var t := Prepared(s, forced, pick);
    if pick.Some? {
      GrantKeeps(t, pick.value);
      if HoldersKnown(t) { GrantHoldersIff(t, pick.value); }
    }
  }

  // ---- What an update does --------------------------------------------------------------------

  /** The highest of the priorities, or the lowest there is. */
  lemma {:induction false} MaxPrioIs(s: State, cs: seq<Client>)
    ensures var m := MaxPrio(s, cs);
      && m >= BACKGROUND && (forall c :: c in cs && c in s.prio ==> s.prio[c] <= m)
      && (m == BACKGROUND || exists c :: c in cs && c in s.prio && s.prio[c] == m)
  {
    if cs != [] {
      MaxPrioIs(s, cs[..|cs| - 1]);
      assert forall c :: c in cs ==> c in cs[..|cs| - 1] || c == cs[|cs| - 1];
    }
  }

  /** Some client of the device has more than background priority. */
  ghost predicate Foreground(s: State) {
    exists c :: c in s.clients && c in s.prio && s.prio[c] > BACKGROUND
  }

  lemma ForegroundIff(s: State)
    ensures Foreground(s) <==> MaxPrio(s, s.clients) > BACKGROUND
  {
    MaxPrioIs(s, s.clients);
  }

  /** The token state of a client which no longer controls the channel. */
  function Stopped(t: Token): Token {
    if t == Granted then Reclaim else if t == Returned then NoToken else t
  }

  lemma {:induction false} StopAllIs(s: State, cs: seq<Client>)
    ensures var t := StopAll(s, cs);
      && t.token.Keys == s.token.Keys && t == s.(token := t.token)
      && forall c :: c in s.token ==> t.token[c] == if c in cs then Stopped(s.token[c]) else s.token[c]
    decreases |cs|
  {
    if cs != [] {
      var u := if Controls(TokenOf(s, cs[0])) then Stop(s, cs[0]) else s;
      StopAllIs(u, cs[1..]);
      assert forall c :: c in cs ==> c == cs[0] || c in cs[1..];
    }
  }

  /** While a client has more than background priority, an update takes the control away from whoever has it
      and grants the token to nobody. */
  lemma ForegroundUpdate(s: State, forced: bool, pick: Option<Client>)
    requires Formed(s) && Foreground(s)
    ensures var t := Update(s, forced, pick);
      && t == s.(token := t.token) && t.token.Keys == s.token.Keys
      && forall c :: c in s.token ==> t.token[c] == Stopped(s.token[c]) && !Controls(t.token[c])
  {
    hide Schedule, GrantTo, MaxPrio, StopAll, Foreground;
    ForegroundIff(s);
    StopAllIs(s, s.clients);
  }

  lemma OnlyOwner(s: State, o: Client)
    requires Formed(s) && AtMostOne(s) && TokenOf(s, o) != NoToken
    ensures Owner(s, s.clients) == Some(o)
    ensures Active(s, s.clients) == if Schedulable(s, o) && Controls(TokenOf(s, o)) then Some(o) else None
    ensures Stop(s, o).token == s.token[o := if TokenOf(s, o) == Granted then Reclaim else NoToken]
  {
    hide Owner, Distinct;
    OwnerIs(s, o);
    OthersNone(s, o);
    OnlyActive(s, s.clients, o);
  }

  lemma {:induction false} OnlyActive(s: State, cs: seq<Client>, o: Client)
    requires forall c :: c in cs && c != o ==> TokenOf(s, c) == NoToken
    ensures Active(s, cs) == if o in cs && Schedulable(s, o) && Controls(TokenOf(s, o)) then Some(o) else None
  {
    if cs != [] {
      OnlyActive(s, cs[..|cs| - 1], o);
      assert forall c :: c in cs ==> c in cs[..|cs| - 1] || c == cs[|cs| - 1];
    }
  }

  lemma {:induction false} NoneActive(s: State, cs: seq<Client>)
    requires forall c :: c in cs ==> TokenOf(s, c) == NoToken
    ensures Active(s, cs) == None && Owner(s, cs) == None
  {
    if cs != [] {
      NoneActive(s, cs[..|cs| - 1]);
      assert Owner(s, cs) == None;
    }
  }

  /** When nobody has the token it is granted to the client picked. */
  lemma FreeTokenGranted(s: State, forced: bool, p: Client)
    requires Formed(s) && !Foreground(s) && p in s.clients && forall c :: c in s.token ==> s.token[c] == NoToken
    ensures Update(s, forced, Some(p)) == s.(token := s.token[p := Grant])
  {
    hide MaxPrio, StopAll, Active, Owner, Foreground, Distinct;
    MaxPrioIs(s, s.clients);
    ForegroundIff(s);
    StopAllIs(s, s.clients);
    assert StopAll(s, s.clients).token == s.token;
    NoneActive(s, s.clients);
  }

  /** What becomes of the token when the scheduler picks client p and client o has the token: o keeps it, gets back
      what was about to be reclaimed, loses a grant nobody told it of or what it returned, or has to give it back. */
  function Passed(t: map<Client, Token>, o: Client, p: Client): map<Client, Token>
    requires o in t
  {
    if p == o then t[o := match t[o] case Reclaim => Granted case Release => Grant case x => x]
    else match t[o]
      case Grant | Returned => t[o := NoToken][p := Grant]
      case Granted => t[o := Reclaim]
      case _ => t
  }

  lemma TokenPasses(s: State, o: Client, p: Client)
    requires Formed(s) && AtMostOne(s) && !Foreground(s) && p in s.clients && TokenOf(s, o) != NoToken
    ensures Update(s, false, Some(p)) == s.(token := Passed(s.token, o, p))
  {
    hide MaxPrio, StopAll, Active, Owner, Foreground, Distinct;
    MaxPrioIs(s, s.clients);
    ForegroundIff(s);
    OnlyOwner(s, o);
    OthersNone(s, o);
    var t := Schedule(s, Some(p));
    if t == s {
      GrantPasses(s, o, p);
    } else {
      assert t == Stop(s, o) && p != o;
      StopKeeps(s, o);
      if TokenOf(t, o) == NoToken { NoneActive(t, t.clients); } else { GrantPasses(t, o, p); }
    }
  }

  lemma GrantPasses(s: State, o: Client, p: Client)
    requires Formed(s) && AtMostOne(s) && p in s.clients && TokenOf(s, o) != NoToken
    ensures GrantTo(s, p) == s.(token := Passed(s.token, o, p))
  {
    hide Owner, Distinct;
    OnlyOwner(s, o);
    OthersNone(s, o);
  }

  /** When no client is picked, a client of background priority with a valid profile which controls the channel
      loses it. */
  lemma NothingPicked(s: State, o: Client)
    requires Formed(s) && AtMostOne(s) && !Foreground(s) && TokenOf(s, o) != NoToken
    ensures o in s.prio && Update(s, false, None)
      == if o in s.valid && s.prio[o] == BACKGROUND then s.(token := s.token[o := Stopped(TokenOf(s, o))]) else s
  {
    hide MaxPrio, StopAll, Active, Owner, Foreground, Distinct;
    MaxPrioIs(s, s.clients);
    ForegroundIff(s);
    OnlyOwner(s, o);
  }

  /** After a forced switch everything is as if nobody had controlled the channel before. */
  lemma ForcedUpdate(s: State, pick: Option<Client>)
    requires Formed(s)
    ensures var t := s.(token := map c | c in s.token :: Stopped(s.token[c]));
      Update(s, true, pick) == Update(t, false, pick)
  {
    var t := s.(token := map c | c in s.token :: Stopped(s.token[c]));
    assert t.token.Keys == s.token.Keys && forall c :: c in s.token ==> t.token[c] == Stopped(s.token[c]);
    hide StopAll, GrantTo, Schedule, Formed, MaxPrio, Stopped;
    AllStopped(s, t);
    SameMax(s, t, s.clients);
  }

  lemma AllStopped(s: State, t: State)
    requires Formed(s) && t == s.(token := t.token) && t.token.Keys == s.token.Keys
    requires forall c :: c in s.token ==> t.token[c] == Stopped(s.token[c])
    ensures StopAll(s, s.clients) == t && StopAll(t, t.clients) == t
  {
    hide StopAll, Formed;
    StopAllStops(s);
    SameMap(StopAll(s, s.clients).token, t.token);
    assert Formed(t) by { SameFormed(s, t); }
    StopAllStops(t);
    SameMap(StopAll(t, t.clients).token, t.token);
  }

  lemma StopAllStops(s: State)
    requires Formed(s)
    ensures var t := StopAll(s, s.clients);
      && t == s.(token := t.token) && t.token.Keys == s.token.Keys
      && forall c :: c in s.token ==> t.token[c] == Stopped(s.token[c])
  {
    hide StopAll, Distinct, Stopped;
    StopAllIs(s, s.clients);
  }

  lemma SameFormed(s: State, t: State)
    requires Formed(s) && t == s.(token := t.token) && t.token.Keys == s.token.Keys
    ensures Formed(t)
  {
    hide Distinct;
  }

  lemma SameMap(a: map<Client, Token>, b: map<Client, Token>)
    requires a.Keys == b.Keys && forall c :: c in a ==> a[c] == b[c]
    ensures a == b
  {}

  lemma {:induction false} SameMax(s: State, t: State, cs: seq<Client>)
    requires t.prio == s.prio
    ensures MaxPrio(t, cs) == MaxPrio(s, cs)
  {
    if cs != [] { SameMax(s, t, cs[..|cs| - 1]); }
  }

  // ---- Whole runs ---------------------------------------------------------------------------

  datatype Event =
    | Receive(c: Client, m: Message, pick: Option<Client>)
    | Idle(c: Client)
    | Alarm(pick: Option<Client>)
    | Close(c: Client, pick: Option<Client>)
    | Join(c: Client)

  /** Clients return the token only when it is theirs, or nobody's. The daemon does not check this. */
  ghost predicate WellBehaved(s: State, e: Event) {
    match e
    case Receive(c, m, pick) =>
      && c in s.clients && (pick.Some? ==> pick.value in s.clients)
      && (m.Notify? && m.token && !m.release ==> forall d :: d in s.token && d != c ==> s.token[d] == NoToken)
    case Idle(c) => c in s.clients
    case Alarm(pick) => pick.Some? ==> pick.value in s.clients
    case Close(c, pick) => c in s.clients && (pick.Some? ==> pick.value in s.clients && pick.value != c)
    case Join(c) => c !in s.clients
  }

  ghost function Apply(s: State, e: Event): State {
    match e
    case Receive(c, m, pick) => Take(s, c, m, pick)
    case Idle(c) => SendTo(s, c)
    case Alarm(pick) => Update(s, false, pick)
    case Close(c, pick) => Update(Gone(s, c), false, pick)
    case Join(c) => Joined(s, c)
  }

  /** The event takes the token over from a client which still holds it. */
  ghost predicate Overlaps(s: State, e: Event) {
    match e
    case Receive(c, m, pick) => Updates(s, c, m) && UpdateTakesOver(GivenBack(s, c, m), Forces(s, c, m), pick)
    case Idle(c) => false
    case Alarm(pick) => UpdateTakesOver(s, false, pick)
    case Close(c, pick) => UpdateTakesOver(Gone(s, c), false, pick)
    case Join(c) => false
  }

  /** A notification that the token was returned keeps the token unique if and only if it comes from
      its owner, or nobody has it. */
  lemma ReturnKeepsIff(s: State, c: Client)
    requires Formed(s) && AtMostOne(s) && c in s.clients
    ensures AtMostOne(GivenBack(s, c, Notify(false, false, true)))
       <==> forall d :: d in s.token && d != c ==> s.token[d] == NoToken
  {
    var t := GivenBack(s, c, Notify(false, false, true));
    assert t.token[c] == Returned;
    forall d | AtMostOne(t) && d in s.token && d != c ensures s.token[d] == NoToken { assert t.token[d] == s.token[d]; }
  }

  lemma HoldersStill(s: State, c: Client, t: State)
    requires HoldersKnown(s) && t.holds == s.holds - {c}
      && (forall d :: d in s.token && d != c ==> d in t.token && t.token[d] == s.token[d])
    ensures HoldersKnown(t)
  {}

  /** The token state of one client changed, and perhaps its priority. */
  lemma OneTokenKeeps(s: State, t: State, c: Client)
    requires Formed(s) && AtMostOne(s) && c in s.clients && t.clients == s.clients
    requires c in t.token && t.token == s.token[c := t.token[c]] && t.prio.Keys == s.prio.Keys
    requires t.token[c] != NoToken && TokenOf(s, c) == NoToken ==>
      forall d :: d in s.token && d != c ==> s.token[d] == NoToken
    ensures Formed(t) && AtMostOne(t)
  {
    hide Distinct;
    if TokenOf(s, c) != NoToken { OthersNone(s, c); }
  }

  lemma GivenBackToken(s: State, c: Client, m: Message)
    requires Formed(s) && c in s.clients
    ensures var t := GivenBack(s, c, m);
      && t.clients == s.clients && c in t.token && t.token == s.token[c := t.token[c]] && t.prio.Keys == s.prio.Keys
      && (t.token[c] != NoToken ==> t.token[c] == s.token[c] || (m.Notify? && m.token && !m.release))
      && (t.holds == s.holds - {c} || t == s)
  {
    hide Distinct;
  }

  lemma GivenBackKeeps(s: State, c: Client, m: Message)
    requires Formed(s) && AtMostOne(s) && c in s.clients
    requires m.Notify? && m.token && !m.release ==> forall d :: d in s.token && d != c ==> s.token[d] == NoToken
    ensures var t := GivenBack(s, c, m);
      Formed(t) && AtMostOne(t) && t.clients == s.clients && (HoldersKnown(s) ==> HoldersKnown(t))
  {
    GivenBackToken(s, c, m);
    hide Formed, HoldersKnown, AtMostOne, GivenBack;
    var t := GivenBack(s, c, m);
    OneTokenKeeps(s, t, c);
    if HoldersKnown(s) && t != s { HoldersStill(s, c, t); }
  }

  lemma ToldKeeps(s: State, c: Client)
    requires Formed(s) && AtMostOne(s) && TokenOf(s, c) == Grant
    ensures Formed(Told(s, c)) && AtMostOne(Told(s, c)) && (HoldersKnown(Told(s, c)) <==> HoldersKnown(s))
  {
    var t := Told(s, c);
    if HoldersKnown(t) {
      forall d | d in s.holds ensures d in s.token && s.token[d] in {Reclaim, Release, Grant, Granted} {
        assert d in t.holds;
      }
    }
  }

  lemma {:induction false} WithoutIs(cs: seq<Client>, c: Client)
    requires Distinct(cs)
    ensures Distinct(Without(cs, c)) && forall d :: d in Without(cs, c) ==> d in cs && d != c
    ensures forall d :: d in cs && d != c ==> d in Without(cs, c)
  {
    if cs != [] {
      WithoutIs(cs[1..], c);
      var r := Without(cs[1..], c);
      assert cs[0] !in cs[1..] && cs[0] !in r;
      assert Distinct([cs[0]] + r);
    }
  }

  lemma GoneKeeps(s: State, c: Client)
    requires Formed(s) && AtMostOne(s)
    ensures Formed(Gone(s, c)) && AtMostOne(Gone(s, c)) && (HoldersKnown(s) ==> HoldersKnown(Gone(s, c)))
    ensures forall d :: d in s.clients && d != c ==> d in Gone(s, c).clients
  {
    hide Without;
    WithoutIs(s.clients, c);
  }

  lemma JoinedKeeps(s: State, c: Client)
    requires Formed(s) && AtMostOne(s) && c !in s.clients
    ensures Formed(Joined(s, c)) && AtMostOne(Joined(s, c)) && (HoldersKnown(s) ==> HoldersKnown(Joined(s, c)))
  {
    assert forall d :: d in s.clients + [c] ==> d in s.clients || d == c;
    assert (s.clients + [c])[|s.clients|] == c;
    assert forall i :: 0 <= i < |s.clients| ==> s.clients[i] in s.clients;
  }

  /** Every event keeps the token unique. It keeps all holders known to the daemon if and only if it does not
      take the token over from one of them. */
  lemma ApplyKeeps(s: State, e: Event)
    requires Formed(s) && AtMostOne(s) && WellBehaved(s, e)
    ensures Formed(Apply(s, e)) && AtMostOne(Apply(s, e))
    ensures HoldersKnown(s) ==> (HoldersKnown(Apply(s, e)) <==> !Overlaps(s, e))
  {
    hide Formed, AtMostOne, Update, UpdateTakesOver, GivenBack, Told, Updates, Forces, Gone, Joined, HoldersKnown;
    match e
    case Receive(c, m, pick) =>
      GivenBackKeeps(s, c, m);
      var t := GivenBack(s, c, m);
      if Updates(s, c, m) { UpdateKeeps(t, Forces(s, c, m), pick); }
      var u := if Updates(s, c, m) then Update(t, Forces(s, c, m), pick) else t;
      if m.TokenReq? && TokenOf(u, c) == Grant { ToldKeeps(u, c); }
    case Idle(c) =>
      if TokenOf(s, c) == Grant { ToldKeeps(s, c); } else if TokenOf(s, c) == Reclaim { ReclaimSent(s, c); }
    case Alarm(pick) => UpdateKeeps(s, false, pick);
    case Close(c, pick) =>
      GoneKeeps(s, c);
      UpdateKeeps(Gone(s, c), false, pick);
    case Join(c) => JoinedKeeps(s, c);
  }

  lemma ReclaimSent(s: State, c: Client)
    requires Formed(s) && AtMostOne(s) && TokenOf(s, c) == Reclaim
    ensures Formed(SendTo(s, c)) && AtMostOne(SendTo(s, c)) && (HoldersKnown(s) ==> HoldersKnown(SendTo(s, c)))
  {}

  /** All clients behave well. */
  ghost predicate Polite(s: State, es: seq<Event>)
    decreases |es|
  {
    es != [] ==> WellBehaved(s, es[0]) && Polite(Apply(s, es[0]), es[1..])
  }

  /** The daemon takes the token over from nobody. */
  ghost predicate Orderly(s: State, es: seq<Event>)
    decreases |es|
  {
    es != [] ==> !Overlaps(s, es[0]) && Orderly(Apply(s, es[0]), es[1..])
  }

  ghost function Run(s: State, es: seq<Event>): State
    decreases |es|
  {
    if es == [] then s else Run(Apply(s, es[0]), es[1..])
  }

  /** In every run of well-behaved clients, whatever the scheduler picks, at most one client has a
      token state. */
  lemma {:induction false} RunUnique(s: State, es: seq<Event>)
    requires Formed(s) && AtMostOne(s) && Polite(s, es)
    ensures Formed(Run(s, es)) && AtMostOne(Run(s, es))
    decreases |es|
  {
    hide Apply, WellBehaved, Overlaps, Formed, AtMostOne;
    if es != [] {
      ApplyKeeps(s, es[0]);
      RunUnique(Apply(s, es[0]), es[1..]);
    }
  }

  lemma {:induction false} RunKnows(s: State, es: seq<Event>)
    requires Formed(s) && AtMostOne(s) && HoldersKnown(s) && Polite(s, es) && Orderly(s, es)
    ensures HoldersKnown(Run(s, es))
    decreases |es|
  {
    hide Apply, WellBehaved, Overlaps, Formed, AtMostOne, HoldersKnown;
    if es != [] {
      ApplyKeeps(s, es[0]);
      RunKnows(Apply(s, es[0]), es[1..]);
    }
  }

  /** Without a takeover at most one client holds the token. */
  lemma RunKeeps(s: State, es: seq<Event>)
    requires Formed(s) && AtMostOne(s) && HoldersKnown(s) && Polite(s, es) && Orderly(s, es)
    ensures HoldersKnown(Run(s, es)) && forall c, d :: c in Run(s, es).holds && d in Run(s, es).holds ==> c == d
  {
    hide Run, Polite, Orderly;
    RunUnique(s, es);
    RunKnows(s, es);
  }

  /** Two clients of background priority. */
  function Pair(a: Client, b: Client, ta: Token, tb: Token, holds: set<Client>): State {
    State([a, b], map[a := ta, b := tb], map[a := BACKGROUND, b := BACKGROUND], {a, b}, holds)
  }

  lemma PairIs(a: Client, b: Client, s: State)
    requires a != b && s == Pair(a, b, TokenOf(s, a), TokenOf(s, b), s.holds)
    ensures MaxPrio(s, [a, b]) == BACKGROUND && Schedulable(s, a) && Schedulable(s, b)
    ensures Active(s, [a, b]) == if Controls(TokenOf(s, b)) then Some(b) else if Controls(TokenOf(s, a)) then Some(a)
      else None
    ensures Owner(s, [a, b])
         == if TokenOf(s, a) != NoToken then Some(a) else if TokenOf(s, b) != NoToken then Some(b) else None
  {
    assert [a, b][..1] == [a] && [a][..0] == [] && [a, b][1..] == [b] && [b][1..] == [];
    assert MaxPrio(s, [a]) == BACKGROUND;
    assert Active(s, [a]) == if Controls(TokenOf(s, a)) then Some(a) else None;
    assert Owner(s, [b]) == if TokenOf(s, b) != NoToken then Some(b) else None;
  }

  /** Nobody controls the channel: the token is granted to the client picked. */
  lemma PairUpdates(a: Client, b: Client, ta: Token, tb: Token, holds: set<Client>, pick: Client)
    requires a != b && !Controls(ta) && !Controls(tb) && (pick == a || pick == b)
    ensures Update(Pair(a, b, ta, tb, holds), false, Some(pick)) == GrantTo(Pair(a, b, ta, tb, holds), pick)
    ensures Prepared(Pair(a, b, ta, tb, holds), false, Some(pick)) == Pair(a, b, ta, tb, holds)
  {
    hide MaxPrio, Active, GrantTo;
    PairIs(a, b, Pair(a, b, ta, tb, holds));
  }

  /** Client a has the token, and client b is picked: the token is reclaimed. */
  lemma PairReclaims(a: Client, b: Client, holds: set<Client>)
    requires a != b
    ensures Update(Pair(a, b, Granted, NoToken, holds), false, Some(b)) == Pair(a, b, Reclaim, NoToken, holds)
  {
    hide MaxPrio, Active, Owner;
    var s, t := Pair(a, b, Granted, NoToken, holds), Pair(a, b, Reclaim, NoToken, holds);
    PairIs(a, b, s);
    PairIs(a, b, t);
    assert Stop(s, a) == t;
    assert GrantTo(t, b) == t;
  }

  /** The daemon before the first connection. */
  const NOBODY := State([], map[], map[], {}, {})

  /** Two clients connect, with the default priority. */
  function Connected(a: Client, b: Client, pa: nat, pb: nat, valid: set<Client>): State {
    State([a, b], map[a := NoToken, b := NoToken], map[a := pa, b := pb], valid, {})
  }

  /** The first one asks for the token. The second one still has the default priority, so nothing
      is granted. */
  lemma FirstAsks(a: Client, b: Client)
    requires a != b
    ensures Joined(Joined(NOBODY, a), b) == Connected(a, b, DEFAULT_PRIO, DEFAULT_PRIO, {})
    ensures Take(Connected(a, b, DEFAULT_PRIO, DEFAULT_PRIO, {}), a, TokenReq(BACKGROUND, true), None)
      == Connected(a, b, BACKGROUND, DEFAULT_PRIO, {a})
  {
    var s, t := Connected(a, b, DEFAULT_PRIO, DEFAULT_PRIO, {}), Connected(a, b, BACKGROUND, DEFAULT_PRIO, {a});
    assert [] + [a] == [a] && [a] + [b] == [a, b];
    assert Joined(NOBODY, a) == State([a], map[a := NoToken], map[a := DEFAULT_PRIO], {}, {});
    assert Asked(s, a, BACKGROUND, true) == t;
    assert [a, b][..1] == [a] && [a, b][1..] == [b] && [b][1..] == [];
    assert MaxPrio(t, [a, b]) == DEFAULT_PRIO by { assert MaxPrio(t, [a]) == BACKGROUND; }
    assert StopAll(t, [a, b]) == StopAll(t, [b]) == t;
  }

  lemma NobodyHas(a: Client, b: Client)
    requires a != b
    ensures Asked(Connected(a, b, BACKGROUND, DEFAULT_PRIO, {a}), b, BACKGROUND, true)
      == Pair(a, b, NoToken, NoToken, {})
  {}

  lemma FirstGranted(a: Client, b: Client)
    requires a != b
    ensures GrantTo(Pair(a, b, NoToken, NoToken, {}), a) == Pair(a, b, Grant, NoToken, {})
  {
    hide Owner, MaxPrio, Active;
    PairIs(a, b, Pair(a, b, NoToken, NoToken, {}));
  }

  /** The second one asks, too, and the first one is picked. */
  lemma SecondAsks(a: Client, b: Client)
    requires a != b
    ensures Take(Connected(a, b, BACKGROUND, DEFAULT_PRIO, {a}), b, TokenReq(BACKGROUND, true), Some(a))
      == Pair(a, b, Grant, NoToken, {})
  {
    hide Update, GrantTo, Asked, Prepared;
    NobodyHas(a, b);
    FirstGranted(a, b);
    PairUpdates(a, b, NoToken, NoToken, {}, a);
  }

  /** The first one is told, and later asked to release the token. */
  lemma FirstTold(a: Client, b: Client)
    requires a != b
    ensures SendTo(Pair(a, b, Grant, NoToken, {}), a) == Pair(a, b, Granted, NoToken, {a})
    ensures SendTo(Pair(a, b, Reclaim, NoToken, {a}), a) == Pair(a, b, Release, NoToken, {a})
  {
    assert {} + {a} == {a};
    assert map[a := Grant, b := NoToken][a := Granted] == map[a := Granted, b := NoToken];
    assert map[a := Reclaim, b := NoToken][a := Release] == map[a := Release, b := NoToken];
  }

  lemma MindChanges(a: Client, b: Client)
    requires a != b
    ensures Update(Pair(a, b, Release, NoToken, {a}), false, Some(a)) == Pair(a, b, Grant, NoToken, {a})
    ensures var s := Pair(a, b, Grant, NoToken, {a});
      && UpdateTakesOver(s, false, Some(b)) && Update(s, false, Some(b)) == Pair(a, b, NoToken, Grant, {a})
      && SendTo(Update(s, false, Some(b)), b).holds == {a, b}
  {
    hide Update, MaxPrio, Owner, Prepared;
    PairUpdates(a, b, Release, NoToken, {a}, a);
    var s := Pair(a, b, Grant, NoToken, {a});
    assert GrantTo(Pair(a, b, Release, NoToken, {a}), a) == s;
    PairUpdates(a, b, Grant, NoToken, {a}, b);
    PairIs(a, b, s);
    assert GrantTo(s, b) == Pair(a, b, NoToken, Grant, {a});
    assert a in s.holds && TakesOver(s, b);
  }

  lemma RunNext(s: State, es: seq<Event>, t: State)
    requires es != [] && WellBehaved(s, es[0]) && Apply(s, es[0]) == t
    ensures Run(s, es) == Run(t, es[1..]) && (Polite(s, es) <==> Polite(t, es[1..]))
  {
    hide Apply, WellBehaved;
  }

  /** The run which breaks the token: two clients connect and ask for it. The first one gets it, and
      the scheduler changes its mind twice before that client confirms the reclaim. */
  function Breaking(a: Client, b: Client): seq<Event> {
    var ask := TokenReq(BACKGROUND, true);
    [Join(a), Join(b), Receive(a, ask, None), Receive(b, ask, Some(a)), Idle(a),
     Alarm(Some(b)), Idle(a), Alarm(Some(a)), Alarm(Some(b)), Idle(b)]
  }

  lemma FirstHalf(a: Client, b: Client)
    requires a != b
    ensures var e, s := Breaking(a, b), Pair(a, b, Granted, NoToken, {a});
      Run(NOBODY, e) == Run(s, e[5..]) && (Polite(NOBODY, e) <==> Polite(s, e[5..]))
  {
    hide Take, Update, SendTo, Joined, Run, Polite;
    FirstAsks(a, b);
    SecondAsks(a, b);
    FirstTold(a, b);
    var e := Breaking(a, b);
    BothKnown(a, b);
    var joined, asked := Connected(a, b, DEFAULT_PRIO, DEFAULT_PRIO, {}),
      Connected(a, b, BACKGROUND, DEFAULT_PRIO, {a});
    RunNext(NOBODY, e, Joined(NOBODY, a));
    RunNext(Joined(NOBODY, a), e[1..], joined);
    RunNext(joined, e[2..], asked);
    RunNext(asked, e[3..], Pair(a, b, Grant, NoToken, {}));
    RunNext(Pair(a, b, Grant, NoToken, {}), e[4..], Pair(a, b, Granted, NoToken, {a}));
  }

  /** Then both clients hold it. */
  lemma TwoHolders(a: Client, b: Client)
    requires a != b
    ensures Polite(NOBODY, Breaking(a, b)) && Run(NOBODY, Breaking(a, b)).holds == {a, b}
  {
    hide Take, Update, SendTo, Run, Polite, UpdateTakesOver;
    FirstHalf(a, b);
    FirstTold(a, b);
    PairReclaims(a, b, {a});
    MindChanges(a, b);
    var e := Breaking(a, b);
    BothKnown(a, b);
    RunNext(Pair(a, b, Granted, NoToken, {a}), e[5..], Pair(a, b, Reclaim, NoToken, {a}));
    RunNext(Pair(a, b, Reclaim, NoToken, {a}), e[6..], Pair(a, b, Release, NoToken, {a}));
    RunNext(Pair(a, b, Release, NoToken, {a}), e[7..], Pair(a, b, Grant, NoToken, {a}));
    RunNext(Pair(a, b, Grant, NoToken, {a}), e[8..], Pair(a, b, NoToken, Grant, {a}));
    var last := SendTo(Pair(a, b, NoToken, Grant, {a}), b);
    RunNext(Pair(a, b, NoToken, Grant, {a}), e[9..], last);
    Finished(last, e[10..]);
  }

  lemma Finished(s: State, es: seq<Event>)
    requires es == []
    ensures Run(s, es) == s && Polite(s, es)
  {}

  lemma BothKnown(a: Client, b: Client)
    ensures forall i {:trigger Breaking(a, b)[i..]} :: 0 <= i < 10 ==>
      Breaking(a, b)[i..][1..] == Breaking(a, b)[i + 1..]
    ensures Joined(NOBODY, a).clients == [a]
  {
    assert [] + [a] == [a];
  }
}
