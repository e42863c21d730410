/** The token state machine of the VBI proxy daemon, updated in place (daemon/proxyd.c). */
module ProxyToken {
  import opened Common
  import opened ProxyTokenState
  import opened Seqs

  class Device {
    var clients: seq<Client>

    ghost function Tokens(): map<Client, Token>
      reads this, clients
    {
      map c | c in clients :: c.token
    }

    ghost function Prios(): map<Client, nat>
      reads this, clients
    {
      map c | c in clients :: c.prio
    }

    ghost function ValidClients(): set<Client>
      reads this, clients
    {
      set c | c in clients && c.profileValid
    }

    ghost function Holders(): set<Client>
      reads this, clients
    {
      set c | c in clients && c.holds
    }

    ghost function Abs(): State
      reads this, clients
    {
      State(clients, Tokens(), Prios(), ValidClients(), Holders())
    }

    ghost predicate Valid()
      reads this, clients
    {
      Distinct(clients) && AtMostOne(Abs())
    }

    constructor ()
      ensures Valid() && clients == []
    {
      clients := [];
    }

    lemma Known(c: Client)
      requires c in clients
      ensures TokenOf(Abs(), c) == c.token && c in Abs().token && c in Abs().prio && Abs().prio[c] == c.prio
      ensures c in Abs().valid <==> c.profileValid
      ensures c in Abs().holds <==> c.holds
    {}

    lemma IsFormed()
      requires Distinct(clients)
      ensures Formed(Abs())
    {}

    /** Only the token state of client c has changed. */
    twostate lemma TokenChanged(c: Client)
      requires c in clients && unchanged(this) && forall d :: d in clients && d != c ==> unchanged(d)
      requires c.prio == old(c.prio) && c.profileValid == old(c.profileValid) && c.holds == old(c.holds)
      ensures Abs() == WithToken(old(Abs()), c, c.token)
    {
      assert Tokens() == old(Tokens())[c := c.token];
      assert Prios() == old(Prios());
      assert ValidClients() == old(ValidClients()) && Holders() == old(Holders());
    }

    /** vbi_proxyd_add_connection. */
    method AddClient() returns (c: Client)
      requires Valid()
      modifies this
      ensures Valid() && fresh(c) && Abs() == Joined(old(Abs()), c)
    {
      c := new Client();
      IsFormed();
      JoinedKeeps(Abs(), c);
      clients := clients + [c];
      Linked(c);
    }

    twostate lemma Linked(new c: Client)
      requires c !in old(clients) && clients == old(clients) + [c] && forall d :: d in old(clients) ==> unchanged(d)
      requires c.token == NoToken && c.prio == DEFAULT_PRIO && !c.profileValid && !c.holds
      ensures Abs() == Joined(old(Abs()), c)
    {
      assert Tokens() == old(Tokens())[c := NoToken] && Prios() == old(Prios())[c := DEFAULT_PRIO];
      assert ValidClients() == old(ValidClients()) && Holders() == old(Holders());
    }

    /** vbi_proxyd_get_token_owner, with its assertion. */
    method GetTokenOwner() returns (o: Client?)
      requires Valid()
      ensures (if o == null then None else Some(o)) == Owner(Abs(), clients)
    {
      hide Owner;
      o := null;
      for i := 0 to |clients|
        invariant o == null ==> forall j :: 0 <= j < i ==> clients[j].token == NoToken
        invariant o != null ==> o in clients[..i] && o.token != NoToken
      {
        var c := clients[i];
        match c.token {
          case NoToken =>
          case _ =>
            NoSecond(i);
            assert o == null;
            o := c;
        }
      }
      IsFormed();
      if o != null {
        Known(o);
        OwnerIs(Abs(), o);
      } else {
        forall c | c in clients ensures TokenOf(Abs(), c) == NoToken { Known(c); }
        NoOwner(Abs(), clients);
      }
    }

    lemma NoSecond(i: nat)
      requires Valid() && i < |clients| && clients[i].token != NoToken
      ensures forall d :: d in clients[..i] ==> d.token == NoToken
    {
      forall d | d in clients[..i] ensures d.token == NoToken {
        Known(d);
        Known(clients[i]);
      }
    }

    /** A token which is free, or which its owner does not hold, passes to client c. */
    method PassToken(c: Client, o: Client?)
      requires Distinct(clients) && c in clients && (o != null ==> o in clients && o != c)
      modifies clients`token
      ensures c.token == Grant
      ensures o == null ==> Abs() == WithToken(old(Abs()), c, Grant)
      ensures o != null ==> Abs() == WithToken(WithToken(old(Abs()), c, Grant), o, NoToken)
    {
      c.token := Grant;
      TokenChanged(c);
      label granted:
      if o != null {
        o.token := NoToken;
        TokenChanged@granted(o);
      }
    }

    /** The token is not free: it has to be reclaimed from client o. */
    method ReclaimToken(o: Client)
      requires o in clients
      modifies o`token
      ensures Abs() == if old(o.token) == Release then old(Abs()) else WithToken(old(Abs()), o, Reclaim)
      ensures o.token == if old(o.token) == Release then Release else Reclaim
    {
      Known(o);
      if o.token != Release {
        o.token := Reclaim;
      }
      TokenChanged(o);
    }

    /** vbi_proxyd_token_grant to a client without a token state. */
    method GrantNew(c: Client) returns (free: bool)
      requires Valid() && c in clients && c.token == NoToken
      modifies clients`token
      ensures Abs() == GrantTo(old(Abs()), c) && (free <==> c.token == Grant)
    {
      hide Owner, Tokens, Prios, ValidClients, Holders, AtMostOne, Distinct;
      Known(c);
      OwnerFacts(Abs());
      var o := GetTokenOwner();
      if o != null { Known(o); }
      free := o == null || o.token == Grant || o.token == Returned;
      if free {
        PassToken(c, o);
      } else {
        ReclaimToken(o);
      }
    }

    /** vbi_proxyd_token_grant. Returns whether the token could be granted at once. */
    method TokenGrant(c: Client) returns (free: bool)
      requires Valid() && c in clients
      modifies clients`token
      ensures Valid() && Abs() == GrantTo(old(Abs()), c)
      ensures free <==> old(c.token) != NoToken || c.token == Grant
    {
      hide Owner, Tokens, Prios, ValidClients, Holders, AtMostOne, Distinct;
      free := true;
      Known(c);
      IsFormed();
      GrantKeeps(Abs(), c);
      if c.token == NoToken {
        free := GrantNew(c);
      } else if c.token == Reclaim {
        c.token := Granted;
        TokenChanged(c);
      } else if c.token == Release {
        c.token := Grant;
        TokenChanged(c);
      }
    }

    lemma OwnerFacts(s: State)
      requires s == Abs()
      ensures var o := Owner(s, clients); o.Some? ==> o.value in clients && TokenOf(s, o.value) != NoToken
    {}

    /** vbi_proxyd_channel_stopped, without the statistics of the scheduler. */
    method ChannelStopped(c: Client)
      requires Valid() && c in clients && Controls(c.token)
      modifies c`token
      ensures Valid() && Abs() == Stop(old(Abs()), c)
    {
      Known(c);
      IsFormed();
      StopKeeps(Abs(), c);
      assert Controls(c.token);
      if c.token == Granted {
        c.token := Reclaim;
      } else {
        c.token := NoToken;
      }
      TokenChanged(c);
    }

    /** The client which the scheduler finds active. */
    method FindActive() returns (o: Client?)
      requires Distinct(clients)
      ensures (if o == null then None else Some(o)) == Active(Abs(), clients)
    {
      hide Active;
      o := null;
      ActiveNone(Abs());
      assert clients[..0] == [];
      for i := 0 to |clients|
        invariant (if o == null then None else Some(o)) == Active(Abs(), clients[..i])
      {
        var c := clients[i];
        Known(c);
        ActiveStep(Abs(), clients, i);
        if c.profileValid && c.prio == BACKGROUND && Controls(c.token) {
          o := c;
        }
      }
      assert clients[..|clients|] == clients;
    }

    /** vbi_proxyd_channel_schedule; pick is the client which its comparisons select. */
    method ChannelSchedule(pick: Client?)
      requires Valid()
      modifies clients`token
      ensures Valid() && Abs() == Schedule(old(Abs()), if pick == null then None else Some(pick))
    {
      var active := FindActive();
      if active != null {
        Known(active);
        if active != pick {
          ChannelStopped(active);
        }
      }
    }

    /** The first loop of vbi_proxyd_channel_update. */
    method FindMaxPrio() returns (m: nat)
      ensures m == MaxPrio(Abs(), clients)
      ensures m >= BACKGROUND && forall c :: c in clients ==> c.prio <= m
      ensures m == BACKGROUND || exists c :: c in clients && c.prio == m
    {
      m := BACKGROUND;
      assert clients[..0] == [];
      for i := 0 to |clients|
        invariant m == MaxPrio(Abs(), clients[..i])
      {
        Known(clients[i]);
        assert clients[..i + 1][..i] == clients[..i];
        if clients[i].prio > m {
          m := clients[i].prio;
        }
      }
      assert clients[..|clients|] == clients;
      MaxOfClients(m);
    }

    lemma MaxOfClients(m: nat)
      requires m == MaxPrio(Abs(), clients)
      ensures m >= BACKGROUND && (forall c :: c in clients ==> c.prio <= m)
      ensures m == BACKGROUND || exists c :: c in clients && c.prio == m
    {
      hide MaxPrio;
      MaxPrioIs(Abs(), clients);
      ClientFields();
    }

    /** Its second loop: the channel was switched already, or the scheduler is not in charge. */
    method StopControlling()
      requires Valid()
      modifies clients`token
      ensures Valid() && Abs() == StopAll(old(Abs()), clients)
    {
      hide StopAll, Tokens, Prios, ValidClients, Holders;
      assert clients[0..] == clients;
      for i := 0 to |clients|
        invariant Valid() && StopAll(Abs(), clients[i..]) == StopAll(old(Abs()), clients)
      {
        var c := clients[i];
        Known(c);
        StopAllStep(Abs(), clients, i);
        if Controls(c.token) {
          ChannelStopped(c);
        }
      }
      StopAllNone(Abs(), clients[|clients|..]);
    }

    /** Who has the token after an update of the state s. */
    lemma UpdateGrants(s: State, forced: bool, pick: Option<Client>)
      requires Formed(s) && s.clients == clients && (pick.Some? ==> pick.value in clients)
      requires Abs() == Update(s, forced, pick)
      ensures (exists c :: c in clients && s.prio[c] > BACKGROUND) ==>
        forall c :: c in clients ==> !Controls(c.token) && (c.token == Grant ==> s.token[c] == Grant)
      ensures (forall c :: c in clients ==> s.prio[c] <= BACKGROUND && s.token[c] == NoToken) && pick.Some? ==>
        pick.value.token == Grant
    {
      hide Update, Distinct;
      if c :| c in clients && s.prio[c] > BACKGROUND {
        ForegroundUpdate(s, forced, pick);
        assert forall d :: d in clients ==> d.token == Abs().token[d];
      } else if pick.Some? && forall c :: c in clients ==> s.token[c] == NoToken {
        FreeTokenGranted(s, forced, pick.value);
        assert pick.value.token == Abs().token[pick.value];
      }
    }

    lemma ClientFields()
      ensures forall c :: c in clients ==>
        c in Tokens() && Tokens()[c] == c.token && c in Prios() && Prios()[c] == c.prio
    {}

    /** vbi_proxyd_channel_update. */
    method ChannelUpdate(forced: bool, pick: Client?)
      requires Valid() && (pick != null ==> pick in clients)
      modifies clients`token
      ensures Valid() && Abs() == Update(old(Abs()), forced, if pick == null then None else Some(pick))
      ensures (exists c :: c in clients && old(c.prio) > BACKGROUND) ==>
        forall c :: c in clients ==> !Controls(c.token) && (c.token == Grant ==> old(c.token) == Grant)
      ensures (forall c :: c in clients ==> old(c.prio) <= BACKGROUND && old(c.token) == NoToken) && pick != null ==>
        pick.token == Grant
    {
      hide StopAll, Tokens, Prios, ValidClients, Holders, MaxPrio, Schedule, GrantTo, AtMostOne;
      ghost var s := Abs();
      IsFormed();
      ClientFields();
      var m := FindMaxPrio();
      if m > BACKGROUND || forced {
        StopControlling();
      }
      if m == BACKGROUND {
        ChannelSchedule(pick);
        if pick != null {
          Known(pick);
          if !Controls(pick.token) {
            var free := TokenGrant(pick);
          }
        }
      }
      UpdateGrants(s, forced, if pick == null then None else Some(pick));
    }

    /** What client c gives back with a message, and what it asks for. */
    method GiveBack(c: Client, m: Message)
      requires Valid() && c in clients
      requires m.Notify? && m.token && !m.release ==> forall d :: d in clients && d != c ==> d.token == NoToken
      modifies c
      ensures Valid() && Abs() == GivenBack(old(Abs()), c, m)
    {
      hide Tokens, Prios, ValidClients, Holders, AtMostOne, Distinct;
      Known(c);
      BackKeeps(c, m);
      match m
      case TokenReq(prio, profileValid) => Ask(c, prio, profileValid);
      case Notify(flush, release, token) =>
        if release {
          GiveUp(c);
        } else if token {
          Return(c);
        }
      case ReclaimCnf => Confirm(c);
    }

    method Ask(c: Client, prio: nat, profileValid: bool)
      requires c in clients
      modifies c
      ensures Abs() == Asked(old(Abs()), c, prio, profileValid)
    {
      hide Tokens, Prios, ValidClients, Holders;
      c.prio := prio;
      c.profileValid := profileValid;
      c.token := NoToken;
      c.holds := false;
      ClientChanged(c);
    }

    method GiveUp(c: Client)
      requires c in clients
      modifies c
      ensures Abs() == GivenBack(old(Abs()), c, Notify(false, true, false))
    {
      hide Tokens, Prios, ValidClients, Holders;
      SamePrio(c);
      c.token := NoToken;
      c.profileValid := false;
      c.holds := false;
      ClientChanged(c);
    }

    method Return(c: Client)
      requires c in clients
      modifies c
      ensures Abs() == GivenBack(old(Abs()), c, Notify(false, false, true))
    {
      hide Tokens, Prios, ValidClients, Holders;
      SamePrio(c);
      c.token := Returned;
      c.holds := false;
      ClientChanged(c);
    }

    method Confirm(c: Client)
      requires c in clients
      modifies c
      ensures Abs() == GivenBack(old(Abs()), c, ReclaimCnf)
    {
      hide Tokens, Prios, ValidClients, Holders;
      SamePrio(c);
      if c.token == Release {
        c.token := NoToken;
      }
      c.holds := false;
      ClientChanged(c);
    }

    /** Fields which keep their values. */
    lemma SamePrio(c: Client)
      requires c in clients
      ensures Prios()[c := c.prio] == Prios() && Tokens()[c := c.token] == Tokens() && TokenOf(Abs(), c) == c.token
      ensures (if c.profileValid then ValidClients() + {c} else ValidClients() - {c}) == ValidClients()
    {}

    lemma BackKeeps(c: Client, m: Message)
      requires Valid() && c in clients
      requires m.Notify? && m.token && !m.release ==> forall d :: d in clients && d != c ==> d.token == NoToken
      ensures AtMostOne(GivenBack(Abs(), c, m))
    {
      IsFormed();
      forall d | d in clients ensures Abs().token[d] == d.token { Known(d); }
      GivenBackKeeps(Abs(), c, m);
    }

    /** Only client c has changed. */
    twostate lemma ClientChanged(c: Client)
      requires c in clients && unchanged(this) && forall d :: d in clients && d != c ==> unchanged(d)
      ensures Tokens() == old(Tokens())[c := c.token] && Prios() == old(Prios())[c := c.prio]
      ensures ValidClients() == (if c.profileValid then old(ValidClients()) + {c} else old(ValidClients()) - {c})
      ensures Holders() == (if c.holds then old(Holders()) + {c} else old(Holders()) - {c})
    {}

    /** The token messages of vbi_proxyd_take_message. */
    method TakeMessage(c: Client, m: Message, pick: Client?) returns (tokenInd: bool)
      requires Valid() && c in clients && (pick != null ==> pick in clients)
      requires m.Notify? && m.token && !m.release ==> forall d :: d in clients && d != c ==> d.token == NoToken
      modifies clients
      ensures Valid() && Abs() == Take(old(Abs()), c, m, if pick == null then None else Some(pick))
      ensures tokenInd ==> c.token == Granted && c.holds
    {
      hide StopAll, Tokens, Prios, ValidClients, Holders, Update, GivenBack, AtMostOne;
      Known(c);
      var forced := m.Notify? && m.flush && !Controls(c.token);
      var update := match m
        case TokenReq(_, _) => true
        case Notify(flush, release, token) => flush || (release && c.token != NoToken) || (!release && token)
        case ReclaimCnf => c.token == Release;
      GiveBack(c, m);
      if update {
        ChannelUpdate(forced, pick);
      }
      tokenInd := false;
      Known(c);
      if m.TokenReq? && c.token == Grant {
        Tell(c);
        tokenInd := true;
      }
    }

    /** The client is told that it has the token. */
    method Tell(c: Client)
      requires Valid() && c in clients && c.token == Grant
      modifies c`token, c`holds
      ensures Valid() && Abs() == Told(old(Abs()), c) && c.token == Granted && c.holds
    {
      hide Tokens, Prios, ValidClients, Holders;
      Known(c);
      IsFormed();
      ToldKeeps(Abs(), c);
      SamePrio(c);
      c.token := Granted;
      c.holds := true;
      ClientChanged(c);
    }

    /** The token messages of vbi_proxyd_handle_client_sockets to an idle client. */
    method HandleIdle(c: Client)
      requires Valid() && c in clients
      modifies c`token, c`holds
      ensures Valid() && Abs() == SendTo(old(Abs()), c)
    {
      Known(c);
      IsFormed();
      if c.token == Reclaim {
        SentKeeps(Abs(), c);
        c.token := Release;
        TokenChanged(c);
      } else if c.token == Grant {
        Tell(c);
      }
    }

    /** The connection to a client is closed. */
    method Disconnect(c: Client, pick: Client?)
      requires Valid() && c in clients && (pick != null ==> pick in clients && pick != c)
      modifies this, clients
      ensures Valid() && Abs() == Update(Gone(old(Abs()), c), false, if pick == null then None else Some(pick))
    {
      IsFormed();
      GoneKeeps(Abs(), c);
      clients := Without(clients, c);
      Unlinked(c);
      assert forall i :: 0 <= i < |clients| ==> clients[i] in clients && clients[i] in old(clients);
      ChannelUpdate(false, pick);
    }

    twostate lemma Unlinked(c: Client)
      requires old(Valid()) && c in old(clients) && clients == Without(old(clients), c)
      requires forall d :: d in old(clients) ==> unchanged(d)
      ensures Abs() == Gone(old(Abs()), c) && Distinct(clients)
        && forall d :: d in clients <==> d in old(clients) && d != c
    {
      hide Without, AtMostOne;
      WithoutIs(old(clients), c);
      assert Tokens() == old(Tokens()) - {c} && Prios() == old(Prios()) - {c};
      assert ValidClients() == old(ValidClients()) - {c} && Holders() == old(Holders()) - {c};
    }
  }

  lemma ActiveNone(s: State)
    ensures Active(s, []) == None
  {}

  lemma ActiveStep(s: State, cs: seq<Client>, i: nat)
    requires i < |cs| && cs[i] in s.clients && s.clients == cs
    ensures Active(s, cs[..i + 1])
         == if Schedulable(s, cs[i]) && Controls(TokenOf(s, cs[i])) then Some(cs[i]) else Active(s, cs[..i])
  {
    assert cs[..i + 1][..i] == cs[..i];
  }

  lemma StopAllStep(s: State, cs: seq<Client>, i: nat)
    requires i < |cs|
    ensures StopAll(s, cs[i..]) == StopAll(if Controls(TokenOf(s, cs[i])) then Stop(s, cs[i]) else s, cs[i + 1..])
  {
    assert cs[i..][1..] == cs[i + 1..];
  }

  lemma StopAllNone(s: State, cs: seq<Client>)
    requires cs == []
    ensures StopAll(s, cs) == s
  {}

  lemma SentKeeps(s: State, c: Client)
    requires Formed(s) && AtMostOne(s) && TokenOf(s, c) == Reclaim
    ensures AtMostOne(WithToken(s, c, Release))
  {}

  lemma {:induction false} NoOwner(s: State, cs: seq<Client>)
    requires forall c :: c in cs ==> TokenOf(s, c) == NoToken
    ensures Owner(s, cs) == None
  {
    if cs != [] { NoOwner(s, cs[1..]); }
  }
}
