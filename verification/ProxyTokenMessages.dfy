/** What becomes of the channel token when a client asks for it, gives it back, or leaves (daemon/proxyd.c), while
    all clients have background priority and the scheduler picks client p. */
module ProxyTokenMessages {
  import opened Common
  import opened ProxyTokenState
  import opened Seqs

  /** Nobody but perhaps client c has a token state. */
  ghost predicate NoOther(s: State, c: Client) {
    forall d :: d in s.token && d != c ==> s.token[d] == NoToken
  }

  /** Client c has nothing, and client p a grant. */
  function Handed(s: State, c: Client, p: Client): State {
    s.(token := s.token[c := NoToken][p := Grant])
  }

  lemma SamePrios(s: State, t: State)
    requires t.prio == s.prio && t.clients == s.clients
    ensures Foreground(t) == Foreground(s)
  {}

  /** A client without a token state is about to be told that another one was granted the token. */
  lemma FreePasses(s: State, c: Client, forced: bool, p: Client)
    requires Formed(s) && !Foreground(s) && c in s.clients && p in s.clients && NoOther(s, c) && s.token[c] == NoToken
    ensures Update(s, forced, Some(p)) == Handed(s, c, p)
  {
    hide Update, Foreground, Distinct;
    FreeTokenGranted(s, forced, p);
    assert s.token[c := NoToken] == s.token;
  }

  /** A client gives the token up: it passes to the client picked, and the scheduler does not pick the first one
      again before it asks. */
  lemma GivesUp(s: State, c: Client, flush: bool, token: bool, p: Client)
    requires Formed(s) && AtMostOne(s) && !Foreground(s) && c in s.clients && p in s.clients && TokenOf(s, c) != NoToken
    ensures Take(s, c, Notify(flush, true, token), Some(p))
         == Handed(s, c, p).(valid := s.valid - {c}, holds := s.holds - {c})
  {
    hide Update, Foreground, Distinct;
    OthersNone(s, c);
    var t := GivenBack(s, c, Notify(flush, true, token));
    SamePrios(s, t);
    FreePasses(t, c, Forces(s, c, Notify(flush, true, token)), p);
  }

  /** A client which has no token has nothing to give up. */
  lemma GivesUpNothing(s: State, c: Client, token: bool, pick: Option<Client>)
    requires c in s.token && s.token[c] == NoToken
    ensures Take(s, c, Notify(false, true, token), pick) == s.(valid := s.valid - {c}, holds := s.holds - {c})
  {
    hide Update;
    assert s.token[c := NoToken] == s.token;
  }

  /** A client returns the token: it passes to another client which is picked, or stays returned. */
  lemma Returns(s: State, c: Client, p: Client)
    requires Formed(s) && !Foreground(s) && c in s.clients && p in s.clients && NoOther(s, c)
    ensures Take(s, c, Notify(false, false, true), Some(p))
         == (if p == c then s.(token := s.token[c := Returned]) else Handed(s, c, p)).(holds := s.holds - {c})
  {
    hide Update, Foreground, Distinct;
    var t := GivenBack(s, c, Notify(false, false, true));
    SamePrios(s, t);
    assert AtMostOne(t);
    TokenPasses(t, c, p);
    assert s.token[c := Returned][c := NoToken] == s.token[c := NoToken];
  }

  /** A client which was asked to release the token confirms that it did: it passes to the client picked. */
  lemma Confirms(s: State, c: Client, p: Client)
    requires Formed(s) && AtMostOne(s) && !Foreground(s) && c in s.clients && p in s.clients && TokenOf(s, c) == Release
    ensures Take(s, c, ReclaimCnf, Some(p)) == Handed(s, c, p).(holds := s.holds - {c})
  {
    hide Update, Foreground, Distinct;
    OthersNone(s, c);
    var t := GivenBack(s, c, ReclaimCnf);
    SamePrios(s, t);
    FreePasses(t, c, false, p);
  }

  /** A confirmation nobody waits for changes nothing but what the client holds. */
  lemma ConfirmsLate(s: State, c: Client, pick: Option<Client>)
    requires TokenOf(s, c) != Release
    ensures Take(s, c, ReclaimCnf, pick) == s.(holds := s.holds - {c})
  {
    hide Update;
  }

  /** A client asks for a token which nobody else has. When it is picked itself it is told at once that it has the
      token. */
  lemma AsksFree(s: State, c: Client, valid: bool, p: Client)
    requires Formed(s) && c in s.clients && p in s.clients && NoOther(s, c)
      && !Foreground(Asked(s, c, BACKGROUND, valid))
    ensures var t, u := Take(s, c, TokenReq(BACKGROUND, valid), Some(p)), Asked(s, c, BACKGROUND, valid);
      && t.prio == s.prio[c := BACKGROUND] && (c in t.valid <==> valid) && t.clients == s.clients
      && t.token == (if p == c then s.token[c := Granted] else s.token[c := NoToken][p := Grant])
      && t.holds == if p == c then s.holds + {c} else s.holds - {c}
  {
    hide Update, Foreground, Distinct;
    var u := Asked(s, c, BACKGROUND, valid);
    FreePasses(u, c, false, p);
    assert u.token[c := NoToken] == u.token;
    assert s.holds - {c} + {c} == s.holds + {c};
    assert s.token[c := NoToken][c := Grant][c := Granted] == s.token[c := Granted];
  }

  /** A client asks for a token which client o has: what becomes of it depends on what o has. */
  lemma AsksOther(s: State, c: Client, valid: bool, o: Client, p: Client)
    requires Formed(s) && AtMostOne(s) && c in s.clients && p in s.clients
      && !Foreground(Asked(s, c, BACKGROUND, valid))
    requires o != c && TokenOf(s, o) != NoToken
    ensures var t, passed := Take(s, c, TokenReq(BACKGROUND, valid), Some(p)), Passed(s.token, o, p);
      && t.prio == s.prio[c := BACKGROUND] && (c in t.valid <==> valid) && t.clients == s.clients && c in passed
      && t.token == (if passed[c] == Grant then passed[c := Granted] else passed)
      && t.holds == if passed[c] == Grant then s.holds + {c} else s.holds - {c}
  {
    hide Update, Foreground, Distinct;
    OthersNone(s, o);
    var u := Asked(s, c, BACKGROUND, valid);
    assert u.token == s.token;
    TokenPasses(u, o, p);
    assert s.holds - {c} + {c} == s.holds + {c};
  }

  /** A client with more than background priority takes the control of the channel away from everybody. */
  lemma AsksForeground(s: State, c: Client, prio: nat, valid: bool, pick: Option<Client>)
    requires Formed(s) && c in s.clients && prio > BACKGROUND
    ensures var t := Take(s, c, TokenReq(prio, valid), pick);
      t.token.Keys == s.token.Keys && TokenOf(t, c) == NoToken
      && forall d :: d in s.token && d != c ==> t.token[d] == Stopped(s.token[d])
  {
    hide Update, Distinct;
    var u := Asked(s, c, prio, valid);
    assert c in u.clients && u.prio[c] > BACKGROUND;
    ForegroundUpdate(u, false, pick);
  }

  /** After a channel switch of a client which does not control the channel, nobody controls it; after that of one
      which does, the scheduler goes on. */
  lemma Flushes(s: State, c: Client, pick: Option<Client>)
    requires Formed(s) && c in s.clients
    ensures var t := if Controls(TokenOf(s, c)) then s else s.(token := map d | d in s.token :: Stopped(s.token[d]));
      Take(s, c, Notify(true, false, false), pick) == Update(t, false, pick)
  {
    hide Update, Distinct;
    if !Controls(TokenOf(s, c)) { ForcedUpdate(s, pick); }
  }

  lemma NotifiesNothing(s: State, c: Client, pick: Option<Client>)
    ensures Take(s, c, Notify(false, false, false), pick) == s
  {
    hide Update;
  }

  /** A client with the token leaves: the token passes to the client picked. */
  lemma ClosePasses(s: State, c: Client, p: Client)
    requires Formed(s) && AtMostOne(s) && !Foreground(Gone(s, c)) && c in s.clients && TokenOf(s, c) != NoToken
    requires p in s.clients && p != c
    ensures var t := Apply(s, Close(c, Some(p)));
      t.token == (s.token - {c})[p := Grant] && c !in t.clients && p in t.clients && t.holds == s.holds - {c}
  {
    hide Update, Foreground, Distinct, Without;
    OthersNone(s, c);
    GoneKeeps(s, c);
    WithoutIs(s.clients, c);
    FreeTokenGranted(Gone(s, c), false, p);
  }

  /** An idle client is asked to release the token which is reclaimed from it, or told that it has it. */
  lemma IdleTold(s: State, c: Client)
    ensures var t := Apply(s, Idle(c));
      && (TokenOf(s, c) == Reclaim ==> t == s.(token := s.token[c := Release]))
      && (TokenOf(s, c) == Grant ==> t == s.(token := s.token[c := Granted], holds := s.holds + {c}))
      && (TokenOf(s, c) !in {Reclaim, Grant} ==> t == s)
  {}
}
