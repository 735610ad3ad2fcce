/** What the invariant means for a server, a user and an eavesdropper, over whole runs. */
module LoginResults {
  import opened Wrappers
  import opened StanzaBuilder
  import opened Login
  import opened LoginInvariant
  import opened LoginSteps

  /**
   Main result: whatever the server sends, the connection counts as authenticated only after
   SASL success, a new stream, features offering bind, a bind result and, if session was
   offered, a session result, in that order; and no handler of the application runs earlier.
   */
  lemma {:induction false} LoginInOrder(run: seq<Conn>, events: seq<Event>, i: nat)
    requires IsRun(run, events) && i < |run|
    ensures var (c, log) := (run[i], run[i].past.log);
            && (c.login.authenticated <==> Milestones(log) == FullLogin(c.login.sessionRequired))
            && (forall k :: 0 <= k < |log| && log[k] == UserCalled ==>
                  Milestones(log[..k]) == FullLogin(c.login.sessionRequired))
  {
    RunKeepsInv(run, events, i);
  }

  /**
   Main result: at any moment between stanzas at most one SASL handler is installed; at most
   two mechanisms are ever tried; PLAIN comes only when DIGEST-MD5 was not offered or has
   failed; and no SASL data was sent while starttls was offered, enabled and not yet done.
   */
  lemma {:induction false} SaslDiscipline(run: seq<Conn>, events: seq<Event>, i: nat)
    requires IsRun(run, events) && i < |run|
    ensures var c := run[i];
            && (forall j, k :: 0 <= j < k < |c.lists.handlers| ==>
                  !(SaslFn(c.lists.handlers[j].fn) && SaslFn(c.lists.handlers[k].fn)))
            && |c.past.tried| <= 2
            && (Plain in c.past.tried ==> !c.past.offeredDigest || DigestMd5 in c.past.failed)
            && (forall k :: 0 <= k < |c.past.sent| ==> SafeOut(c.past.sent[k]))
  {
    RunKeepsInv(run, events, i);
    var c := run[i];
    OneSaslHandler(c);
    if Plain in c.past.tried {
      PlainIsLast(c);
    }
  }

  lemma {:induction false} OneSaslHandler(c: Conn)
    requires Inv(c)
    ensures forall j, k :: 0 <= j < k < |c.lists.handlers| ==>
              !(SaslFn(c.lists.handlers[j].fn) && SaslFn(c.lists.handlers[k].fn))
  {
    hide SaslBook, Recorded, SafeWire, IdsTidy;
    forall j, k | 0 <= j < k < |c.lists.handlers| && SaslFn(c.lists.handlers[j].fn) && SaslFn(c.lists.handlers[k].fn)
      ensures false
    {
      var (f, g) := (c.lists.handlers[j].fn, c.lists.handlers[k].fn);
      assert Installed(c.lists.handlers, f) && Installed(c.lists.handlers, g);
      ListedIsActive(c, f);
      ListedIsActive(c, g);
    }
  }

  lemma {:induction false} PlainIsLast(c: Conn)
    requires Inv(c) && Plain in c.past.tried
    ensures !c.past.offeredDigest || DigestMd5 in c.past.failed
  {
  }

  /** The login has not passed the bind request, and the id table keeps its policy. */
  predicate Stuck(c: Conn) {
    c.past.stage != Establishing && c.past.stage != LoggedIn && !c.lists.storesIds
  }

  lemma {:induction false} AuthStaysStuck(c: Conn)
    requires Stuck(c)
    ensures Stuck(DoAuth(c))
  {
    hide Extend;
  }

  lemma {:induction false} DisconnectStaysStuck(c: Conn)
    requires Stuck(c)
    ensures Stuck(Disconnect(c))
  {
  }

  lemma {:induction false} SaslResultStaysStuck(c: Conn, s: Node)
    requires Stuck(c)
    ensures Stuck(HandleSaslResult(c, s).0)
  {
    AuthStaysStuck(RecordFailure(c));
    DisconnectStaysStuck(c);
    hide DoAuth, Disconnect, Name, Write;
  }

  lemma {:induction false} FeaturesStayStuck(c: Conn, s: Node)
    requires Stuck(c)
    ensures Stuck(HandleFeatures(c, s).0) && Stuck(HandleFeaturesSasl(c, s).0)
  {
    AuthStaysStuck(ReadFeatures(c, s));
    DisconnectStaysStuck(ReadSaslFeatures(c, s));
    hide DoAuth, Disconnect, Write, PutId, Offers, OffersMechanism, BIND_ID;
  }

  lemma {:induction false} DigestStaysStuck(c: Conn, s: Node, env: Env)
    requires Stuck(c)
    ensures Stuck(HandleDigestChallenge(c, s, env).0) && Stuck(HandleDigestRspauth(c, s).0)
  {
    SaslResultStaysStuck(c, s);
    DisconnectStaysStuck(c);
    hide HandleSaslResult, Disconnect, Name, Extend, NS_SASL;
  }

  lemma {:induction false} OthersStayStuck(c: Conn, k: nat, s: Node, env: Env)
    requires Stuck(c)
    ensures Stuck(HandleProceedTls(c, s, env).0) && Stuck(CallUser(c, k, env))
  {
    hide Name, ExtendAll;
  }

  lemma {:induction false} CalledStaysStuck(c: Conn, fn: Fn, s: Node, env: Env)
    requires Stuck(c) && NormalFn(fn)
    ensures Stuck(Call(c, fn, s, env).0)
  {
    hide Stuck, HandleFeatures, HandleFeaturesSasl, HandleSaslResult, HandleBind, HandleSession, HandleProceedTls;
    hide HandleDigestChallenge, HandleDigestRspauth, CallUser;
    FeaturesStayStuck(c, s);
    SaslResultStaysStuck(c, s);
    DigestStaysStuck(c, s, env);
    OthersStayStuck(c, if fn.User? then fn.k else 0, s, env);
  }

  lemma {:induction false} CallStaysStuck(c: Conn, fn: Fn, s: Node, env: Env)
    requires Stuck(c) && NormalFn(fn)
    ensures Stuck(Visit(c, fn, s, env))
  {
    CalledStaysStuck(c, fn, s, env);
    hide Call, Except;
  }

  lemma {:induction false} RunStaysStuck(c: Conn, order: seq<Handler>, s: Node, env: Env)
    requires Stuck(c) && forall k :: 0 <= k < |order| ==> NormalFn(order[k].fn)
    ensures Stuck(RunHandlers(c, order, s, env))
    decreases |order|
  {
    hide Visit, Matches, Stuck;
    if order != [] {
      var skip := Gated(c, order[0].fn) || !Matches(order[0], s);
      CallStaysStuck(c, order[0].fn, s, env);
      RunStaysStuck(if skip then c else Visit(c, order[0].fn, s, env), order[1..], s, env);
    }
  }

  lemma {:induction false} NextStaysStuck(c: Conn, e: Event)
    requires Inv(c) && Stuck(c) && Possible(c, e)
    ensures Stuck(Next(c, e))
  {
    hide RunHandlers, Extend, PutId, Except, StageRules, Recorded, SafeWire, BIND_ID, SESSION_ID, NS_STREAMS;
    if e.Received? {
      assert FireIds(c, e.s, e.env) == c;
      var c2 := Enable(c);
      assert forall k :: 0 <= k < |c2.lists.handlers| ==> NormalFn(c2.lists.handlers[k].fn);
      RunStaysStuck(c2, c2.lists.handlers, e.s, e.env);
    }
  }

  lemma {:induction false} RunStuck(run: seq<Conn>, events: seq<Event>, i: nat)
    requires IsRun(run, events) && i < |run| && !run[0].lists.storesIds
    ensures Stuck(run[i])
  {
    hide Inv, Next, Possible, Stuck;
    if i == 0 {
      assert Stuck(Start(run[0].login.jidHasNode, false)) by { StartIsStuck(run[0].login.jidHasNode); }
    } else {
      RunStuck(run, events, i - 1);
      RunKeepsInv(run, events, i - 1);
      assert Possible(run[i - 1], events[i - 1]) && run[i] == Next(run[i - 1], events[i - 1]);
      NextStaysStuck(run[i - 1], events[i - 1]);
    }
  }

  lemma {:induction false} StartIsStuck(jidHasNode: bool)
    ensures Stuck(Start(jidHasNode, false))
  {
  }

  /**
   Main result: as it is written, the table without a free function never stores a new key;
   then no login is ever completed and no handler of the application is ever called.
   */
  lemma {:induction false} NoLoginAsWritten(run: seq<Conn>, events: seq<Event>, i: nat)
    requires IsRun(run, events) && i < |run| && !run[0].lists.storesIds
    ensures !run[i].login.authenticated && UserCalled !in run[i].past.log && run[i].lists.ids == map[]
  {
    RunStuck(run, events, i);
    RunKeepsInv(run, events, i);
  }
}
