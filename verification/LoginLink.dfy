/** The link under the login, over whole runs: what never goes back, when it ends, when it is silent. */
module LoginLink {
  import opened Wrappers
  import opened Stanza
  import opened StanzaBuilder
  import opened Login

  // ----- what a call of a handler can do to the link

  /** The facts about a connection that never go back, and its records that only grow. */
  predicate Onward(c: Conn, d: Conn) {
    && (c.net.ssl ==> d.net.ssl) && (c.net.secured ==> d.net.secured) && (c.net.hasStreamId ==> d.net.hasStreamId)
    && (c.login.tlsDisabled ==> d.login.tlsDisabled) && (c.login.authenticated ==> d.login.authenticated)
    && (c.login.bindRequired ==> d.login.bindRequired) && (c.login.sessionRequired ==> d.login.sessionRequired)
    && c.login.jidHasNode == d.login.jidHasNode && c.lists.storesIds == d.lists.storesIds
    && c.past.sent <= d.past.sent && c.past.log <= d.past.log
  }

  /** Nothing is closing on a link that is gone. */
  predicate TimerFits(n: Net) {
    n.closing ==> n.state != Disconnected
  }

  /** From inside a handler: only a link that is up can change its state, or be written to. */
  predicate Within(c: Conn, d: Conn) {
    && Onward(c, d) && (TimerFits(c.net) ==> TimerFits(d.net))
    && (c.net.state != Connected ==> d.net.state == c.net.state && d.past.sent == c.past.sent)
    && (c.net.ssl && c.net.state == Connected ==> d.net.state == Connected)
    && d.login.tlsDisabled == c.login.tlsDisabled && d.net.secured == c.net.secured && d.net.parser == c.net.parser && (c.net.resetPending ==> d.net.resetPending)
  }

  lemma {:induction false} WithinTwice(c: Conn, d: Conn, e: Conn)
    requires Within(c, d) && Within(d, e)
    ensures Within(c, e)
  {
  }

  lemma {:induction false} AuthWithin(c: Conn)
    ensures Within(c, DoAuth(c))
  {
    hide Extend;
  }

  lemma {:induction false} DisconnectWithin(c: Conn)
    ensures Within(c, Disconnect(c))
  {
    var d := Disconnect(c);
    assert c.past.sent <= d.past.sent && d.past.log == c.past.log;
    assert d.login == c.login && d.lists == c.lists;
    hide Disconnect;
  }

  lemma {:induction false} RestartWithin(c: Conn)
    ensures Within(c, RestartStream(c))
  {
  }

  lemma {:induction false} SaslResultWithin(c: Conn, s: Node)
    ensures Within(c, HandleSaslResult(c, s).0)
  {
    AuthWithin(RecordFailure(c));
    DisconnectWithin(c);
    RestartWithin(c);
    hide DoAuth, Name, Disconnect, RestartStream;
  }

  lemma {:induction false} FeaturesWithin(c: Conn, s: Node)
    ensures Within(c, HandleFeatures(c, s).0)
  {
    AuthWithin(ReadFeatures(c, s));
    hide DoAuth, Offers, OffersMechanism;
  }

  lemma {:induction false} RequestWithin(c: Conn, ids: map<string, seq<Fn>>, o: Out, stage: Stage, mark: Mark)
    ensures Within(c, Note(Send(c.(lists := c.lists.(ids := ids)), o), stage, mark))
  {
  }

  lemma {:induction false} SaslFeaturesWithin(c: Conn, s: Node)
    ensures Within(c, HandleFeaturesSasl(c, s).0)
  {
    var d := ReadSaslFeatures(c, s);
    RequestWithin(d, AddId(d, BIND_ID, Bind).lists.ids, BindRequest, Binding, BindOffered(d.login.sessionRequired));
    DisconnectWithin(d);
    assert Within(c, d);
    hide Within, Send, Note, Disconnect, Offers, ReadSaslFeatures, PutId, BIND_ID;
    WithinTwice(c, d, HandleFeaturesSasl(c, s).0);
  }

  lemma {:induction false} DigestWithin(c: Conn, s: Node, env: Env)
    ensures Within(c, HandleDigestChallenge(c, s, env).0) && Within(c, HandleDigestRspauth(c, s).0)
  {
    SaslResultWithin(c, s);
    hide HandleSaslResult, Name, Extend, NS_SASL;
  }

  lemma {:induction false} LogInWithin(c: Conn, mark: Mark, env: Env)
    ensures Within(c, LogIn(c, mark, env))
  {
    hide ExtendAll;
  }

  lemma {:induction false} BindWithin(c: Conn, s: Node, env: Env)
    ensures Within(c, HandleBind(c, s, env).0) && Within(c, HandleSession(c, s, env).0)
  {
    RequestWithin(c, AddId(c, SESSION_ID, Session).lists.ids, SessionRequest, Establishing, Bound);
    DisconnectWithin(c);
    LogInWithin(c, Bound, env);
    LogInWithin(c, SessionUp, env);
    hide Within, Attribute, LogIn, Disconnect, PutId, Send, Note, SESSION_ID;
  }

  lemma {:induction false} OthersWithin(c: Conn, k: nat, s: Node, env: Env)
    ensures Within(c, HandleProceedTls(c, s, env).0) && Within(c, CallUser(c, k, env))
  {
    hide Name, ExtendAll;
  }

  lemma {:induction false} CallWithin(c: Conn, fn: Fn, s: Node, env: Env)
    ensures Within(c, Call(c, fn, s, env).0)
  {
    assert Within(c, c);
    hide Within, HandleFeatures, HandleFeaturesSasl, HandleSaslResult, HandleBind, HandleSession, HandleProceedTls;
    hide HandleDigestChallenge, HandleDigestRspauth, CallUser;
    match fn {
      case StreamError =>
      case Features => FeaturesWithin(c, s);
      case ProceedTls => OthersWithin(c, 0, s, env);
      case SaslResult => SaslResultWithin(c, s);
      case DigestChallenge => DigestWithin(c, s, env);
      case DigestRspauth => DigestWithin(c, s, env);
      case FeaturesSasl => SaslFeaturesWithin(c, s);
      case Bind => BindWithin(c, s, env);
      case Session => BindWithin(c, s, env);
      case User(k) => OthersWithin(c, k, s, env);
    }
  }

  lemma {:induction false} VisitWithin(c: Conn, id: string, fn: Fn, s: Node, env: Env)
    ensures Within(c, Visit(c, fn, s, env)) && Within(c, VisitId(c, id, fn, s, env))
  {
    CallWithin(c, fn, s, env);
    hide Call, Except, DropId;
  }

  lemma {:induction false} RunHandlersWithin(c: Conn, order: seq<Handler>, s: Node, env: Env)
    ensures Within(c, RunHandlers(c, order, s, env))
    decreases |order|
  {
    assert Within(c, c);
    hide Visit, Matches, Within;
    if order != [] {
      var skip := Gated(c, order[0].fn) || !Matches(order[0], s);
      var d := if skip then c else Visit(c, order[0].fn, s, env);
      VisitWithin(c, "", order[0].fn, s, env);
      RunHandlersWithin(d, order[1..], s, env);
      WithinTwice(c, d, RunHandlers(d, order[1..], s, env));
    }
  }

  lemma {:induction false} RunIdsWithin(c: Conn, id: string, order: seq<Fn>, s: Node, env: Env)
    ensures Within(c, RunIds(c, id, order, s, env))
    decreases |order|
  {
    assert Within(c, c);
    hide VisitId, Within;
    if order != [] {
      var d := if Gated(c, order[0]) then c else VisitId(c, id, order[0], s, env);
      VisitWithin(c, id, order[0], s, env);
      RunIdsWithin(d, id, order[1..], s, env);
      WithinTwice(c, d, RunIds(d, id, order[1..], s, env));
    }
  }

  lemma {:induction false} FireWithin(c: Conn, s: Node, env: Env)
    ensures Within(c, Fire(c, s, env))
  {
    var d := FireIds(c, s, env);
    assert Within(c, c) && Within(d, Enable(d));
    hide Within, RunIds, RunHandlers, Enable;
    var id := Attribute(s, "id");
    if id.Some? && id.value in c.lists.ids {
      RunIdsWithin(c, id.value, c.lists.ids[id.value], s, env);
    }
    WithinTwice(c, d, Enable(d));
    RunHandlersWithin(Enable(d), Enable(d).lists.handlers, s, env);
    WithinTwice(c, Enable(d), Fire(c, s, env));
  }

  // ----- one event

  /** A stream that is not one, or that has no id and never had. */
  predicate Refused(c: Conn, e: Event) {
    e.StreamStart? && (e.name != "stream" || (!e.hasId && !c.net.hasStreamId))
  }

  /** The link comes up: a stream header is written, and it is secured if it has its TLS filter. */
  predicate ComesUp(c: Conn, e: Event) {
    e.LinkUp? && c.net.state == Connecting
  }

  lemma {:induction false} OpenOnward(c: Conn)
    ensures var d := RunOpenHandler(c); d.net == c.net && d.login == c.login && d.past.sent == c.past.sent && c.past.log <= d.past.log
    ensures RunOpenHandler(c).lists.storesIds == c.lists.storesIds
  {
    hide Extend, NS_STREAMS;
  }

  lemma {:induction false} ListsOnly(c: Conn, e: Event)
    requires e.AddUser? || e.AddUserId? || e.DeleteUser?
    ensures Possible(c, e) && var d := Next(c, e);
            d.net == c.net && d.login == c.login && d.past == c.past && d.lists.storesIds == c.lists.storesIds
  {
    hide Extend, PutId, Except;
  }

  /** What event `e` can do to the link of `c`. */
  predicate LinkStep(c: Conn, e: Event, d: Conn) {
    && Onward(c, d) && (TimerFits(c.net) ==> TimerFits(d.net))
    && (d.past.sent != c.past.sent ==> c.net.state == Connected || ComesUp(c, e))
    && (ComesUp(c, e) ==> d.net.state == Connected && d.past.sent == c.past.sent + [StreamHeader]
                          && d.net.secured == (c.net.secured || c.net.ssl))
    && (!ComesUp(c, e) ==> d.net.secured == c.net.secured)
    && (d.login.tlsDisabled <==> c.login.tlsDisabled || e.DisableTls?)
    && (!e.Received? ==>
          (d.net.state == Disconnected <==>
            c.net.state == Disconnected || e.LinkDown? || e.StreamEnd? || e.CleanupTimer? || Refused(c, e))
          && (d.net.state == Connected <==> ComesUp(c, e) || (c.net.state == Connected && d.net.state != Disconnected)))
    && (c.net.state == Disconnected ==> d.net.state == Disconnected)
    && (c.net.state == Connected && c.net.ssl ==> d.net.state != Connecting)
    && (e.CloseByUser? && c.net.state != Disconnected ==> d.net.closing)
    && (e.StreamEnd? || (c.net.parser == Ended && c.net.state != Connected) ==> d.net.parser == Ended)
  }

  lemma {:induction false} ReceivedLink(c: Conn, e: Event)
    requires e.Received?
    ensures LinkStep(c, e, Fire(c, e.s, e.env))
  {
    FireWithin(c, e.s, e.env);
    hide Fire;
  }

  /** A connection that is like `c` but for its net and what is behind its log. */
  lemma {:induction false} OpenedLink(c: Conn, e: Event, d: Conn)
    requires e.StreamStart? && Possible(c, e)
    requires d.login == c.login && d.past.sent == c.past.sent && c.past.log <= d.past.log && d.lists.storesIds == c.lists.storesIds
    requires d.net.ssl == c.net.ssl && d.net.secured == c.net.secured && (c.net.hasStreamId ==> d.net.hasStreamId)
    requires if Refused(c, e) then d.net.state == Disconnected && !d.net.closing
             else d.net.state == c.net.state && d.net.closing == c.net.closing
    ensures LinkStep(c, e, d)
  {
    assert Onward(c, d);
    assert !ComesUp(c, e) && e != LinkDown && e != StreamEnd && e != CleanupTimer && e != DisableTls && e != CloseByUser;
    hide Onward, ComesUp, Refused;
  }

  lemma {:induction false} StreamLink(c: Conn, e: Event)
    requires e.StreamStart? && Possible(c, e)
    ensures LinkStep(c, e, OnStreamStart(c, e.name, e.hasId))
  {
    hide RunOpenHandler, LinkStep;
    var known := c.net.hasStreamId || (e.name == "stream" && e.hasId);
    var entered := c.(net := c.net.(parser := InStream, hasStreamId := known));
    OpenOnward(if e.name != "stream" || !known then DoDisconnect(entered) else entered);
    OpenedLink(c, e, OnStreamStart(c, e.name, e.hasId));
  }

  lemma {:induction false} ListsLink(c: Conn, e: Event)
    requires e.AddUser? || e.AddUserId? || e.DeleteUser?
    ensures Possible(c, e) && LinkStep(c, e, Next(c, e))
  {
    ListsOnly(c, e);
    hide Next;
  }

  /** Main result: what one event can do to the link, for every connection and every event. */
  lemma {:induction false} NextLink(c: Conn, e: Event)
    requires Possible(c, e)
    ensures LinkStep(c, e, Next(c, e))
  {
    hide LinkStep, OnStreamStart, Fire, AddHandler, AddId, RemoveHandler, OnLinkUp, Disconnect, DoDisconnect;
    match e {
      case Received(_, _) => ReceivedLink(c, e);
      case StreamStart(_, _) => StreamLink(c, e);
      case AddUser(_) => ListsLink(c, e);
      case AddUserId(_, _) => ListsLink(c, e);
      case DeleteUser(_) => ListsLink(c, e);
      case _ => SmallLink(c, e);
    }
  }

  lemma {:induction false} LinkUpLink(c: Conn)
    ensures LinkStep(c, LinkUp, OnLinkUp(c))
  {
  }

  lemma {:induction false} CloseLink(c: Conn)
    ensures LinkStep(c, CloseByUser, Disconnect(c))
  {
  }

  lemma {:induction false} SmallLink(c: Conn, e: Event)
    requires e.LinkUp? || e.LinkDown? || e.Chunk? || e.StreamEnd? || e.CleanupTimer? || e.DisableTls? || e.CloseByUser?
    requires Possible(c, e)
    ensures LinkStep(c, e, Next(c, e))
  {
    if e.LinkUp? {
      LinkUpLink(c);
      hide LinkStep, OnLinkUp;
    } else if e.CloseByUser? {
      CloseLink(c);
      hide LinkStep, Disconnect;
    }
  }

  // ----- whole runs

  lemma {:induction false} OnwardTwice(c: Conn, d: Conn, e: Conn)
    requires Onward(c, d) && Onward(d, e)
    ensures Onward(c, e)
  {
  }

  /** Main result: over a run no such fact is taken back, and no record. */
  lemma {:induction false} NeverBack(run: seq<Conn>, events: seq<Event>, i: nat, j: nat)
    requires IsRun(run, events) && i <= j < |run|
    ensures Onward(run[i], run[j])
    decreases j - i
  {
    if i < j {
      NeverBack(run, events, i, j - 1);
      assert Possible(run[j - 1], events[j - 1]);
      hide Next, Possible, Start, Onward;
      NextLink(run[j - 1], events[j - 1]);
      OnwardTwice(run[i], run[j - 1], run[j]);
    }
  }

  lemma {:induction false} TimerAlwaysFits(run: seq<Conn>, events: seq<Event>, i: nat)
    requires IsRun(run, events) && i < |run|
    ensures TimerFits(run[i].net)
  {
    if i > 0 {
      TimerAlwaysFits(run, events, i - 1);
      assert Possible(run[i - 1], events[i - 1]);
      hide Next, Possible, Start, Onward;
      NextLink(run[i - 1], events[i - 1]);
    }
  }

  /**
   Main result: once the connection is gone, by whichever event, it stays so: nothing more is
   written and no timer waits to close it again.
   */
  lemma {:induction false} GoneForGood(run: seq<Conn>, events: seq<Event>, i: nat, j: nat)
    requires IsRun(run, events) && i <= j < |run|
    requires run[i].net.state == Disconnected
             || (i < j && (events[i].LinkDown? || events[i].StreamEnd? || events[i].CleanupTimer? || Refused(run[i], events[i])))
    ensures run[j].net.state == Disconnected && !run[j].net.closing
    ensures run[i].net.state == Disconnected ==> run[j].past.sent == run[i].past.sent
    decreases j - i
  {
    TimerAlwaysFits(run, events, j);
    if i < j {
      assert Possible(run[i], events[i]) && run[i + 1] == Next(run[i], events[i]);
      hide Next, Possible, Start, Onward, IsRun;
      NextLink(run[i], events[i]);
      GoneForGood(run, events, i + 1, j);
    }
  }

  /** Main result: after the end of its stream a connection receives no stanza any more. */
  lemma {:induction false} NothingAfterEnd(run: seq<Conn>, events: seq<Event>, i: nat, j: nat)
    requires IsRun(run, events) && i < j < |run| && events[i].StreamEnd?
    ensures run[j].net.parser == Ended && (j < |events| ==> !events[j].Received? && !events[j].StreamStart?)
    decreases j - i
  {
    assert Possible(run[j - 1], events[j - 1]) && run[j] == Next(run[j - 1], events[j - 1]);
    assert j < |events| ==> Possible(run[j], events[j]);
    hide Next, Start, Onward, IsRun;
    NextLink(run[j - 1], events[j - 1]);
    if i + 1 < j {
      NothingAfterEnd(run, events, i, j - 1);
      GoneForGood(run, events, i, j - 1);
    }
  }
}
