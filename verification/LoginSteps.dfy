/** Each handler call and each event keeps the invariant. */
module LoginSteps {
  import opened Wrappers
  import opened Stanza
  import opened StanzaBuilder
  import opened Login
  import opened LoginInvariant

  // ----- the parts of a step

  /** The invariant without the lists, for any set of handlers that covers the active ones. */
  predicate Rules(c: Conn, active: set<Fn>) {
    StageRules(c.net, c.login, c.past, active) && Recorded(c.login, c.past) && SafeWire(c.past.sent)
  }

  /** Lists in order, with no login handler active but those in `bound`. */
  predicate ListsWithin(l: Lists, bound: set<Fn>) {
    ListsTidy(l) && Active(l) <= bound
  }

  lemma {:induction false} FromBound(c: Conn, bound: set<Fn>)
    requires Rules(c, bound) && ListsWithin(c.lists, bound)
    ensures Inv(c)
  {
  }

  lemma {:induction false} ToBound(c: Conn)
    requires Inv(c)
    ensures Rules(c, Active(c.lists)) && ListsWithin(c.lists, Active(c.lists))
  {
  }

  lemma {:induction false} AddWithin(c: Conn, h: Handler, bound: set<Fn>)
    requires ListsWithin(c.lists, bound) && NormalFn(h.fn)
    ensures ListsWithin(AddHandler(c, h).lists, bound + Internals(h.fn))
  {
    hide HandlersTidy, IdsTidy, ListActive, IdActive, Extend;
    ExtendKeepsTidy(c.lists.handlers, h);
  }

  lemma {:induction false} RemoveWithin(c: Conn, fn: Fn, bound: set<Fn>)
    requires ListsWithin(c.lists, bound) && NormalFn(fn)
    ensures ListsWithin(RemoveHandler(c, fn).lists, bound - {fn})
  {
    hide HandlersTidy, IdsTidy, ListActive, Except;
    ExceptKeepsTidy(c.lists.handlers, fn);
  }

  lemma {:induction false} AddIdWithin(c: Conn, id: string, fn: Fn, bound: set<Fn>)
    requires ListsWithin(c.lists, bound) && IdFn(id, fn)
    ensures ListsWithin(AddId(c, id, fn).lists, bound + Internals(fn))
  {
    hide HandlersTidy, IdsTidy, ListActive, IdActive, PutId, IdFn;
    PutIdKeepsTidy(c.lists.ids, c.lists.storesIds, id, fn);
  }

  lemma {:induction false} RemoveIdWithin(c: Conn, id: string, fn: Fn, bound: set<Fn>)
    requires ListsWithin(c.lists, bound) && IdFn(id, fn)
    ensures ListsWithin(RemoveId(c, id, fn).lists, bound - {fn})
  {
    hide HandlersTidy, IdsTidy, IdActive, DropId, IdFn;
    DropIdKeepsTidy(c.lists.ids, id, fn);
    NoIdFnListed(c.lists, id, fn);
  }

  /** The handlers found by id are never in the ordinary list. */
  lemma {:induction false} NoIdFnListed(l: Lists, id: string, fn: Fn)
    requires ListsTidy(l) && IdFn(id, fn)
    ensures fn !in ListActive(l.handlers)
  {
  }

  lemma {:induction false} UsersWithin(c: Conn, hs: seq<Handler>, bound: set<Fn>)
    requires ListsWithin(c.lists, bound)
    ensures ListsWithin(AddUserHandlers(c, hs).lists, bound)
  {
    hide HandlersTidy, IdsTidy, ListActive, IdActive, ExtendAll;
    UsersKeepTidy(c.lists.handlers, hs);
  }

  lemma {:induction false} MilestonesAfter(log: seq<Mark>, m: Mark)
    ensures Milestones(log + [m]) == Milestones(log) + (if m == UserCalled then [] else [m])
  {
    assert (log + [m])[..|log|] == log;
  }

  // ----- the rules after each action

  lemma {:induction false} AfterSend(c: Conn, o: Out, a: set<Fn>)
    requires Rules(c, a) && SafeOut(o)
    ensures Rules(Send(c, o), a)
  {
  }

  lemma {:induction false} AfterDisconnect(c: Conn, a: set<Fn>)
    requires Rules(c, a)
    ensures Rules(Disconnect(c), a) && Rules(DoDisconnect(c), a)
  {
    if c.net.state != Disconnected {
      AfterSend(c, StreamFooter, a);
    }
  }

  lemma {:induction false} AfterFewer(c: Conn, a: set<Fn>, b: set<Fn>)
    requires Rules(c, a) && b <= a
    ensures Rules(c, b)
  {
  }

  /** The handler _do_auth installs. */
  function AuthAdds(c: Conn): set<Fn> {
    if c.login.tlsSupport && !c.net.secured then {ProceedTls}
    else if c.login.authenticated then {}
    else if c.login.saslDigest then {DigestChallenge}
    else if c.login.saslPlain && c.login.jidHasNode then {SaslResult}
    else {}
  }

  lemma {:induction false} AuthLists(c: Conn, bound: set<Fn>)
    requires ListsWithin(c.lists, bound)
    ensures ListsWithin(DoAuth(c).lists, bound + AuthAdds(c))
  {
    hide ListsWithin, Extend, NS_TLS, NS_SASL;
    AddWithin(c, StartTlsHandler(), bound);
    AddWithin(c, SaslHandler(DigestChallenge), bound);
    AddWithin(c, SaslHandler(SaslResult), bound);
    assert bound + {} == bound;
  }

  /** Fields the record of a login depends on. */
  lemma {:induction false} RecordKept(c: Conn, r: Conn)
    requires Recorded(c.login, c.past)
    requires r.past.log == c.past.log && r.login.authenticated == c.login.authenticated
    requires r.login.sessionRequired == c.login.sessionRequired
    requires r.past.stage == c.past.stage || (c.past.stage == Negotiating && r.past.stage == Authenticating)
    ensures Recorded(r.login, r.past)
  {
  }

  lemma {:induction false} TrySafe(c: Conn, m: Mechanism)
    requires SafeWire(c.past.sent) && (c.net.secured || !c.login.tlsSupport)
    ensures SafeWire(TryMechanism(c, m).past.sent)
  {
  }

  /** The first call of _do_auth, from the features of a stream. */
  lemma {:induction false} AfterFirstAuth(c: Conn, a: set<Fn>)
    requires Rules(c, a) && c.past.stage == Negotiating && Settled(c.net) && a <= {StreamError}
    requires c.past.offeredDigest == c.login.saslDigest
    ensures Rules(DoAuth(c), a + AuthAdds(c))
  {
    hide SafeWire, Milestones, UsersLate;
    RecordKept(c, DoAuth(c));
    if c.login.tlsSupport && !c.net.secured {
      AfterSend(AddHandler(c, StartTlsHandler()), StartTls, a);
    } else if c.login.saslDigest {
      TrySafe(c, DigestMd5);
    } else if c.login.saslPlain && c.login.jidHasNode {
      TrySafe(c, Plain);
    } else {
      AfterDisconnect(c, a);
      assert a + AuthAdds(c) == a;
    }
  }

  /** A later call of _do_auth, after the mechanism tried last has failed. */
  lemma {:induction false} AfterFailure(c: Conn, a: set<Fn>)
    requires Rules(c, a) && c.past.stage == Authenticating && a <= {StreamError}
    ensures Rules(DoAuth(RecordFailure(c)), a + AuthAdds(RecordFailure(c)))
  {
    hide SafeWire, Milestones, UsersLate;
    var f := RecordFailure(c);
    RecordKept(c, f);
    assert Rules(f, a);
    RecordKept(f, DoAuth(f));
    if f.login.saslPlain && f.login.jidHasNode {
      TrySafe(f, Plain);
    } else {
      AfterDisconnect(f, a);
      assert a + AuthAdds(f) == a;
    }
  }

  lemma {:induction false} AfterSuccess(c: Conn, a: set<Fn>)
    requires Rules(c, a) && c.past.stage == Authenticating && a <= {StreamError}
    ensures Rules(RestartStream(c), a)
  {
    hide SafeWire, UsersLate, Milestones;
    AfterSend(c, StreamHeader, a);
    MilestonesAfter(c.past.log, SaslSuccess);
    NoUserMark(c.past.log, SaslSuccess, c.login.sessionRequired);
  }

  lemma {:induction false} AfterBindRequest(c: Conn, seen: Conn, a: set<Fn>)
    requires Rules(c, a) && c.past.stage == StreamReopened && a <= {StreamError}
    requires seen == c.(login := c.login.(bindRequired := seen.login.bindRequired,
                                          sessionRequired := seen.login.sessionRequired))
    ensures Rules(seen, a) && Rules(RequestBind(seen), a + {Bind})
  {
    var n := Send(AddId(seen, BIND_ID, Bind), BindRequest);
    assert Rules(seen, a);
    AfterSend(AddId(seen, BIND_ID, Bind), BindRequest, a);
    MilestonesAfter(n.past.log, BindOffered(seen.login.sessionRequired));
  }

  lemma {:induction false} NoUserMark(log: seq<Mark>, m: Mark, session: bool)
    requires UserCalled !in log && m != UserCalled
    ensures UsersLate(log + [m], session) && UserCalled !in log + [m]
  {
  }

  lemma {:induction false} AfterSessionRequest(c: Conn, a: set<Fn>)
    requires Rules(c, a) && c.past.stage == Binding && a <= {StreamError} && c.login.sessionRequired
    ensures Rules(RequestSession(c), a + {Session})
  {
    hide SafeWire, UsersLate, Milestones;
    AfterSend(AddId(c, SESSION_ID, Session), SessionRequest, a);
    MilestonesAfter(c.past.log, Bound);
    NoUserMark(c.past.log, Bound, c.login.sessionRequired);
  }

  lemma {:induction false} AfterLogIn(c: Conn, mark: Mark, env: Env, a: set<Fn>)
    requires Rules(c, a) && a <= {StreamError}
    requires (c.past.stage == Binding && mark == Bound && !c.login.sessionRequired)
             || (c.past.stage == Establishing && mark == SessionUp)
    ensures Rules(LogIn(c, mark, env), a)
  {
    hide SafeWire, UsersLate, Milestones, ExtendAll;
    MilestonesAfter(c.past.log, mark);
    NoUserMark(c.past.log, mark, c.login.sessionRequired);
  }

  lemma {:induction false} UserMark(log: seq<Mark>, session: bool)
    requires UsersLate(log, session) && Milestones(log) == FullLogin(session)
    ensures UsersLate(log + [UserCalled], session)
  {
    hide Milestones, FullLogin;
    var after := log + [UserCalled];
    forall i | 0 <= i < |after| && after[i] == UserCalled
      ensures Milestones(after[..i]) == FullLogin(session)
    {
      assert after[..i] == log[..i];
      assert i == |log| ==> log[..i] == log;
    }
  }

  lemma {:induction false} AfterUserCall(c: Conn, k: nat, env: Env, a: set<Fn>)
    requires Rules(c, a) && c.login.authenticated
    ensures Rules(CallUser(c, k, env), a)
  {
    hide UsersLate, Milestones, FullLogin, SafeWire;
    MilestonesAfter(c.past.log, UserCalled);
    UserMark(c.past.log, c.login.sessionRequired);
  }

  // ----- one call of a handler

  /** A handler that is done leaves the list. */
  lemma {:induction false} Leave(c: Conn, fn: Fn, bound: set<Fn>)
    requires NormalFn(fn) && ListsWithin(c.lists, bound) && Rules(c, bound - {fn})
    ensures Inv(RemoveHandler(c, fn))
  {
    hide ListsWithin, Rules, Inv, Except;
    RemoveWithin(c, fn, bound);
    var r := RemoveHandler(c, fn);
    assert Rules(r, bound - {fn}) by { SameRules(c, r, bound - {fn}); }
    FromBound(r, bound - {fn});
  }

  lemma {:induction false} LeaveId(c: Conn, id: string, fn: Fn, bound: set<Fn>)
    requires IdFn(id, fn) && ListsWithin(c.lists, bound) && Rules(c, bound - {fn})
    ensures Inv(RemoveId(c, id, fn))
  {
    hide ListsWithin, Rules, Inv, DropId, IdFn;
    RemoveIdWithin(c, id, fn, bound);
    var r := RemoveId(c, id, fn);
    assert Rules(r, bound - {fn}) by { SameRules(c, r, bound - {fn}); }
    FromBound(r, bound - {fn});
  }

  lemma {:induction false} SameRules(c: Conn, r: Conn, a: set<Fn>)
    requires r.net == c.net && r.login == c.login && r.past == c.past && Rules(c, a)
    ensures Rules(r, a)
  {
  }

  lemma {:induction false} VisitFeatures(c: Conn, s: Node, env: Env)
    requires Inv(c) && Features in Active(c.lists)
    ensures Inv(Visit(c, Features, s, env))
  {
    hide ListsTidy, Recorded, SafeWire, Active, Offers, OffersMechanism, Extend, Except;
    var a := Active(c.lists);
    var seen := ReadFeatures(c, s);
    ToBound(c);
    assert Recorded(seen.login, seen.past) by { RecordKept(c, seen); }
    assert Rules(seen, a - {Features});
    AfterFirstAuth(seen, a - {Features});
    AuthLists(seen, a);
    assert a + AuthAdds(seen) - {Features} == a - {Features} + AuthAdds(seen);
    Leave(DoAuth(seen), Features, a + AuthAdds(seen));
  }

  lemma {:induction false} VisitProceedTls(c: Conn, s: Node, env: Env)
    requires Inv(c) && ProceedTls in Active(c.lists)
    ensures Inv(Visit(c, ProceedTls, s, env))
  {
    hide ListsTidy, Recorded, SafeWire, Active, Except;
    var a := Active(c.lists);
    var r := HandleProceedTls(c, s, env).0;
    ToBound(c);
    assert Rules(r, a - {ProceedTls});
    Leave(r, ProceedTls, a);
  }

  predicate SaslFn(fn: Fn) {
    fn == SaslResult || fn == DigestChallenge || fn == DigestRspauth
  }

  /** A SASL handler that receives the outcome, whichever it is. */
  lemma {:induction false} VisitOutcome(c: Conn, fn: Fn, s: Node)
    requires Inv(c) && fn in Active(c.lists) && SaslFn(fn)
    ensures Inv(RemoveHandler(HandleSaslResult(c, s).0, fn))
  {
    hide ListsTidy, Recorded, SafeWire, Active, Extend, Except;
    var a := Active(c.lists);
    ToBound(c);
    assert Rules(c, a - {fn});
    if Name(s) == Some("failure") {
      var f := RecordFailure(c);
      AfterFailure(c, a - {fn});
      AuthLists(f, a);
      FailureAdds(f, fn, a);
      Leave(DoAuth(f), fn, a + AuthAdds(f));
    } else if Name(s) == Some("success") {
      AfterSuccess(c, a - {fn});
      Leave(RestartStream(c), fn, a);
    } else {
      AfterDisconnect(c, a - {fn});
      Leave(Disconnect(c), fn, a);
    }
  }

  /** A handler that failed is never the one installed next. */
  lemma {:induction false} FailureAdds(f: Conn, fn: Fn, a: set<Fn>)
    requires StageRules(f.net, f.login, f.past, a) && f.past.stage == Authenticating
    requires fn in a && SaslFn(fn)
    ensures a + AuthAdds(f) - {fn} == a - {fn} + AuthAdds(f)
  {
    assert fn !in AuthAdds(f);
  }

  lemma {:induction false} VisitSaslResult(c: Conn, s: Node, env: Env)
    requires Inv(c) && SaslResult in Active(c.lists)
    ensures Inv(Visit(c, SaslResult, s, env))
  {
    VisitOutcome(c, SaslResult, s);
    hide Inv, Active, HandleSaslResult, RemoveHandler;
  }

  lemma {:induction false} VisitDigestChallenge(c: Conn, s: Node, env: Env)
    requires Inv(c) && DigestChallenge in Active(c.lists)
    ensures Inv(Visit(c, DigestChallenge, s, env))
  {
    hide ListsTidy, Recorded, SafeWire, Active, Extend, Except, HandleSaslResult;
    if Name(s) != Some("challenge") {
      VisitOutcome(c, DigestChallenge, s);
    } else {
      var a := Active(c.lists);
      ToBound(c);
      var h := SaslHandler(DigestRspauth);
      var b := a + {DigestRspauth};
      if env.digestOk {
        AddWithin(c, h, a);
        assert Rules(AddHandler(c, h), b - {DigestChallenge});
        AfterSend(AddHandler(c, h), Response(c.net.secured, c.login.tlsSupport), b - {DigestChallenge});
        Leave(Respond(AddHandler(c, h)), DigestChallenge, b);
      } else {
        AfterFewer(c, a, a - {DigestChallenge});
        AfterDisconnect(c, a - {DigestChallenge});
        Leave(Disconnect(c), DigestChallenge, a);
      }
    }
  }

  lemma {:induction false} VisitDigestRspauth(c: Conn, s: Node, env: Env)
    requires Inv(c) && DigestRspauth in Active(c.lists)
    ensures Inv(Visit(c, DigestRspauth, s, env))
  {
    hide ListsTidy, Recorded, SafeWire, Active, Except, HandleSaslResult;
    if Name(s) != Some("challenge") {
      VisitOutcome(c, DigestRspauth, s);
    } else {
      ToBound(c);
      AfterSend(c, Response(c.net.secured, c.login.tlsSupport), Active(c.lists));
      FromBound(Respond(c), Active(c.lists));
    }
  }

  lemma {:induction false} VisitFeaturesSasl(c: Conn, s: Node, env: Env)
    requires Inv(c) && FeaturesSasl in Active(c.lists)
    ensures Inv(Visit(c, FeaturesSasl, s, env))
  {
    hide Recorded, SafeWire, Active, ListsTidy, Offers, RequestBind, Disconnect, Except;
    var a := Active(c.lists);
    ToBound(c);
    AfterFewer(c, a, a - {FeaturesSasl});
    SaslFeaturesKeep(c, ReadSaslFeatures(c, s), a);
  }

  lemma {:induction false} SaslFeaturesKeep(c: Conn, seen: Conn, a: set<Fn>)
    requires Rules(c, a - {FeaturesSasl}) && ListsWithin(c.lists, a)
    requires c.past.stage == StreamReopened && a <= {StreamError, FeaturesSasl}
    requires seen == c.(login := c.login.(bindRequired := seen.login.bindRequired,
                                          sessionRequired := seen.login.sessionRequired))
    ensures Inv(RemoveHandler(RequestBind(seen), FeaturesSasl))
    ensures Inv(RemoveHandler(Disconnect(seen), FeaturesSasl))
  {
    hide Rules, Inv, ListsWithin, PutId, Except;
    AfterBindRequest(c, seen, a - {FeaturesSasl});
    AfterDisconnect(seen, a - {FeaturesSasl});
    AddIdWithin(seen, BIND_ID, Bind, a);
    assert a + {Bind} - {FeaturesSasl} == a - {FeaturesSasl} + {Bind};
    Leave(RequestBind(seen), FeaturesSasl, a + {Bind});
    Leave(Disconnect(seen), FeaturesSasl, a);
  }

  lemma {:induction false} VisitBind(c: Conn, s: Node, env: Env)
    requires Inv(c) && Bind in Active(c.lists)
    ensures Inv(VisitId(c, BIND_ID, Bind, s, env))
  {
    hide ListsTidy, Recorded, SafeWire, Active, PutId, DropId, ExtendAll, BIND_ID, SESSION_ID;
    var a := Active(c.lists);
    ToBound(c);
    AfterFewer(c, a, a - {Bind});
    if Attribute(s, "type") != Some("result") {
      AfterDisconnect(c, a - {Bind});
      LeaveId(Disconnect(c), BIND_ID, Bind, a);
    } else if c.login.sessionRequired {
      AfterSessionRequest(c, a - {Bind});
      AddIdWithin(c, SESSION_ID, Session, a);
      assert a + {Session} - {Bind} == a - {Bind} + {Session};
      LeaveId(RequestSession(c), BIND_ID, Bind, a + {Session});
    } else {
      AfterLogIn(c, Bound, env, a - {Bind});
      UsersWithin(c, env.onConnect, a);
      LeaveId(LogIn(c, Bound, env), BIND_ID, Bind, a);
    }
  }

  lemma {:induction false} VisitSession(c: Conn, s: Node, env: Env)
    requires Inv(c) && Session in Active(c.lists)
    ensures Inv(VisitId(c, SESSION_ID, Session, s, env))
  {
    hide ListsTidy, Recorded, SafeWire, Active, DropId, ExtendAll, BIND_ID, SESSION_ID;
    var a := Active(c.lists);
    ToBound(c);
    AfterFewer(c, a, a - {Session});
    if Attribute(s, "type") == Some("result") {
      AfterLogIn(c, SessionUp, env, a - {Session});
      UsersWithin(c, env.onConnect, a);
      LeaveId(LogIn(c, SessionUp, env), SESSION_ID, Session, a);
    } else {
      AfterDisconnect(c, a - {Session});
      LeaveId(Disconnect(c), SESSION_ID, Session, a);
    }
  }

  lemma {:induction false} CallUserKeeps(c: Conn, k: nat, env: Env)
    requires Inv(c) && c.login.authenticated
    ensures Rules(CallUser(c, k, env), Active(c.lists)) && ListsWithin(CallUser(c, k, env).lists, Active(c.lists))
  {
    ToBound(c);
    AfterUserCall(c, k, env, Active(c.lists));
    UsersWithin(c, env.user(k).0, Active(c.lists));
  }

  lemma {:induction false} VisitUser(c: Conn, k: nat, s: Node, env: Env)
    requires Inv(c) && c.login.authenticated
    ensures Inv(Visit(c, User(k), s, env))
    ensures forall id :: Inv(VisitId(c, id, User(k), s, env))
  {
    hide Inv, CallUser, ListsWithin, Rules, Active, DropId, Except;
    var a := Active(c.lists);
    var r := CallUser(c, k, env);
    CallUserKeeps(c, k, env);
    FromBound(r, a);
    ActiveInternal(c.lists, k);
    assert a - {User(k)} == a;
    Leave(r, User(k), a);
    forall id: string
      ensures Inv(VisitId(c, id, User(k), s, env))
    {
      LeaveId(r, id, User(k), a);
    }
  }

  lemma {:induction false} ActiveInternal(l: Lists, k: nat)
    ensures User(k) !in Active(l)
  {
  }

  /** A call from the ordinary list, whatever the stanza says. */
  lemma {:induction false} VisitKeepsInv(c: Conn, fn: Fn, s: Node, env: Env)
    requires Inv(c) && Installed(c.lists.handlers, fn) && !Gated(c, fn)
    ensures Inv(Visit(c, fn, s, env))
  {
    hide Inv, Visit, Active;
    ListedIsActive(c, fn);
    match fn {
      case StreamError => StreamErrorKeeps(c, s, env);
      case Features => VisitFeatures(c, s, env);
      case ProceedTls => VisitProceedTls(c, s, env);
      case SaslResult => VisitSaslResult(c, s, env);
      case DigestChallenge => VisitDigestChallenge(c, s, env);
      case DigestRspauth => VisitDigestRspauth(c, s, env);
      case FeaturesSasl => VisitFeaturesSasl(c, s, env);
      case User(k) => VisitUser(c, k, s, env);
      case Bind => assert false;
      case Session => assert false;
    }
  }

  lemma {:induction false} StreamErrorKeeps(c: Conn, s: Node, env: Env)
    requires Inv(c)
    ensures Inv(Visit(c, StreamError, s, env))
  {
  }

  lemma {:induction false} ListedIsActive(c: Conn, fn: Fn)
    requires Inv(c) && Installed(c.lists.handlers, fn)
    ensures NormalFn(fn) && (fn.User? || fn in Active(c.lists))
  {
    assert fn in Fns(c.lists.handlers);
  }

  /** A call from the list of an id. */
  lemma {:induction false} VisitIdKeepsInv(c: Conn, id: string, fn: Fn, s: Node, env: Env)
    requires Inv(c) && id in c.lists.ids && fn in c.lists.ids[id] && !Gated(c, fn)
    ensures Inv(VisitId(c, id, fn, s, env))
  {
    hide Inv, VisitId, Active;
    ByIdIsActive(c, id, fn);
    match fn {
      case User(k) => VisitUser(c, k, s, env);
      case Bind => VisitBind(c, s, env);
      case Session => VisitSession(c, s, env);
      case _ => assert false;
    }
  }

  lemma {:induction false} ByIdIsActive(c: Conn, id: string, fn: Fn)
    requires Inv(c) && id in c.lists.ids && fn in c.lists.ids[id]
    ensures IdFn(id, fn) && (fn.User? || fn in Active(c.lists))
  {
    assert IdList(id, c.lists.ids[id]);
  }

  // ----- calls only add

  /** `b` is `a` with disabled handlers added at the end, none of them twice. */
  predicate Extends(a: seq<Handler>, b: seq<Handler>) {
    && a <= b && (forall k :: |a| <= k < |b| ==> !b[k].enabled)
    && (Distinct(a) ==> Distinct(b))
  }

  predicate IdsGrow(a: map<string, seq<Fn>>, b: map<string, seq<Fn>>) {
    forall id, fn :: id in a && fn in a[id] ==> id in b && fn in b[id]
  }

  lemma {:induction false} ExtendsTwice(a: seq<Handler>, b: seq<Handler>, c: seq<Handler>)
    requires Extends(a, b) && Extends(b, c)
    ensures Extends(a, c)
  {
  }

  lemma {:induction false} ExtendGrows(handlers: seq<Handler>, h: Handler)
    ensures Extends(handlers, Extend(handlers, h))
  {
  }

  lemma {:induction false} ExtendAllGrows(handlers: seq<Handler>, hs: seq<Handler>)
    ensures Extends(handlers, ExtendAll(handlers, hs))
    decreases |hs|
  {
    hide Extends, Extend;
    if hs != [] {
      var once := Extend(handlers, UserHandler(hs[0]));
      ExtendGrows(handlers, UserHandler(hs[0]));
      ExtendAllGrows(once, hs[1..]);
      ExtendsTwice(handlers, once, ExtendAll(once, hs[1..]));
    } else {
      ExtendsSelf(handlers);
    }
  }

  lemma {:induction false} ExtendsSelf(handlers: seq<Handler>)
    ensures Extends(handlers, handlers)
  {
  }

  lemma {:induction false} PutIdGrows(ids: map<string, seq<Fn>>, stores: bool, id: string, fn: Fn)
    ensures IdsGrow(ids, PutId(ids, stores, id, fn))
  {
  }

  lemma {:induction false} AuthGrows(c: Conn)
    ensures Extends(c.lists.handlers, DoAuth(c).lists.handlers) && DoAuth(c).lists.ids == c.lists.ids
  {
    hide Extends, Extend;
    ExtendsSelf(c.lists.handlers);
    ExtendGrows(c.lists.handlers, StartTlsHandler());
    ExtendGrows(c.lists.handlers, SaslHandler(DigestChallenge));
    ExtendGrows(c.lists.handlers, SaslHandler(SaslResult));
  }

  /** No call of a handler removes another handler. */
  lemma {:induction false} CallGrows(c: Conn, fn: Fn, s: Node, env: Env)
    ensures var r := Call(c, fn, s, env).0;
            Extends(c.lists.handlers, r.lists.handlers) && IdsGrow(c.lists.ids, r.lists.ids)
  {
    hide Extends, Extend, ExtendAll, PutId, DoAuth, Offers, OffersMechanism, Attribute, BIND_ID, SESSION_ID;
    ExtendsSelf(c.lists.handlers);
    match fn {
      case Features => AuthGrows(ReadFeatures(c, s));
      case SaslResult => AuthGrows(RecordFailure(c));
      case DigestChallenge =>
        AuthGrows(RecordFailure(c));
        ExtendGrows(c.lists.handlers, SaslHandler(DigestRspauth));
      case DigestRspauth => AuthGrows(RecordFailure(c));
      case FeaturesSasl => PutIdGrows(c.lists.ids, c.lists.storesIds, BIND_ID, Bind);
      case Bind =>
        PutIdGrows(c.lists.ids, c.lists.storesIds, SESSION_ID, Session);
        ExtendAllGrows(c.lists.handlers, env.onConnect);
      case Session => ExtendAllGrows(c.lists.handlers, env.onConnect);
      case User(k) => ExtendAllGrows(c.lists.handlers, env.user(k).0);
      case _ =>
    }
  }

  // ----- one event

  predicate ListedFor(c: Conn, id: string, order: seq<Fn>) {
    DistinctFns(order) && forall f :: f in order ==> id in c.lists.ids && f in c.lists.ids[id]
  }

  /** After one call by id, another handler of that id is still listed. */
  lemma {:induction false} OtherStaysListed(c: Conn, id: string, fn: Fn, f: Fn, s: Node, env: Env)
    requires id in c.lists.ids && f in c.lists.ids[id] && f != fn
    ensures var v := VisitId(c, id, fn, s, env); id in v.lists.ids && f in v.lists.ids[id]
  {
    hide Call, DropId, BIND_ID, SESSION_ID;
    CallGrows(c, fn, s, env);
    DropOther(Call(c, fn, s, env).0.lists.ids, id, fn, f);
  }

  lemma {:induction false} OthersStayListed(c: Conn, id: string, order: seq<Fn>, s: Node, env: Env)
    requires order != [] && ListedFor(c, id, order)
    ensures ListedFor(VisitId(c, id, order[0], s, env), id, order[1..])
  {
    hide VisitId;
    var v, rest := VisitId(c, id, order[0], s, env), order[1..];
    forall f | f in rest
      ensures id in v.lists.ids && f in v.lists.ids[id]
    {
      var k :| 0 <= k < |rest| && rest[k] == f;
      assert f == order[k + 1] && order[k + 1] in order;
      OtherStaysListed(c, id, order[0], f, s, env);
    }
    assert DistinctFns(rest) by {
      assert forall k :: 0 <= k < |rest| ==> rest[k] == order[k + 1];
    }
  }

  lemma {:induction false} ExceptOther(fns: seq<Fn>, fn: Fn, f: Fn)
    requires f in fns && f != fn
    ensures f in ExceptFn(fns, fn)
  {
    if fns[0] != fn && fns[0] != f {
      ExceptOther(fns[1..], fn, f);
    }
  }

  lemma {:induction false} DropOther(ids: map<string, seq<Fn>>, id: string, fn: Fn, f: Fn)
    requires id in ids && f in ids[id] && f != fn
    ensures id in DropId(ids, id, fn) && f in DropId(ids, id, fn)[id]
  {
    ExceptOther(ids[id], fn, f);
  }

  lemma {:induction false} RunIdsKeepsInv(c: Conn, id: string, order: seq<Fn>, s: Node, env: Env)
    requires Inv(c) && ListedFor(c, id, order)
    ensures Inv(RunIds(c, id, order, s, env))
    decreases |order|
  {
    hide Inv, VisitId;
    if order != [] {
      assert order[0] in order;
      assert forall f :: f in order[1..] ==> f in order;
      if Gated(c, order[0]) {
        RunIdsKeepsInv(c, id, order[1..], s, env);
      } else {
        VisitIdKeepsInv(c, id, order[0], s, env);
        OthersStayListed(c, id, order, s, env);
        RunIdsKeepsInv(VisitId(c, id, order[0], s, env), id, order[1..], s, env);
      }
    }
  }

  predicate AllListed(handlers: seq<Handler>, order: seq<Handler>) {
    Distinct(order) && forall k :: 0 <= k < |order| ==> Installed(handlers, order[k].fn)
  }

  /** Taking one handler off leaves the others. */
  lemma {:induction false} ExceptStays(handlers: seq<Handler>, fn: Fn, f: Fn)
    requires Installed(handlers, f) && f != fn
    ensures Installed(Except(handlers, fn), f)
  {
    if handlers[0].fn == f {
      assert Except(handlers, fn)[0].fn == f;
    } else {
      assert Installed(handlers[1..], f) by {
        var k :| 0 <= k < |handlers| && handlers[k].fn == f;
        assert handlers[1..][k - 1].fn == f;
      }
      ExceptStays(handlers[1..], fn, f);
      var rest := Except(handlers[1..], fn);
      var k :| 0 <= k < |rest| && rest[k].fn == f;
      var n := if handlers[0].fn == fn then 0 else 1;
      assert Except(handlers, fn)[k + n].fn == f;
    }
  }

  lemma {:induction false} OthersStay(c: Conn, order: seq<Handler>, s: Node, env: Env)
    requires order != [] && AllListed(c.lists.handlers, order)
    ensures AllListed(Visit(c, order[0].fn, s, env).lists.handlers, order[1..])
  {
    hide Call, Except;
    var r, fn := Call(c, order[0].fn, s, env).0, order[0].fn;
    CallGrows(c, fn, s, env);
    forall k | 0 <= k < |order[1..]|
      ensures Installed(r.lists.handlers, order[1..][k].fn) && Installed(Except(r.lists.handlers, fn), order[1..][k].fn)
    {
      var f := order[1..][k].fn;
      assert order[1..][k] == order[k + 1];
      var i :| 0 <= i < |c.lists.handlers| && c.lists.handlers[i].fn == f;
      assert r.lists.handlers[i].fn == f;
      ExceptStays(r.lists.handlers, fn, f);
    }
  }

  lemma {:induction false} RunHandlersKeepsInv(c: Conn, order: seq<Handler>, s: Node, env: Env)
    requires Inv(c) && AllListed(c.lists.handlers, order)
    ensures Inv(RunHandlers(c, order, s, env))
    decreases |order|
  {
    hide Inv, Visit, Matches;
    if order != [] {
      if Gated(c, order[0].fn) || !Matches(order[0], s) {
        StaysListed(c.lists.handlers, order);
        RunHandlersKeepsInv(c, order[1..], s, env);
      } else {
        VisitKeepsInv(c, order[0].fn, s, env);
        OthersStay(c, order, s, env);
        RunHandlersKeepsInv(Visit(c, order[0].fn, s, env), order[1..], s, env);
      }
    }
  }

  lemma {:induction false} StaysListed(handlers: seq<Handler>, order: seq<Handler>)
    requires order != [] && AllListed(handlers, order)
    ensures AllListed(handlers, order[1..])
  {
    assert forall k :: 0 <= k < |order[1..]| ==> order[1..][k] == order[k + 1];
  }

  lemma {:induction false} EnableKeepsInv(c: Conn)
    requires Inv(c)
    ensures Inv(Enable(c)) && AllListed(Enable(c).lists.handlers, Enable(c).lists.handlers)
  {
    assert Fns(Enable(c).lists.handlers) == Fns(c.lists.handlers);
    SameRules(c, Enable(c), Active(c.lists));
  }

  lemma {:induction false} FireKeepsInv(c: Conn, s: Node, env: Env)
    requires Inv(c)
    ensures Inv(Fire(c, s, env))
  {
    hide RunIds, RunHandlers, Enable, BIND_ID, SESSION_ID, Rules, StageRules, Recorded, SafeWire;
    var id := Attribute(s, "id");
    if id.Some? && id.value in c.lists.ids {
      assert IdList(id.value, c.lists.ids[id.value]);
      RunIdsKeepsInv(c, id.value, c.lists.ids[id.value], s, env);
    }
    var c2 := Enable(FireIds(c, s, env));
    EnableKeepsInv(FireIds(c, s, env));
    RunHandlersKeepsInv(c2, c2.lists.handlers, s, env);
  }

  lemma {:induction false} AfterReopen(c: Conn, d: Conn, a: set<Fn>)
    requires Rules(c, a) && c.past.stage == SaslDone && a <= {StreamError}
    requires d.login == c.login && d.past == c.past && Settled(d.net) && d.net.openHandler == OpenSasl
    ensures Rules(Note(d, StreamReopened, Reopened), a + {FeaturesSasl})
  {
    MilestonesAfter(c.past.log, Reopened);
  }

  lemma {:induction false} AfterOpen(c: Conn, d: Conn, a: set<Fn>)
    requires Rules(c, a) && c.past.stage == Negotiating && Features !in a && ProceedTls !in a
    requires d.login == c.login && d.past == c.past && Settled(d.net) && d.net.openHandler == OpenAuth
    ensures Rules(d, a + {StreamError} + {Features})
  {
  }

  /** A new stream starts only while no stream was open, before or after SASL. */
  lemma {:induction false} FreshStages(c: Conn, d: Conn)
    requires Inv(c) && c.net.parser == Fresh && !c.net.resetPending
    requires d.net.parser == InStream && !d.net.resetPending
    requires d.net.state == c.net.state || d.net.state == Disconnected
    ensures Settled(d.net)
    ensures c.net.openHandler == OpenAuth ==>
              c.past.stage == Negotiating && Features !in Active(c.lists) && ProceedTls !in Active(c.lists)
    ensures c.net.openHandler == OpenSasl ==> c.past.stage == SaslDone && Active(c.lists) <= {StreamError}
  {
  }

  lemma {:induction false} OpenKeepsInv(c: Conn, d: Conn)
    requires Inv(c) && c.net.parser == Fresh && !c.net.resetPending
    requires d.login == c.login && d.past == c.past && d.lists == c.lists
    requires d.net.parser == InStream && d.net.openHandler == c.net.openHandler && !d.net.resetPending
    requires d.net.state == c.net.state || d.net.state == Disconnected
    ensures Inv(RunOpenHandler(d))
  {
    hide Inv, Rules, ListsWithin, Active, Extend, NS_STREAMS, Settled;
    var a := Active(c.lists);
    ToBound(c);
    FreshStages(c, d);
    match d.net.openHandler {
      case OpenAuth =>
        var one := AddHandler(d, StreamHandler(StreamError, "error"));
        AddWithin(d, StreamHandler(StreamError, "error"), a);
        AddWithin(one, StreamHandler(Features, "features"), a + {StreamError});
        AfterOpen(c, d, a);
        SameRules(d, RunOpenHandler(d), a + {StreamError} + {Features});
        FromBound(RunOpenHandler(d), a + {StreamError} + {Features});
      case OpenSasl =>
        AddWithin(d, StreamHandler(FeaturesSasl, "features"), a);
        AfterReopen(c, d, a);
        SameRules(Note(d, StreamReopened, Reopened), RunOpenHandler(d), a + {FeaturesSasl});
        FromBound(RunOpenHandler(d), a + {FeaturesSasl});
    }
  }

  lemma {:induction false} LinkUpKeepsInv(c: Conn)
    requires Inv(c)
    ensures Inv(OnLinkUp(c))
  {
    hide ListsTidy, Active, UsersLate, Milestones;
    var a := Active(c.lists);
    ToBound(c);
    if c.net.state == Connecting {
      var up := c.(net := c.net.(state := Connected, secured := c.net.secured || c.net.ssl));
      AfterSend(ResetStream(up, OpenAuth), StreamHeader, a);
      FromBound(OnLinkUp(c), a);
    }
  }

  lemma {:induction false} NetKeepsInv(c: Conn, d: Conn)
    requires Inv(c) && d.login == c.login && d.past == c.past && d.lists == c.lists
    requires d.net.openHandler == c.net.openHandler && d.net.secured == c.net.secured
    requires d.net.state == c.net.state || d.net.state == Disconnected
    requires ((d.net.parser == Fresh <==> c.net.parser == Fresh) && d.net.resetPending == c.net.resetPending)
             || (c.net.resetPending && c.net.state == Connected && d.net.parser == Fresh && !d.net.resetPending)
    ensures Inv(d)
  {
    hide ListsTidy, Active, Recorded, SafeWire;
    ToBound(c);
    FromBound(d, Active(c.lists));
  }

  /** Main result: every event the parser, the network, the timers or the user can cause. */
  lemma {:induction false} NextKeepsInv(c: Conn, e: Event)
    requires Inv(c) && Possible(c, e)
    ensures Inv(Next(c, e))
  {
    hide Inv, Fire, RunOpenHandler, Extend, PutId, Except, BIND_ID, SESSION_ID, Rules, ListsWithin;
    ToBound(c);
    var a := Active(c.lists);
    match e {
      case LinkUp => LinkUpKeepsInv(c);
      case LinkDown => NetKeepsInv(c, Next(c, e));
      case Chunk => NetKeepsInv(c, Next(c, e));
      case StreamStart(name, hasId) =>
        var known := c.net.hasStreamId || (name == "stream" && hasId);
        var entered := c.(net := c.net.(parser := InStream, hasStreamId := known));
        OpenKeepsInv(c, if name != "stream" || !known then DoDisconnect(entered) else entered);
      case StreamEnd => NetKeepsInv(c, Next(c, e));
      case Received(s, env) => FireKeepsInv(c, s, env);
      case CleanupTimer => NetKeepsInv(c, Next(c, e));
      case DisableTls => DisableKeepsInv(c);
      case AddUser(h) =>
        AddWithin(c, UserHandler(h), a);
        SameRules(c, Next(c, e), a);
        assert a + Internals(UserHandler(h).fn) == a;
        FromBound(Next(c, e), a);
      case AddUserId(id, k) =>
        AddIdWithin(c, id, User(k), a);
        SameRules(c, Next(c, e), a);
        assert a + Internals(User(k)) == a;
        FromBound(Next(c, e), a);
      case DeleteUser(k) =>
        ActiveInternal(c.lists, k);
        assert a - {User(k)} == a;
        Leave(c, User(k), a);
      case CloseByUser =>
        AfterDisconnect(c, a);
        FromBound(Disconnect(c), a);
    }
  }

  lemma {:induction false} DisableKeepsInv(c: Conn)
    requires Inv(c)
    ensures Inv(c.(login := c.login.(tlsDisabled := true)))
  {
  }

  lemma {:induction false} StartInv(jidHasNode: bool, storesIds: bool)
    ensures Inv(Start(jidHasNode, storesIds))
  {
    assert Fns([]) == [];
  }

  /** Main result: the invariant holds throughout every run, whatever the server sends. */
  lemma {:induction false} RunKeepsInv(run: seq<Conn>, events: seq<Event>, i: nat)
    requires IsRun(run, events) && i < |run|
    ensures Inv(run[i])
  {
    hide Inv, Next, Possible;
    if i == 0 {
      StartInv(run[0].login.jidHasNode, run[0].lists.storesIds);
    } else {
      RunKeepsInv(run, events, i - 1);
      assert Possible(run[i - 1], events[i - 1]) && run[i] == Next(run[i - 1], events[i - 1]);
      NextKeepsInv(run[i - 1], events[i - 1]);
    }
  }
}
