/** What a completed login rests on: the stanzas of the server that brought it about, in order. */
module LoginNeeds {
  import opened Wrappers
  import opened Stanza
  import opened StanzaBuilder
  import opened Login
  import opened LoginInvariant
  import opened LoginSteps
  import opened LoginStages
  import opened LoginDispatch

  /** How far the login is: 5 is the end. */
  function Level(c: Conn): nat {
    match c.past.stage
    case Negotiating => 0
    case Authenticating => 0
    case SaslDone => 1
    case StreamReopened => 2
    case Binding => 3
    case Establishing => 4
    case LoggedIn => 5
  }

  predicate Crosses(c: Conn, d: Conn, k: nat) {
    Level(c) < k <= Level(d)
  }

  /** A resource is asked for only by the features that offer it. */
  predicate Asked(c: Conn) {
    && (c.login.bindRequired ==> Level(c) >= 3)
    && (c.login.sessionRequired ==> Level(c) >= 3 || (Level(c) == 2 && FeaturesSasl !in Active(c.lists)))
  }

  predicate CompletedBy(s: Node, session: bool) {
    Answers(s, if session then SESSION_ID else BIND_ID)
  }

  /** Within one stanza each level is reached only if the stanza says what it takes. */
  predicate Justified(c: Conn, d: Conn, s: Node) {
    && (Crosses(c, d, 1) ==> Name(s) == Some("success"))
    && !Crosses(c, d, 2)
    && (Crosses(c, d, 3) ==> Offers(s, "bind", NS_BIND) && (d.login.sessionRequired <==> Offers(s, "session", NS_SESSION)))
    && (Crosses(c, d, 4) ==> Answers(s, BIND_ID))
    && (Crosses(c, d, 5) ==> CompletedBy(s, d.login.sessionRequired))
    && (Level(c) >= 3 ==> Level(d) >= 3 && d.login.sessionRequired == c.login.sessionRequired)
  }

  lemma {:induction false} JustifiedTwice(c: Conn, d: Conn, e: Conn, s: Node)
    requires Justified(c, d, s) && Justified(d, e, s)
    ensures Justified(c, e, s)
  {
    hide Offers, Answers, Level, CompletedBy, NS_BIND, NS_SESSION, BIND_ID;
  }

  // ----- one call

  /** The stage and the flags of the login stay. */
  predicate Unmoved(c: Conn, d: Conn) {
    && Level(d) == Level(c) && d.login.bindRequired == c.login.bindRequired && d.login.sessionRequired == c.login.sessionRequired
  }

  lemma {:induction false} UnmovedJustified(c: Conn, d: Conn, s: Node)
    requires Unmoved(c, d)
    ensures Justified(c, d, s)
  {
    hide Offers, Answers, Level, CompletedBy, NS_BIND, NS_SESSION, BIND_ID;
  }

  lemma {:induction false} AuthMoves(c: Conn)
    requires Level(c) == 0
    ensures Unmoved(c, DoAuth(c))
  {
    hide Extend;
  }

  lemma {:induction false} FeaturesMove(c: Conn, s: Node)
    requires Level(c) == 0
    ensures Unmoved(c, HandleFeatures(c, s).0)
  {
    AuthMoves(ReadFeatures(c, s));
    hide DoAuth, Offers, OffersMechanism;
  }

  lemma {:induction false} OutcomeMoves(c: Conn, s: Node)
    requires Level(c) == 0
    ensures var d := HandleSaslResult(c, s).0; if Name(s) == Some("success") then Unmoved(c.(past := d.past), d) && Level(d) == 1 else Unmoved(c, d)
  {
    AuthMoves(RecordFailure(c));
    hide DoAuth;
  }

  lemma {:induction false} DigestMoves(c: Conn, s: Node, env: Env)
    requires Level(c) == 0
    ensures var d := HandleDigestChallenge(c, s, env).0; Unmoved(c, d) || d == HandleSaslResult(c, s).0
    ensures var d := HandleDigestRspauth(c, s).0; Unmoved(c, d) || d == HandleSaslResult(c, s).0
  {
    hide HandleSaslResult, Extend, NS_SASL;
  }

  /** The calls made before the second stream. */
  lemma {:induction false} EarlyCall(c: Conn, fn: Fn, s: Node, env: Env)
    requires Level(c) == 0 && !c.login.bindRequired && !c.login.sessionRequired
    requires fn == Features || fn == SaslResult || fn == DigestChallenge || fn == DigestRspauth
    ensures var d := Call(c, fn, s, env).0; Justified(c, d, s) && Level(d) <= 1 && !d.login.bindRequired && !d.login.sessionRequired
  {
    hide HandleFeatures, HandleSaslResult, HandleDigestChallenge, HandleDigestRspauth, Offers, Answers, CompletedBy;
    FeaturesMove(c, s);
    OutcomeMoves(c, s);
    DigestMoves(c, s, env);
  }

  /** Those that only note, secure the link, or belong to the application. */
  lemma {:induction false} OtherCall(c: Conn, fn: Fn, s: Node, env: Env)
    requires fn == StreamError || fn == ProceedTls || fn.User?
    ensures Unmoved(c, Call(c, fn, s, env).0)
  {
    hide Name, ExtendAll;
  }

  lemma {:induction false} SaslFeaturesCall(c: Conn, s: Node, env: Env)
    requires Level(c) == 2 && !c.login.bindRequired && !c.login.sessionRequired
    ensures var d := Call(c, FeaturesSasl, s, env).0;
            Justified(c, d, s) && 2 <= Level(d) <= 3 && (d.login.bindRequired ==> Level(d) == 3)
  {
    hide Offers, PutId, Answers, CompletedBy, BIND_ID;
  }

  lemma {:induction false} BindCall(c: Conn, s: Node, env: Env)
    requires Level(c) == 3 && Attribute(s, "id") == Some(BIND_ID)
    ensures var d := Call(c, Bind, s, env).0; Justified(c, d, s) && Level(d) >= 3
  {
    hide Offers, PutId, ExtendAll, BIND_ID, SESSION_ID;
  }

  lemma {:induction false} SessionCall(c: Conn, s: Node, env: Env)
    requires Level(c) == 4 && c.login.sessionRequired && Attribute(s, "id") == Some(SESSION_ID)
    ensures var d := Call(c, Session, s, env).0; Justified(c, d, s) && Level(d) >= 3
  {
    hide Offers, ExtendAll, BIND_ID, SESSION_ID;
  }

  // ----- one visit, with the invariant

  lemma {:induction false} SameMoves(c: Conn, d: Conn, r: Conn, s: Node)
    requires r.login == d.login && r.past == d.past && Justified(c, d, s)
    ensures Justified(c, r, s) && Level(r) == Level(d)
  {
    hide Offers, Answers, CompletedBy, NS_BIND, NS_SESSION, BIND_ID;
  }

  /** The stage a waiting handler belongs to. */
  lemma {:induction false} StageOf(c: Conn, fn: Fn)
    requires Inv(c) && (fn in Active(c.lists) || fn.User?)
    ensures fn == Features || fn == ProceedTls || SaslFn(fn) ==> Level(c) == 0
    ensures fn == FeaturesSasl ==> Level(c) == 2
    ensures fn == Bind ==> Level(c) == 3
    ensures fn == Session ==> Level(c) == 4 && c.login.sessionRequired
    ensures c.login.authenticated <==> Level(c) == 5
  {
    hide ListsTidy, Active, Milestones, UsersLate, SafeWire, SaslBook, Waiting;
  }

  /** The features handler of the second stream leaves with its one call. */
  lemma {:induction false} FeaturesLeave(c: Conn, s: Node, env: Env)
    requires Inv(c)
    ensures FeaturesSasl !in Active(Visit(c, FeaturesSasl, s, env).lists)
  {
    hide Offers, Write, PutId, IdsTidy, StageRules, Recorded, SafeWire, Except, ListActive, IdActive;
    ExceptKeepsTidy(c.lists.handlers, FeaturesSasl);
    assert Visit(c, FeaturesSasl, s, env).lists.handlers == Except(c.lists.handlers, FeaturesSasl);
    NotById(Visit(c, FeaturesSasl, s, env).lists.ids);
  }

  lemma {:induction false} NotById(ids: map<string, seq<Fn>>)
    ensures FeaturesSasl !in IdActive(ids)
  {
  }

  lemma {:induction false} VisitIs(c: Conn, fn: Fn, s: Node, env: Env)
    ensures var (d, r) := (Call(c, fn, s, env).0, Visit(c, fn, s, env)); r.login == d.login && r.past == d.past
    ensures forall id :: var (d, r) := (Call(c, fn, s, env).0, VisitId(c, id, fn, s, env)); r.login == d.login && r.past == d.past
  {
    hide Call, Except, DropId;
  }

  /** A call from the ordinary list, whatever the stanza says. */
  lemma {:induction false} VisitNeeds(c: Conn, fn: Fn, s: Node, env: Env)
    requires Inv(c) && Asked(c) && Installed(c.lists.handlers, fn) && !Gated(c, fn)
    ensures var d := Visit(c, fn, s, env); Justified(c, d, s) && Asked(d) && (Level(c) <= 3 ==> Level(d) <= 3)
  {
    hide Inv, Call, Visit, Justified, Level, Active;
    var d, r := Call(c, fn, s, env).0, Visit(c, fn, s, env);
    ListedIsActive(c, fn);
    StageOf(c, fn);
    VisitIs(c, fn, s, env);
    if fn == FeaturesSasl {
      SaslFeaturesCall(c, s, env);
      FeaturesLeave(c, s, env);
      SameMoves(c, d, r, s);
    } else if fn == Features || SaslFn(fn) {
      EarlyCall(c, fn, s, env);
      SameMoves(c, d, r, s);
    } else {
      OtherCall(c, fn, s, env);
      UnmovedJustified(c, d, s);
      SameMoves(c, d, r, s);
      OtherAsked(c, fn, s, env);
    }
  }

  lemma {:induction false} OtherAsked(c: Conn, fn: Fn, s: Node, env: Env)
    requires Asked(c) && (fn == StreamError || (fn == ProceedTls && Level(c) == 0) || (fn.User? && Level(c) == 5))
    requires Unmoved(c, Call(c, fn, s, env).0)
    ensures Asked(Visit(c, fn, s, env))
  {
    VisitIs(c, fn, s, env);
    hide HandleProceedTls, CallUser, Active, Except;
  }

  /** A call by id: only a login that has asked for a resource has any. */
  lemma {:induction false} VisitIdNeeds(c: Conn, id: string, fn: Fn, s: Node, env: Env)
    requires Inv(c) && Asked(c) && id in c.lists.ids && fn in c.lists.ids[id] && !Gated(c, fn) && Attribute(s, "id") == Some(id)
    ensures var d := VisitId(c, id, fn, s, env); Justified(c, d, s) && Asked(d) && Level(c) >= 3
  {
    hide Inv, Call, VisitId, Level, Active, Offers, Answers, CompletedBy, BIND_ID, SESSION_ID;
    ByIdIsActive(c, id, fn);
    StageOf(c, fn);
    VisitIs(c, fn, s, env);
    match fn {
      case Bind => BindCall(c, s, env);
      case Session => SessionCall(c, s, env);
      case _ =>
        OtherCall(c, fn, s, env);
        UnmovedJustified(c, Call(c, fn, s, env).0, s);
    }
    SameMoves(c, Call(c, fn, s, env).0, VisitId(c, id, fn, s, env), s);
  }

  // ----- one stanza

  lemma {:induction false} RunIdsNeeds(c: Conn, id: string, order: seq<Fn>, s: Node, env: Env)
    requires Inv(c) && Asked(c) && ListedFor(c, id, order) && Attribute(s, "id") == Some(id)
    ensures var d := RunIds(c, id, order, s, env); Justified(c, d, s) && Asked(d) && (Level(c) <= 2 ==> Level(d) <= 2)
    decreases |order|
  {
    UnmovedJustified(c, c, s);
    hide Inv, Asked, VisitId, Justified, Level;
    if order != [] {
      assert order[0] in order;
      assert forall f :: f in order[1..] ==> f in order;
      if Gated(c, order[0]) {
        RunIdsNeeds(c, id, order[1..], s, env);
      } else {
        var d := VisitId(c, id, order[0], s, env);
        VisitIdNeeds(c, id, order[0], s, env);
        VisitIdKeepsInv(c, id, order[0], s, env);
        OthersStayListed(c, id, order, s, env);
        RunIdsNeeds(d, id, order[1..], s, env);
        JustifiedTwice(c, d, RunIds(d, id, order[1..], s, env), s);
      }
    }
  }

  lemma {:induction false} RunHandlersNeeds(c: Conn, order: seq<Handler>, s: Node, env: Env)
    requires Inv(c) && Asked(c) && AllListed(c.lists.handlers, order)
    ensures var d := RunHandlers(c, order, s, env); Justified(c, d, s) && Asked(d) && (Level(c) <= 3 ==> Level(d) <= 3)
    decreases |order|
  {
    UnmovedJustified(c, c, s);
    hide Inv, Asked, Visit, Matches, Justified, Level;
    if order != [] {
      if Gated(c, order[0].fn) || !Matches(order[0], s) {
        StaysListed(c.lists.handlers, order);
        RunHandlersNeeds(c, order[1..], s, env);
      } else {
        var d := Visit(c, order[0].fn, s, env);
        VisitNeeds(c, order[0].fn, s, env);
        VisitKeepsInv(c, order[0].fn, s, env);
        OthersStay(c, order, s, env);
        RunHandlersNeeds(d, order[1..], s, env);
        JustifiedTwice(c, d, RunHandlers(d, order[1..], s, env), s);
      }
    }
  }

  lemma {:induction false} EnableNeeds(c: Conn, s: Node)
    requires Asked(c)
    ensures Justified(c, Enable(c), s) && Asked(Enable(c)) && Level(Enable(c)) == Level(c)
  {
    UnmovedJustified(c, Enable(c), s);
    assert Fns(Enable(c).lists.handlers) == Fns(c.lists.handlers);
    hide Justified;
  }

  lemma {:induction false} FireIdsNeeds(c: Conn, s: Node, env: Env)
    requires Inv(c) && Asked(c)
    ensures var d := FireIds(c, s, env); Inv(d) && Justified(c, d, s) && Asked(d) && (Level(c) <= 2 ==> Level(d) <= 2)
  {
    UnmovedJustified(c, c, s);
    FireIdsKeepsInv(c, s, env);
    hide RunIds, StageRules, Recorded, SafeWire, Asked, Justified, Level, BIND_ID, SESSION_ID;
    var id := Attribute(s, "id");
    if id.Some? && id.value in c.lists.ids {
      assert IdList(id.value, c.lists.ids[id.value]);
      RunIdsNeeds(c, id.value, c.lists.ids[id.value], s, env);
    }
  }

  lemma {:induction false} FireNeeds(c: Conn, s: Node, env: Env)
    requires Inv(c) && Asked(c)
    ensures var d := Fire(c, s, env); Justified(c, d, s) && Asked(d) && (Level(c) <= 2 ==> Level(d) <= 3)
  {
    hide Inv, Asked, FireIds, RunHandlers, Enable, Justified, Level;
    var d := FireIds(c, s, env);
    FireIdsNeeds(c, s, env);
    EnableNeeds(d, s);
    EnableKeepsInv(d);
    RunHandlersNeeds(Enable(d), Enable(d).lists.handlers, s, env);
    JustifiedTwice(c, d, Enable(d), s);
    JustifiedTwice(c, Enable(d), Fire(c, s, env), s);
  }

  // ----- one event

  /** What it takes to reach each level. */
  predicate Grounds(e: Event, k: nat, session: bool) {
    match k
    case 1 => e.Received? && Name(e.s) == Some("success")
    case 2 => e.StreamStart?
    case 3 => e.Received? && Offers(e.s, "bind", NS_BIND) && (session <==> Offers(e.s, "session", NS_SESSION))
    case 4 => e.Received? && Answers(e.s, BIND_ID)
    case 5 => e.Received? && CompletedBy(e.s, session)
    case _ => false
  }

  ghost predicate StepFor(c: Conn, d: Conn, e: Event) {
    && (forall k: nat :: Crosses(c, d, k) ==> Grounds(e, k, d.login.sessionRequired))
    && (Level(c) >= 3 ==> Level(d) >= 3 && d.login.sessionRequired == c.login.sessionRequired)
    && (Level(c) <= 2 ==> Level(d) <= 3)
  }

  lemma {:induction false} NextNeeds(c: Conn, e: Event)
    requires Inv(c) && Asked(c) && Possible(c, e)
    ensures Asked(Next(c, e)) && StepFor(c, Next(c, e), e)
  {
    if e.Received? {
      FireNeeds(c, e.s, e.env);
      hide Inv, Asked, Fire, Offers, Answers, CompletedBy;
    } else {
      OtherNext(c, e);
    }
  }

  lemma {:induction false} UnmovedStep(c: Conn, d: Conn, e: Event)
    requires Unmoved(c, d) && Asked(c) && Active(d.lists) <= Active(c.lists)
    ensures Asked(d) && StepFor(c, d, e)
  {
    hide Level, Active, Grounds;
  }

  /** What the application does between stanzas. */
  lemma {:induction false} AddNeeds(c: Conn, h: Handler, id: string, k: nat)
    requires Inv(c)
    ensures Active(AddHandler(c, UserHandler(h)).lists) <= Active(c.lists)
    ensures Active(AddId(c, id, User(k)).lists) <= Active(c.lists)
    ensures Active(RemoveHandler(c, User(k)).lists) <= Active(c.lists)
  {
    var a := Active(c.lists);
    ToBound(c);
    hide Inv, Rules, ListsTidy, Active, AddHandler, AddId, RemoveHandler;
    AddWithin(c, UserHandler(h), a);
    AddIdWithin(c, id, User(k), a);
    RemoveWithin(c, User(k), a);
    assert Internals(UserHandler(h).fn) == {} && Internals(User(k)) == {} && a + {} == a;
  }

  lemma {:induction false} ListsOnly(c: Conn, e: Event)
    requires Inv(c) && (e.AddUser? || e.AddUserId? || e.DeleteUser?)
    ensures Possible(c, e) && Unmoved(c, Next(c, e)) && Active(Next(c, e).lists) <= Active(c.lists)
  {
    hide Inv, Active, UserHandler;
    match e {
      case AddUser(h) =>
        AddNeeds(c, h, "", 0);
        hide Extend;
      case AddUserId(id, k) =>
        AddNeeds(c, Internal(User(k), None, None), id, k);
        hide PutId;
      case DeleteUser(k) =>
        AddNeeds(c, Internal(User(k), None, None), "", k);
        hide Except;
    }
  }

  lemma {:induction false} LinkOnly(c: Conn, e: Event)
    requires Possible(c, e) && (e.LinkUp? || e.LinkDown? || e.Chunk? || e.StreamEnd? || e.CleanupTimer? || e.DisableTls? || e.CloseByUser?)
    ensures Unmoved(c, Next(c, e)) && Next(c, e).lists == c.lists
  {
  }

  lemma {:induction false} OtherNext(c: Conn, e: Event)
    requires Inv(c) && Asked(c) && Possible(c, e) && !e.Received?
    ensures Asked(Next(c, e)) && StepFor(c, Next(c, e), e)
  {
    hide Inv, Asked, Active, StepFor, Next, Possible, Unmoved;
    if e.StreamStart? {
      OpenNeeds(c, e);
    } else {
      if e.AddUser? || e.AddUserId? || e.DeleteUser? {
        ListsOnly(c, e);
      } else {
        LinkOnly(c, e);
      }
      UnmovedStep(c, Next(c, e), e);
    }
  }

  /** A stream that opens after SASL is the second one, and its features are still to come. */
  lemma {:induction false} OpenNeeds(c: Conn, e: Event)
    requires Inv(c) && Asked(c) && Possible(c, e) && e.StreamStart?
    ensures Asked(Next(c, e)) && StepFor(c, Next(c, e), e)
  {
    assert c.past.stage == Negotiating || c.past.stage == SaslDone by {
      hide ListsTidy, Active, SaslBook, Waiting, Recorded, SafeWire;
    }
    assert c.past.stage == Negotiating ==> c.net.openHandler == OpenAuth by {
      hide ListsTidy, Active, SaslBook, Waiting, Recorded, SafeWire;
    }
    hide Inv, Active, Extend, NS_STREAMS;
  }

  // ----- whole runs

  lemma {:induction false} RunAsked(run: seq<Conn>, events: seq<Event>, i: nat)
    requires IsRun(run, events) && i < |run|
    ensures Asked(run[i])
  {
    if i > 0 {
      RunAsked(run, events, i - 1);
      RunStep(run, events, i - 1);
    }
  }

  lemma {:induction false} RunStep(run: seq<Conn>, events: seq<Event>, i: nat)
    requires IsRun(run, events) && i < |events| && Asked(run[i])
    ensures Asked(run[i + 1]) && StepFor(run[i], run[i + 1], events[i])
  {
    RunKeepsInv(run, events, i);
    assert Possible(run[i], events[i]) && run[i + 1] == Next(run[i], events[i]);
    hide IsRun, Inv, Asked, StepFor, Next, Possible;
    NextNeeds(run[i], events[i]);
  }

  /** Only the offer and the last answer depend on whether a session is asked for. */
  lemma {:induction false} AnySession(e: Event, k: nat, session: bool)
    requires k == 1 || k == 2 || k == 4
    ensures Grounds(e, k, session) == Grounds(e, k, !session)
  {
    hide Name, Answers, BIND_ID;
  }

  /** The event by which a level was reached last. */
  lemma {:induction false} Crossing(run: seq<Conn>, events: seq<Event>, i: nat, k: nat) returns (j: nat)
    requires IsRun(run, events) && i < |run| && 1 <= k <= Level(run[i])
    ensures j < i <= |events| && |run| == |events| + 1 && Crosses(run[j], run[j + 1], k) && Level(run[j + 1]) >= k && Grounds(events[j], k, run[j + 1].login.sessionRequired)
  {
    assert i > 0;
    if Level(run[i - 1]) >= k {
      j := Crossing(run, events, i - 1, k);
    } else {
      j := i - 1;
      RunAsked(run, events, j);
      RunStep(run, events, j);
      hide IsRun, Level, Grounds;
    }
  }

  lemma {:induction false} SessionFixed(run: seq<Conn>, events: seq<Event>, j: nat, i: nat)
    requires IsRun(run, events) && j <= i < |run| && Level(run[j]) >= 3
    ensures Level(run[i]) >= 3 && run[i].login.sessionRequired == run[j].login.sessionRequired
    decreases i - j
  {
    assert |run| == |events| + 1;
    hide IsRun, Level, Grounds;
    if j < i {
      SessionFixed(run, events, j, i - 1);
      RunAsked(run, events, i - 1);
      RunStep(run, events, i - 1);
    }
  }

  lemma {:induction false} LevelOfLogin(run: seq<Conn>, events: seq<Event>, i: nat)
    requires IsRun(run, events) && i < |run|
    ensures run[i].login.authenticated <==> Level(run[i]) == 5
  {
    RunKeepsInv(run, events, i);
    hide IsRun;
    StageOf(run[i], User(0));
  }

  lemma {:induction false} BindBeforeAnswer(run: seq<Conn>, events: seq<Event>, c: nat, d: nat)
    requires IsRun(run, events) && c <= d < |events| && Crosses(run[c], run[c + 1], 3) && Crosses(run[d], run[d + 1], 4)
    ensures c < d
  {
    RunAsked(run, events, c);
    RunStep(run, events, c);
    hide IsRun, Level, Grounds;
  }

  /**
   Main result: if a login is complete at any moment of a run, then these came in, in this order: the
   `success` of SASL, the start of a new stream, features that offer to bind a resource, a result for
   the bind request and, exactly if those features offered a session, a result for the session request.
   */
  lemma {:induction false} LoginNeedsAnswers(run: seq<Conn>, events: seq<Event>, i: nat) returns (a: nat, b: nat, c: nat, d: nat, e: nat)
    requires IsRun(run, events) && i < |run| && run[i].login.authenticated
    ensures a < b < c < d <= e < i
    ensures events[a].Received? && Name(events[a].s) == Some("success")
    ensures events[b].StreamStart?
    ensures events[c].Received? && Offers(events[c].s, "bind", NS_BIND)
    ensures events[d].Received? && Answers(events[d].s, BIND_ID)
    ensures Offers(events[c].s, "session", NS_SESSION) <==> d < e
    ensures d < e ==> events[e].Received? && Answers(events[e].s, SESSION_ID)
  {
    var session;
    a, b, c, d, e, session := Reached(run, events, i);
    hide *;
    Said(events[a], events[b], events[c], events[d], events[e], session);
    if !session {
      e := d;
    }
  }

  /** The last event to reach a level, when the kind of session does not matter for it. */
  lemma {:induction false} CrossingAny(run: seq<Conn>, events: seq<Event>, i: nat, k: nat, session: bool) returns (j: nat)
    requires IsRun(run, events) && i < |run| && 1 <= k <= Level(run[i]) && (k == 1 || k == 2 || k == 4)
    ensures j < i <= |events| && |run| == |events| + 1 && Level(run[j + 1]) >= k && Crosses(run[j], run[j + 1], k) && Grounds(events[j], k, session)
  {
    j := Crossing(run, events, i, k);
    hide IsRun, Level, Grounds, Crosses;
    AnySession(events[j], k, session);
  }

  /** The answers that completed the login. */
  lemma {:induction false} ReachedAnswers(run: seq<Conn>, events: seq<Event>, i: nat) returns (d: nat, e: nat, session: bool)
    requires IsRun(run, events) && i < |run| && run[i].login.authenticated
    ensures d <= e < i <= |events| && |run| == |events| + 1 && session == run[e + 1].login.sessionRequired
    ensures Crosses(run[d], run[d + 1], 4) && Level(run[d + 1]) >= 4 && Grounds(events[d], 4, session) && Grounds(events[e], 5, session)
  {
    LevelOfLogin(run, events, i);
    hide *;
    e := Crossing(run, events, i, 5);
    session := run[e + 1].login.sessionRequired;
    d := CrossingAny(run, events, e + 1, 4, session);
  }

  /** The features before them. */
  lemma {:induction false} ReachedLast(run: seq<Conn>, events: seq<Event>, i: nat) returns (c: nat, d: nat, e: nat, session: bool)
    requires IsRun(run, events) && i < |run| && run[i].login.authenticated
    ensures c < d <= e < i <= |events| && |run| == |events| + 1 && Level(run[c + 1]) >= 3
    ensures Grounds(events[c], 3, session) && Grounds(events[d], 4, session) && Grounds(events[e], 5, session)
  {
    hide *;
    d, e, session := ReachedAnswers(run, events, i);
    c := Crossing(run, events, d + 1, 3);
    BindBeforeAnswer(run, events, c, d);
    SessionFixed(run, events, c + 1, e + 1);
  }

  /** The last event to reach each level. */
  lemma {:induction false} Reached(run: seq<Conn>, events: seq<Event>, i: nat)
    returns (a: nat, b: nat, c: nat, d: nat, e: nat, session: bool)
    requires IsRun(run, events) && i < |run| && run[i].login.authenticated
    ensures |run| == |events| + 1 && a <= b <= c < d <= e < i
    ensures Grounds(events[a], 1, session) && Grounds(events[b], 2, session) && Grounds(events[c], 3, session)
    ensures Grounds(events[d], 4, session) && Grounds(events[e], 5, session)
  {
    hide *;
    c, d, e, session := ReachedLast(run, events, i);
    b := CrossingAny(run, events, c + 1, 2, session);
    a := CrossingAny(run, events, b + 1, 1, session);
  }

  /** The five events are of different kinds. */
  lemma {:induction false} Said(a: Event, b: Event, c: Event, d: Event, e: Event, session: bool)
    requires Grounds(b, 2, session) && Grounds(c, 3, session) && Grounds(d, 4, session) && Grounds(e, 5, session)
    requires Grounds(a, 1, session)
    ensures a.Received? && Name(a.s) == Some("success") && b.StreamStart? && c.Received? && Offers(c.s, "bind", NS_BIND)
    ensures session <==> Offers(c.s, "session", NS_SESSION)
    ensures d.Received? && Answers(d.s, BIND_ID) && e.Received? && (session ==> Answers(e.s, SESSION_ID))
    ensures a != b && b != c && (session ==> d != e)
  {
    assert |BIND_ID| != |SESSION_ID|;
    hide Name, Offers, BIND_ID, SESSION_ID, NS_BIND, NS_SESSION;
  }
}
