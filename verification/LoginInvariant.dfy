/** What every event keeps, whatever the server sends, and what follows for whole runs. */
module LoginInvariant {
  import opened Wrappers
  import opened Stanza
  import opened StanzaBuilder
  import opened Login

  // ----- shape of the handler lists

  predicate Distinct(handlers: seq<Handler>) {
    forall i, j :: 0 <= i < j < |handlers| ==> handlers[i].fn != handlers[j].fn
  }

  predicate NormalFn(fn: Fn) {
    fn != Bind && fn != Session
  }

  predicate IdFn(id: string, fn: Fn) {
    fn.User? || (fn == Bind && id == BIND_ID) || (fn == Session && id == SESSION_ID)
  }

  predicate DistinctFns(fns: seq<Fn>) {
    forall i, j :: 0 <= i < j < |fns| ==> fns[i] != fns[j]
  }

  predicate HandlersTidy(handlers: seq<Handler>) {
    Distinct(handlers) && forall k :: 0 <= k < |handlers| ==> NormalFn(handlers[k].fn)
  }

  predicate IdList(id: string, fns: seq<Fn>) {
    DistinctFns(fns) && forall k :: 0 <= k < |fns| ==> IdFn(id, fns[k])
  }

  predicate IdsTidy(ids: map<string, seq<Fn>>) {
    forall id :: id in ids ==> IdList(id, ids[id])
  }

  predicate ListsTidy(l: Lists) {
    HandlersTidy(l.handlers) && IdsTidy(l.ids) && (!l.storesIds ==> l.ids == map[])
  }

  function ListActive(handlers: seq<Handler>): set<Fn> {
    set fn | fn in Fns(handlers) && !fn.User?
  }

  function IdActive(ids: map<string, seq<Fn>>): set<Fn> {
    (if BIND_ID in ids && Bind in ids[BIND_ID] then {Bind} else {})
    + (if SESSION_ID in ids && Session in ids[SESSION_ID] then {Session} else {})
  }

  /** The login handlers that can be called. */
  function Active(l: Lists): set<Fn> {
    ListActive(l.handlers) + IdActive(l.ids)
  }

  // ----- the rules of each stage

  /** Mechanisms tried and failed, and the bits that are left. */
  predicate SaslBook(l: Login, p: Past) {
    && (p.tried == [DigestMd5] || p.tried == [Plain] || p.tried == [DigestMd5, Plain])
    && (p.tried[0] == DigestMd5 <==> p.offeredDigest)
    && !l.saslDigest
    && (p.tried[|p.tried| - 1] == Plain ==> !l.saslPlain)
    && (|p.tried| == 2 ==> DigestMd5 in p.failed)
  }

  /** At most one SASL handler waits, and it belongs to the mechanism tried last. */
  predicate Waiting(p: Past, active: set<Fn>) {
    && (SaslResult in active ==> Plain in p.tried && active !! {DigestChallenge, DigestRspauth})
    && (DigestChallenge in active ==> p.tried == [DigestMd5] && active !! {SaslResult, DigestRspauth})
    && (DigestRspauth in active ==> p.tried == [DigestMd5] && active !! {SaslResult, DigestChallenge})
  }

  /** No new stream can start and the link is settled. */
  predicate Settled(n: Net) {
    n.parser != Fresh && !n.resetPending && n.state != Connecting
  }

  predicate StageRules(n: Net, l: Login, p: Past, active: set<Fn>) {
    match p.stage
    case Negotiating =>
      && n.openHandler == OpenAuth && p.tried == [] && p.failed == []
      && active <= {StreamError, Features, ProceedTls}
      && (Features in active || ProceedTls in active ==> Settled(n))
      && !(Features in active && ProceedTls in active)
      && (n.parser == Fresh && !n.resetPending ==> n.state != Connecting)
    case Authenticating =>
      && n.openHandler == OpenAuth && Settled(n) && (n.secured || !l.tlsSupport)
      && active <= {StreamError, SaslResult, DigestChallenge, DigestRspauth}
      && SaslBook(l, p) && Waiting(p, active)
    case SaslDone =>
      && n.openHandler == OpenSasl && SaslBook(l, p) && active <= {StreamError}
      && (n.resetPending || n.parser == Fresh) && n.state != Connecting
    case StreamReopened => Settled(n) && SaslBook(l, p) && active <= {StreamError, FeaturesSasl}
    case Binding => Settled(n) && SaslBook(l, p) && active <= {StreamError, Bind}
    case Establishing =>
      Settled(n) && SaslBook(l, p) && active <= {StreamError, Session} && l.sessionRequired
    case LoggedIn => Settled(n) && SaslBook(l, p) && active <= {StreamError}
  }

  // ----- the record

  /** The marks of the login itself. */
  function Milestones(log: seq<Mark>): seq<Mark> {
    if log == [] then []
    else Milestones(log[..|log| - 1]) + (if log[|log| - 1] == UserCalled then [] else [log[|log| - 1]])
  }

  /** The one order in which a login can be completed. */
  function FullLogin(session: bool): seq<Mark> {
    [SaslSuccess, Reopened, BindOffered(session), Bound] + (if session then [SessionUp] else [])
  }

  /** What the log must say at each stage. */
  function Expected(stage: Stage, session: bool): seq<Mark> {
    match stage
    case Negotiating => []
    case Authenticating => []
    case SaslDone => [SaslSuccess]
    case StreamReopened => [SaslSuccess, Reopened]
    case Binding => [SaslSuccess, Reopened, BindOffered(session)]
    case Establishing => [SaslSuccess, Reopened, BindOffered(session), Bound]
    case LoggedIn => FullLogin(session)
  }

  /** The application's handlers were called only after a complete login. */
  predicate UsersLate(log: seq<Mark>, session: bool) {
    forall i :: 0 <= i < |log| && log[i] == UserCalled ==> Milestones(log[..i]) == FullLogin(session)
  }

  predicate Recorded(l: Login, p: Past) {
    && Milestones(p.log) == Expected(p.stage, l.sessionRequired)
    && (l.authenticated <==> p.stage == LoggedIn)
    && (p.stage != LoggedIn ==> UserCalled !in p.log)
    && UsersLate(p.log, l.sessionRequired)
  }

  /** SASL data goes out only over a secured link, or when starttls was not on offer. */
  predicate SafeOut(o: Out) {
    match o
    case Auth(_, secured, tls) => secured || !tls
    case Response(secured, tls) => secured || !tls
    case _ => true
  }

  predicate SafeWire(sent: seq<Out>) {
    forall k :: 0 <= k < |sent| ==> SafeOut(sent[k])
  }

  predicate Inv(c: Conn) {
    && ListsTidy(c.lists) && StageRules(c.net, c.login, c.past, Active(c.lists))
    && Recorded(c.login, c.past) && SafeWire(c.past.sent)
  }

  // ----- how the lists change

  function Internals(fn: Fn): set<Fn> {
    if fn.User? then {} else {fn}
  }

  lemma {:induction false} ExtendKeepsTidy(handlers: seq<Handler>, h: Handler)
    requires HandlersTidy(handlers) && NormalFn(h.fn)
    ensures HandlersTidy(Extend(handlers, h))
    ensures ListActive(Extend(handlers, h)) == ListActive(handlers) + Internals(h.fn)
  {
    if Installed(handlers, h.fn) {
      assert h.fn in Fns(handlers);
    } else {
      assert Fns(Extend(handlers, h)) == Fns(handlers) + [h.fn];
    }
  }

  lemma {:induction false} ExceptNone(handlers: seq<Handler>, fn: Fn)
    requires forall k :: 0 <= k < |handlers| ==> handlers[k].fn != fn
    ensures Except(handlers, fn) == handlers
  {
    if handlers != [] {
      ExceptNone(handlers[1..], fn);
    }
  }

  lemma {:induction false} ExceptIs(handlers: seq<Handler>, fn: Fn)
    requires Distinct(handlers)
    ensures forall h :: h in Except(handlers, fn) <==> h in handlers && h.fn != fn
    ensures Distinct(Except(handlers, fn))
  {
    if handlers != [] {
      ExceptIs(handlers[1..], fn);
      var rest := Except(handlers[1..], fn);
      assert forall k :: 0 <= k < |rest| ==> rest[k] in handlers[1..];
      assert handlers == [handlers[0]] + handlers[1..];
    }
  }

  lemma {:induction false} ExceptKeepsTidy(handlers: seq<Handler>, fn: Fn)
    requires HandlersTidy(handlers)
    ensures HandlersTidy(Except(handlers, fn))
    ensures ListActive(Except(handlers, fn)) == ListActive(handlers) - {fn}
  {
    hide Except;
    var rest := Except(handlers, fn);
    ExceptIs(handlers, fn);
    forall k | 0 <= k < |rest| ensures NormalFn(rest[k].fn) {
      assert rest[k] in handlers;
    }
    ExceptFns(handlers, fn);
  }

  lemma {:induction false} ExceptFns(handlers: seq<Handler>, fn: Fn)
    requires Distinct(handlers)
    ensures forall f :: f in Fns(Except(handlers, fn)) <==> f in Fns(handlers) && f != fn
  {
    ExceptIs(handlers, fn);
    hide Except;
    var rest := Except(handlers, fn);
    forall f ensures f in Fns(rest) <==> f in Fns(handlers) && f != fn {
      if f in Fns(rest) {
        var k :| 0 <= k < |rest| && rest[k].fn == f;
        assert rest[k] in handlers;
      }
      if f in Fns(handlers) && f != fn {
        var k :| 0 <= k < |handlers| && handlers[k].fn == f;
        assert handlers[k] in rest;
      }
    }
  }

  lemma {:induction false} PutIdKeepsTidy(ids: map<string, seq<Fn>>, stores: bool, id: string, fn: Fn)
    requires IdsTidy(ids) && IdFn(id, fn)
    ensures IdsTidy(PutId(ids, stores, id, fn))
    ensures IdActive(PutId(ids, stores, id, fn)) <= IdActive(ids) + Internals(fn)
    ensures !stores && ids == map[] ==> PutId(ids, stores, id, fn) == map[]
  {
    var r := PutId(ids, stores, id, fn);
    forall i | i in r ensures IdList(i, r[i]) {
      assert i in ids ==> IdList(i, ids[i]);
    }
    assert forall i, f :: i in r && f in r[i] ==> (i in ids && f in ids[i]) || (i == id && f == fn);
    IdActiveBound(r, ids, id, fn);
  }

  lemma {:induction false} IdActiveBound(r: map<string, seq<Fn>>, ids: map<string, seq<Fn>>, id: string, fn: Fn)
    requires IdFn(id, fn)
    requires forall i, f :: i in r && f in r[i] ==> (i in ids && f in ids[i]) || (i == id && f == fn)
    ensures IdActive(r) <= IdActive(ids) + Internals(fn)
  {
  }

  lemma {:induction false} ExceptFnIs(fns: seq<Fn>, fn: Fn)
    requires DistinctFns(fns) && fn in fns
    ensures forall f :: f in ExceptFn(fns, fn) <==> f in fns && f != fn
    ensures DistinctFns(ExceptFn(fns, fn)) && |ExceptFn(fns, fn)| == |fns| - 1
  {
    if fns[0] == fn {
      assert forall k :: 0 < k < |fns| ==> fns[k] != fns[0];
    } else {
      ExceptFnIs(fns[1..], fn);
      var rest := ExceptFn(fns[1..], fn);
      assert forall k :: 0 <= k < |rest| ==> rest[k] in fns[1..];
    }
  }

  lemma {:induction false} DropIdKeepsTidy(ids: map<string, seq<Fn>>, id: string, fn: Fn)
    requires IdsTidy(ids) && IdFn(id, fn)
    ensures IdsTidy(DropId(ids, id, fn))
    ensures IdActive(DropId(ids, id, fn)) <= IdActive(ids) - {fn}
    ensures ids == map[] ==> DropId(ids, id, fn) == map[]
  {
    var r := DropId(ids, id, fn);
    if id in ids && fn in ids[id] {
      assert IdList(id, ids[id]);
      ExceptFnIs(ids[id], fn);
      var rest := ExceptFn(ids[id], fn);
      forall k | 0 <= k < |rest| ensures IdFn(id, rest[k]) {
        assert rest[k] in ids[id];
      }
      forall i | i in r ensures IdList(i, r[i]) {
        assert IdList(i, ids[i]);
      }
    }
    assert forall i, f :: i in r && f in r[i] ==> i in ids && f in ids[i] && (i == id ==> f != fn);
    DropIdBound(r, ids, id, fn);
  }

  lemma {:induction false} DropIdBound(r: map<string, seq<Fn>>, ids: map<string, seq<Fn>>, id: string, fn: Fn)
    requires IdFn(id, fn)
    requires forall i, f :: i in r && f in r[i] ==> i in ids && f in ids[i] && (i == id ==> f != fn)
    ensures IdActive(r) <= IdActive(ids) - {fn}
  {
  }

  lemma {:induction false} UsersKeepTidy(handlers: seq<Handler>, hs: seq<Handler>)
    requires HandlersTidy(handlers)
    ensures HandlersTidy(ExtendAll(handlers, hs)) && ListActive(ExtendAll(handlers, hs)) == ListActive(handlers)
    decreases |hs|
  {
    hide HandlersTidy, ListActive, Extend;
    if hs != [] {
      ExtendKeepsTidy(handlers, UserHandler(hs[0]));
      UsersKeepTidy(Extend(handlers, UserHandler(hs[0])), hs[1..]);
    }
  }
}
