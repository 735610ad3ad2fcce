/**
 The stages of a login one by one: what each kind of answer of a server leads to, with the handlers
 that then wait and what is written.
 */
module LoginStages {
  import opened Wrappers
  import opened Stanza
  import opened StanzaBuilder
  import opened Login
  import LoginInvariant

  function ErrorHandler(enabled: bool): Handler { StreamHandler(StreamError, "error").(enabled := enabled) }
  function FeaturesHandler(enabled: bool): Handler { StreamHandler(Features, "features").(enabled := enabled) }
  function TlsHandler(enabled: bool): Handler { StartTlsHandler().(enabled := enabled) }
  function Awaiting(fn: Fn, enabled: bool): Handler { SaslHandler(fn).(enabled := enabled) }
  function SaslFeaturesHandler(enabled: bool): Handler { StreamHandler(FeaturesSasl, "features").(enabled := enabled) }

  /** The handler that waits for the answer to the first message of a mechanism. */
  function FirstFn(m: Mechanism): Fn {
    match m case DigestMd5 => DigestChallenge case Plain => SaslResult
  }

  // ----- what a server may send

  predicate IsFeatures(s: Node) {
    Name(s) == Some("features") && Attribute(s, XMLNS) == Some(NS_STREAMS)
  }

  predicate OffersTls(s: Node) {
    IsFeatures(s) && Offers(s, "starttls", NS_TLS)
  }

  predicate IsSasl(s: Node, name: string) {
    Name(s) == Some(name) && Attribute(s, XMLNS) == Some(NS_SASL)
  }

  predicate Proceeds(s: Node) {
    Name(s) == Some("proceed") && Attribute(s, XMLNS) == Some(NS_TLS)
  }

  /** `m` is the mechanism that these features lead to: PLAIN only without DIGEST-MD5. */
  predicate OffersSasl(s: Node, m: Mechanism) {
    && IsFeatures(s)
    && (m == DigestMd5 <==> OffersMechanism(s, "DIGEST-MD5"))
    && (m == Plain ==> OffersMechanism(s, "PLAIN"))
  }

  predicate OffersBind(s: Node) {
    IsFeatures(s) && Offers(s, "bind", NS_BIND)
  }

  predicate Answers(s: Node, id: string) {
    Attribute(s, "id") == Some(id) && Attribute(s, "type") == Some("result")
  }

  // ----- one stanza for the second of two handlers

  /** The link is up, secured or not, and a stream is open, with these handlers. */
  predicate Streaming(c: Conn, handlers: seq<Handler>, secured: bool) {
    && c.net.state == Connected && c.net.parser == InStream && !c.net.resetPending && c.net.hasStreamId
    && c.net.ssl == c.net.secured == secured
    && !c.login.authenticated && !c.login.bindRequired && !c.login.sessionRequired
    && c.lists == Lists(handlers, map[], true) && c.login.jidHasNode
  }

  /** A single match: the second of two handlers runs and leaves the list. */
  lemma {:induction false} OnlySecond(c: Conn, first: Handler, second: Handler, s: Node, env: Env)
    requires c.lists.handlers == [first, second] && c.lists.ids == map[]
    requires !Matches(first, s) && Matches(second.(enabled := true), s) && !second.fn.User?
    ensures Fire(c, s, env) == Visit(Enable(c), second.fn, s, env)
    ensures Enable(c).lists == c.lists.(handlers := [first.(enabled := true), second.(enabled := true)])
  {
    hide Matches, Visit;
    var c2 := Enable(c);
    var order := c2.lists.handlers;
    assert FireIds(c, s, env) == c;
    assert order == [first.(enabled := true), second.(enabled := true)];
    assert order[1..] == [second.(enabled := true)] && order[1..][1..] == [];
    assert !Matches(first.(enabled := true), s) by { MatchIgnoresEnabled(first, s); }
    assert RunHandlers(c2, order, s, env) == RunHandlers(c2, order[1..], s, env);
    assert RunHandlers(c2, order[1..], s, env) == RunHandlers(Visit(c2, second.fn, s, env), order[1..][1..], s, env);
  }

  lemma {:induction false} MatchIgnoresEnabled(h: Handler, s: Node)
    ensures Matches(h.(enabled := true), s) == Matches(h, s)
  {
  }

  lemma {:induction false} ExceptFront(h: Handler, rest: seq<Handler>, fn: Fn)
    ensures Except([h] + rest, fn) == if h.fn == fn then Except(rest, fn) else [h] + Except(rest, fn)
  {
    assert ([h] + rest)[1..] == rest;
  }

  lemma {:induction false} ExceptSecond(first: Handler, second: Handler, more: seq<Handler>)
    requires first.fn != second.fn && forall h :: h in more ==> h.fn != second.fn
    ensures Except([first, second] + more, second.fn) == [first] + more
  {
    hide Except;
    assert [first, second] + more == [first] + ([second] + more);
    ExceptFront(first, [second] + more, second.fn);
    ExceptFront(second, more, second.fn);
    LoginInvariant.ExceptNone(more, second.fn);
  }

  /** The handler of stream errors takes nothing else. */
  lemma {:induction false} NotAnError(s: Node, name: string, enabled: bool)
    requires Name(s) == Some(name) && |name| != 5
    ensures !Matches(ErrorHandler(enabled), s)
  {
    assert |"error"| == 5;
    hide HasChildByNs, NS_STREAMS;
  }

  lemma {:induction false} FeaturesMatch(s: Node, x: bool)
    requires IsFeatures(s)
    ensures !Matches(ErrorHandler(x), s)
    ensures Matches(FeaturesHandler(true), s) && Matches(SaslFeaturesHandler(true), s)
  {
    hide HasChildByNs, NS_STREAMS;
    assert |"features"| == 8;
    NotAnError(s, "features", x);
  }

  lemma {:induction false} SaslMatches(s: Node, name: string, fn: Fn, x: bool)
    requires IsSasl(s, name) && |name| != 5
    ensures !Matches(ErrorHandler(x), s) && Matches(Awaiting(fn, true), s)
  {
    hide HasChildByNs, NS_SASL;
    NotAnError(s, name, x);
  }

  // ----- the first stream

  lemma {:induction false} TlsOffered(c: Conn, s: Node, env: Env, x: bool, y: bool)
    requires Streaming(c, [ErrorHandler(x), FeaturesHandler(y)], false) && OffersTls(s) && !c.login.tlsDisabled
    ensures var r := Fire(c, s, env);
            && Streaming(r, [ErrorHandler(true), TlsHandler(false)], false)
            && r.past.sent == c.past.sent + [StartTls] && r.past.log == c.past.log
  {
    hide Offers, OffersMechanism, NS_TLS, NS_STREAMS, Matches, Except, Fire;
    FeaturesMatch(s, x);
    OnlySecond(c, ErrorHandler(x), FeaturesHandler(y), s, env);
    ExceptSecond(ErrorHandler(true), FeaturesHandler(true), [TlsHandler(false)]);
    assert [ErrorHandler(true), FeaturesHandler(true)] + [TlsHandler(false)] == Enable(c).lists.handlers + [TlsHandler(false)];
  }

  lemma {:induction false} TlsProceeds(c: Conn, s: Node, env: Env, x: bool, y: bool)
    requires Streaming(c, [ErrorHandler(x), TlsHandler(y)], false) && Proceeds(s) && env.sslOk
    ensures Fire(c, s, env) == c.(net := c.net.(state := Connecting, ssl := true), lists := Lists([ErrorHandler(true)], map[], true))
  {
    assert Matches(TlsHandler(true), s) by { hide HasChildByNs, NS_TLS; }
    assert |"proceed"| == 7;
    hide NS_TLS, NS_STREAMS, Matches, Except, Fire;
    NotAnError(s, "proceed", x);
    OnlySecond(c, ErrorHandler(x), TlsHandler(y), s, env);
    ExceptSecond(ErrorHandler(true), TlsHandler(true), []);
    assert Enable(c).lists.handlers == [ErrorHandler(true), TlsHandler(true)] + [];
  }

  /** Any other answer is passed over, and the handler is gone all the same. */
  lemma {:induction false} TlsRefused(c: Conn, s: Node, name: string, env: Env, x: bool, y: bool)
    requires Streaming(c, [ErrorHandler(x), TlsHandler(y)], false)
    requires Name(s) == Some(name) && Attribute(s, XMLNS) == Some(NS_TLS) && name != "proceed" && |name| != 5
    ensures Fire(c, s, env) == c.(lists := Lists([ErrorHandler(true)], map[], true))
  {
    assert Matches(TlsHandler(true), s) by { hide HasChildByNs, NS_TLS; }
    hide NS_TLS, NS_STREAMS, Matches, Except, Fire;
    NotAnError(s, name, x);
    OnlySecond(c, ErrorHandler(x), TlsHandler(y), s, env);
    ExceptSecond(ErrorHandler(true), TlsHandler(true), []);
    assert Enable(c).lists.handlers == [ErrorHandler(true), TlsHandler(true)] + [];
  }

  /** Without a TLS filter the connection ends. */
  lemma {:induction false} TlsFails(c: Conn, s: Node, env: Env, x: bool, y: bool)
    requires Streaming(c, [ErrorHandler(x), TlsHandler(y)], false) && Proceeds(s) && !env.sslOk
    ensures Fire(c, s, env).net.state == Disconnected && Fire(c, s, env).past == c.past
  {
    assert Matches(TlsHandler(true), s) by { hide HasChildByNs, NS_TLS; }
    assert |"proceed"| == 7;
    hide NS_TLS, NS_STREAMS, Matches, Except, Fire;
    NotAnError(s, "proceed", x);
    OnlySecond(c, ErrorHandler(x), TlsHandler(y), s, env);
  }

  /** The link comes up again, and a new stream over it. */
  lemma {:induction false} SecuredStream(c: Conn, hasId: bool)
    requires c.net.state == Connecting && c.net.ssl && c.net.hasStreamId
    requires !c.login.authenticated && !c.login.bindRequired && !c.login.sessionRequired && c.login.jidHasNode
    requires c.lists == Lists([ErrorHandler(true)], map[], true)
    ensures var r := Next(Next(Next(c, LinkUp), Chunk), StreamStart("stream", hasId));
            && Streaming(r, [ErrorHandler(true), FeaturesHandler(false)], true)
            && r.past == c.past.(sent := c.past.sent + [StreamHeader])
  {
    hide NS_STREAMS;
    assert c.lists.handlers[0].fn == StreamError;
  }

  lemma {:induction false} SaslOffered(c: Conn, s: Node, env: Env, m: Mechanism, secured: bool, x: bool, y: bool)
    requires Streaming(c, [ErrorHandler(x), FeaturesHandler(y)], secured) && OffersSasl(s, m)
    requires secured || c.login.tlsDisabled || !Offers(s, "starttls", NS_TLS)
    ensures var r := Fire(c, s, env);
            && Streaming(r, [ErrorHandler(true), Awaiting(FirstFn(m), false)], secured)
            && !r.login.tlsSupport && !r.login.saslDigest
            && (r.login.saslPlain <==> m == DigestMd5 && OffersMechanism(s, "PLAIN"))
            && r.past.sent == c.past.sent + [Auth(m, secured, false)] && r.past.log == c.past.log
  {
    hide Offers, OffersMechanism, NS_TLS, NS_SASL, NS_STREAMS, Matches, Except, Fire;
    FeaturesMatch(s, x);
    OnlySecond(c, ErrorHandler(x), FeaturesHandler(y), s, env);
    ExceptSecond(ErrorHandler(true), FeaturesHandler(true), [Awaiting(FirstFn(m), false)]);
    assert [ErrorHandler(true), FeaturesHandler(true)] + [Awaiting(FirstFn(m), false)]
        == Enable(c).lists.handlers + [Awaiting(FirstFn(m), false)];
  }

  /** Features with no mechanism to try, PLAIN without a user name among them, end the connection. */
  lemma {:induction false} NothingUsable(c: Conn, s: Node, env: Env, x: bool, y: bool)
    requires c.lists == Lists([ErrorHandler(x), FeaturesHandler(y)], map[], true) && c.net.state == Connected
    requires IsFeatures(s) && !c.login.authenticated
    requires c.net.secured || c.login.tlsDisabled || !Offers(s, "starttls", NS_TLS)
    requires !OffersMechanism(s, "DIGEST-MD5") && (OffersMechanism(s, "PLAIN") ==> !c.login.jidHasNode)
    ensures Closed(c, Fire(c, s, env))
  {
    hide Offers, OffersMechanism, NS_TLS, NS_SASL, NS_STREAMS, Matches, Except, Fire;
    FeaturesMatch(s, x);
    OnlySecond(c, ErrorHandler(x), FeaturesHandler(y), s, env);
  }

  /** A stream error, like any stanza no other handler takes, changes nothing. */
  lemma {:induction false} StreamErrorPasses(c: Conn, s: Node, env: Env, x: bool)
    requires c.lists.handlers == [ErrorHandler(x)] && c.lists.ids == map[]
    ensures Fire(c, s, env) == c.(lists := c.lists.(handlers := [ErrorHandler(true)]))
  {
    OnlyErrors(c, s, env, x);
    hide RunHandlers, NS_STREAMS;
    assert FireIds(c, s, env) == c;
  }

  // ----- SASL

  lemma {:induction false} ChallengeAnswered(c: Conn, s: Node, env: Env, secured: bool, x: bool, y: bool)
    requires Streaming(c, [ErrorHandler(x), Awaiting(DigestChallenge, y)], secured) && IsSasl(s, "challenge") && env.digestOk
    ensures var r := Fire(c, s, env);
            && Streaming(r, [ErrorHandler(true), Awaiting(DigestRspauth, false)], secured) && r.login == c.login
            && r.past == c.past.(sent := c.past.sent + [Response(secured, c.login.tlsSupport)])
  {
    assert |"challenge"| == 9;
    hide NS_SASL, NS_STREAMS, Matches, Except, Fire;
    SaslMatches(s, "challenge", DigestChallenge, x);
    OnlySecond(c, ErrorHandler(x), Awaiting(DigestChallenge, y), s, env);
    ExceptSecond(ErrorHandler(true), Awaiting(DigestChallenge, true), [Awaiting(DigestRspauth, false)]);
    assert [ErrorHandler(true), Awaiting(DigestChallenge, true)] + [Awaiting(DigestRspauth, false)]
        == Enable(c).lists.handlers + [Awaiting(DigestRspauth, false)];
  }

  /** A challenge that cannot be answered ends the connection. */
  lemma {:induction false} ChallengeUnanswered(c: Conn, s: Node, env: Env, secured: bool, x: bool, y: bool)
    requires Streaming(c, [ErrorHandler(x), Awaiting(DigestChallenge, y)], secured) && IsSasl(s, "challenge") && !env.digestOk
    ensures Closed(c, Fire(c, s, env))
  {
    assert |"challenge"| == 9;
    hide NS_SASL, NS_STREAMS, Matches, Except, Fire;
    SaslMatches(s, "challenge", DigestChallenge, x);
    OnlySecond(c, ErrorHandler(x), Awaiting(DigestChallenge, y), s, env);
  }

  /** The second challenge is answered, and its handler stays. */
  lemma {:induction false} RspauthAnswered(c: Conn, s: Node, env: Env, secured: bool, x: bool, y: bool)
    requires Streaming(c, [ErrorHandler(x), Awaiting(DigestRspauth, y)], secured) && IsSasl(s, "challenge")
    ensures var r := Fire(c, s, env);
            && Streaming(r, [ErrorHandler(true), Awaiting(DigestRspauth, true)], secured) && r.login == c.login
            && r.past == c.past.(sent := c.past.sent + [Response(secured, c.login.tlsSupport)])
  {
    assert |"challenge"| == 9;
    hide NS_SASL, NS_STREAMS, Matches, Except, Fire;
    SaslMatches(s, "challenge", DigestRspauth, x);
    OnlySecond(c, ErrorHandler(x), Awaiting(DigestRspauth, y), s, env);
  }

  predicate AwaitsSasl(fn: Fn) {
    fn == SaslResult || fn == DigestChallenge || fn == DigestRspauth
  }

  lemma {:induction false} OutcomeCall(c: Conn, s: Node, env: Env, fn: Fn)
    requires AwaitsSasl(fn) && Name(s) == Some("success")
    ensures Visit(c, fn, s, env) == RemoveHandler(RestartStream(c), fn)
  {
    assert |"success"| == 7 && "success" != "challenge" && "success" != "failure";
    hide RestartStream, Except;
  }

  lemma {:induction false} FailureCall(c: Conn, s: Node, env: Env, fn: Fn)
    requires AwaitsSasl(fn) && Name(s) == Some("failure")
    ensures Visit(c, fn, s, env) == RemoveHandler(DoAuth(RecordFailure(c)), fn)
  {
    assert |"failure"| == 7 && "failure" != "challenge";
    hide DoAuth, Except;
  }

  /** Whichever SASL handler waits, success restarts the stream. */
  lemma {:induction false} SaslAccepted(c: Conn, s: Node, env: Env, fn: Fn, secured: bool, x: bool, y: bool)
    requires Streaming(c, [ErrorHandler(x), Awaiting(fn, y)], secured) && AwaitsSasl(fn) && IsSasl(s, "success")
    ensures var r := Fire(c, s, env);
            && Streaming(r.(net := r.net.(resetPending := false)), [ErrorHandler(true)], secured)
            && r.net.openHandler == OpenSasl && r.net.resetPending
            && r.past.sent == c.past.sent + [StreamHeader] && r.past.log == c.past.log + [SaslSuccess]
  {
    assert |"success"| == 7;
    hide NS_SASL, NS_STREAMS, Matches, Except, Fire, Visit;
    SaslMatches(s, "success", fn, x);
    OutcomeCall(Enable(c), s, env, fn);
    OnlySecond(c, ErrorHandler(x), Awaiting(fn, y), s, env);
    ExceptSecond(ErrorHandler(true), Awaiting(fn, true), []);
    assert Enable(c).lists.handlers == [ErrorHandler(true), Awaiting(fn, true)] + [];
  }

  lemma {:induction false} NextIsPlain(c: Conn, secured: bool, fn: Fn)
    requires Streaming(c, [ErrorHandler(true), Awaiting(fn, true)], secured) && fn != SaslResult && fn != StreamError
    requires !c.login.saslDigest && c.login.saslPlain && (secured || !c.login.tlsSupport)
    ensures var d := DoAuth(RecordFailure(c));
            && Streaming(d, [ErrorHandler(true), Awaiting(fn, true)] + [Awaiting(SaslResult, false)], secured)
            && d.login == c.login.(saslPlain := false)
            && d.past.sent == c.past.sent + [Auth(Plain, secured, c.login.tlsSupport)] && d.past.log == c.past.log
  {
    hide NS_SASL, NS_STREAMS;
  }

  /** After a failure of DIGEST-MD5 the other mechanism is tried, if it was offered. */
  lemma {:induction false} PlainTried(c: Conn, s: Node, env: Env, fn: Fn, secured: bool, x: bool, y: bool)
    requires Streaming(c, [ErrorHandler(x), Awaiting(fn, y)], secured) && IsSasl(s, "failure")
    requires (fn == DigestChallenge || fn == DigestRspauth) && !c.login.saslDigest && c.login.saslPlain
    requires secured || !c.login.tlsSupport
    ensures var r := Fire(c, s, env);
            && Streaming(r, [ErrorHandler(true), Awaiting(SaslResult, false)], secured)
            && r.login == c.login.(saslPlain := false)
            && r.past.sent == c.past.sent + [Auth(Plain, secured, c.login.tlsSupport)] && r.past.log == c.past.log
  {
    assert |"failure"| == 7;
    hide NS_SASL, NS_STREAMS, Matches, Except, Fire, Visit, DoAuth, RecordFailure;
    SaslMatches(s, "failure", fn, x);
    OnlySecond(c, ErrorHandler(x), Awaiting(fn, y), s, env);
    FailureCall(Enable(c), s, env, fn);
    NextIsPlain(Enable(c), secured, fn);
    ExceptSecond(ErrorHandler(true), Awaiting(fn, true), [Awaiting(SaslResult, false)]);
  }

  /** The link is on its way down: the footer is written and the timer armed. */
  predicate Closed(c: Conn, r: Conn) {
    r.net.closing && r.past.sent == c.past.sent + [StreamFooter] && !r.login.authenticated
  }

  /** After a failure of PLAIN nothing is left to try. */
  lemma {:induction false} PlainRefused(c: Conn, s: Node, env: Env, secured: bool, x: bool, y: bool)
    requires Streaming(c, [ErrorHandler(x), Awaiting(SaslResult, y)], secured) && IsSasl(s, "failure")
    requires !c.login.saslDigest && !c.login.saslPlain && (secured || !c.login.tlsSupport)
    ensures Closed(c, Fire(c, s, env))
  {
    assert |"failure"| == 7;
    hide NS_SASL, NS_STREAMS, Matches, Except, Fire;
    SaslMatches(s, "failure", SaslResult, x);
    OnlySecond(c, ErrorHandler(x), Awaiting(SaslResult, y), s, env);
  }

  /** No answer known to SASL ends the connection. */
  lemma {:induction false} SaslUnknown(c: Conn, s: Node, env: Env, name: string, fn: Fn, secured: bool, x: bool, y: bool)
    requires Streaming(c, [ErrorHandler(x), Awaiting(fn, y)], secured) && AwaitsSasl(fn) && IsSasl(s, name)
    requires name != "success" && name != "failure" && (fn != SaslResult ==> name != "challenge") && |name| != 5
    ensures Closed(c, Fire(c, s, env))
  {
    hide NS_SASL, NS_STREAMS, Matches, Except, Fire;
    SaslMatches(s, name, fn, x);
    OnlySecond(c, ErrorHandler(x), Awaiting(fn, y), s, env);
  }

  // ----- the second stream

  lemma {:induction false} StreamRestarts(c: Conn, hasId: bool, secured: bool)
    requires Streaming(c.(net := c.net.(resetPending := false)), [ErrorHandler(true)], secured)
    requires c.net.openHandler == OpenSasl && c.net.resetPending
    ensures var r := Next(Next(c, Chunk), StreamStart("stream", hasId));
            && Streaming(r, [ErrorHandler(true), SaslFeaturesHandler(false)], secured)
            && r.past.sent == c.past.sent && r.past.log == c.past.log + [Reopened]
  {
    hide NS_STREAMS;
  }

  /** A resource, and later perhaps a session, is to be asked for; `id` is that of the request on its way. */
  predicate Requesting(c: Conn, id: string, fn: Fn) {
    && c.lists.ids == map[id := [fn]] && c.lists.storesIds
    && c.net.state == Connected && c.net.parser == InStream && !c.login.authenticated
  }

  lemma {:induction false} BindOffered(c: Conn, s: Node, env: Env, secured: bool, x: bool, y: bool)
    requires Streaming(c, [ErrorHandler(x), SaslFeaturesHandler(y)], secured) && OffersBind(s)
    ensures var r := Fire(c, s, env);
            && Requesting(r, BIND_ID, Bind) && r.lists.handlers == [ErrorHandler(true)]
            && (r.login.sessionRequired <==> Offers(s, "session", NS_SESSION))
            && r.past.sent == c.past.sent + [BindRequest]
            && r.past.log == c.past.log + [Mark.BindOffered(r.login.sessionRequired)]
  {
    hide Offers, NS_STREAMS, NS_BIND, NS_SESSION, BIND_ID, Matches, Except, Fire;
    FeaturesMatch(s, x);
    OnlySecond(c, ErrorHandler(x), SaslFeaturesHandler(y), s, env);
    ExceptSecond(ErrorHandler(true), SaslFeaturesHandler(true), []);
    assert Enable(c).lists.handlers == [ErrorHandler(true), SaslFeaturesHandler(true)] + [];
  }

  /** Features that offer no resource end the connection. */
  lemma {:induction false} NoBindOffered(c: Conn, s: Node, env: Env, secured: bool, x: bool, y: bool)
    requires Streaming(c, [ErrorHandler(x), SaslFeaturesHandler(y)], secured) && IsFeatures(s) && !Offers(s, "bind", NS_BIND)
    ensures Closed(c, Fire(c, s, env))
  {
    hide Offers, NS_STREAMS, NS_BIND, NS_SESSION, BIND_ID, Matches, Except, Fire;
    FeaturesMatch(s, x);
    OnlySecond(c, ErrorHandler(x), SaslFeaturesHandler(y), s, env);
  }

  // ----- answers by id

  /** The one handler of an id is called and leaves the table. */
  lemma {:induction false} OnlyById(c: Conn, s: Node, env: Env, id: string, fn: Fn)
    requires c.lists.ids == map[id := [fn]] && Attribute(s, "id") == Some(id) && !fn.User?
    ensures FireIds(c, s, env) == VisitId(c, id, fn, s, env)
  {
    hide VisitId;
    assert [fn][1..] == [];
    assert RunIds(c, id, [fn], s, env) == RunIds(VisitId(c, id, fn, s, env), id, [fn][1..], s, env);
  }

  /** The handler of stream errors changes nothing, whether it is called or not. */
  lemma {:induction false} OnlyErrors(c: Conn, s: Node, env: Env, x: bool)
    requires c.lists.handlers == [ErrorHandler(x)]
    ensures RunHandlers(Enable(c), Enable(c).lists.handlers, s, env) == c.(lists := c.lists.(handlers := [ErrorHandler(true)]))
  {
    hide Matches;
    var c2 := Enable(c);
    assert c2.lists.handlers == [ErrorHandler(true)] && c2.lists.handlers[1..] == [];
    assert Visit(c2, StreamError, s, env) == c2;
  }

  lemma {:induction false} AuthKeepsLogin(c: Conn)
    requires c.login.authenticated
    ensures DoAuth(c).login.authenticated
  {
    hide Extend;
  }

  lemma {:induction false} CallKeepsLogin(c: Conn, fn: Fn, s: Node, env: Env)
    requires c.login.authenticated
    ensures Call(c, fn, s, env).0.login.authenticated
  {
    hide DoAuth, Extend, ExtendAll, PutId, Offers, OffersMechanism, Name, Attribute, NS_SASL, NS_TLS, BIND_ID, SESSION_ID;
    match fn {
      case Features => AuthKeepsLogin(ReadFeatures(c, s));
      case SaslResult => AuthKeepsLogin(RecordFailure(c));
      case DigestChallenge => AuthKeepsLogin(RecordFailure(c));
      case DigestRspauth => AuthKeepsLogin(RecordFailure(c));
      case FeaturesSasl =>
      case ProceedTls =>
      case Bind =>
      case Session =>
      case StreamError =>
      case User(_) =>
    }
  }

  lemma {:induction false} VisitKeepsLogin(c: Conn, fn: Fn, s: Node, env: Env)
    requires c.login.authenticated
    ensures Visit(c, fn, s, env).login.authenticated
  {
    CallKeepsLogin(c, fn, s, env);
    hide Call, Except;
  }

  lemma {:induction false} RunKeepsLogin(c: Conn, order: seq<Handler>, s: Node, env: Env)
    requires c.login.authenticated
    ensures RunHandlers(c, order, s, env).login.authenticated
    decreases |order|
  {
    hide Visit, Matches;
    if order != [] {
      var skip := Gated(c, order[0].fn) || !Matches(order[0], s);
      VisitKeepsLogin(c, order[0].fn, s, env);
      RunKeepsLogin(if skip then c else Visit(c, order[0].fn, s, env), order[1..], s, env);
    }
  }

  /** A bind result without a session completes the login. */
  lemma {:induction false} BindAnswered(c: Conn, s: Node, env: Env)
    requires c.lists.ids == map[BIND_ID := [Bind]] && !c.login.sessionRequired && Answers(s, BIND_ID)
    ensures Fire(c, s, env).login.authenticated
  {
    hide BIND_ID, RunHandlers, ExtendAll, DropId;
    OnlyById(c, s, env, BIND_ID, Bind);
    var c2 := Enable(FireIds(c, s, env));
    assert c2.login.authenticated;
    RunKeepsLogin(c2, c2.lists.handlers, s, env);
  }

  /** With one it leads to the request for the session. */
  lemma {:induction false} SessionRequested(c: Conn, s: Node, env: Env, x: bool)
    requires Requesting(c, BIND_ID, Bind) && c.lists.handlers == [ErrorHandler(x)]
    requires c.login.sessionRequired && Answers(s, BIND_ID)
    ensures var r := Fire(c, s, env);
            && Requesting(r, SESSION_ID, Session) && r.lists.handlers == [ErrorHandler(true)] && r.login == c.login
            && r.past.sent == c.past.sent + [SessionRequest] && r.past.log == c.past.log + [Bound]
  {
    assert |BIND_ID| != |SESSION_ID|;
    hide BIND_ID, SESSION_ID, RunHandlers;
    OnlyById(c, s, env, BIND_ID, Bind);
    var v := FireIds(c, s, env);
    assert v.lists.ids == map[SESSION_ID := [Session]];
    OnlyErrors(v, s, env, x);
  }

  /** A session result completes the login. */
  lemma {:induction false} SessionAnswered(c: Conn, s: Node, env: Env)
    requires c.lists.ids == map[SESSION_ID := [Session]] && Answers(s, SESSION_ID)
    ensures Fire(c, s, env).login.authenticated
  {
    hide SESSION_ID, RunHandlers, ExtendAll, DropId;
    OnlyById(c, s, env, SESSION_ID, Session);
    var c2 := Enable(FireIds(c, s, env));
    assert c2.login.authenticated;
    RunKeepsLogin(c2, c2.lists.handlers, s, env);
  }

  /** Any other answer to either request ends the connection. */
  lemma {:induction false} RequestRefused(c: Conn, s: Node, env: Env, id: string, fn: Fn, x: bool)
    requires (id == BIND_ID && fn == Bind) || (id == SESSION_ID && fn == Session)
    requires Requesting(c, id, fn) && c.lists.handlers == [ErrorHandler(x)]
    requires Attribute(s, "id") == Some(id) && Attribute(s, "type") != Some("result")
    ensures Closed(c, Fire(c, s, env))
  {
    hide BIND_ID, SESSION_ID, RunHandlers, DropId;
    OnlyById(c, s, env, id, fn);
    OnlyErrors(FireIds(c, s, env), s, env, x);
  }
}
