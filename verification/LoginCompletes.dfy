/**
 The other half of the login results: with an id table that stores new keys, a server that plays
 along does bring the login to its end, by each of the ways there are.
 */
module LoginCompletes {
  import opened Wrappers
  import opened Stanza
  import opened StanzaBuilder
  import opened Login
  import opened LoginStages

  /** Features of the stream: PLAIN, without DIGEST-MD5 and without starttls. */
  predicate OffersPlainOnly(s: Node) {
    OffersSasl(s, Plain) && !Offers(s, "starttls", NS_TLS)
  }

  /** Features of the second stream: a resource must be bound, a session is not asked for. */
  predicate OffersBindOnly(s: Node) {
    OffersBind(s) && !Offers(s, "session", NS_SESSION)
  }

  /** From a new connection to the first stream. */
  lemma {:induction false} OpeningRun() returns (run: seq<Conn>, events: seq<Event>)
    ensures IsRun(run, events) && events == [LinkUp, Chunk, StreamStart("stream", true)] && |run| == 4
    ensures Streaming(run[3], [ErrorHandler(false), FeaturesHandler(false)], false)
    ensures !run[3].login.tlsDisabled && run[3].past.sent == [StreamHeader]
  {
    hide NS_STREAMS;
    var c0 := Start(true, true);
    var c1 := Next(c0, LinkUp);
    var c2 := Next(c1, Chunk);
    run := [c0, c1, c2, Next(c2, StreamStart("stream", true))];
    events := [LinkUp, Chunk, StreamStart("stream", true)];
  }

  /** A run goes on with any possible event. */
  lemma {:induction false} OneMore(run0: seq<Conn>, events0: seq<Event>, e: Event) returns (run: seq<Conn>, events: seq<Event>)
    requires |run0| == |events0| + 1 && IsRun(run0, events0) && Possible(run0[|events0|], e)
    ensures run == run0 + [Next(run0[|events0|], e)] && events == events0 + [e]
    ensures IsRun(run, events)
  {
    hide Next, Possible, Start;
    run := run0 + [Next(run0[|events0|], e)];
    events := events0 + [e];
    forall i | 0 <= i < |events|
      ensures Possible(run[i], events[i]) && run[i + 1] == Next(run[i], events[i])
    {
      assert i < |events0| ==> events[i] == events0[i];
    }
  }

  /** The new stream after success, of a run whose last state waits for it. */
  lemma {:induction false} Reopening(run0: seq<Conn>, events0: seq<Event>, hasId: bool, secured: bool)
    returns (run: seq<Conn>, events: seq<Event>)
    requires |run0| == |events0| + 1 && IsRun(run0, events0)
    requires var c := run0[|events0|];
             && Streaming(c.(net := c.net.(resetPending := false)), [ErrorHandler(true)], secured)
             && c.net.openHandler == OpenSasl && c.net.resetPending
    ensures |run| == |events| + 1 && IsRun(run, events) && events == events0 + [Chunk, StreamStart("stream", hasId)]
    ensures Streaming(run[|events|], [ErrorHandler(true), SaslFeaturesHandler(false)], secured)
    ensures run[|events|].past.sent == run0[|events0|].past.sent
  {
    StreamRestarts(run0[|events0|], hasId, secured);
    hide IsRun, ErrorHandler, SaslFeaturesHandler;
    run, events := OneMore(run0, events0, Chunk);
    run, events := OneMore(run, events, StreamStart("stream", hasId));
    assert events == events0 + [Chunk, StreamStart("stream", hasId)];
  }

  /** A stanza in an open stream. */
  lemma {:induction false} Receive(run0: seq<Conn>, events0: seq<Event>, s: Node, env: Env) returns (run: seq<Conn>, events: seq<Event>)
    requires |run0| == |events0| + 1 && IsRun(run0, events0) && run0[|events0|].net.parser == InStream
    ensures run == run0 + [Fire(run0[|events0|], s, env)] && events == events0 + [Received(s, env)]
    ensures IsRun(run, events)
  {
    hide IsRun, Fire;
    run, events := OneMore(run0, events0, Received(s, env));
  }

  // ----- the parts of a run: each goes on from the last state of a run

  ghost predicate Continues(run0: seq<Conn>, events0: seq<Event>, run: seq<Conn>, events: seq<Event>, more: seq<Event>, sent: seq<Out>) {
    && |run0| == |events0| + 1 && |run| == |events| + 1 && IsRun(run, events) && events == events0 + more
    && run[|events|].past.sent == run0[|events0|].past.sent + sent
  }

  /** starttls: the link is secured and a new stream is open on it. */
  lemma {:induction false} SecurePart(run0: seq<Conn>, events0: seq<Event>, s1: Node, s2: Node, env: Env, hasId: bool)
    returns (run: seq<Conn>, events: seq<Event>)
    requires |run0| == |events0| + 1 && IsRun(run0, events0)
    requires Streaming(run0[|events0|], [ErrorHandler(false), FeaturesHandler(false)], false) && !run0[|events0|].login.tlsDisabled
    requires OffersTls(s1) && Proceeds(s2) && env.sslOk
    ensures Continues(run0, events0, run, events,
              [Received(s1, env), Received(s2, env), LinkUp, Chunk, StreamStart("stream", hasId)], [StartTls, StreamHeader])
    ensures Streaming(run[|events|], [ErrorHandler(true), FeaturesHandler(false)], true)
  {
    hide OffersTls, Proceeds, IsRun, Fire, ErrorHandler, FeaturesHandler, TlsHandler;
    TlsOffered(run0[|events0|], s1, env, false, false);
    run, events := Receive(run0, events0, s1, env);
    TlsProceeds(run[|events|], s2, env, true, false);
    run, events := Receive(run, events, s2, env);
    SecuredStream(run[|events|], hasId);
    run, events := OneMore(run, events, LinkUp);
    run, events := OneMore(run, events, Chunk);
    run, events := OneMore(run, events, StreamStart("stream", hasId));
    assert events == events0 + [Received(s1, env), Received(s2, env), LinkUp, Chunk, StreamStart("stream", hasId)];
  }

  /** PLAIN, accepted. */
  lemma {:induction false} PlainPart(run0: seq<Conn>, events0: seq<Event>, s1: Node, s2: Node, env: Env, hasId: bool, secured: bool, x: bool)
    returns (run: seq<Conn>, events: seq<Event>)
    requires |run0| == |events0| + 1 && IsRun(run0, events0)
    requires Streaming(run0[|events0|], [ErrorHandler(x), FeaturesHandler(false)], secured)
    requires OffersSasl(s1, Plain) && (secured || !Offers(s1, "starttls", NS_TLS)) && IsSasl(s2, "success")
    ensures Continues(run0, events0, run, events, [Received(s1, env), Received(s2, env), Chunk, StreamStart("stream", hasId)],
              [Auth(Plain, secured, false), StreamHeader])
    ensures Streaming(run[|events|], [ErrorHandler(true), SaslFeaturesHandler(false)], secured)
  {
    hide OffersSasl, IsSasl, Offers, NS_TLS, IsRun, Fire, ErrorHandler, FeaturesHandler, Awaiting, SaslFeaturesHandler;
    SaslOffered(run0[|events0|], s1, env, Plain, secured, x, false);
    run, events := Receive(run0, events0, s1, env);
    SaslAccepted(run[|events|], s2, env, SaslResult, secured, true, false);
    run, events := Receive(run, events, s2, env);
    run, events := Reopening(run, events, hasId, secured);
    assert events == events0 + [Received(s1, env), Received(s2, env), Chunk, StreamStart("stream", hasId)];
  }

  /** DIGEST-MD5 with both challenges, accepted. */
  lemma {:induction false} DigestPart(run0: seq<Conn>, events0: seq<Event>, s1: Node, s2: Node, s3: Node, s4: Node, env: Env,
                                      hasId: bool, secured: bool, x: bool)
    returns (run: seq<Conn>, events: seq<Event>)
    requires |run0| == |events0| + 1 && IsRun(run0, events0)
    requires Streaming(run0[|events0|], [ErrorHandler(x), FeaturesHandler(false)], secured)
    requires OffersSasl(s1, DigestMd5) && (secured || !Offers(s1, "starttls", NS_TLS)) && env.digestOk
    requires IsSasl(s2, "challenge") && IsSasl(s3, "challenge") && IsSasl(s4, "success")
    ensures Continues(run0, events0, run, events,
              [Received(s1, env), Received(s2, env), Received(s3, env), Received(s4, env), Chunk, StreamStart("stream", hasId)],
              [Auth(DigestMd5, secured, false), Response(secured, false), Response(secured, false), StreamHeader])
    ensures Streaming(run[|events|], [ErrorHandler(true), SaslFeaturesHandler(false)], secured)
  {
    hide OffersSasl, IsSasl, Offers, NS_TLS, IsRun, Fire, ErrorHandler, FeaturesHandler, Awaiting, SaslFeaturesHandler;
    SaslOffered(run0[|events0|], s1, env, DigestMd5, secured, x, false);
    run, events := Receive(run0, events0, s1, env);
    ChallengeAnswered(run[|events|], s2, env, secured, true, false);
    run, events := Receive(run, events, s2, env);
    RspauthAnswered(run[|events|], s3, env, secured, true, false);
    run, events := Receive(run, events, s3, env);
    SaslAccepted(run[|events|], s4, env, DigestRspauth, secured, true, true);
    run, events := Receive(run, events, s4, env);
    run, events := Reopening(run, events, hasId, secured);
    assert events == events0 + [Received(s1, env), Received(s2, env), Received(s3, env), Received(s4, env), Chunk, StreamStart("stream", hasId)];
  }

  /** DIGEST-MD5 refused, then PLAIN accepted. */
  lemma {:induction false} FallbackPart(run0: seq<Conn>, events0: seq<Event>, s1: Node, s2: Node, s3: Node, env: Env,
                                        hasId: bool, secured: bool, x: bool)
    returns (run: seq<Conn>, events: seq<Event>)
    requires |run0| == |events0| + 1 && IsRun(run0, events0)
    requires Streaming(run0[|events0|], [ErrorHandler(x), FeaturesHandler(false)], secured)
    requires OffersSasl(s1, DigestMd5) && OffersMechanism(s1, "PLAIN") && (secured || !Offers(s1, "starttls", NS_TLS))
    requires IsSasl(s2, "failure") && IsSasl(s3, "success")
    ensures Continues(run0, events0, run, events,
              [Received(s1, env), Received(s2, env), Received(s3, env), Chunk, StreamStart("stream", hasId)],
              [Auth(DigestMd5, secured, false), Auth(Plain, secured, false), StreamHeader])
    ensures Streaming(run[|events|], [ErrorHandler(true), SaslFeaturesHandler(false)], secured)
  {
    hide OffersSasl, OffersMechanism, IsSasl, Offers, NS_TLS, IsRun, Fire, ErrorHandler, FeaturesHandler, Awaiting, SaslFeaturesHandler;
    SaslOffered(run0[|events0|], s1, env, DigestMd5, secured, x, false);
    run, events := Receive(run0, events0, s1, env);
    PlainTried(run[|events|], s2, env, DigestChallenge, secured, true, false);
    run, events := Receive(run, events, s2, env);
    SaslAccepted(run[|events|], s3, env, SaslResult, secured, true, false);
    run, events := Receive(run, events, s3, env);
    run, events := Reopening(run, events, hasId, secured);
    assert events == events0 + [Received(s1, env), Received(s2, env), Received(s3, env), Chunk, StreamStart("stream", hasId)];
  }

  /** The bind request, answered: the end of a login without a session. */
  lemma {:induction false} BindPart(run0: seq<Conn>, events0: seq<Event>, s1: Node, s2: Node, env: Env, secured: bool)
    returns (run: seq<Conn>, events: seq<Event>)
    requires |run0| == |events0| + 1 && IsRun(run0, events0)
    requires Streaming(run0[|events0|], [ErrorHandler(true), SaslFeaturesHandler(false)], secured)
    requires OffersBindOnly(s1) && Answers(s2, BIND_ID)
    ensures |run| == |events| + 1 && IsRun(run, events) && events == events0 + [Received(s1, env), Received(s2, env)]
    ensures run[|events|].login.authenticated && BindRequest in run[|events| - 1].past.sent
  {
    hide OffersBind, Offers, Answers, NS_SESSION, BIND_ID, IsRun, Fire, ErrorHandler, SaslFeaturesHandler;
    LoginStages.BindOffered(run0[|events0|], s1, env, secured, true, false);
    run, events := Receive(run0, events0, s1, env);
    BindAnswered(run[|events|], s2, env);
    run, events := Receive(run, events, s2, env);
    assert events == events0 + [Received(s1, env), Received(s2, env)];
  }

  /** Both requests, answered. */
  lemma {:induction false} SessionPart(run0: seq<Conn>, events0: seq<Event>, s1: Node, s2: Node, s3: Node, env: Env, secured: bool)
    returns (run: seq<Conn>, events: seq<Event>)
    requires |run0| == |events0| + 1 && IsRun(run0, events0)
    requires Streaming(run0[|events0|], [ErrorHandler(true), SaslFeaturesHandler(false)], secured)
    requires OffersBind(s1) && Offers(s1, "session", NS_SESSION) && Answers(s2, BIND_ID) && Answers(s3, SESSION_ID)
    ensures |run| == |events| + 1 && IsRun(run, events)
    ensures events == events0 + [Received(s1, env), Received(s2, env), Received(s3, env)]
    ensures run[|events|].login.authenticated
    ensures run[|events| - 1].past.sent == run0[|events0|].past.sent + [BindRequest, SessionRequest]
  {
    hide OffersBind, Offers, Answers, NS_SESSION, BIND_ID, SESSION_ID, IsRun, Fire, ErrorHandler, SaslFeaturesHandler;
    LoginStages.BindOffered(run0[|events0|], s1, env, secured, true, false);
    run, events := Receive(run0, events0, s1, env);
    SessionRequested(run[|events|], s2, env, true);
    run, events := Receive(run, events, s2, env);
    SessionAnswered(run[|events|], s3, env);
    run, events := Receive(run, events, s3, env);
    assert events == events0 + [Received(s1, env), Received(s2, env), Received(s3, env)];
  }

  // ----- whole runs

  /** Main result: PLAIN without starttls and without a session, for any stanzas with these contents. */
  lemma {:induction false} PlainLoginCompletes(s1: Node, s2: Node, s3: Node, s4: Node, env: Env, hasId: bool)
    returns (run: seq<Conn>, events: seq<Event>)
    requires OffersPlainOnly(s1) && IsSasl(s2, "success") && OffersBindOnly(s3) && Answers(s4, BIND_ID)
    ensures |run| == |events| + 1 && IsRun(run, events)
    ensures events == [LinkUp, Chunk, StreamStart("stream", true), Received(s1, env), Received(s2, env),
                       Chunk, StreamStart("stream", hasId), Received(s3, env), Received(s4, env)]
    ensures run[9].login.authenticated
  {
    hide OffersSasl, OffersBindOnly, IsSasl, Answers, Offers, IsRun, Streaming, NS_TLS, BIND_ID;
    run, events := OpeningRun();
    run, events := PlainPart(run, events, s1, s2, env, hasId, false, false);
    run, events := BindPart(run, events, s3, s4, env, false);
  }

  /**
   Main result: starttls, DIGEST-MD5 with both challenges, a resource and a session: the run ends logged
   in, and what was written on the way is exactly this.
   */
  lemma {:induction false} FullLoginCompletes(f1: Node, proceed: Node, f2: Node, ch1: Node, ch2: Node, success: Node, f3: Node,
                                              bound: Node, up: Node, env: Env, id1: bool, id2: bool)
    returns (run: seq<Conn>, events: seq<Event>)
    requires OffersTls(f1) && Proceeds(proceed) && env.sslOk && OffersSasl(f2, DigestMd5) && env.digestOk
    requires IsSasl(ch1, "challenge") && IsSasl(ch2, "challenge") && IsSasl(success, "success")
    requires OffersBind(f3) && Offers(f3, "session", NS_SESSION) && Answers(bound, BIND_ID) && Answers(up, SESSION_ID)
    ensures |run| == |events| + 1 && IsRun(run, events)
    ensures events == [LinkUp, Chunk, StreamStart("stream", true), Received(f1, env), Received(proceed, env),
                       LinkUp, Chunk, StreamStart("stream", id1), Received(f2, env), Received(ch1, env), Received(ch2, env),
                       Received(success, env), Chunk, StreamStart("stream", id2), Received(f3, env), Received(bound, env),
                       Received(up, env)]
    ensures run[17].login.authenticated
    ensures run[16].past.sent == [StreamHeader, StartTls, StreamHeader, Auth(DigestMd5, true, false), Response(true, false),
                                  Response(true, false), StreamHeader, BindRequest, SessionRequest]
  {
    hide OffersTls, Proceeds, OffersSasl, OffersBind, IsSasl, Answers, Offers, IsRun, Streaming, NS_SESSION, BIND_ID, SESSION_ID;
    run, events := OpeningRun();
    run, events := SecurePart(run, events, f1, proceed, env, id1);
    run, events := DigestPart(run, events, f2, ch1, ch2, success, env, id2, true, true);
    run, events := SessionPart(run, events, f3, bound, up, env, true);
  }

  /** Main result: a login with PLAIN after DIGEST-MD5 was refused. */
  lemma {:induction false} FallbackLoginCompletes(f1: Node, failure: Node, success: Node, f2: Node, bound: Node, env: Env, hasId: bool)
    returns (run: seq<Conn>, events: seq<Event>)
    requires OffersSasl(f1, DigestMd5) && OffersMechanism(f1, "PLAIN") && !Offers(f1, "starttls", NS_TLS)
    requires IsSasl(failure, "failure") && IsSasl(success, "success") && OffersBindOnly(f2) && Answers(bound, BIND_ID)
    ensures |run| == |events| + 1 && IsRun(run, events)
    ensures events == [LinkUp, Chunk, StreamStart("stream", true), Received(f1, env), Received(failure, env), Received(success, env),
                       Chunk, StreamStart("stream", hasId), Received(f2, env), Received(bound, env)]
    ensures run[10].login.authenticated
  {
    hide OffersSasl, OffersMechanism, OffersBindOnly, IsSasl, Answers, Offers, IsRun, Streaming, NS_TLS, BIND_ID;
    run, events := OpeningRun();
    run, events := FallbackPart(run, events, f1, failure, success, env, hasId, false, false);
    run, events := BindPart(run, events, f2, bound, env, false);
  }
}
