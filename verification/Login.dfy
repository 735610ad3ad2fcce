/**
 One XMPP connection from xmpp_connect_client on: the stream events, the handler lists and
 the login handlers of src/xmpp-auth.c, src/xmpp-handler.c and src/xmpp-conn.c, as
 transitions of a value.
 */
module Login {
  import opened Wrappers
  import opened Stanza
  import opened StanzaBuilder

  const NS_STREAMS := "http://etherx.jabber.org/streams"
  const NS_TLS := "urn:ietf:params:xml:ns:xmpp-tls"
  const NS_SASL := "urn:ietf:params:xml:ns:xmpp-sasl"
  const NS_BIND := "urn:ietf:params:xml:ns:xmpp-bind"
  const NS_SESSION := "urn:ietf:params:xml:ns:xmpp-session"
  const BIND_ID := "imcore_xmpp_bind"
  const SESSION_ID := "imcore_xmpp_session"

  // ----- looking into a received stanza

  function Attribute(n: Node, key: string): Option<string> {
    if n.Element? && key in n.attributes then Some(n.attributes[key]) else None
  }

  function Name(n: Node): Option<string> {
    if n.Element? then Some(n.name) else None
  }

  function Children(n: Node): seq<Node> {
    if n.Element? then n.children else []
  }

  /** xmpp_stanza_get_child_by_name: the first one only. */
  function ChildByName(kids: seq<Node>, name: string): Option<Node> {
    if kids == [] then None
    else if Name(kids[0]) == Some(name) then Some(kids[0])
    else ChildByName(kids[1..], name)
  }

  /** xmpp_stanza_get_child_by_ns finds one. */
  predicate HasChildByNs(kids: seq<Node>, ns: string) {
    kids != [] && (Attribute(kids[0], XMLNS) == Some(ns) || HasChildByNs(kids[1..], ns))
  }

  /** xmpp_stanza_get_text_ptr: the text of an element is its first child, if that is text. */
  function TextOf(n: Node): Option<string> {
    match n
    case Data(text) => Some(text)
    case Element(_, _, kids) => if kids != [] && kids[0].Data? then Some(kids[0].text) else None
  }

  function Lower(c: char): char {
    if 'A' <= c <= 'Z' then c - 'A' + 'a' else c
  }

  /** im_stricmp(...) == 0 */
  predicate SameIgnoringCase(a: string, b: string) {
    |a| == |b| && forall k :: 0 <= k < |a| ==> Lower(a[k]) == Lower(b[k])
  }

  /** The stanza has a child of this name, and the first such child has this namespace. */
  predicate Offers(s: Node, name: string, ns: string) {
    var child := ChildByName(Children(s), name);
    child.Some? && Attribute(child.value, XMLNS) == Some(ns)
  }

  predicate IsMechanism(n: Node, mechanism: string) {
    Name(n) == Some("mechanism") && TextOf(n).Some? && SameIgnoringCase(TextOf(n).value, mechanism)
  }

  predicate OffersMechanism(s: Node, mechanism: string) {
    && Offers(s, "mechanisms", NS_SASL)
    && var kids := Children(ChildByName(Children(s), "mechanisms").value);
    exists k :: 0 <= k < |kids| && IsMechanism(kids[k], mechanism)
  }

  // ----- the connection

  datatype LinkState = Disconnected | Connecting | Connected

  datatype Mechanism = DigestMd5 | Plain

  /** The handler functions; User stands for those of the application. */
  datatype Fn =
    | StreamError | Features | ProceedTls
    | SaslResult | DigestChallenge | DigestRspauth
    | FeaturesSasl | Bind | Session
    | User(k: nat)

  datatype Handler = Handler(fn: Fn, ns: Option<string>, name: Option<string>, kind: Option<string>, enabled: bool)

  /** expat between a reset and the root element, inside it, or past it. */
  datatype ParserState = Fresh | InStream | Ended

  datatype OpenHandler = OpenAuth | OpenSasl

  /** Stanzas written; SASL ones with the security of the link and of the last features. */
  datatype Out =
    | StreamHeader | StreamFooter | StartTls
    | Auth(mechanism: Mechanism, secured: bool, tlsSupport: bool)
    | Response(secured: bool, tlsSupport: bool)
    | BindRequest | SessionRequest

  /** What has happened, in order. */
  datatype Mark = SaslSuccess | Reopened | BindOffered(session: bool) | Bound | SessionUp | UserCalled

  datatype Stage = Negotiating | Authenticating | SaslDone | StreamReopened | Binding | Establishing | LoggedIn

  /** The link, the parser and the stream. */
  datatype Net = Net(
    state: LinkState,
    ssl: bool,
    secured: bool,
    closing: bool,
    parser: ParserState,
    resetPending: bool,
    openHandler: OpenHandler,
    hasStreamId: bool)

  /** What the features offered and how far the login is. */
  datatype Login = Login(
    tlsDisabled: bool,
    tlsSupport: bool,
    saslDigest: bool,
    saslPlain: bool,
    bindRequired: bool,
    sessionRequired: bool,
    authenticated: bool,
    jidHasNode: bool)

  /** The list of handlers and the table of lists by id; `storesIds`: the table keeps new keys. */
  datatype Lists = Lists(handlers: seq<Handler>, ids: map<string, seq<Fn>>, storesIds: bool)

  /**
   History: whether DIGEST-MD5 was offered last, the mechanisms tried and failed, the stage,
   the marks, and what was written.
   */
  datatype Past = Past(
    offeredDigest: bool,
    tried: seq<Mechanism>,
    failed: seq<Mechanism>,
    stage: Stage,
    log: seq<Mark>,
    sent: seq<Out>)

  datatype Conn = Conn(net: Net, login: Login, lists: Lists, past: Past)

  /** xmpp_conn_new followed by xmpp_connect_client. */
  function Start(jidHasNode: bool, storesIds: bool): Conn {
    Conn(Net(Connecting, false, false, false, Fresh, true, OpenAuth, false),
         Login(false, false, false, false, false, false, false, jidHasNode),
         Lists([], map[], storesIds),
         Past(false, [], [], Negotiating, [], []))
  }

  // ----- handler lists

  function Fns(handlers: seq<Handler>): (r: seq<Fn>)
    ensures |r| == |handlers| && forall k :: 0 <= k < |r| ==> r[k] == handlers[k].fn
  {
    seq(|handlers|, k requires 0 <= k < |handlers| => handlers[k].fn)
  }

  predicate Installed(handlers: seq<Handler>, fn: Fn) {
    exists k :: 0 <= k < |handlers| && handlers[k].fn == fn
  }

  /** _handler_add: a function already in the list is not added again. */
  function Extend(handlers: seq<Handler>, h: Handler): seq<Handler> {
    if Installed(handlers, h.fn) then handlers else handlers + [h.(enabled := false)]
  }

  function AddHandler(c: Conn, h: Handler): Conn {
    c.(lists := c.lists.(handlers := Extend(c.lists.handlers, h)))
  }

  function Internal(fn: Fn, ns: Option<string>, name: Option<string>): Handler {
    Handler(fn, ns, name, None, false)
  }

  /** The handlers other than `fn`. */
  function Except(handlers: seq<Handler>, fn: Fn): seq<Handler> {
    if handlers == [] then []
    else (if handlers[0].fn == fn then [] else [handlers[0]]) + Except(handlers[1..], fn)
  }

  /** _handler_free */
  function RemoveHandler(c: Conn, fn: Fn): Conn {
    c.(lists := c.lists.(handlers := Except(c.lists.handlers, fn)))
  }

  /** An unknown id gets a list, if the table stores it. */
  function PutId(ids: map<string, seq<Fn>>, stores: bool, id: string, fn: Fn): map<string, seq<Fn>> {
    if id in ids then (if fn in ids[id] then ids else ids[id := ids[id] + [fn]])
    else if stores then ids[id := [fn]]
    else ids
  }

  /** _id_handler_add */
  function AddId(c: Conn, id: string, fn: Fn): Conn {
    c.(lists := c.lists.(ids := PutId(c.lists.ids, c.lists.storesIds, id, fn)))
  }

  function ExceptFn(fns: seq<Fn>, fn: Fn): seq<Fn> {
    if fns == [] then [] else if fns[0] == fn then fns[1..] else [fns[0]] + ExceptFn(fns[1..], fn)
  }

  /** An emptied list leaves the table. */
  function DropId(ids: map<string, seq<Fn>>, id: string, fn: Fn): map<string, seq<Fn>> {
    if id !in ids || fn !in ids[id] then ids
    else if |ids[id]| == 1 then ids - {id}
    else ids[id := ExceptFn(ids[id], fn)]
  }

  /** xmpp_id_handler_delete */
  function RemoveId(c: Conn, id: string, fn: Fn): Conn {
    c.(lists := c.lists.(ids := DropId(c.lists.ids, id, fn)))
  }

  // ----- the link

  function Write(c: Conn, out: Out): Past {
    if c.net.state == Connected then c.past.(sent := c.past.sent + [out]) else c.past
  }

  /** xmpp_send and xmpp_send_raw: nothing is written unless the link is up. */
  function Send(c: Conn, out: Out): Conn {
    c.(past := Write(c, out))
  }

  /** xmpp_disconnect: ask the server to close, and arm the timer that forces it. */
  function Disconnect(c: Conn): Conn {
    if c.net.state == Disconnected then c else Send(c, StreamFooter).(net := c.net.(closing := true))
  }

  /** conn_do_disconnect */
  function DoDisconnect(c: Conn): Conn {
    c.(net := c.net.(closing := false, state := Disconnected))
  }

  /** conn_reset_stream */
  function ResetStream(c: Conn, open: OpenHandler): Conn {
    c.(net := c.net.(openHandler := open, resetPending := true))
  }

  /** conn_start_ssl; `ok` tells whether the filter could be created. */
  function StartSsl(c: Conn, ok: bool): Conn {
    if c.net.state != Connected || c.net.ssl then c
    else if ok then c.(net := c.net.(state := Connecting, ssl := true))
    else DoDisconnect(c)
  }

  // ----- the login handlers

  /** What the model cannot see: libraries, and what the application's callbacks do. */
  datatype Env = Env(sslOk: bool, digestOk: bool, onConnect: seq<Handler>, user: nat -> (seq<Handler>, bool))

  function UserHandler(h: Handler): Handler {
    if h.fn.User? then h else h.(fn := User(0))
  }

  function ExtendAll(handlers: seq<Handler>, hs: seq<Handler>): seq<Handler>
    decreases |hs|
  {
    if hs == [] then handlers else ExtendAll(Extend(handlers, UserHandler(hs[0])), hs[1..])
  }

  /** The application adding handlers through the public interface. */
  function AddUserHandlers(c: Conn, hs: seq<Handler>): Conn {
    c.(lists := c.lists.(handlers := ExtendAll(c.lists.handlers, hs)))
  }

  function Note(c: Conn, stage: Stage, mark: Mark): Conn {
    c.(past := c.past.(stage := stage, log := c.past.log + [mark]))
  }

  function StartTlsHandler(): Handler {
    Internal(ProceedTls, Some(NS_TLS), None)
  }

  function SaslHandler(fn: Fn): Handler {
    Internal(fn, Some(NS_SASL), None)
  }

  function StreamHandler(fn: Fn, name: string): Handler {
    Internal(fn, Some(NS_STREAMS), Some(name))
  }

  /** A first message of a mechanism, its handler, and its bit taken away. */
  function TryMechanism(c: Conn, m: Mechanism): Conn {
    var sent := Send(AddHandler(c, SaslHandler(if m == DigestMd5 then DigestChallenge else SaslResult)),
                     Auth(m, c.net.secured, c.login.tlsSupport));
    sent.(login := if m == DigestMd5 then c.login.(saslDigest := false) else c.login.(saslPlain := false),
          past := sent.past.(tried := c.past.tried + [m], stage := Authenticating))
  }

  /** _do_auth */
  function DoAuth(c: Conn): Conn {
    if c.login.tlsSupport && !c.net.secured then Send(AddHandler(c, StartTlsHandler()), StartTls)
    else if c.login.authenticated then c
    else if c.login.saslDigest then TryMechanism(c, DigestMd5)
    else if c.login.saslPlain && c.login.jidHasNode then TryMechanism(c, Plain)
    else Disconnect(c)
  }

  /** The flags _handle_features sets before it goes on to _do_auth. */
  function ReadFeatures(c: Conn, s: Node): Conn {
    var digest := OffersMechanism(s, "DIGEST-MD5");
    c.(login := c.login.(
         tlsSupport := !c.net.secured && !c.login.tlsDisabled && Offers(s, "starttls", NS_TLS),
         saslDigest := digest, saslPlain := OffersMechanism(s, "PLAIN")),
       past := c.past.(offeredDigest := digest))
  }

  /** _handle_features */
  function HandleFeatures(c: Conn, s: Node): (Conn, bool) {
    (DoAuth(ReadFeatures(c, s)), false)
  }

  /** _handle_proceedtls */
  function HandleProceedTls(c: Conn, s: Node, env: Env): (Conn, bool) {
    (if Name(s) == Some("proceed") then StartSsl(c, env.sslOk) else c, false)
  }

  /** The mechanism tried last has failed. */
  function RecordFailure(c: Conn): Conn {
    var tried := c.past.tried;
    c.(past := c.past.(failed := c.past.failed + if tried == [] then [] else [tried[|tried| - 1]]))
  }

  /** A new stream once SASL is done. */
  function RestartStream(c: Conn): Conn {
    Note(Send(ResetStream(c, OpenSasl), StreamHeader), SaslDone, SaslSuccess)
  }

  /** _handle_sasl_result */
  function HandleSaslResult(c: Conn, s: Node): (r: (Conn, bool))
    ensures !r.1
  {
    (if Name(s) == Some("failure") then DoAuth(RecordFailure(c))
     else if Name(s) == Some("success") then RestartStream(c)
     else Disconnect(c),
     false)
  }

  function Respond(c: Conn): Conn {
    Send(c, Response(c.net.secured, c.login.tlsSupport))
  }

  /** _handle_digestmd5_challenge */
  function HandleDigestChallenge(c: Conn, s: Node, env: Env): (Conn, bool) {
    if Name(s) != Some("challenge") then HandleSaslResult(c, s)
    else (if env.digestOk then Respond(AddHandler(c, SaslHandler(DigestRspauth))) else Disconnect(c), false)
  }

  /** _handle_digestmd5_rspauth */
  function HandleDigestRspauth(c: Conn, s: Node): (Conn, bool) {
    if Name(s) == Some("challenge") then (Respond(c), true) else HandleSaslResult(c, s)
  }

  /** The sticky flags of _handle_features_sasl. */
  function ReadSaslFeatures(c: Conn, s: Node): Conn {
    c.(login := c.login.(bindRequired := c.login.bindRequired || Offers(s, "bind", NS_BIND),
                         sessionRequired := c.login.sessionRequired || Offers(s, "session", NS_SESSION)))
  }

  function RequestBind(c: Conn): Conn {
    Note(Send(AddId(c, BIND_ID, Bind), BindRequest), Binding, BindOffered(c.login.sessionRequired))
  }

  /** _handle_features_sasl */
  function HandleFeaturesSasl(c: Conn, s: Node): (Conn, bool) {
    var seen := ReadSaslFeatures(c, s);
    (if seen.login.bindRequired then RequestBind(seen) else Disconnect(seen), false)
  }

  /** The end of a login: the flag, and the application told. */
  function LogIn(c: Conn, mark: Mark, env: Env): Conn {
    AddUserHandlers(Note(c, LoggedIn, mark).(login := c.login.(authenticated := true)), env.onConnect)
  }

  function RequestSession(c: Conn): Conn {
    Note(Send(AddId(c, SESSION_ID, Session), SessionRequest), Establishing, Bound)
  }

  /** _handle_bind */
  function HandleBind(c: Conn, s: Node, env: Env): (Conn, bool) {
    (if Attribute(s, "type") != Some("result") then Disconnect(c)
     else if c.login.sessionRequired then RequestSession(c)
     else LogIn(c, Bound, env),
     false)
  }

  /** _handle_session */
  function HandleSession(c: Conn, s: Node, env: Env): (Conn, bool) {
    (if Attribute(s, "type") == Some("result") then LogIn(c, SessionUp, env) else Disconnect(c), false)
  }

  function CallUser(c: Conn, k: nat, env: Env): Conn {
    AddUserHandlers(Note(c, c.past.stage, UserCalled), env.user(k).0)
  }

  /** A handler function called with a stanza: the connection after it, and its result. */
  function Call(c: Conn, fn: Fn, s: Node, env: Env): (Conn, bool) {
    match fn
    case StreamError => (c, true)
    case Features => HandleFeatures(c, s)
    case ProceedTls => HandleProceedTls(c, s, env)
    case SaslResult => HandleSaslResult(c, s)
    case DigestChallenge => HandleDigestChallenge(c, s, env)
    case DigestRspauth => HandleDigestRspauth(c, s)
    case FeaturesSasl => HandleFeaturesSasl(c, s)
    case Bind => HandleBind(c, s, env)
    case Session => HandleSession(c, s, env)
    case User(k) => (CallUser(c, k, env), env.user(k).1)
  }

  /** The open handlers: auth_handle_open and _auth_handle_open_sasl. */
  function RunOpenHandler(c: Conn): Conn {
    match c.net.openHandler
    case OpenAuth =>
      AddHandler(AddHandler(c, StreamHandler(StreamError, "error")), StreamHandler(Features, "features"))
    case OpenSasl =>
      Note(AddHandler(c, StreamHandler(FeaturesSasl, "features")), StreamReopened, Reopened)
  }

  // ----- dispatch of one stanza

  /** Handlers of the application are not called before the login is complete. */
  predicate Gated(c: Conn, fn: Fn) {
    fn.User? && !c.login.authenticated
  }

  predicate Matches(h: Handler, s: Node) {
    && (h.ns == None || Attribute(s, XMLNS) == h.ns || HasChildByNs(Children(s), h.ns.value))
    && (h.name == None || Name(s) == h.name)
    && (h.kind == None || Attribute(s, "type") == h.kind)
  }

  /** One call, and the handler taken off the list when it asks for that. */
  function Visit(c: Conn, fn: Fn, s: Node, env: Env): Conn {
    var (c', again) := Call(c, fn, s, env);
    if again then c' else RemoveHandler(c', fn)
  }

  function VisitId(c: Conn, id: string, fn: Fn, s: Node, env: Env): Conn {
    var (c', again) := Call(c, fn, s, env);
    if again then c' else RemoveId(c', id, fn)
  }

  /** The handlers of one id, each once, in order. */
  function RunIds(c: Conn, id: string, order: seq<Fn>, s: Node, env: Env): Conn
    decreases |order|
  {
    if order == [] then c
    else RunIds(if Gated(c, order[0]) then c else VisitId(c, id, order[0], s, env), id, order[1..], s, env)
  }

  /** The listed handlers, each once and in order, if they match and are not gated. */
  function RunHandlers(c: Conn, order: seq<Handler>, s: Node, env: Env): Conn
    decreases |order|
  {
    if order == [] then c
    else
      var h := order[0];
      RunHandlers(if Gated(c, h.fn) || !Matches(h, s) then c else Visit(c, h.fn, s, env), order[1..], s, env)
  }

  function EnableAll(handlers: seq<Handler>): (r: seq<Handler>)
    ensures |r| == |handlers| && forall k :: 0 <= k < |r| ==> r[k] == handlers[k].(enabled := true)
  {
    seq(|handlers|, k requires 0 <= k < |handlers| => handlers[k].(enabled := true))
  }

  function Enable(c: Conn): Conn {
    c.(lists := c.lists.(handlers := EnableAll(c.lists.handlers)))
  }

  /** The first half of handler_fire_stanza: the handlers of the stanza's id. */
  function FireIds(c: Conn, s: Node, env: Env): Conn {
    var id := Attribute(s, "id");
    if id.Some? && id.value in c.lists.ids then RunIds(c, id.value, c.lists.ids[id.value], s, env) else c
  }

  /** What handler_fire_stanza does: the id's handlers, then those listed at that point. */
  function Fire(c: Conn, s: Node, env: Env): Conn {
    var c2 := Enable(FireIds(c, s, env));
    RunHandlers(c2, c2.lists.handlers, s, env)
  }

  // ----- events

  datatype Event =
    | LinkUp                                  // BEV_EVENT_CONNECTED
    | LinkDown                                // end of file, error, timeout, parse error
    | Chunk                                   // parser_feed: a pending reset takes effect
    | StreamStart(name: string, hasId: bool)
    | StreamEnd
    | Received(s: Node, env: Env)
    | CleanupTimer
    | DisableTls
    | AddUser(h: Handler)
    | AddUserId(id: string, k: nat)
    | DeleteUser(k: nat)
    | CloseByUser

  /** Events the parser and the timers can produce in this state. */
  predicate Possible(c: Conn, e: Event) {
    match e
    case Chunk => c.net.state == Connected
    case StreamStart(_, _) => c.net.parser == Fresh && !c.net.resetPending
    case StreamEnd => c.net.parser == InStream
    case Received(_, _) => c.net.parser == InStream
    case CleanupTimer => c.net.closing
    case _ => true
  }

  /** _evb_event_cb on BEV_EVENT_CONNECTED */
  function OnLinkUp(c: Conn): Conn {
    if c.net.state != Connecting then c
    else
      var up := c.(net := c.net.(state := Connected, secured := c.net.secured || c.net.ssl));
      Send(ResetStream(up, OpenAuth), StreamHeader)
  }

  /** _handle_stream_start: the open handler runs even after a refusal. */
  function OnStreamStart(c: Conn, name: string, hasId: bool): Conn {
    var known := c.net.hasStreamId || (name == "stream" && hasId);
    var entered := c.(net := c.net.(parser := InStream, hasStreamId := known));
    RunOpenHandler(if name != "stream" || !known then DoDisconnect(entered) else entered)
  }

  function Next(c: Conn, e: Event): Conn
    requires Possible(c, e)
  {
    match e
    case LinkUp => OnLinkUp(c)
    case LinkDown => DoDisconnect(c)
    case Chunk => if c.net.resetPending then c.(net := c.net.(resetPending := false, parser := Fresh)) else c
    case StreamStart(name, hasId) => OnStreamStart(c, name, hasId)
    case StreamEnd => DoDisconnect(c.(net := c.net.(parser := Ended)))
    case Received(s, env) => Fire(c, s, env)
    case CleanupTimer => DoDisconnect(c)
    case DisableTls => c.(login := c.login.(tlsDisabled := true))
    case AddUser(h) => AddHandler(c, UserHandler(h))
    case AddUserId(id, k) => AddId(c, id, User(k))
    case DeleteUser(k) => RemoveHandler(c, User(k))
    case CloseByUser => Disconnect(c)
  }

  /** `run` is what a sequence of possible events makes of a new connection. */
  ghost predicate IsRun(run: seq<Conn>, events: seq<Event>) {
    && |run| == |events| + 1
    && run[0] == Start(run[0].login.jidHasNode, run[0].lists.storesIds)
    && forall i {:trigger events[i]} :: 0 <= i < |events| ==>
         Possible(run[i], events[i]) && run[i + 1] == Next(run[i], events[i])
  }
}
