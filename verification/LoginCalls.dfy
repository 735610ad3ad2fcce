/** Which handlers one stanza reaches, in which order: the calls of the ordinary phase. */
module LoginCalls {
  import opened Wrappers
  import opened Stanza
  import opened StanzaBuilder
  import opened Login
  import opened LoginInvariant
  import opened LoginStages

  /** The functions called while the handlers of `order` are walked. */
  function Called(c: Conn, order: seq<Handler>, s: Node, env: Env): seq<Fn>
    decreases |order|
  {
    if order == [] then []
    else
      var h := order[0];
      if Gated(c, h.fn) || !Matches(h, s) then Called(c, order[1..], s, env)
      else [h.fn] + Called(Visit(c, h.fn, s, env), order[1..], s, env)
  }

  /** The elements of `a` stand in `b` in the same order. */
  predicate Within<T(==)>(a: seq<T>, b: seq<T>)
    decreases |b|
  {
    a == [] || (b != [] && ((a[0] == b[0] && Within(a[1..], b[1..])) || Within(a, b[1..])))
  }

  predicate NoRepeats(fns: seq<Fn>) {
    forall i, j :: 0 <= i < j < |fns| ==> fns[i] != fns[j]
  }

  lemma {:induction false} WithinHas(a: seq<Fn>, b: seq<Fn>, fn: Fn)
    requires Within(a, b) && fn in a
    ensures fn in b
    decreases |b|
  {
    if a[0] == b[0] && Within(a[1..], b[1..]) {
      if fn != a[0] {
        WithinHas(a[1..], b[1..], fn);
      }
    } else {
      WithinHas(a, b[1..], fn);
    }
  }

  lemma {:induction false} WithinNoRepeats(a: seq<Fn>, b: seq<Fn>)
    requires Within(a, b) && NoRepeats(b)
    ensures NoRepeats(a)
    decreases |b|
  {
    if a != [] {
      assert forall i, j :: 0 <= i < j < |b[1..]| ==> b[1..][i] == b[i + 1] && b[1..][j] == b[j + 1];
      if a[0] == b[0] && Within(a[1..], b[1..]) {
        WithinNoRepeats(a[1..], b[1..]);
        if a[0] in a[1..] {
          WithinHas(a[1..], b[1..], a[0]);
        }
      } else {
        WithinNoRepeats(a, b[1..]);
      }
    }
  }

  lemma {:induction false} CalledWithin(c: Conn, order: seq<Handler>, s: Node, env: Env)
    ensures Within(Called(c, order, s, env), Fns(order))
    decreases |order|
  {
    hide Visit, Matches, Gated;
    if order != [] {
      assert Fns(order)[1..] == Fns(order[1..]);
      CalledWithin(c, order[1..], s, env);
      CalledWithin(Visit(c, order[0].fn, s, env), order[1..], s, env);
    }
  }

  /**
   Main result: the handlers called are among those listed, in the order of the list, and no
   function is called twice; every internal handler that matches is called, and every one of
   the application that matches if the login was already complete.
   */
  lemma {:induction false} CalledExactly(c: Conn, order: seq<Handler>, s: Node, env: Env)
    requires NoRepeats(Fns(order))
    ensures var called := Called(c, order, s, env);
            && Within(called, Fns(order)) && NoRepeats(called)
            && (forall h :: h in order && Matches(h, s) && (!h.fn.User? || c.login.authenticated) ==> h.fn in called)
            && (forall h :: h in order && h.fn in called ==> Matches(h, s))
  {
    CalledWithin(c, order, s, env);
    WithinNoRepeats(Called(c, order, s, env), Fns(order));
    CalledAll(c, order, s, env);
  }

  lemma {:induction false} CalledAll(c: Conn, order: seq<Handler>, s: Node, env: Env)
    requires NoRepeats(Fns(order))
    ensures var called := Called(c, order, s, env);
            && (forall h :: h in order && Matches(h, s) && (!h.fn.User? || c.login.authenticated) ==> h.fn in called)
            && (forall h :: h in order && h.fn in called ==> Matches(h, s))
    decreases |order|
  {
    hide Visit, Matches;
    if order != [] {
      var h, rest := order[0], order[1..];
      assert forall i :: 0 <= i < |rest| ==> Fns(rest)[i] == Fns(order)[i + 1];
      assert forall g :: g in order <==> g == h || g in rest;
      var skip := Gated(c, h.fn) || !Matches(h, s);
      var c' := if skip then c else Visit(c, h.fn, s, env);
      if c.login.authenticated {
        VisitKeepsLogin(c, h.fn, s, env);
      }
      CalledAll(c', rest, s, env);
      CalledWithin(c', rest, s, env);
      forall g | g in rest
        ensures g.fn != h.fn
      {
        var k :| 0 <= k < |rest| && rest[k] == g;
        assert Fns(order)[k + 1] == g.fn && Fns(order)[0] == h.fn;
      }
      if h.fn in Called(c', rest, s, env) {
        WithinHas(Called(c', rest, s, env), Fns(rest), h.fn);
      }
    }
  }

  /** Until the login is complete no handler of the application is called. */
  lemma {:induction false} NoUserCalled(c: Conn, order: seq<Handler>, s: Node, env: Env)
    requires !RunHandlers(c, order, s, env).login.authenticated
    ensures forall fn :: fn in Called(c, order, s, env) ==> !fn.User?
    decreases |order|
  {
    hide Visit, Matches;
    if order != [] {
      var h, rest := order[0], order[1..];
      if c.login.authenticated {
        RunKeepsLogin(c, order, s, env);
      }
      NoUserCalled(if Gated(c, h.fn) || !Matches(h, s) then c else Visit(c, h.fn, s, env), rest, s, env);
    }
  }

  lemma {:induction false} DoAuthKeepsAuthenticated(c: Conn)
    ensures DoAuth(c).login.authenticated == c.login.authenticated
  {
    hide Extend, Write;
  }

  lemma {:induction false} DisconnectKeepsAuthenticated(c: Conn)
    ensures Disconnect(c).login.authenticated == c.login.authenticated
  {
  }

  lemma {:induction false} SaslResultKeepsAuthenticated(c: Conn, s: Node)
    ensures HandleSaslResult(c, s).0.login.authenticated == c.login.authenticated
  {
    DoAuthKeepsAuthenticated(RecordFailure(c));
    DisconnectKeepsAuthenticated(c);
    hide DoAuth, Disconnect, Name, Write;
  }

  lemma {:induction false} FeaturesKeepAuthenticated(c: Conn, s: Node)
    ensures HandleFeatures(c, s).0.login.authenticated == c.login.authenticated
    ensures HandleFeaturesSasl(c, s).0.login.authenticated == c.login.authenticated
  {
    DoAuthKeepsAuthenticated(ReadFeatures(c, s));
    DisconnectKeepsAuthenticated(ReadSaslFeatures(c, s));
    hide DoAuth, Disconnect, Write, PutId, Offers, OffersMechanism;
  }

  /** No listed handler of the login completes it: only those of the bind and session ids do. */
  lemma {:induction false} CallKeepsAuthenticated(c: Conn, fn: Fn, s: Node, env: Env)
    requires NormalFn(fn)
    ensures Call(c, fn, s, env).0.login.authenticated == c.login.authenticated
  {
    FeaturesKeepAuthenticated(c, s);
    SaslResultKeepsAuthenticated(c, s);
    DisconnectKeepsAuthenticated(c);
    hide HandleFeatures, HandleFeaturesSasl, HandleSaslResult, HandleBind, HandleSession, Disconnect;
    hide Name, Write, Extend, ExtendAll;
  }

  lemma {:induction false} VisitKeepsAuthenticated(c: Conn, fn: Fn, s: Node, env: Env)
    requires NormalFn(fn)
    ensures Visit(c, fn, s, env).login.authenticated == c.login.authenticated
  {
    CallKeepsAuthenticated(c, fn, s, env);
    hide Call, Except;
  }

  lemma {:induction false} CalledIff(c: Conn, order: seq<Handler>, s: Node, env: Env, h: Handler)
    requires NoRepeats(Fns(order)) && h in order && forall g :: g in order ==> NormalFn(g.fn)
    ensures h.fn in Called(c, order, s, env) <==> Matches(h, s) && (h.fn.User? ==> c.login.authenticated)
    decreases |order|
  {
    hide Visit, Matches, Within;
    var first, rest := order[0], order[1..];
    var skip := Gated(c, first.fn) || !Matches(first, s);
    var c' := if skip then c else Visit(c, first.fn, s, env);
    RestNoRepeats(order);
    if !skip {
      VisitKeepsAuthenticated(c, first.fn, s, env);
    }
    if h in rest {
      CalledIff(c', rest, s, env, h);
    } else {
      CalledWithin(c', rest, s, env);
      if h.fn in Called(c', rest, s, env) {
        WithinHas(Called(c', rest, s, env), Fns(rest), h.fn);
      }
    }
  }

  lemma {:induction false} RestNoRepeats(order: seq<Handler>)
    requires order != [] && NoRepeats(Fns(order))
    ensures NoRepeats(Fns(order[1..])) && order[0].fn !in Fns(order[1..])
    ensures forall g :: g in order[1..] ==> g.fn in Fns(order[1..])
  {
    var rest := order[1..];
    assert forall i :: 0 <= i < |rest| ==> Fns(rest)[i] == Fns(order)[i + 1];
    forall g | g in rest
      ensures g.fn in Fns(rest)
    {
      var k :| 0 <= k < |rest| && rest[k] == g;
      assert Fns(rest)[k] == g.fn;
    }
  }

  lemma {:induction false} HasChildByNsIff(kids: seq<Node>, ns: string)
    ensures HasChildByNs(kids, ns) <==> exists k :: 0 <= k < |kids| && Carries(kids[k], XMLNS, ns)
  {
    if kids != [] {
      HasChildByNsIff(kids[1..], ns);
      assert forall k :: 0 < k < |kids| ==> kids[k] == kids[1..][k - 1];
      assert forall k :: 0 <= k < |kids| - 1 ==> kids[1..][k] == kids[k + 1];
    }
  }

  /** An element with this attribute, of this value. */
  predicate Carries(n: Node, key: string, value: string) {
    n.Element? && key in n.attributes && n.attributes[key] == value
  }

  /**
   Main result: on any connection that events lead to, a listed handler is called for a stanza if
   and only if the stanza or some child of it is of the handler's namespace, the stanza has its
   name and its type, each as far as the handler names one, and, when the handler is the
   application's, the login was complete at the start of the walk.
   */
  lemma {:induction false} ListedIsCalledIff(c: Conn, s: Node, env: Env, h: Handler)
    requires Inv(c) && h in c.lists.handlers
    ensures h.fn in Called(c, c.lists.handlers, s, env) <==>
              && (h.ns.Some? ==> Carries(s, "xmlns", h.ns.value)
                                 || (s.Element? && exists k :: 0 <= k < |s.children| && Carries(s.children[k], "xmlns", h.ns.value)))
              && (h.name.Some? ==> s.Element? && s.name == h.name.value)
              && (h.kind.Some? ==> Carries(s, "type", h.kind.value))
              && (h.fn.User? ==> c.login.authenticated)
  {
    var order := c.lists.handlers;
    assert HandlersTidy(order);
    assert forall i :: 0 <= i < |order| ==> Fns(order)[i] == order[i].fn;
    MatchesIff(h, s);
    hide Inv, Matches, Carries;
    CalledIff(c, order, s, env, h);
  }

  lemma {:induction false} MatchesIff(h: Handler, s: Node)
    ensures Matches(h, s) <==>
              && (h.ns.Some? ==> Carries(s, "xmlns", h.ns.value)
                                 || (s.Element? && exists k :: 0 <= k < |s.children| && Carries(s.children[k], "xmlns", h.ns.value)))
              && (h.name.Some? ==> s.Element? && s.name == h.name.value)
              && (h.kind.Some? ==> Carries(s, "type", h.kind.value))
  {
    if h.ns.Some? {
      HasChildByNsIff(Children(s), h.ns.value);
    }
  }

  /** The functions called for a stanza in its ordinary phase, after those of its id. */
  function CalledFor(c: Conn, s: Node, env: Env): seq<Fn> {
    var d := Enable(FireIds(c, s, env));
    Called(d, d.lists.handlers, s, env)
  }

  // ----- the calls of an id

  /** Those called for the id of a stanza. */
  function CalledForId(c: Conn, s: Node, env: Env): seq<Fn> {
    var id := Attribute(s, "id");
    if id.Some? && id.value in c.lists.ids then CalledById(c, id.value, c.lists.ids[id.value], s, env) else []
  }

  /** The functions called while the handlers of an id are walked. */
  function CalledById(c: Conn, id: string, order: seq<Fn>, s: Node, env: Env): seq<Fn>
    decreases |order|
  {
    if order == [] then []
    else if Gated(c, order[0]) then CalledById(c, id, order[1..], s, env)
    else [order[0]] + CalledById(VisitId(c, id, order[0], s, env), id, order[1..], s, env)
  }

  lemma {:induction false} CalledByIdWithin(c: Conn, id: string, order: seq<Fn>, s: Node, env: Env)
    ensures Within(CalledById(c, id, order, s, env), order)
    decreases |order|
  {
    hide VisitId, Gated;
    if order != [] {
      CalledByIdWithin(c, id, order[1..], s, env);
      CalledByIdWithin(VisitId(c, id, order[0], s, env), id, order[1..], s, env);
    }
  }

  /**
   Main result: the functions on the list of an id are called in the order of the list, and one of
   them is passed over if and only if it is the application's and, when its turn comes, the login
   is not complete; so a login completed by an earlier one lets the later ones run.
   */
  lemma {:induction false} CalledByIdIff(c: Conn, id: string, order: seq<Fn>, k: nat, s: Node, env: Env)
    requires DistinctFns(order) && k < |order|
    ensures Within(CalledById(c, id, order, s, env), order)
    ensures order[k] in CalledById(c, id, order, s, env)
        <==> !order[k].User? || RunIds(c, id, order[..k], s, env).login.authenticated
    decreases |order|
  {
    hide VisitId, Within;
    CalledByIdWithin(c, id, order, s, env);
    var rest := order[1..];
    var d := if Gated(c, order[0]) then c else VisitId(c, id, order[0], s, env);
    CalledByIdWithin(d, id, rest, s, env);
    if k == 0 {
      if order[0] in CalledById(d, id, rest, s, env) {
        WithinHas(CalledById(d, id, rest, s, env), rest, order[0]);
      }
    } else {
      assert order[..k][1..] == rest[..k - 1] && order[..k][0] == order[0] && rest[k - 1] == order[k];
      CalledByIdIff(d, id, rest, k - 1, s, env);
    }
  }
}
