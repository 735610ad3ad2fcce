/** The life of a handler: how it gets onto a list, when it is called by id, and when it leaves. */
module LoginHandlers {
  import opened Wrappers
  import opened Stanza
  import opened StanzaBuilder
  import opened Login
  import opened LoginInvariant
  import opened LoginSteps
  import opened LoginStages
  import opened LoginCalls
  import opened LoginDispatch

  // ----- what a callback adds

  /** `h` is handler `j` of `hs`, the first one of its function, as it is put on the list. */
  predicate Brought(hs: seq<Handler>, j: nat, h: Handler) {
    j < |hs| && h == UserHandler(hs[j]).(enabled := false) && forall i :: 0 <= i < j ==> UserHandler(hs[i]).fn != h.fn
  }

  predicate Brings(hs: seq<Handler>, fn: Fn) {
    exists j :: 0 <= j < |hs| && UserHandler(hs[j]).fn == fn
  }

  ghost predicate Among(hs: seq<Handler>, h: Handler) {
    exists j: nat :: Brought(hs, j, h)
  }

  /** Behind `before` stand only handlers of `hs`, of functions not listed there. */
  ghost predicate OnlyNew(before: seq<Handler>, hs: seq<Handler>, after: seq<Handler>) {
    forall k :: |before| <= k < |after| ==> !Installed(before, after[k].fn) && Among(hs, after[k])
  }

  /** `after` is `before` with the handlers of `hs` behind it, those of functions not listed yet. */
  ghost predicate Adds(before: seq<Handler>, hs: seq<Handler>, after: seq<Handler>) {
    && before <= after && OnlyNew(before, hs, after)
    && (forall fn :: Installed(after, fn) <==> Installed(before, fn) || Brings(hs, fn))
  }

  lemma {:induction false} ExtendInstalls(handlers: seq<Handler>, h: Handler)
    ensures forall fn :: Installed(Extend(handlers, h), fn) <==> Installed(handlers, fn) || fn == h.fn
  {
    var r := Extend(handlers, h);
    assert r[..|handlers|] == handlers;
    assert !Installed(handlers, h.fn) ==> r[|handlers|].fn == h.fn;
    forall fn ensures Installed(r, fn) <==> Installed(handlers, fn) || fn == h.fn {
      if Installed(handlers, fn) {
        var k :| 0 <= k < |handlers| && handlers[k].fn == fn;
        assert r[k].fn == fn;
      }
    }
  }

  lemma {:induction false} BringsFirst(hs: seq<Handler>, fn: Fn)
    requires hs != []
    ensures Brings(hs, fn) <==> fn == UserHandler(hs[0]).fn || Brings(hs[1..], fn)
  {
    if j :| 0 <= j < |hs[1..]| && UserHandler(hs[1..][j]).fn == fn {
      assert UserHandler(hs[j + 1]).fn == fn;
    }
    if j :| 0 <= j < |hs| && UserHandler(hs[j]).fn == fn {
      assert j > 0 ==> hs[1..][j - 1] == hs[j];
    }
  }

  lemma {:induction false} BroughtLater(hs: seq<Handler>, j: nat, h: Handler)
    requires hs != [] && Brought(hs[1..], j, h) && h.fn != UserHandler(hs[0]).fn
    ensures Brought(hs, j + 1, h)
  {
    assert forall i :: 0 < i < |hs| ==> hs[i] == hs[1..][i - 1];
    hide UserHandler;
  }

  /** Entry `k` of the list, one of those added. */
  lemma {:induction false} AddedAt(handlers: seq<Handler>, hs: seq<Handler>, after: seq<Handler>, k: nat)
    requires hs != [] && Adds(Extend(handlers, UserHandler(hs[0])), hs[1..], after) && |handlers| <= k < |after|
    ensures !Installed(handlers, after[k].fn) && Among(hs, after[k])
  {
    var h := UserHandler(hs[0]);
    var once := Extend(handlers, h);
    ExtendInstalls(handlers, h);
    if k < |once| {
      assert once == handlers + [h.(enabled := false)];
      assert after[k] == once[k] && Brought(hs, 0, after[k]);
    } else {
      hide UserHandler, Installed, Extend, Brought;
      assert Among(hs[1..], after[k]);
      var j: nat :| Brought(hs[1..], j, after[k]);
      assert Installed(once, h.fn) && !Installed(once, after[k].fn);
      BroughtLater(hs, j, after[k]);
    }
  }

  lemma {:induction false} InstalledFirst(handlers: seq<Handler>, hs: seq<Handler>, after: seq<Handler>, fn: Fn)
    requires hs != [] && Adds(Extend(handlers, UserHandler(hs[0])), hs[1..], after)
    ensures Installed(after, fn) <==> Installed(handlers, fn) || Brings(hs, fn)
  {
    ExtendInstalls(handlers, UserHandler(hs[0]));
    BringsFirst(hs, fn);
    hide UserHandler, Installed, Extend, Brings, Brought;
  }

  lemma {:induction false} OnlyNewFirst(handlers: seq<Handler>, hs: seq<Handler>, after: seq<Handler>)
    requires hs != [] && Adds(Extend(handlers, UserHandler(hs[0])), hs[1..], after)
    ensures OnlyNew(handlers, hs, after)
  {
    hide Adds, UserHandler, Extend, Installed, Among;
    forall k | |handlers| <= k < |after|
      ensures !Installed(handlers, after[k].fn) && Among(hs, after[k])
    {
      AddedAt(handlers, hs, after, k);
    }
  }

  lemma {:induction false} AddsFirst(handlers: seq<Handler>, hs: seq<Handler>, after: seq<Handler>)
    requires hs != [] && Adds(Extend(handlers, UserHandler(hs[0])), hs[1..], after)
    ensures Adds(handlers, hs, after)
  {
    assert handlers <= after by {
      assert handlers <= Extend(handlers, UserHandler(hs[0])) <= after;
    }
    OnlyNewFirst(handlers, hs, after);
    hide OnlyNew, UserHandler, Installed, Extend, Brings;
    forall fn ensures Installed(after, fn) <==> Installed(handlers, fn) || Brings(hs, fn) {
      InstalledFirst(handlers, hs, after, fn);
    }
  }

  lemma {:induction false} ExtendAllAdds(handlers: seq<Handler>, hs: seq<Handler>)
    ensures Adds(handlers, hs, ExtendAll(handlers, hs))
    decreases |hs|
  {
    if hs != [] {
      ExtendAllAdds(Extend(handlers, UserHandler(hs[0])), hs[1..]);
      AddsFirst(handlers, hs, ExtendAll(handlers, hs));
    }
  }

  /** Main result: what a callback of the application, or the word that the login is complete, puts on the list. */
  lemma {:induction false} CallbackAdds(c: Conn, fn: Fn, s: Node, env: Env)
    requires fn.User? || (fn == Bind && !c.login.sessionRequired) || fn == Session
    ensures var (d, again) := Call(c, fn, s, env);
            var hs := if fn.User? then env.user(fn.k).0 else if Attribute(s, "type") == Some("result") then env.onConnect else [];
            Adds(c.lists.handlers, hs, d.lists.handlers) && (again <==> fn.User? && env.user(fn.k).1)
  {
    ExtendAllAdds(c.lists.handlers, if fn.User? then env.user(fn.k).0 else if Attribute(s, "type") == Some("result") then env.onConnect else []);
    hide ExtendAll, Attribute, Adds;
    assert ExtendAll(c.lists.handlers, []) == c.lists.handlers by { NoneAdded(c.lists.handlers); }
  }

  lemma {:induction false} NoneAdded(handlers: seq<Handler>)
    ensures ExtendAll(handlers, []) == handlers
  {
  }

  // ----- the application at the list, between stanzas

  /** Main result: a handler added between stanzas is on the list, and deleting it undoes that. */
  lemma {:induction false} AddThenDelete(c: Conn, h: Handler, k: nat)
    requires h.fn == User(k)
    ensures var (d, e) := (Next(c, AddUser(h)), AddUser(h));
            && Installed(d.lists.handlers, User(k))
            && (Installed(c.lists.handlers, User(k)) ==> d == c)
            && (!Installed(c.lists.handlers, User(k)) ==>
                  d.lists.handlers == c.lists.handlers + [h.(enabled := false)] && Next(d, DeleteUser(k)) == c)
  {
    ExtendInstalls(c.lists.handlers, h);
    if !Installed(c.lists.handlers, User(k)) {
      ExceptLast(c.lists.handlers, h.(enabled := false));
    }
    hide Installed, Except;
  }

  lemma {:induction false} ExceptLast(handlers: seq<Handler>, h: Handler)
    requires !Installed(handlers, h.fn)
    ensures Except(handlers + [h], h.fn) == handlers
  {
    if handlers == [] {
      assert [] + [h] == [h];
    } else {
      var rest := handlers[1..];
      assert (handlers + [h])[1..] == rest + [h];
      assert forall k :: 0 <= k < |rest| ==> rest[k] == handlers[k + 1];
      ExceptLast(rest, h);
    }
  }

  /** Main result: deleting takes exactly the handlers of that function off the list, and nothing else. */
  lemma {:induction false} Deleted(c: Conn, k: nat)
    ensures var d := Next(c, DeleteUser(k));
            !Installed(d.lists.handlers, User(k)) && d == c.(lists := c.lists.(handlers := d.lists.handlers))
    ensures forall h :: h in Next(c, DeleteUser(k)).lists.handlers <==> h in c.lists.handlers && h.fn != User(k)
  {
    ExceptHolds(c.lists.handlers, User(k));
  }

  lemma {:induction false} ExceptHolds(handlers: seq<Handler>, fn: Fn)
    ensures forall h :: h in Except(handlers, fn) <==> h in handlers && h.fn != fn
  {
    if handlers != [] {
      ExceptHolds(handlers[1..], fn);
      assert handlers == [handlers[0]] + handlers[1..];
    }
  }

  /** Main result: a handler added for an id is on the list of that id, if the table keeps the key, and other ids keep theirs. */
  lemma {:induction false} AddedById(c: Conn, id: string, k: nat)
    requires Inv(c)
    ensures var (a, b) := (c.lists.ids, Next(c, AddUserId(id, k)).lists.ids);
            && (id in b && User(k) in b[id] <==> c.lists.storesIds)
            && (forall i :: i != id ==> (i in b <==> i in a) && (i in a ==> b[i] == a[i]))
            && (id in a ==> id in b && a[id] <= b[id] <= a[id] + [User(k)])
            && (id !in a && id in b ==> b[id] == [User(k)])
  {
    hide StageRules, Recorded, SafeWire, HandlersTidy;
  }

  // ----- how a handler leaves

  lemma {:induction false} VisitIdExtends(c: Conn, id: string, fn: Fn, s: Node, env: Env)
    ensures Extends(c.lists.handlers, VisitId(c, id, fn, s, env).lists.handlers)
  {
    CallGrows(c, fn, s, env);
    hide Call, Extends, DropId;
  }

  lemma {:induction false} RunIdsExtends(c: Conn, id: string, order: seq<Fn>, s: Node, env: Env)
    ensures Extends(c.lists.handlers, RunIds(c, id, order, s, env).lists.handlers)
    decreases |order|
  {
    hide VisitId, Extends;
    if order == [] {
      ExtendsSelf(c.lists.handlers);
    } else {
      var d := if Gated(c, order[0]) then c else VisitId(c, id, order[0], s, env);
      VisitIdExtends(c, id, order[0], s, env);
      ExtendsSelf(c.lists.handlers);
      RunIdsExtends(d, id, order[1..], s, env);
      ExtendsTwice(c.lists.handlers, d.lists.handlers, RunIds(d, id, order[1..], s, env).lists.handlers);
    }
  }

  lemma {:induction false} FireIdsExtends(c: Conn, s: Node, env: Env)
    ensures Extends(c.lists.handlers, FireIds(c, s, env).lists.handlers)
  {
    hide RunIds, Extends;
    ExtendsSelf(c.lists.handlers);
    var id := Attribute(s, "id");
    if id.Some? && id.value in c.lists.ids {
      RunIdsExtends(c, id.value, c.lists.ids[id.value], s, env);
    }
  }

  lemma {:induction false} UserAnswers(c: Conn, k: nat, s: Node, env: Env)
    ensures Call(c, User(k), s, env).1 == env.user(k).1
  {
  }

  /** Of the handlers of a walk those of the application stay that were not called or did not ask to end. */
  lemma {:induction false} KeptIff(c: Conn, order: seq<Handler>, s: Node, env: Env, h: Handler)
    requires NoRepeats(Fns(order)) && h in order && h.fn.User?
    ensures h in Kept(c, order, s, env) <==> h.fn in Called(c, order, s, env) ==> env.user(h.fn.k).1
    decreases |order|
  {
    hide Visit, Matches, Within, Call;
    var first, rest := order[0], order[1..];
    var skip := Gated(c, first.fn) || !Matches(first, s);
    var d := if skip then c else Visit(c, first.fn, s, env);
    RestNoRepeats(order);
    CalledWithin(d, rest, s, env);
    KeptAmong(d, rest, s, env);
    UserAnswers(c, h.fn.k, s, env);
    if h in rest {
      KeptIff(d, rest, s, env, h);
    } else if h.fn in Called(d, rest, s, env) {
      WithinHas(Called(d, rest, s, env), Fns(rest), h.fn);
    }
  }

  lemma {:induction false} KeptAmong(c: Conn, order: seq<Handler>, s: Node, env: Env)
    ensures forall h :: h in Kept(c, order, s, env) ==> h in order
    decreases |order|
  {
    hide Visit, Matches, Call;
    if order != [] {
      var skip := Gated(c, order[0].fn) || !Matches(order[0], s);
      KeptAmong(if skip then c else Visit(c, order[0].fn, s, env), order[1..], s, env);
    }
  }

  lemma {:induction false} OneOfEach(order: seq<Handler>)
    requires Distinct(order)
    ensures NoRepeats(Fns(order)) && order == [] + order + [] && AllEnabled([], false)
  {
    assert forall i :: 0 <= i < |order| ==> Fns(order)[i] == order[i].fn;
  }

  lemma {:induction false} WalkKeepsUser(d: Conn, s: Node, env: Env, g: Handler)
    requires Distinct(d.lists.handlers) && g in d.lists.handlers && g.fn.User? && g.enabled
    ensures g in RunHandlers(d, d.lists.handlers, s, env).lists.handlers
        <==> (g.fn in Called(d, d.lists.handlers, s, env) ==> env.user(g.fn.k).1)
  {
    hide RunHandlers, Called, Kept, Distinct, NoRepeats, Fns;
    var order := d.lists.handlers;
    OneOfEach(order);
    KeptIff(d, order, s, env, g);
    var added := RunOutcome(d, [], order, [], s, env);
    assert g !in added;
    assert g in [] + Kept(d, order, s, env) + added <==> g in Kept(d, order, s, env);
  }

  lemma {:induction false} EnabledAt(c: Conn, d: Conn, h: Handler)
    requires Extends(c.lists.handlers, d.lists.handlers) && h in c.lists.handlers
    ensures h.(enabled := true) in Enable(d).lists.handlers
  {
    var k :| 0 <= k < |c.lists.handlers| && c.lists.handlers[k] == h;
    assert Enable(d).lists.handlers[k] == h.(enabled := true);
  }

  lemma {:induction false} EnabledDistinct(d: Conn)
    requires Inv(d)
    ensures Distinct(Enable(d).lists.handlers)
  {
    hide StageRules, Recorded, SafeWire, IdsTidy;
  }

  /** A handler of the application stays through a stanza unless it was called and asked to end. */
  lemma {:induction false} FireKeepsUser(c: Conn, s: Node, env: Env, h: Handler)
    requires Inv(c) && h in c.lists.handlers && h.fn.User?
    ensures h.(enabled := true) in Fire(c, s, env).lists.handlers <==> (h.fn in CalledFor(c, s, env) ==> env.user(h.fn.k).1)
  {
    hide RunIds, RunHandlers, FireIds, Enable, Inv, Called, Extends, Distinct;
    var d := FireIds(c, s, env);
    FireIdsKeepsInv(c, s, env);
    FireIdsExtends(c, s, env);
    EnabledAt(c, d, h);
    EnabledDistinct(d);
    WalkKeepsUser(Enable(d), s, env, h.(enabled := true));
  }

  /**
   Main result: over any run a handler of the application stays on the list, with its conditions,
   exactly until it is deleted or a call of it asks to end.
   */
  lemma {:induction false} UserStaysIff(run: seq<Conn>, events: seq<Event>, i: nat, h: Handler)
    requires IsRun(run, events) && i < |events| && h in run[i].lists.handlers && h.fn.User?
    ensures events[i].Received? ==>
              (h.(enabled := true) in run[i + 1].lists.handlers <==>
                (h.fn in CalledFor(run[i], events[i].s, events[i].env) ==> events[i].env.user(h.fn.k).1))
    ensures !events[i].Received? ==> (h in run[i + 1].lists.handlers <==> events[i] != DeleteUser(h.fn.k))
  {
    RunKeepsInv(run, events, i);
    var c, e := run[i], events[i];
    assert Possible(c, e) && run[i + 1] == Next(c, e);
    hide Inv, IsRun, CalledFor;
    if e.Received? {
      FireKeepsUser(c, e.s, e.env, h);
    } else {
      OtherEventsKeep(c, e, h);
    }
  }

  lemma {:induction false} OtherEventsKeep(c: Conn, e: Event, h: Handler)
    requires Possible(c, e) && !e.Received? && h in c.lists.handlers && h.fn.User?
    ensures h in Next(c, e).lists.handlers <==> e != DeleteUser(h.fn.k)
  {
    hide Except, PutId, NS_STREAMS;
    if e.DeleteUser? {
      ExceptHolds(c.lists.handlers, User(e.k));
    } else {
      assert c.lists.handlers <= Next(c, e).lists.handlers;
    }
  }

  // ----- the list of an id

  /** The handlers of an id that are left: those not called, and those whose call asked to go on. */
  function Remaining(order: seq<Fn>, called: seq<Fn>, env: Env): seq<Fn> {
    if order == [] then []
    else
      (if order[0] in called && !(order[0].User? && env.user(order[0].k).1) then [] else [order[0]])
      + Remaining(order[1..], called, env)
  }

  lemma {:induction false} RemainingOthers(order: seq<Fn>, fn: Fn, called: seq<Fn>, env: Env)
    requires fn !in order
    ensures Remaining(order, [fn] + called, env) == Remaining(order, called, env)
  {
    if order != [] {
      RemainingOthers(order[1..], fn, called, env);
    }
  }

  lemma {:induction false} AsksToStay(c: Conn, id: string, fn: Fn, s: Node, env: Env)
    requires IdFn(id, fn)
    ensures Call(c, fn, s, env).1 <==> fn.User? && env.user(fn.k).1
  {
  }

  lemma {:induction false} RestIsIdList(id: string, order: seq<Fn>)
    requires IdList(id, order) && order != []
    ensures IdList(id, order[1..]) && order[0] !in order[1..] && IdFn(id, order[0])
  {
    assert forall k :: 0 <= k < |order[1..]| ==> order[1..][k] == order[k + 1];
  }

  /**
   Main result about the phase by id: of the handlers of the id those stay, in order, that were not
   called or asked to go on, and when none does, the id leaves the table.
   */
  lemma {:induction false} IdsOutcome(c: Conn, id: string, done: seq<Fn>, todo: seq<Fn>, s: Node, env: Env)
    requires HasList(c.lists.ids, id, done + todo) && IdList(id, todo)
    ensures HasList(RunIds(c, id, todo, s, env).lists.ids, id, done + Remaining(todo, CalledById(c, id, todo, s, env), env))
    decreases |todo|
  {
    hide VisitId, Call, Gated, IdList, HasList, RunIds;
    if todo == [] {
      RunIdsOn(c, id, todo, s, env);
      assert done + Remaining(todo, CalledById(c, id, todo, s, env), env) == done + todo;
    } else {
      hide Remaining, CalledById;
      var rest := todo[1..];
      var d := if Gated(c, todo[0]) then c else VisitId(c, id, todo[0], s, env);
      var mine := if !Gated(c, todo[0]) && !Call(c, todo[0], s, env).1 then [] else [todo[0]];
      var left := Remaining(rest, CalledById(d, id, rest, s, env), env);
      RestIsIdList(id, todo);
      ListAfter(c, id, done, todo, s, env);
      IdsOutcome(d, id, done + mine, rest, s, env);
      RemainingFirst(c, id, todo, s, env);
      RunIdsOn(c, id, todo, s, env);
      Grouped(done, mine, left);
    }
  }

  lemma {:induction false} Grouped(a: seq<Fn>, b: seq<Fn>, c: seq<Fn>)
    ensures (a + b) + c == a + (b + c)
  {
  }

  lemma {:induction false} RemainingFirst(c: Conn, id: string, todo: seq<Fn>, s: Node, env: Env)
    requires todo != [] && IdList(id, todo)
    ensures var d := if Gated(c, todo[0]) then c else VisitId(c, id, todo[0], s, env);
            Remaining(todo, CalledById(c, id, todo, s, env), env)
            == (if !Gated(c, todo[0]) && !Call(c, todo[0], s, env).1 then [] else [todo[0]])
               + Remaining(todo[1..], CalledById(d, id, todo[1..], s, env), env)
  {
    hide VisitId, Call, IdList, IdFn, Within;
    var d := if Gated(c, todo[0]) then c else VisitId(c, id, todo[0], s, env);
    var called := CalledById(d, id, todo[1..], s, env);
    RestIsIdList(id, todo);
    AsksToStay(c, id, todo[0], s, env);
    RemainingOthers(todo[1..], todo[0], called, env);
    CalledByIdWithin(d, id, todo[1..], s, env);
    if todo[0] in called {
      WithinHas(called, todo[1..], todo[0]);
    }
  }

  lemma {:induction false} ListAfter(c: Conn, id: string, done: seq<Fn>, todo: seq<Fn>, s: Node, env: Env)
    requires todo != [] && HasList(c.lists.ids, id, done + todo)
    ensures var gated := Gated(c, todo[0]);
            HasList((if gated then c else VisitId(c, id, todo[0], s, env)).lists.ids, id,
                    (done + if !gated && !Call(c, todo[0], s, env).1 then [] else [todo[0]]) + todo[1..])
  {
    hide VisitId, Call, IdList;
    if Gated(c, todo[0]) {
      assert done + todo == (done + [todo[0]]) + todo[1..];
    } else {
      VisitIdList(c, id, done, todo, s, env);
    }
  }

  // ----- the handlers brought by the word that the login is complete

  /** The answer that completes a login: of a resource without a session, or of the session. */
  predicate Completes(c: Conn, s: Node) {
    (c.lists.ids == map[BIND_ID := [Bind]] && !c.login.sessionRequired && Answers(s, BIND_ID))
    || (c.lists.ids == map[SESSION_ID := [Session]] && Answers(s, SESSION_ID))
  }

  lemma {:induction false} BroughtIsListed(c: Conn, s: Node, env: Env, j: nat, h: Handler)
    requires Completes(c, s) && Brought(env.onConnect, j, h) && !Installed(c.lists.handlers, h.fn)
    ensures FireIds(c, s, env).login.authenticated && h in FireIds(c, s, env).lists.handlers
  {
    hide BIND_ID, SESSION_ID, ExtendAll, DropId, Brought;
    var id, fn := Attribute(s, "id").value, if c.lists.ids == map[BIND_ID := [Bind]] then Bind else Session;
    OnlyById(c, s, env, id, fn);
    CallbackAdds(c, fn, s, env);
    BroughtAt(c.lists.handlers, env.onConnect, FireIds(c, s, env).lists.handlers, j, h);
  }

  lemma {:induction false} BroughtAt(before: seq<Handler>, hs: seq<Handler>, after: seq<Handler>, j: nat, h: Handler)
    requires Adds(before, hs, after) && Brought(hs, j, h) && !Installed(before, h.fn)
    ensures h in after
  {
    hide UserHandler;
    assert Brings(hs, h.fn) && Installed(after, h.fn);
    var k :| 0 <= k < |after| && after[k].fn == h.fn;
    assert forall i :: 0 <= i < |before| ==> before[i].fn != h.fn && after[i] == before[i];
    assert Among(hs, after[k]);
    var i: nat :| Brought(hs, i, after[k]);
    assert i == j;
  }

  /**
   Main result: the phase by id comes first: the handlers the application brings when it is told that
   the login is complete already see the answer that completed it.
   */
  lemma {:induction false} NewcomersSeeTheAnswer(c: Conn, s: Node, env: Env, j: nat, h: Handler)
    requires Inv(c) && Completes(c, s) && Brought(env.onConnect, j, h) && !Installed(c.lists.handlers, h.fn)
    ensures h.fn in CalledFor(c, s, env) <==>
              && (h.ns.Some? ==> Carries(s, "xmlns", h.ns.value)
                                 || (s.Element? && exists k :: 0 <= k < |s.children| && Carries(s.children[k], "xmlns", h.ns.value)))
              && (h.name.Some? ==> s.Element? && s.name == h.name.value)
              && (h.kind.Some? ==> Carries(s, "type", h.kind.value))
  {
    hide Inv, Completes, Brought, Installed, FireIds, Called, Carries;
    var d := FireIds(c, s, env);
    BroughtIsListed(c, s, env, j, h);
    FireIdsKeepsInv(c, s, env);
    EnableKeepsInv(d);
    var k :| 0 <= k < |d.lists.handlers| && d.lists.handlers[k] == h;
    var g := h.(enabled := true);
    assert Enable(d).lists.handlers[k] == g;
    ListedIsCalledIff(Enable(d), s, env, g);
  }
}
